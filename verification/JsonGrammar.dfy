/** The JSON grammar of RFC 8259, sections 2 to 7, over raw bytes.

A text is grammatical when it is what some concrete syntax tree is written as. The tree
keeps every byte (white space, escapes, digits), so `RenderElement` loses nothing and
`IsJsonText` speaks of byte strings, never of a parser.
 */
module JsonGrammar {

  type byte = b: int | 0 <= b < 256 witness 0
  type bytes = seq<byte>

  const TAB: byte := 0x09
  const LF: byte := 0x0A
  const CR: byte := 0x0D
  const SPACE: byte := 0x20
  const QUOTE: byte := 0x22
  const PLUS: byte := 0x2B
  const COMMA: byte := 0x2C
  const MINUS: byte := 0x2D
  const DOT: byte := 0x2E
  const SLASH: byte := 0x2F
  const ZERO: byte := 0x30
  const NINE: byte := 0x39
  const COLON: byte := 0x3A
  const UPPER_E: byte := 0x45
  const LBRACKET: byte := 0x5B
  const BACKSLASH: byte := 0x5C
  const RBRACKET: byte := 0x5D
  const LOWER_A: byte := 0x61
  const LOWER_B: byte := 0x62
  const LOWER_E: byte := 0x65
  const LOWER_F: byte := 0x66
  const LOWER_L: byte := 0x6C
  const LOWER_N: byte := 0x6E
  const LOWER_R: byte := 0x72
  const LOWER_S: byte := 0x73
  const LOWER_T: byte := 0x74
  const LOWER_U: byte := 0x75
  const LBRACE: byte := 0x7B
  const RBRACE: byte := 0x7D

  predicate IsWs(b: byte) {
    b == SPACE || b == TAB || b == CR || b == LF
  }

  predicate AllWs(s: bytes) {
    forall i :: 0 <= i < |s| ==> IsWs(s[i])
  }

  predicate IsDigit(b: byte) {
    ZERO <= b <= NINE
  }

  predicate AllDigits(s: bytes) {
    forall i :: 0 <= i < |s| ==> IsDigit(s[i])
  }

  predicate IsHex(b: byte) {
    IsDigit(b) || LOWER_A <= b <= LOWER_F || 0x41 <= b <= 0x46
  }

  /** What may follow a reverse solidus, apart from `u`. */
  predicate IsEscapee(b: byte) {
    b == LOWER_B || b == LOWER_F || b == LOWER_N || b == LOWER_R || b == LOWER_T
    || b == BACKSLASH || b == SLASH || b == QUOTE
  }

  // Strings (section 7)

  datatype StringItem =
    | Raw(b: byte)
    | Escape(b: byte)
    | Unicode(h1: byte, h2: byte, h3: byte, h4: byte)

  predicate ValidItem(i: StringItem) {
    match i
    case Raw(b) => b >= 0x20 && b != QUOTE && b != BACKSLASH
    case Escape(b) => IsEscapee(b)
    case Unicode(h1, h2, h3, h4) => IsHex(h1) && IsHex(h2) && IsHex(h3) && IsHex(h4)
  }

  predicate ValidItems(items: seq<StringItem>) {
    forall i :: 0 <= i < |items| ==> ValidItem(items[i])
  }

  function RenderItem(i: StringItem): bytes {
    match i
    case Raw(b) => [b]
    case Escape(b) => [BACKSLASH, b]
    case Unicode(h1, h2, h3, h4) => [BACKSLASH, LOWER_U, h1, h2, h3, h4]
  }

  function RenderItems(items: seq<StringItem>): bytes {
    if items == [] then [] else RenderItems(items[..|items| - 1]) + RenderItem(items[|items| - 1])
  }

  function RenderString(items: seq<StringItem>): bytes {
    [QUOTE] + RenderItems(items) + [QUOTE]
  }

  // Numbers (section 6): [ minus ] int [ frac ] [ exp ]

  datatype Number = Number(neg: bool, whole: bytes, dot: bool, frac: bytes, e: bytes, sign: bytes, exp: bytes)

  predicate ValidWhole(w: bytes) {
    w != [] && AllDigits(w) && (w[0] == ZERO ==> |w| == 1)
  }

  predicate ValidExponent(n: Number) {
    if n.e == [] then n.sign == [] && n.exp == []
    else
      && (n.e == [LOWER_E] || n.e == [UPPER_E])
      && (n.sign == [] || n.sign == [PLUS] || n.sign == [MINUS])
      && n.exp != [] && AllDigits(n.exp)
  }

  predicate ValidNumber(n: Number) {
    && ValidWhole(n.whole)
    && (n.dot <==> n.frac != []) && AllDigits(n.frac)
    && ValidExponent(n)
  }

  function RenderWhole(n: Number): bytes {
    (if n.neg then [MINUS] else []) + n.whole
  }

  function RenderFraction(n: Number): bytes {
    (if n.dot then [DOT] else []) + n.frac
  }

  function RenderExponent(n: Number): bytes {
    n.e + n.sign + n.exp
  }

  function RenderNumber(n: Number): bytes {
    RenderWhole(n) + RenderFraction(n) + RenderExponent(n)
  }

  // Literal names (section 3)

  datatype Literal = True | False | Null

  function Word(l: Literal): (w: bytes)
    ensures |w| >= 4
  {
    match l
    case True => [LOWER_T, LOWER_R, LOWER_U, LOWER_E]
    case False => [LOWER_F, LOWER_A, LOWER_L, LOWER_S, LOWER_E]
    case Null => [LOWER_N, LOWER_U, LOWER_L, LOWER_L]
  }

  // Values, arrays and objects (sections 2 to 5). `gap` is the white space of an empty container.

  datatype Value =
    | Name(lit: Literal)
    | Text(items: seq<StringItem>)
    | Numeral(num: Number)
    | Array(gap: bytes, elements: Elements)
    | Object(gap: bytes, members: Members)

  /** A value with the white space around it. */
  datatype Element = Element(before: bytes, value: Value, after: bytes)

  datatype Elements = NoElements | Elements(init: Elements, last: Element)

  datatype Key = Key(before: bytes, items: seq<StringItem>, after: bytes)

  datatype Member = Member(key: Key, element: Element)

  datatype Members = NoMembers | Members(init: Members, last: Member)

  predicate ValidValue(v: Value) {
    match v
    case Name(_) => true
    case Text(items) => ValidItems(items)
    case Numeral(n) => ValidNumber(n)
    case Array(gap, es) => AllWs(gap) && (es != NoElements ==> gap == []) && ValidElements(es)
    case Object(gap, ms) => AllWs(gap) && (ms != NoMembers ==> gap == []) && ValidMembers(ms)
  }

  predicate ValidElement(e: Element) {
    AllWs(e.before) && ValidValue(e.value) && AllWs(e.after)
  }

  predicate ValidElements(es: Elements) {
    match es
    case NoElements => true
    case Elements(init, last) => ValidElements(init) && ValidElement(last)
  }

  predicate ValidKey(k: Key) {
    AllWs(k.before) && ValidItems(k.items) && AllWs(k.after)
  }

  predicate ValidMember(m: Member) {
    ValidKey(m.key) && ValidElement(m.element)
  }

  predicate ValidMembers(ms: Members) {
    match ms
    case NoMembers => true
    case Members(init, last) => ValidMembers(init) && ValidMember(last)
  }

  function RenderValue(v: Value): bytes {
    match v
    case Name(l) => Word(l)
    case Text(items) => RenderString(items)
    case Numeral(n) => RenderNumber(n)
    case Array(gap, es) => [LBRACKET] + gap + RenderElements(es) + [RBRACKET]
    case Object(gap, ms) => [LBRACE] + gap + RenderMembers(ms) + [RBRACE]
  }

  function RenderElement(e: Element): bytes {
    e.before + RenderValue(e.value) + e.after
  }

  /** The comma that a second or later item needs. */
  function Separator(first: bool): bytes {
    if first then [] else [COMMA]
  }

  function RenderElements(es: Elements): bytes {
    match es
    case NoElements => []
    case Elements(init, last) => RenderElements(init) + Separator(init == NoElements) + RenderElement(last)
  }

  function RenderKey(k: Key): bytes {
    k.before + RenderString(k.items) + k.after
  }

  function RenderMember(m: Member): bytes {
    RenderKey(m.key) + [COLON] + RenderElement(m.element)
  }

  function RenderMembers(ms: Members): bytes {
    match ms
    case NoMembers => []
    case Members(init, last) => RenderMembers(init) + Separator(init == NoMembers) + RenderMember(last)
  }

  // Nesting depth

  function Max(a: nat, b: nat): nat {
    if a >= b then a else b
  }

  function Depth(v: Value): nat {
    match v
    case Name(_) => 0
    case Text(_) => 0
    case Numeral(_) => 0
    case Array(_, es) => 1 + ElementsDepth(es)
    case Object(_, ms) => 1 + MembersDepth(ms)
  }

  function ElementsDepth(es: Elements): nat {
    match es
    case NoElements => 0
    case Elements(init, last) => Max(ElementsDepth(init), Depth(last.value))
  }

  function MembersDepth(ms: Members): nat {
    match ms
    case NoMembers => 0
    case Members(init, last) => Max(MembersDepth(init), Depth(last.element.value))
  }

  /** `s` is written by some syntax tree that nests at most `limit` containers. */
  ghost predicate IsJsonText(s: bytes, limit: nat) {
    exists e: Element :: ValidElement(e) && Depth(e.value) <= limit && RenderElement(e) == s
  }
}
