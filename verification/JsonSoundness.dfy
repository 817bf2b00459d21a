/** Every accepted text is grammatical: while the automaton runs, the part read so far is
the rendering of an unfinished syntax tree whose open containers are the automaton's stack. */
module JsonSoundness {
  import opened JsonGrammar
  import opened JsonAutomaton
  import opened JsonCompleteness

  /** An open container: what is complete in it, up to and including the last separator. */
  datatype Frame =
    | InArray(before: bytes, elements: Elements)
    | InKey(before: bytes, members: Members)
    | InMember(before: bytes, members: Members, key: Key)

  /** What is being read inside the innermost open container. */
  datatype Focus =
    | Waiting(ws: bytes)
    | Quoted(before: bytes, items: seq<StringItem>, partial: bytes)
    | Digits(before: bytes, num: Number)
    | Letters(before: bytes, lit: Literal, count: nat)
    | Whole(element: Element)
    | WholeKey(key: Key)

  datatype Tree = Tree(frames: seq<Frame>, focus: Focus)

  function RenderFrame(f: Frame): bytes {
    match f
    case InArray(before, es) => before + [LBRACKET] + RenderElements(es) + Separator(es == NoElements)
    case InKey(before, ms) => before + [LBRACE] + RenderMembers(ms) + Separator(ms == NoMembers)
    case InMember(before, ms, key) =>
      before + [LBRACE] + RenderMembers(ms) + Separator(ms == NoMembers) + RenderKey(key) + [COLON]
  }

  function RenderFrames(fs: seq<Frame>): bytes {
    if fs == [] then [] else RenderFrames(fs[..|fs| - 1]) + RenderFrame(fs[|fs| - 1])
  }

  function RenderFocus(f: Focus): bytes {
    match f
    case Waiting(ws) => ws
    case Quoted(before, items, partial) => before + [QUOTE] + RenderItems(items) + partial
    case Digits(before, n) => before + RenderNumber(n)
    case Letters(before, l, n) => before + Word(l)[..if n <= |Word(l)| then n else 0]
    case Whole(e) => RenderElement(e)
    case WholeKey(k) => RenderKey(k)
  }

  function RenderTree(t: Tree): bytes {
    RenderFrames(t.frames) + RenderFocus(t.focus)
  }

  function FrameParse(f: Frame): ParseState {
    match f
    case InArray(_, _) => ArrayValue
    case InKey(_, _) => ObjectKey
    case InMember(_, _, _) => ObjectValue
  }

  /** The frame at position `level` is well formed and leaves room for the limit. */
  predicate ValidFrame(f: Frame, level: nat) {
    && AllWs(f.before)
    && match f
       case InArray(_, es) => ValidElements(es) && level + 1 + ElementsDepth(es) <= MAX_NESTING_DEPTH
       case InKey(_, ms) => ValidMembers(ms) && level + 1 + MembersDepth(ms) <= MAX_NESTING_DEPTH
       case InMember(_, ms, key) =>
         ValidMembers(ms) && ValidKey(key) && level + 1 + MembersDepth(ms) <= MAX_NESTING_DEPTH
  }

  ghost predicate ValidFrames(fs: seq<Frame>, stack: seq<ParseState>) {
    && |fs| == |stack| <= MAX_NESTING_DEPTH
    && (forall i :: 0 <= i < |fs| ==> ValidFrame(fs[i], i) && FrameParse(fs[i]) == stack[i])
    && (forall i :: 0 <= i < |fs| - 1 ==> !fs[i].InKey?)
  }

  predicate Partial(p: bytes) {
    || p == []
    || (1 <= |p| <= 5 && p[0] == BACKSLASH
        && (|p| >= 2 ==> p[1] == LOWER_U && forall i :: 2 <= i < |p| ==> IsHex(p[i])))
  }

  function QuotedState(p: bytes): ScanState {
    match |p|
    case 0 => InString
    case 1 => InStringEscape
    case 2 => InStringUnicode1
    case 3 => InStringUnicode2
    case 4 => InStringUnicode3
    case _ => InStringUnicode4
  }

  /** A number cut off anywhere: a field is started only when the ones before it are done. */
  predicate PartialNumber(n: Number) {
    && (if n.whole == [] then n.neg && !n.dot && n.e == [] else ValidWhole(n.whole))
    && AllDigits(n.frac) && (n.frac != [] ==> n.dot)
    && (n.e == [] ==> n.sign == [] && n.exp == [])
    && (n.e != [] ==> n.dot ==> n.frac != [])
    && (n.e == [] || n.e == [LOWER_E] || n.e == [UPPER_E])
    && (n.sign == [] || n.sign == [PLUS] || n.sign == [MINUS])
    && AllDigits(n.exp)
  }

  function DigitsState(n: Number): ScanState {
    if n.e != [] then
      if n.exp != [] then ExponentDigits else if n.sign != [] then ExponentSign else Exponent
    else if n.dot then
      if n.frac != [] then Decimal else DecimalPoint
    else if n.whole == [] then Negative
    else if n.whole[0] == ZERO then Zero
    else Integer
  }

  predicate TopIsKey(fs: seq<Frame>) {
    fs != [] && fs[|fs| - 1].InKey?
  }

  function WaitingState(fs: seq<Frame>): ScanState {
    if fs == [] then BeginValue
    else match fs[|fs| - 1]
      case InArray(_, es) => if es == NoElements then BeginValueOrEmpty else BeginValue
      case InKey(_, ms) => if ms == NoMembers then BeginStringOrEmpty else BeginString
      case InMember(_, _, _) => BeginValue
  }

  ghost predicate ValidFocus(t: Tree, c: Config) {
    match t.focus
    case Waiting(ws) => AllWs(ws) && c.state == WaitingState(t.frames)
    case Quoted(before, items, partial) =>
      AllWs(before) && ValidItems(items) && Partial(partial) && c.state == QuotedState(partial)
    case Digits(before, n) =>
      AllWs(before) && PartialNumber(n) && c.state == DigitsState(n) && !TopIsKey(t.frames)
    case Letters(before, l, n) =>
      AllWs(before) && 1 <= n < |Word(l)| && c.state == LetterState(l, n) && !TopIsKey(t.frames)
    case Whole(e) =>
      && ValidElement(e) && |t.frames| + Depth(e.value) <= MAX_NESTING_DEPTH && !TopIsKey(t.frames)
      && (c.state == EndValue || (c.state == EndTop && t.frames == []))
    case WholeKey(k) => ValidKey(k) && TopIsKey(t.frames) && c.state == EndValue
  }

  /** The automaton in configuration `c` has read exactly the unfinished tree `t`. */
  ghost predicate Tracks(c: Config, t: Tree) {
    Valid(c) && !c.failed && (c.endTop ==> c.state == EndTop) && ValidFrames(t.frames, c.stack) && ValidFocus(t, c)
  }

  /** `u` is `t` with the byte `b` read, and the automaton agrees. */
  ghost predicate Reads(r: Outcome, t: Tree, b: byte, u: Tree) {
    Tracks(r.0, u) && RenderTree(u) == RenderTree(t) + [b]
  }

  /** The common case: the open containers stay as they are. */
  lemma SameFrames(c: Config, t: Tree, b: byte, state: ScanState, focus: Focus)
    requires Tracks(c, t) && !c.endTop && state != EndTop && state != Error
    requires ValidFocus(Tree(t.frames, focus), c.(state := state))
    requires RenderFocus(focus) == RenderFocus(t.focus) + [b]
    ensures Reads(Goto(c, state), t, b, Tree(t.frames, focus))
  {
    hide RenderFrames;
    hide RenderFocus;
    var u := Tree(t.frames, focus);
    assert RenderTree(u) == RenderTree(t) + [b];
    if state == BeginValueOrEmpty || state == BeginStringOrEmpty || state == BeginString {
      assert focus.Waiting?;
      assert FrameParse(t.frames[|t.frames| - 1]) == c.stack[|c.stack| - 1];
    }
  }

  /** A value without children is over. */
  lemma ScalarDone(c: Config, t: Tree, b: byte, e: Element)
    requires Tracks(c, t) && !c.endTop && !TopIsKey(t.frames)
    requires ValidElement(e) && Depth(e.value) == 0 && RenderElement(e) == RenderFocus(t.focus) + [b]
    ensures Reads(Goto(c, EndValue), t, b, Tree(t.frames, Whole(e)))
  {
    assert |t.frames| <= MAX_NESTING_DEPTH;
    hide ValidFrames;
    hide RenderElement;
    hide ValidElement;
    assert ValidFocus(Tree(t.frames, Whole(e)), c.(state := EndValue));
    SameFrames(c, t, b, EndValue, Whole(e));
  }

  lemma SnocWs(ws: bytes, b: byte)
    requires AllWs(ws) && IsWs(b)
    ensures AllWs(ws + [b])
  {
  }

  lemma PushFrame(fs: seq<Frame>, f: Frame, stack: seq<ParseState>)
    requires ValidFrames(fs, stack) && |stack| < MAX_NESTING_DEPTH && ValidFrame(f, |fs|) && !TopIsKey(fs)
    ensures ValidFrames(fs + [f], stack + [FrameParse(f)])
    ensures RenderFrames(fs + [f]) == RenderFrames(fs) + RenderFrame(f)
  {
    hide ValidFrame;
    hide RenderFrame;
    assert (fs + [f])[..|fs|] == fs;
  }

  lemma PopFrame(fs: seq<Frame>, stack: seq<ParseState>) returns (rest: seq<Frame>, outer: seq<ParseState>, top: Frame)
    requires ValidFrames(fs, stack) && fs != []
    ensures fs == rest + [top] && stack == outer + [FrameParse(top)]
    ensures rest == fs[..|fs| - 1] && outer == stack[..|stack| - 1]
    ensures ValidFrames(rest, outer) && ValidFrame(top, |rest|) && !TopIsKey(rest)
    ensures |rest| == |outer| < MAX_NESTING_DEPTH
    ensures RenderFrames(fs) == RenderFrames(rest) + RenderFrame(top)
  {
    hide ValidFrame;
    hide RenderFrame;
    rest, outer, top := fs[..|fs| - 1], stack[..|stack| - 1], fs[|fs| - 1];
  }

  lemma Regroup(a: bytes, x: bytes, y: bytes, b: byte)
    ensures a + (x + y + [b]) == (a + x) + y + [b]
    ensures a + (x + y + [b]) + [] == (a + x) + y + [b]
  {
  }

  /** The innermost container goes on with `f`, waiting for its next item. */
  lemma NextItem(c: Config, t: Tree, b: byte, rest: seq<Frame>, outer: seq<ParseState>, top: Frame, f: Frame,
                 state: ScanState)
    requires t.frames == rest + [top] && RenderFrames(t.frames) == RenderFrames(rest) + RenderFrame(top)
    requires ValidFrames(rest, outer) && |outer| < MAX_NESTING_DEPTH && ValidFrame(f, |rest|) && !TopIsKey(rest)
    requires c == Config(state, outer + [FrameParse(f)], false, false) && state == WaitingState([f])
    requires RenderFrame(f) == RenderFrame(top) + RenderFocus(t.focus) + [b]
    ensures Reads((c, ScanContinue), t, b, Tree(rest + [f], Waiting([])))
  {
    hide RenderFrame;
    hide ValidFrame;
    hide ValidFrames;
    hide RenderFrames;
    PushFrame(rest, f, outer);
    Regroup(RenderFrames(rest), RenderFrame(top), RenderFocus(t.focus), b);
    var u := Tree(rest + [f], Waiting([]));
    assert RenderFocus(u.focus) == [];
    assert ValidFocus(u, c);
    assert Tracks(c, u);
  }

  /** The innermost container is closed and becomes a whole value of the one around it. */
  lemma Closed(c: Config, t: Tree, b: byte, rest: seq<Frame>, outer: seq<ParseState>, top: Frame, v: Element,
               op: ScanOp)
    requires t.frames == rest + [top] && RenderFrames(t.frames) == RenderFrames(rest) + RenderFrame(top)
    requires ValidFrames(rest, outer) && |rest| == |outer| <= MAX_NESTING_DEPTH && !TopIsKey(rest)
    requires c == Config(if outer == [] then EndTop else EndValue, outer, outer == [], false)
    requires ValidElement(v) && |rest| + Depth(v.value) <= MAX_NESTING_DEPTH
    requires RenderElement(v) == RenderFrame(top) + RenderFocus(t.focus) + [b]
    ensures Reads((c, op), t, b, Tree(rest, Whole(v)))
  {
    hide RenderFrame;
    hide ValidFrame;
    hide ValidFrames;
    hide RenderFrames;
    hide RenderElement;
    hide ValidElement;
    Regroup(RenderFrames(rest), RenderFrame(top), RenderFocus(t.focus), b);
    var u := Tree(rest, Whole(v));
    assert |rest| == |outer| <= MAX_NESTING_DEPTH;
    assert RenderFocus(u.focus) == RenderElement(v);
    assert ValidFocus(u, c);
    assert Tracks(c, u);
  }

  lemma EndOfKey(c: Config, outer: seq<ParseState>, b: byte)
    requires Valid(c) && !c.failed && !c.endTop && c.stack == outer + [ObjectKey]
    requires !IsWs(b) && !EndValueAt(c, b).0.failed
    ensures b == COLON && EndValueAt(c, b) == (Config(BeginValue, outer + [ObjectValue], false, false), ScanContinue)
  {
    assert c.stack[..|outer|] == outer;
  }

  lemma EndOfMember(c: Config, outer: seq<ParseState>, b: byte)
    requires Valid(c) && !c.failed && !c.endTop && c.stack == outer + [ObjectValue]
    requires !IsWs(b) && !EndValueAt(c, b).0.failed
    ensures b == COMMA || b == RBRACE
    ensures b == COMMA ==> EndValueAt(c, b) == (Config(BeginString, outer + [ObjectKey], false, false), ScanContinue)
    ensures b == RBRACE ==>
              EndValueAt(c, b) == (Config(if outer == [] then EndTop else EndValue, outer, outer == [], false), ScanEndObject)
  {
    assert c.stack[..|outer|] == outer;
  }

  lemma EndOfElement(c: Config, outer: seq<ParseState>, b: byte)
    requires Valid(c) && !c.failed && !c.endTop && c.stack == outer + [ArrayValue]
    requires !IsWs(b) && !EndValueAt(c, b).0.failed
    ensures b == COMMA || b == RBRACKET
    ensures b == COMMA ==> EndValueAt(c, b) == (Config(BeginValue, c.stack, false, false), ScanContinue)
    ensures b == RBRACKET ==>
              EndValueAt(c, b) == (Config(if outer == [] then EndTop else EndValue, outer, outer == [], false), ScanContinue)
  {
    assert c.stack[..|outer|] == outer;
  }

  /** A key is over and the byte after it decides what comes next. */
  lemma AddKey(top: Frame, k: Key, level: nat) returns (f: Frame)
    requires top.InKey? && ValidFrame(top, level) && ValidKey(k)
    ensures f.InMember? && ValidFrame(f, level) && RenderFrame(f) == RenderFrame(top) + RenderKey(k) + [COLON]
  {
    f := InMember(top.before, top.members, k);
  }

  lemma KeyWs(c: Config, t: Tree, b: byte) returns (u: Tree)
    requires Tracks(c, t) && t.focus.WholeKey? && IsWs(b)
    ensures Reads(Goto(c, EndValue), t, b, u)
  {
    hide ValidFrames;
    hide RenderFrames;
    var k := t.focus.key;
    SnocWs(k.after, b);
    var lead := k.before + RenderString(k.items);
    hide RenderString;
    u := Tree(t.frames, WholeKey(k.(after := k.after + [b])));
    assert lead + (k.after + [b]) == lead + k.after + [b];
    SameFrames(c, t, b, EndValue, u.focus);
  }

  lemma EndsKey(c: Config, t: Tree, b: byte) returns (u: Tree)
    requires Tracks(c, t) && t.focus.WholeKey? && !EndValueAt(c, b).0.failed
    ensures Reads(EndValueAt(c, b), t, b, u)
  {
    hide RenderFrame;
    hide ValidFrame;
    hide ValidFrames;
    hide RenderFrames;
    hide RenderKey;
    hide Reads;
    if IsWs(b) {
      FocusHasFrame(c, t);
      u := KeyWs(c, t, b);
    } else {
      var rest, outer, top := PopFrame(t.frames, c.stack);
      EndOfKey(c, outer, b);
      hide EndValueAt;
      var f := AddKey(top, t.focus.key, |rest|);
      NextItem(EndValueAt(c, b).0, t, b, rest, outer, top, f, BeginValue);
      u := Tree(rest + [f], Waiting([]));
    }
  }

  lemma FocusHasFrame(c: Config, t: Tree)
    requires Tracks(c, t) && t.focus.WholeKey?
    ensures c.stack != []
  {
  }

  /** Concatenation is associative, in the two groupings that rendering needs. */
  lemma Regroup5(a: bytes, b: bytes, c: bytes, d: bytes, e: bytes)
    ensures a + b + (c + d + e) == a + b + c + d + e
    ensures a + (b + [] + c + d) + [] == a + b + c + d
  {
    assert a + b + (c + d + e) == a + b + c + d + e;
    assert b + [] + c + d == b + c + d;
    assert a + (b + c + d) + [] == a + b + c + d;
  }

  /** The member that ends here joins its object, which either goes on or is closed. */
  lemma AddMember(top: Frame, e: Element, level: nat) returns (f: Frame, v: Element)
    requires top.InMember? && ValidFrame(top, level) && ValidElement(e)
    requires level + 1 + Depth(e.value) <= MAX_NESTING_DEPTH
    ensures f.InKey? && f.members != NoMembers && ValidFrame(f, level)
    ensures RenderFrame(f) == RenderFrame(top) + RenderElement(e) + [COMMA]
    ensures ValidElement(v) && level + Depth(v.value) <= MAX_NESTING_DEPTH
    ensures RenderElement(v) == RenderFrame(top) + RenderElement(e) + [RBRACE]
  {
    var ms := Members(top.members, Member(top.key, e));
    f, v := InKey(top.before, ms), Element(top.before, Object([], ms), []);
    var done, sep := RenderMembers(top.members), Separator(top.members == NoMembers);
    var member := RenderMember(Member(top.key, e));
    assert RenderMembers(ms) == done + sep + member;
    Regroup5(top.before, [LBRACE], done, sep, member);
    Regroup5(top.before, [LBRACE], RenderMembers(ms), [RBRACE], []);
    var lead := top.before + [LBRACE] + done + sep;
    assert lead + (RenderKey(top.key) + [COLON] + RenderElement(e)) == lead + RenderKey(top.key) + [COLON] + RenderElement(e);
    assert RenderFrame(top) + RenderElement(e) == top.before + [LBRACE] + RenderMembers(ms);
  }

  lemma EndsInMember(c: Config, t: Tree, b: byte) returns (u: Tree)
    requires Valid(c) && !c.failed && !c.endTop && ValidFrames(t.frames, c.stack)
    requires t.frames != [] && t.frames[|t.frames| - 1].InMember? && !IsWs(b)
    requires t.focus.Whole? && ValidElement(t.focus.element)
    requires |t.frames| + Depth(t.focus.element.value) <= MAX_NESTING_DEPTH
    requires !EndValueAt(c, b).0.failed
    ensures Reads(EndValueAt(c, b), t, b, u)
  {
    hide ValidFrame;
    hide RenderFrame;
    hide ValidFrames;
    hide RenderFrames;
    hide RenderElement;
    hide ValidElement;
    hide Reads;
    var rest, outer, top := PopFrame(t.frames, c.stack);
    EndOfMember(c, outer, b);
    hide EndValueAt;
    var f, v := AddMember(top, t.focus.element, |rest|);
    if b == COMMA {
      NextItem(EndValueAt(c, b).0, t, b, rest, outer, top, f, BeginString);
      u := Tree(rest + [f], Waiting([]));
    } else {
      Closed(EndValueAt(c, b).0, t, b, rest, outer, top, v, ScanEndObject);
      u := Tree(rest, Whole(v));
    }
  }

  lemma AddElement(top: Frame, e: Element, level: nat) returns (f: Frame, v: Element)
    requires top.InArray? && ValidFrame(top, level) && ValidElement(e)
    requires level + 1 + Depth(e.value) <= MAX_NESTING_DEPTH
    ensures f.InArray? && f.elements != NoElements && ValidFrame(f, level)
    ensures RenderFrame(f) == RenderFrame(top) + RenderElement(e) + [COMMA]
    ensures ValidElement(v) && level + Depth(v.value) <= MAX_NESTING_DEPTH
    ensures RenderElement(v) == RenderFrame(top) + RenderElement(e) + [RBRACKET]
  {
    var es := Elements(top.elements, e);
    f, v := InArray(top.before, es), Element(top.before, Array([], es), []);
    var done, sep := RenderElements(top.elements), Separator(top.elements == NoElements);
    assert RenderElements(es) == done + sep + RenderElement(e);
    Regroup5(top.before, [LBRACKET], done, sep, RenderElement(e));
    Regroup5(top.before, [LBRACKET], RenderElements(es), [RBRACKET], []);
    assert RenderFrame(top) + RenderElement(e) == top.before + [LBRACKET] + RenderElements(es);
  }

  lemma EndsInArray(c: Config, t: Tree, b: byte) returns (u: Tree)
    requires Valid(c) && !c.failed && !c.endTop && ValidFrames(t.frames, c.stack)
    requires t.frames != [] && t.frames[|t.frames| - 1].InArray? && !IsWs(b)
    requires t.focus.Whole? && ValidElement(t.focus.element)
    requires |t.frames| + Depth(t.focus.element.value) <= MAX_NESTING_DEPTH
    requires !EndValueAt(c, b).0.failed
    ensures Reads(EndValueAt(c, b), t, b, u)
  {
    hide ValidFrame;
    hide RenderFrame;
    hide ValidFrames;
    hide RenderFrames;
    hide RenderElement;
    hide ValidElement;
    hide Reads;
    var rest, outer, top := PopFrame(t.frames, c.stack);
    EndOfElement(c, outer, b);
    hide EndValueAt;
    var f, v := AddElement(top, t.focus.element, |rest|);
    if b == COMMA {
      NextItem(EndValueAt(c, b).0, t, b, rest, outer, top, f, BeginValue);
      u := Tree(rest + [f], Waiting([]));
    } else {
      Closed(EndValueAt(c, b).0, t, b, rest, outer, top, v, ScanContinue);
      u := Tree(rest, Whole(v));
    }
  }

  lemma EndsValue(c: Config, t: Tree, b: byte) returns (u: Tree)
    requires Valid(c) && !c.failed && (c.endTop ==> c.stack == []) && ValidFrames(t.frames, c.stack)
    requires t.focus.Whole? && ValidElement(t.focus.element) && !TopIsKey(t.frames)
    requires |t.frames| + Depth(t.focus.element.value) <= MAX_NESTING_DEPTH
    requires !EndValueAt(c, b).0.failed
    ensures Reads(EndValueAt(c, b), t, b, u)
  {
    var e := t.focus.element;
    EndValueSound(c, b);
    if IsWs(b) {
      SnocWs(e.after, b);
      var e' := e.(after := e.after + [b]);
      assert RenderElement(e') == RenderElement(e) + [b];
      u := Tree(t.frames, Whole(e'));
    } else if t.frames[|t.frames| - 1].InMember? {
      u := EndsInMember(c, t, b);
    } else {
      u := EndsInArray(c, t, b);
    }
  }

  lemma ReadsQuote(c: Config, t: Tree) returns (u: Tree)
    requires Tracks(c, t) && t.focus.Quoted? && t.focus.partial == []
    ensures Reads(Goto(c, EndValue), t, QUOTE, u)
  {
    hide RenderFrames;
    hide ValidFrames;
    hide RenderItems;
    var Quoted(before, items, p) := t.focus;
    assert before + ([QUOTE] + RenderItems(items) + [QUOTE]) + [] == before + [QUOTE] + RenderItems(items) + p + [QUOTE];
    if TopIsKey(t.frames) {
      var k := Key(before, items, []);
      u := Tree(t.frames, WholeKey(k));
      assert RenderFocus(u.focus) == RenderKey(k);
      SameFrames(c, t, QUOTE, EndValue, u.focus);
    } else {
      var e := Element(before, Text(items), []);
      u := Tree(t.frames, Whole(e));
      assert RenderValue(Text(items)) == RenderString(items);
      assert ValidElement(e);
      ScalarDone(c, t, QUOTE, e);
    }
  }

  lemma ReadsEscape(c: Config, t: Tree, b: byte) returns (u: Tree)
    requires Tracks(c, t) && t.focus.Quoted? && Partial(t.focus.partial + [b]) && |t.focus.partial| < 5
    ensures Reads(Goto(c, QuotedState(t.focus.partial + [b])), t, b, u)
  {
    hide RenderFrames;
    hide ValidFrames;
    hide RenderItems;
    var Quoted(before, items, p) := t.focus;
    u := Tree(t.frames, Quoted(before, items, p + [b]));
    assert RenderFocus(u.focus) == RenderFocus(t.focus) + [b];
    SameFrames(c, t, b, QuotedState(p + [b]), u.focus);
  }

  /** Which item or escape the automaton takes a string byte for. */
  lemma StringByte(c: Config, p: bytes, b: byte)
    requires Valid(c) && Partial(p) && c.state == QuotedState(p) && !StepString(c, b).0.failed
    ensures p == [] && b == QUOTE ==> StepString(c, b) == Goto(c, EndValue)
    ensures p == [] && b != QUOTE && b != BACKSLASH ==> ValidItem(Raw(b)) && StepString(c, b) == Goto(c, InString)
    ensures |p| == 1 && IsEscapee(b) ==> StepString(c, b) == Goto(c, InString)
    ensures |p| == 5 ==> ValidItem(Unicode(p[2], p[3], p[4], b)) && StepString(c, b) == Goto(c, InString)
    ensures (p == [] && b == BACKSLASH) || (|p| == 1 && !IsEscapee(b)) || 2 <= |p| <= 4 ==>
              Partial(p + [b]) && StepString(c, b) == Goto(c, QuotedState(p + [b]))
  {
  }

  lemma ReadsString(c: Config, t: Tree, b: byte) returns (u: Tree)
    requires Tracks(c, t) && t.focus.Quoted? && !StepString(c, b).0.failed
    ensures Reads(StepString(c, b), t, b, u)
  {
    var p := t.focus.partial;
    StringByte(c, p, b);
    hide StepString;
    hide Reads;
    hide Tracks;
    if p == [] && b == QUOTE {
      u := ReadsQuote(c, t);
    } else if p == [] && b != BACKSLASH {
      u := ReadsItem(c, t, b, Raw(b));
    } else if |p| == 1 && IsEscapee(b) {
      u := ReadsItem(c, t, b, Escape(b));
    } else if |p| == 5 {
      u := ReadsItem(c, t, b, Unicode(p[2], p[3], p[4], b));
    } else {
      u := ReadsEscape(c, t, b);
    }
  }

  lemma ReadsItem(c: Config, t: Tree, b: byte, i: StringItem) returns (u: Tree)
    requires Tracks(c, t) && t.focus.Quoted? && ValidItem(i) && RenderItem(i) == t.focus.partial + [b]
    ensures Reads(Goto(c, InString), t, b, u)
  {
    hide RenderFrames;
    hide ValidFrames;
    var Quoted(before, items, p) := t.focus;
    u := Tree(t.frames, Quoted(before, items + [i], []));
    assert (items + [i])[..|items|] == items;
    assert RenderFocus(u.focus) == RenderFocus(t.focus) + [b];
    SameFrames(c, t, b, InString, u.focus);
  }

  /** A finished number is a value; whatever byte follows ends it. */
  lemma EndsNumber(c: Config, t: Tree, b: byte) returns (u: Tree)
    requires Tracks(c, t) && t.focus.Digits? && ValidNumber(t.focus.num)
    requires !EndValueAt(c, b).0.failed
    ensures Reads(EndValueAt(c, b), t, b, u)
  {
    assert |t.frames| <= MAX_NESTING_DEPTH;
    var e := NumberElement(t.focus.before, t.focus.num);
    hide EndValueAt;
    hide RenderFrames;
    hide ValidFrames;
    hide RenderElement;
    hide ValidElement;
    hide ValidNumber;
    hide PartialNumber;
    var w := Tree(t.frames, Whole(e));
    assert RenderFocus(w.focus) == RenderFocus(t.focus);
    u := EndsValue(c, w, b);
  }

  lemma NumberElement(before: bytes, n: Number) returns (e: Element)
    requires AllWs(before) && ValidNumber(n)
    ensures ValidElement(e) && Depth(e.value) == 0 && RenderElement(e) == before + RenderNumber(n)
  {
    e := Element(before, Numeral(n), []);
    assert RenderValue(Numeral(n)) == RenderNumber(n);
    hide RenderNumber;
    assert RenderElement(e) == before + RenderNumber(n);
  }

  lemma GrowsNumber(c: Config, t: Tree, b: byte, n: Number) returns (u: Tree)
    requires Tracks(c, t) && t.focus.Digits? && PartialNumber(n) && RenderNumber(n) == RenderNumber(t.focus.num) + [b]
    ensures Reads(Goto(c, DigitsState(n)), t, b, u)
  {
    hide RenderNumber;
    hide RenderFrames;
    hide ValidFrames;
    u := Tree(t.frames, Digits(t.focus.before, n));
    assert RenderFocus(u.focus) == RenderFocus(t.focus) + [b];
    SameFrames(c, t, b, DigitsState(n), u.focus);
  }

  /** The number with one more byte of it. */
  function Grown(n: Number, b: byte): Number {
    if IsDigit(b) then
      if n.e != [] then n.(exp := n.exp + [b])
      else if n.dot then n.(frac := n.frac + [b])
      else n.(whole := n.whole + [b])
    else if b == DOT then n.(dot := true)
    else if n.e != [] then n.(sign := [b])
    else n.(e := [b])
  }

  predicate Grows(s: ScanState, b: byte) {
    if IsDigit(b) then s != Zero
    else if b == DOT then s == Zero || s == Integer
    else if b == LOWER_E || b == UPPER_E then s == Zero || s == Integer || s == Decimal
    else (b == PLUS || b == MINUS) && s == Exponent
  }

  lemma ThreeParts(a: bytes, b: bytes, c: bytes, d: byte)
    ensures a + b + (c + [d]) == a + b + c + [d]
    ensures c == [] ==> a + (b + [d]) + c == a + b + c + [d]
    ensures b == [] && c == [] ==> (a + [d]) + b + c == a + b + c + [d]
  {
    assert a + (b + [d]) + [] == a + b + [] + [d];
    assert (a + [d]) + [] + [] == a + [] + [] + [d];
  }

  lemma GrownExponent(n: Number, b: byte)
    requires PartialNumber(n) && Grows(DigitsState(n), b) && (n.e != [] || (!IsDigit(b) && b != DOT))
    ensures var g := Grown(n, b);
            RenderWhole(g) == RenderWhole(n) && RenderFraction(g) == RenderFraction(n) && RenderExponent(g) == RenderExponent(n) + [b]
  {
    var g := Grown(n, b);
    assert b != DOT;
    assert g.neg == n.neg && g.whole == n.whole && g.dot == n.dot && g.frac == n.frac;
    hide RenderWhole;
    hide RenderFraction;
    if IsDigit(b) {
      assert n.e + n.sign + (n.exp + [b]) == n.e + n.sign + n.exp + [b];
    } else if n.e != [] {
      assert n.sign == n.exp == [];
      assert n.e + [b] + [] == n.e + [] + [] + [b];
    } else {
      assert [b] + [] + [] == [] + [] + [] + [b];
    }
  }

  lemma GrownFraction(n: Number, b: byte)
    requires PartialNumber(n) && Grows(DigitsState(n), b) && n.e == [] && if IsDigit(b) then n.dot else b == DOT
    ensures var g := Grown(n, b);
            RenderWhole(g) == RenderWhole(n) && RenderFraction(g) == RenderFraction(n) + [b] && RenderExponent(g) == RenderExponent(n) == []
  {
  }

  lemma GrownWhole(n: Number, b: byte)
    requires PartialNumber(n) && n.e == [] && IsDigit(b) && !n.dot
    ensures var g := Grown(n, b);
            RenderWhole(g) == RenderWhole(n) + [b] && RenderFraction(g) == RenderFraction(n) == [] && RenderExponent(g) == RenderExponent(n) == []
  {
  }

  lemma GrownRenders(n: Number, b: byte)
    requires PartialNumber(n) && Grows(DigitsState(n), b)
    ensures RenderNumber(Grown(n, b)) == RenderNumber(n) + [b]
  {
    hide RenderWhole;
    hide RenderFraction;
    hide RenderExponent;
    hide Grown;
    ThreeParts(RenderWhole(n), RenderFraction(n), RenderExponent(n), b);
    if n.e != [] || (!IsDigit(b) && b != DOT) {
      GrownExponent(n, b);
    } else if n.dot || b == DOT {
      GrownFraction(n, b);
    } else {
      GrownWhole(n, b);
    }
  }

  lemma GrownIsPartial(n: Number, b: byte)
    requires PartialNumber(n) && Grows(DigitsState(n), b)
    ensures PartialNumber(Grown(n, b)) && RenderNumber(Grown(n, b)) == RenderNumber(n) + [b]
  {
    hide RenderNumber;
    GrownRenders(n, b);
  }

  lemma NumberByte(c: Config, n: Number, b: byte)
    requires Valid(c) && PartialNumber(n) && c.state == DigitsState(n) && !StepNumber(c, b).0.failed
    ensures Grows(c.state, b) ==> StepNumber(c, b) == Goto(c, DigitsState(Grown(n, b)))
    ensures !Grows(c.state, b) ==> ValidNumber(n) && StepNumber(c, b) == EndValueAt(c, b)
  {
    hide EndValueAt;
  }

  lemma ReadsNumber(c: Config, t: Tree, b: byte) returns (u: Tree)
    requires Tracks(c, t) && t.focus.Digits? && !StepNumber(c, b).0.failed
    ensures Reads(StepNumber(c, b), t, b, u)
  {
    var n := t.focus.num;
    assert PartialNumber(n) && c.state == DigitsState(n);
    NumberByte(c, n, b);
    hide StepNumber;
    hide Reads;
    hide Tracks;
    hide PartialNumber;
    if Grows(c.state, b) {
      GrownIsPartial(n, b);
      u := GrowsNumber(c, t, b, Grown(n, b));
    } else {
      u := EndsNumber(c, t, b);
    }
  }

  lemma LetterIsExpected(c: Config, l: Literal, n: nat, b: byte)
    requires Valid(c) && 1 <= n < |Word(l)| && c.state == LetterState(l, n) && !StepLiteral(c, b).0.failed
    ensures b == Word(l)[n] && StepLiteral(c, b) == Goto(c, LetterState(l, n + 1))
  {
  }

  lemma ReadsLetter(c: Config, t: Tree, b: byte, w: bytes) returns (u: Tree)
    requires Tracks(c, t) && t.focus.Letters? && w == Word(t.focus.lit) && b == w[t.focus.count]
    ensures Reads(Goto(c, LetterState(t.focus.lit, t.focus.count + 1)), t, b, u)
  {
    hide RenderFrames;
    hide ValidFrames;
    var Letters(before, l, n) := t.focus;
    var state := LetterState(l, n + 1);
    assert state != EndTop && state != Error && (n + 1 == |w| ==> state == EndValue);
    var e := Element(before, Name(l), []);
    assert RenderValue(Name(l)) == w && ValidElement(e);
    hide LetterState;
    hide Word;
    assert w[..n + 1] == w[..n] + [b];
    assert before + w[..n + 1] == before + w[..n] + [b];
    if n + 1 == |w| {
      assert w[..n + 1] == w;
      u := Tree(t.frames, Whole(e));
      assert RenderElement(e) == before + w;
      ScalarDone(c, t, b, e);
    } else {
      u := Tree(t.frames, Letters(before, l, n + 1));
      SameFrames(c, t, b, state, u.focus);
    }
  }

  lemma ReadsLiteral(c: Config, t: Tree, b: byte) returns (u: Tree)
    requires Tracks(c, t) && t.focus.Letters? && !StepLiteral(c, b).0.failed
    ensures Reads(StepLiteral(c, b), t, b, u)
  {
    LetterIsExpected(c, t.focus.lit, t.focus.count, b);
    hide StepLiteral;
    hide Reads;
    hide Word;
    u := ReadsLetter(c, t, b, Word(t.focus.lit));
  }

  const NoNumber := Number(false, [], false, [], [], [], [])

  lemma SkipsWs(c: Config, t: Tree, b: byte) returns (u: Tree)
    requires Tracks(c, t) && t.focus.Waiting? && IsWs(b)
    ensures Reads((c, ScanContinue), t, b, u)
  {
    hide RenderFrames;
    hide ValidFrames;
    SnocWs(t.focus.ws, b);
    u := Tree(t.frames, Waiting(t.focus.ws + [b]));
    SameFrames(c, t, b, c.state, u.focus);
  }

  lemma BeginsString(c: Config, t: Tree) returns (u: Tree)
    requires Tracks(c, t) && t.focus.Waiting?
    ensures Reads(Goto(c, InString), t, QUOTE, u)
  {
    hide RenderFrames;
    hide ValidFrames;
    u := Tree(t.frames, Quoted(t.focus.ws, [], []));
    assert RenderFocus(u.focus) == RenderFocus(t.focus) + [QUOTE];
    SameFrames(c, t, QUOTE, InString, u.focus);
  }

  lemma BeginsNumber(c: Config, t: Tree, b: byte) returns (u: Tree)
    requires Tracks(c, t) && t.focus.Waiting? && !TopIsKey(t.frames) && (b == MINUS || IsDigit(b))
    ensures Reads(Goto(c, if b == MINUS then Negative else if b == ZERO then Zero else Integer), t, b, u)
  {
    hide RenderFrames;
    hide ValidFrames;
    var n := if b == MINUS then NoNumber.(neg := true) else NoNumber.(whole := [b]);
    assert RenderNumber(n) == [b];
    hide RenderNumber;
    u := Tree(t.frames, Digits(t.focus.ws, n));
    assert ValidFocus(u, c.(state := DigitsState(n)));
    SameFrames(c, t, b, DigitsState(n), u.focus);
  }

  lemma BeginsLiteral(c: Config, t: Tree, l: Literal) returns (u: Tree)
    requires Tracks(c, t) && t.focus.Waiting? && !TopIsKey(t.frames)
    ensures Reads(Goto(c, LetterState(l, 1)), t, Word(l)[0], u)
  {
    hide RenderFrames;
    hide ValidFrames;
    assert LetterState(l, 1) != EndTop && LetterState(l, 1) != Error;
    hide LetterState;
    hide Word;
    assert Word(l)[..1] == [Word(l)[0]];
    u := Tree(t.frames, Letters(t.focus.ws, l, 1));
    SameFrames(c, t, Word(l)[0], LetterState(l, 1), u.focus);
  }

  lemma BeginsScalar(c: Config, t: Tree, b: byte) returns (u: Tree)
    requires Tracks(c, t) && t.focus.Waiting? && !TopIsKey(t.frames)
    requires b != LBRACE && b != LBRACKET && !BeginValueAt(c, b).0.failed
    ensures Reads(BeginValueAt(c, b), t, b, u)
  {
    hide Reads;
    hide Tracks;
    if IsWs(b) {
      u := SkipsWs(c, t, b);
    } else if b == QUOTE {
      u := BeginsString(c, t);
    } else if b == MINUS || IsDigit(b) {
      u := BeginsNumber(c, t, b);
    } else {
      var l := if b == LOWER_T then True else if b == LOWER_F then False else Null;
      u := BeginsLiteral(c, t, l);
    }
  }

  lemma ContainerByte(c: Config, b: byte)
    requires Valid(c) && !c.endTop && !c.failed && !BeginValueAt(c, b).0.failed
    ensures b == LBRACE ==>
              && |c.stack| < MAX_NESTING_DEPTH
              && BeginValueAt(c, b) == (Config(BeginStringOrEmpty, c.stack + [ObjectKey], false, false), ScanContinue)
    ensures b == LBRACKET ==>
              && |c.stack| < MAX_NESTING_DEPTH
              && BeginValueAt(c, b) == (Config(BeginValueOrEmpty, c.stack + [ArrayValue], false, false), ScanContinue)
  {
  }

  lemma Opens(c: Config, t: Tree, b: byte, f: Frame) returns (u: Tree)
    requires Tracks(c, t) && t.focus.Waiting? && !TopIsKey(t.frames) && |c.stack| < MAX_NESTING_DEPTH
    requires ValidFrame(f, |t.frames|) && RenderFrame(f) == t.focus.ws + [b]
    ensures Reads((Config(WaitingState([f]), c.stack + [FrameParse(f)], false, false), ScanContinue), t, b, u)
  {
    hide RenderFrame;
    hide RenderFrames;
    hide ValidFrame;
    hide ValidFrames;
    PushFrame(t.frames, f, c.stack);
    u := Tree(t.frames + [f], Waiting([]));
    assert RenderFrames(t.frames) + (t.focus.ws + [b]) + [] == RenderFrames(t.frames) + t.focus.ws + [b];
    assert ValidFocus(u, Config(WaitingState([f]), c.stack + [FrameParse(f)], false, false));
  }

  lemma BeginsContainer(c: Config, t: Tree, b: byte) returns (u: Tree)
    requires Tracks(c, t) && t.focus.Waiting? && !TopIsKey(t.frames)
    requires b == LBRACE || b == LBRACKET
    requires !BeginValueAt(c, b).0.failed
    ensures Reads(BeginValueAt(c, b), t, b, u)
  {
    FocusState(c, t);
    ContainerByte(c, b);
    hide BeginValueAt;
    hide Reads;
    assert AllWs(t.focus.ws) && |t.frames| == |c.stack|;
    hide Tracks;
    var f := if b == LBRACE then InKey(t.focus.ws, NoMembers) else InArray(t.focus.ws, NoElements);
    assert RenderFrame(f) == t.focus.ws + [b];
    u := Opens(c, t, b, f);
  }

  lemma EmptyElement(top: Frame, ws: bytes, b: byte) returns (e: Element)
    requires AllWs(top.before) && AllWs(ws)
    requires (b == RBRACKET && top.InArray? && top.elements == NoElements)
             || (b == RBRACE && top.InKey? && top.members == NoMembers)
    ensures ValidElement(e) && Depth(e.value) == 1 && RenderElement(e) == RenderFrame(top) + ws + [b]
  {
    e := Element(top.before, if b == RBRACKET then Array(ws, NoElements) else Object(ws, NoMembers), []);
    assert RenderElement(e) == RenderFrame(top) + ws + [b];
  }

  lemma EmptyCloses(c: Config, outer: seq<ParseState>, b: byte)
    requires Valid(c) && c.stack != [] && outer == c.stack[..|c.stack| - 1]
    requires (c.state == BeginValueOrEmpty && b == RBRACKET) || (c.state == BeginStringOrEmpty && b == RBRACE)
    ensures StepStructure(c, b).0 == Config(if outer == [] then EndTop else EndValue, outer, outer == [], false)
  {
    assert (outer + [ObjectValue])[..|outer|] == outer;
  }

  lemma ClosesEmpty(c: Config, t: Tree, b: byte) returns (u: Tree)
    requires Tracks(c, t) && t.focus.Waiting?
    requires (c.state == BeginValueOrEmpty && b == RBRACKET) || (c.state == BeginStringOrEmpty && b == RBRACE)
    ensures Reads(StepStructure(c, b), t, b, u)
  {
    hide ValidFrames;
    hide RenderFrames;
    hide StepStructure;
    hide RenderElement;
    hide RenderFrame;
    hide Reads;
    var rest, outer, top := PopFrame(t.frames, c.stack);
    EmptyCloses(c, outer, b);
    var e := EmptyElement(top, t.focus.ws, b);
    var r := StepStructure(c, b);
    Closed(r.0, t, b, rest, outer, top, e, r.1);
    u := Tree(rest, Whole(e));
  }

  lemma BeginsKey(c: Config, t: Tree, b: byte) returns (u: Tree)
    requires Tracks(c, t) && t.focus.Waiting? && TopIsKey(t.frames) && !BeginStringAt(c, b).0.failed
    ensures Reads(BeginStringAt(c, b), t, b, u)
  {
    hide Reads;
    hide Tracks;
    if IsWs(b) {
      u := SkipsWs(c, t, b);
    } else {
      u := BeginsString(c, t);
    }
  }

  /** Which scan states go with which part of the tree. */
  lemma FocusState(c: Config, t: Tree)
    requires Tracks(c, t)
    ensures !c.failed
    ensures t.focus.Quoted? ==> StringState(c.state)
    ensures t.focus.Digits? ==> NumberState(c.state)
    ensures t.focus.Letters? ==> LiteralState(c.state)
    ensures t.focus.WholeKey? ==> c.state == EndValue
    ensures t.focus.Whole? ==> c.state == EndValue || (c.state == EndTop && c.stack == [])
    ensures t.focus.Waiting? && TopIsKey(t.frames) ==> c.state == BeginString || c.state == BeginStringOrEmpty
    ensures t.focus.Waiting? && !TopIsKey(t.frames) ==> c.state == BeginValue || c.state == BeginValueOrEmpty
  {
    hide ValidFrames;
  }

  lemma ReadsWaiting(c: Config, t: Tree, b: byte) returns (u: Tree)
    requires Tracks(c, t) && t.focus.Waiting? && !StepStructure(c, b).0.failed
    ensures Reads(StepStructure(c, b), t, b, u)
  {
    FocusState(c, t);
    hide Reads;
    hide Tracks;
    hide EndValueAt;
    hide BeginValueAt;
    hide BeginStringAt;
    if (c.state == BeginValueOrEmpty && b == RBRACKET) || (c.state == BeginStringOrEmpty && b == RBRACE) {
      u := ClosesEmpty(c, t, b);
    } else if TopIsKey(t.frames) {
      u := BeginsKey(c, t, b);
    } else if b == LBRACE || b == LBRACKET {
      u := BeginsContainer(c, t, b);
    } else {
      u := BeginsScalar(c, t, b);
    }
  }

  lemma ReadsWhole(c: Config, t: Tree, b: byte) returns (u: Tree)
    requires Tracks(c, t) && (t.focus.Whole? || t.focus.WholeKey?) && !StepStructure(c, b).0.failed
    ensures Reads(StepStructure(c, b), t, b, u)
  {
    if t.focus.WholeKey? {
      u := EndsKey(c, t, b);
    } else {
      u := EndsValue(c, t, b);
    }
  }

  lemma ReadsByte(c: Config, t: Tree, b: byte) returns (u: Tree)
    requires Tracks(c, t) && !StepByte(c, b).0.failed
    ensures Reads(StepByte(c, b), t, b, u)
  {
    FocusState(c, t);
    hide Tracks;
    hide Reads;
    hide StepString;
    hide StepNumber;
    hide StepLiteral;
    hide StepStructure;
    match t.focus
    case Quoted(_, _, _) => u := ReadsString(c, t, b);
    case Digits(_, _) => u := ReadsNumber(c, t, b);
    case Letters(_, _, _) => u := ReadsLiteral(c, t, b);
    case Waiting(_) => u := ReadsWaiting(c, t, b);
    case Whole(_) => u := ReadsWhole(c, t, b);
    case WholeKey(_) => u := ReadsWhole(c, t, b);
  }

  lemma ReadsNothing() returns (t: Tree)
    ensures Tracks(Initial, t) && RenderTree(t) == []
  {
    t := Tree([], Waiting([]));
  }

  lemma {:induction false} ReadsAll(s: bytes) returns (t: Tree)
    requires !Run(Initial, s).failed
    ensures Tracks(Run(Initial, s), t) && RenderTree(t) == s
    decreases |s|
  {
    hide StepByte;
    hide Tracks;
    hide RenderTree;
    if s == [] {
      t := ReadsNothing();
    } else {
      var init, last := s[..|s| - 1], s[|s| - 1];
      if Run(Initial, init).failed {
        FailedStays(Run(Initial, init), last);
      }
      var before := ReadsAll(init);
      t := ReadsByte(Run(Initial, init), before, last);
      assert s == init + [last];
    }
  }

  lemma FailedStays(c: Config, b: byte)
    requires Valid(c) && c.failed
    ensures StepByte(c, b).0 == c
  {
  }

  /** A virtual space ends the text only after a value that is already whole. */
  lemma EofState(c: Config)
    requires Valid(c) && !c.failed && !c.endTop && StepByte(c, SPACE).0.endTop
    ensures c.stack == []
    ensures c.state == EndValue || c.state == Zero || c.state == Integer || c.state == Decimal || c.state == ExponentDigits
  {
  }

  lemma WholeAtEnd(c: Config, t: Tree) returns (e: Element)
    requires Tracks(c, t) && c.stack == []
    requires c.state == EndTop || c.state == EndValue || c.state == Zero || c.state == Integer || c.state == Decimal
             || c.state == ExponentDigits
    ensures ValidElement(e) && Depth(e.value) <= MAX_NESTING_DEPTH && RenderElement(e) == RenderTree(t)
  {
    if t.focus.Digits? {
      e := Element(t.focus.before, Numeral(t.focus.num), []);
      assert RenderElement(e) == RenderFocus(t.focus);
    } else {
      e := t.focus.element;
    }
  }

  lemma {:induction false} Sound(s: bytes)
    requires Accepts(s)
    ensures IsJsonText(s, MAX_NESTING_DEPTH)
  {
    hide StepByte;
    hide Run;
    var c := Run(Initial, s);
    var t := ReadsAll(s);
    if !c.endTop {
      EofState(c);
    }
    var e := WholeAtEnd(c, t);
  }
}
