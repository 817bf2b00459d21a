/** Every grammatical text within the nesting limit is accepted: structural induction on the
syntax tree, following the automaton through what the tree is written as. */
module JsonCompleteness {
  import opened JsonGrammar
  import opened JsonAutomaton

  /** A whole value has been read inside the containers `stack`; a number may still grow. */
  predicate Ended(c: Config, stack: seq<ParseState>) {
    && Valid(c) && !c.failed && c.stack == stack
    && ((stack == [] && c.state == EndTop)
        || (!c.endTop && (c.state == EndValue || c.state == Zero || c.state == Integer || c.state == Decimal
                          || c.state == ExponentDigits)))
  }

  predicate Terminator(b: byte) {
    IsWs(b) || b == COMMA || b == COLON || b == RBRACE || b == RBRACKET
  }

  lemma EndedTakes(c: Config, stack: seq<ParseState>, b: byte)
    requires Ended(c, stack) && Terminator(b) && (stack != [] || IsWs(b))
    ensures StepByte(c, b) == EndValueAt(Config(EndValue, stack, false, false), b)
  {
  }

  /** Where one byte leads when nothing but the scan state changes. */
  lemma ScanStep(c: Config, b: byte, s: ScanState)
    requires Valid(c) && StepByte(c, b).0 == c.(state := s)
    ensures Run(c, [b]) == c.(state := s) && Valid(c.(state := s))
  {
    hide StepByte;
    RunOne(c, b);
  }

  predicate Begins(c: Config) {
    Valid(c) && (c.state == BeginValue || c.state == BeginValueOrEmpty || c.state == BeginString || c.state == BeginStringOrEmpty)
  }

  lemma BeginSkips(c: Config, b: byte)
    requires Begins(c) && IsWs(b)
    ensures StepByte(c, b).0 == c
  {
  }

  lemma {:induction false} LeadingWs(c: Config, ws: bytes)
    requires Begins(c) && AllWs(ws)
    ensures Run(c, ws) == c
    decreases |ws|
  {
    hide StepByte;
    if ws != [] {
      LeadingWs(c, ws[..|ws| - 1]);
      assert IsWs(ws[|ws| - 1]);
      BeginSkips(c, ws[|ws| - 1]);
    }
  }

  lemma {:induction false} TrailingWs(c: Config, stack: seq<ParseState>, ws: bytes)
    requires Ended(c, stack) && AllWs(ws)
    ensures Ended(Run(c, ws), stack)
    decreases |ws|
  {
    hide StepByte;
    if ws != [] {
      var init, last := ws[..|ws| - 1], ws[|ws| - 1];
      assert IsWs(last);
      TrailingWs(c, stack, init);
      EndedTakes(Run(c, init), stack, last);
    }
  }

  // Strings

  lemma HexStep(c: Config, b: byte)
    requires Valid(c) && IsHex(b)
    ensures c.state == InStringUnicode1 ==> StepByte(c, b).0 == c.(state := InStringUnicode2)
    ensures c.state == InStringUnicode2 ==> StepByte(c, b).0 == c.(state := InStringUnicode3)
    ensures c.state == InStringUnicode3 ==> StepByte(c, b).0 == c.(state := InStringUnicode4)
    ensures c.state == InStringUnicode4 ==> StepByte(c, b).0 == c.(state := InString)
  {
  }

  lemma EscapeStep(c: Config, b: byte)
    requires Valid(c)
    ensures c.state == InString && b == BACKSLASH ==> StepByte(c, b).0 == c.(state := InStringEscape)
    ensures c.state == InStringEscape && IsEscapee(b) ==> StepByte(c, b).0 == c.(state := InString)
    ensures c.state == InStringEscape && b == LOWER_U ==> StepByte(c, b).0 == c.(state := InStringUnicode1)
    ensures c.state == InString && ValidItem(Raw(b)) ==> StepByte(c, b).0 == c
  {
  }

  lemma RunItem(c: Config, i: StringItem)
    requires Valid(c) && c.state == InString && ValidItem(i)
    ensures Run(c, RenderItem(i)) == c
  {
    hide StepByte;
    hide Run;
    match i
    case Raw(b) =>
      EscapeStep(c, b);
      ScanStep(c, b, InString);
    case Escape(b) =>
      EscapeStep(c, BACKSLASH);
      ScanStep(c, BACKSLASH, InStringEscape);
      var c1 := c.(state := InStringEscape);
      EscapeStep(c1, b);
      ScanStep(c1, b, InString);
      RunConcat(c, [BACKSLASH], [b]);
      assert RenderItem(i) == [BACKSLASH] + [b];
    case Unicode(h1, h2, h3, h4) =>
      EscapeStep(c, BACKSLASH);
      ScanStep(c, BACKSLASH, InStringEscape);
      var c1 := c.(state := InStringEscape);
      EscapeStep(c1, LOWER_U);
      ScanStep(c1, LOWER_U, InStringUnicode1);
      RunConcat(c, [BACKSLASH], [LOWER_U]);
      RunHexes(c, h1, h2, h3, h4);
      RunConcat(c, [BACKSLASH] + [LOWER_U], [h1, h2, h3, h4]);
      assert RenderItem(i) == [BACKSLASH] + [LOWER_U] + [h1, h2, h3, h4];
  }

  lemma RunHexes(c: Config, h1: byte, h2: byte, h3: byte, h4: byte)
    requires Valid(c) && c.state == InString && IsHex(h1) && IsHex(h2) && IsHex(h3) && IsHex(h4)
    ensures Run(c.(state := InStringUnicode1), [h1, h2, h3, h4]) == c
  {
    hide StepByte;
    hide Run;
    var c1 := c.(state := InStringUnicode1);
    HexStep(c1, h1);
    ScanStep(c1, h1, InStringUnicode2);
    var c2 := c.(state := InStringUnicode2);
    HexStep(c2, h2);
    ScanStep(c2, h2, InStringUnicode3);
    var c3 := c.(state := InStringUnicode3);
    HexStep(c3, h3);
    ScanStep(c3, h3, InStringUnicode4);
    var c4 := c.(state := InStringUnicode4);
    HexStep(c4, h4);
    ScanStep(c4, h4, InString);
    RunConcat(c1, [h1], [h2]);
    RunConcat(c1, [h1] + [h2], [h3]);
    RunConcat(c1, [h1] + [h2] + [h3], [h4]);
    assert [h1, h2, h3, h4] == [h1] + [h2] + [h3] + [h4];
  }

  lemma {:induction false} RunItems(c: Config, items: seq<StringItem>)
    requires Valid(c) && c.state == InString && ValidItems(items)
    ensures Run(c, RenderItems(items)) == c
    decreases |items|
  {
    hide StepByte;
    if items != [] {
      var init, last := items[..|items| - 1], items[|items| - 1];
      RunItems(c, init);
      RunItem(c, last);
      RunConcat(c, RenderItems(init), RenderItem(last));
    }
  }

  lemma QuoteStep(c: Config)
    requires Valid(c)
    ensures Begins(c) ==> StepByte(c, QUOTE).0 == c.(state := InString)
    ensures c.state == InString ==> StepByte(c, QUOTE).0 == c.(state := EndValue)
  {
  }

  lemma RunString(c: Config, items: seq<StringItem>)
    requires Begins(c) && ValidItems(items)
    ensures Run(c, RenderString(items)) == c.(state := EndValue)
  {
    hide StepByte;
    hide Run;
    QuoteStep(c);
    ScanStep(c, QUOTE, InString);
    var c1 := c.(state := InString);
    RunItems(c1, items);
    RunConcat(c, [QUOTE], RenderItems(items));
    QuoteStep(c1);
    ScanStep(c1, QUOTE, EndValue);
    RunConcat(c, [QUOTE] + RenderItems(items), [QUOTE]);
  }

  // Literal names

  /** The state after the first `n` letters of a literal name. */
  function LetterState(l: Literal, n: nat): ScanState
    requires 1 <= n <= |Word(l)|
  {
    if n == |Word(l)| then EndValue
    else match l
      case True => [TrueR, TrueU, TrueE][n - 1]
      case False => [FalseA, FalseL, FalseS, FalseE][n - 1]
      case Null => [NullU, NullL1, NullL2][n - 1]
  }

  lemma LetterStep(c: Config, l: Literal, n: nat)
    requires Valid(c) && 1 <= n < |Word(l)| && c.state == LetterState(l, n)
    ensures StepByte(c, Word(l)[n]).0 == c.(state := LetterState(l, n + 1))
  {
  }

  lemma FirstLetterStep(c: Config, l: Literal)
    requires Valid(c) && (c.state == BeginValue || c.state == BeginValueOrEmpty)
    ensures StepByte(c, Word(l)[0]).0 == c.(state := LetterState(l, 1))
  {
  }

  lemma {:induction false} RunLetters(c: Config, l: Literal, n: nat)
    requires Valid(c) && (c.state == BeginValue || c.state == BeginValueOrEmpty) && 1 <= n <= |Word(l)|
    ensures Run(c, Word(l)[..n]) == c.(state := LetterState(l, n))
    decreases n
  {
    hide StepByte;
    hide LetterState;
    if n == 1 {
      FirstLetterStep(c, l);
      ScanStep(c, Word(l)[0], LetterState(l, 1));
      assert Word(l)[..1] == [Word(l)[0]];
    } else {
      RunLetters(c, l, n - 1);
      LetterStep(c.(state := LetterState(l, n - 1)), l, n - 1);
      assert Word(l)[..n - 1] + [Word(l)[n - 1]] == Word(l)[..n];
      hide Word;
      hide Run;
      RunLast(c, Word(l)[..n - 1], Word(l)[n - 1]);
    }
  }

  // Numbers

  lemma DigitStep(c: Config, b: byte)
    requires Valid(c) && IsDigit(b)
    ensures c.state == Integer || c.state == Decimal || c.state == ExponentDigits ==> StepByte(c, b).0 == c
    ensures c.state == DecimalPoint ==> StepByte(c, b).0 == c.(state := Decimal)
    ensures c.state == Exponent || c.state == ExponentSign ==> StepByte(c, b).0 == c.(state := ExponentDigits)
    ensures c.state == BeginValue || c.state == BeginValueOrEmpty || c.state == Negative ==>
              StepByte(c, b).0 == c.(state := if b == ZERO then Zero else Integer)
  {
  }

  lemma NumberMarkStep(c: Config, b: byte)
    requires Valid(c)
    ensures (c.state == BeginValue || c.state == BeginValueOrEmpty) && b == MINUS ==>
              StepByte(c, b).0 == c.(state := Negative)
    ensures (c.state == Zero || c.state == Integer) && b == DOT ==> StepByte(c, b).0 == c.(state := DecimalPoint)
    ensures (c.state == Zero || c.state == Integer || c.state == Decimal) && (b == LOWER_E || b == UPPER_E) ==>
              StepByte(c, b).0 == c.(state := Exponent)
    ensures c.state == Exponent && (b == PLUS || b == MINUS) ==> StepByte(c, b).0 == c.(state := ExponentSign)
  {
  }

  lemma {:induction false} RunDigits(c: Config, d: bytes)
    requires Valid(c) && (c.state == Integer || c.state == Decimal || c.state == ExponentDigits) && AllDigits(d)
    ensures Run(c, d) == c
    decreases |d|
  {
    hide StepByte;
    if d != [] {
      RunDigits(c, d[..|d| - 1]);
      assert IsDigit(d[|d| - 1]);
      DigitStep(c, d[|d| - 1]);
    }
  }

  /** The first digit takes the automaton to `s`, the others keep it there. */
  lemma RunDigitsFrom(c: Config, d: bytes, s: ScanState)
    requires Valid(c) && d != [] && AllDigits(d) && (s == Integer || s == Decimal || s == ExponentDigits)
    requires StepByte(c, d[0]).0 == c.(state := s)
    ensures Run(c, d) == c.(state := s)
  {
    hide StepByte;
    hide Run;
    ScanStep(c, d[0], s);
    RunDigits(c.(state := s), d[1..]);
    RunConcat(c, [d[0]], d[1..]);
    assert d == [d[0]] + d[1..];
  }

  lemma RunWhole(c: Config, n: Number)
    requires Valid(c) && (c.state == BeginValue || c.state == BeginValueOrEmpty) && ValidWhole(n.whole)
    ensures Run(c, RenderWhole(n)) == c.(state := if n.whole[0] == ZERO then Zero else Integer)
  {
    hide StepByte;
    hide Run;
    var w := n.whole;
    assert IsDigit(w[0]);
    var start := c;
    if n.neg {
      NumberMarkStep(c, MINUS);
      ScanStep(c, MINUS, Negative);
      start := c.(state := Negative);
      RunConcat(c, [MINUS], w);
    } else {
      assert RenderWhole(n) == w;
    }
    DigitStep(start, w[0]);
    if w[0] == ZERO {
      ScanStep(start, w[0], Zero);
      assert w == [w[0]];
    } else {
      RunDigitsFrom(start, w, Integer);
    }
  }

  lemma RunFraction(c: Config, n: Number)
    requires Valid(c) && (c.state == Zero || c.state == Integer) && ValidNumber(n)
    ensures Run(c, RenderFraction(n)) == if n.dot then c.(state := Decimal) else c
  {
    hide StepByte;
    if n.dot {
      NumberMarkStep(c, DOT);
      ScanStep(c, DOT, DecimalPoint);
      assert IsDigit(n.frac[0]);
      DigitStep(c.(state := DecimalPoint), n.frac[0]);
      RunDigitsFrom(c.(state := DecimalPoint), n.frac, Decimal);
      RunConcat(c, [DOT], n.frac);
    } else {
      assert RenderFraction(n) == [];
    }
  }

  lemma RunExponent(c: Config, n: Number)
    requires Valid(c) && (c.state == Zero || c.state == Integer || c.state == Decimal) && ValidNumber(n)
    ensures Run(c, RenderExponent(n)) == if n.e == [] then c else c.(state := ExponentDigits)
  {
    hide StepByte;
    if n.e == [] {
      assert RenderExponent(n) == [];
    } else {
      NumberMarkStep(c, n.e[0]);
      ScanStep(c, n.e[0], Exponent);
      assert n.e == [n.e[0]];
      var c1 := c.(state := Exponent);
      var c2 := c1;
      if n.sign != [] {
        NumberMarkStep(c1, n.sign[0]);
        ScanStep(c1, n.sign[0], ExponentSign);
        assert n.sign == [n.sign[0]];
        c2 := c.(state := ExponentSign);
      }
      RunConcat(c, n.e, n.sign);
      RunConcat(c, n.e + n.sign, n.exp);
      assert IsDigit(n.exp[0]);
      DigitStep(c2, n.exp[0]);
      RunDigitsFrom(c2, n.exp, ExponentDigits);
    }
  }

  lemma RunNumber(c: Config, n: Number)
    requires Valid(c) && (c.state == BeginValue || c.state == BeginValueOrEmpty) && ValidNumber(n)
    ensures Ended(Run(c, RenderNumber(n)), c.stack)
  {
    hide StepByte;
    hide Run;
    RunWhole(c, n);
    var c1 := Run(c, RenderWhole(n));
    RunFraction(c1, n);
    var c2 := Run(c1, RenderFraction(n));
    RunExponent(c2, n);
    RunConcat(c, RenderWhole(n), RenderFraction(n));
    RunConcat(c, RenderWhole(n) + RenderFraction(n), RenderExponent(n));
  }

  // Containers

  lemma {:induction false} RunValue(c: Config, v: Value)
    requires Valid(c) && (c.state == BeginValue || c.state == BeginValueOrEmpty)
    requires ValidValue(v) && |c.stack| + Depth(v) <= MAX_NESTING_DEPTH
    ensures Ended(Run(c, RenderValue(v)), c.stack)
    decreases v, 1
  {
    hide StepByte;
    hide Run;
    match v
    case Name(l) =>
      RunLetters(c, l, |Word(l)|);
      assert Word(l)[..|Word(l)|] == Word(l);
    case Text(items) => RunString(c, items);
    case Numeral(n) => RunNumber(c, n);
    case Array(gap, es) => RunArray(c, gap, es);
    case Object(gap, ms) => RunObject(c, gap, ms);
  }

  lemma OpenStep(c: Config)
    requires Valid(c) && (c.state == BeginValue || c.state == BeginValueOrEmpty) && |c.stack| < MAX_NESTING_DEPTH
    ensures StepByte(c, LBRACKET).0 == Config(BeginValueOrEmpty, c.stack + [ArrayValue], false, false)
    ensures StepByte(c, LBRACE).0 == Config(BeginStringOrEmpty, c.stack + [ObjectKey], false, false)
  {
  }

  lemma CloseArrayAt(c: Config, outer: seq<ParseState>)
    requires Valid(c) && !c.failed && |outer| < MAX_NESTING_DEPTH && c.stack == outer + [ArrayValue]
    ensures Ended(EndValueAt(c, RBRACKET).0, outer)
  {
    assert c.stack[..|outer|] == outer;
  }

  lemma CloseArrayStep(c: Config, outer: seq<ParseState>)
    requires Valid(c) && |outer| < MAX_NESTING_DEPTH && c.stack == outer + [ArrayValue]
    requires c.state == BeginValueOrEmpty || Ended(c, c.stack)
    ensures Ended(StepByte(c, RBRACKET).0, outer)
  {
    CloseArrayAt(c, outer);
    CloseArrayAt(Config(EndValue, c.stack, false, false), outer);
    assert c.state == BeginValueOrEmpty ==> StepByte(c, RBRACKET) == EndValueAt(c, RBRACKET);
    hide StepByte;
    hide EndValueAt;
    if c.state != BeginValueOrEmpty {
      EndedTakes(c, c.stack, RBRACKET);
    }
  }

  lemma CloseEmptyObjectStep(c: Config, outer: seq<ParseState>)
    requires Valid(c) && |outer| < MAX_NESTING_DEPTH && c.stack == outer + [ObjectKey] && c.state == BeginStringOrEmpty
    ensures Ended(StepByte(c, RBRACE).0, outer)
  {
    assert c.stack[..|outer|] == outer;
    var d := c.WithTop(ObjectValue);
    assert d.stack == outer + [ObjectValue];
    assert StepByte(c, RBRACE) == EndValueAt(d, RBRACE);
    hide StepByte;
    assert d.stack[..|outer|] == outer;
    assert EndValueAt(d, RBRACE).0 == Config(if outer == [] then EndTop else EndValue, outer, outer == [], false);
  }

  lemma CloseObjectStep(c: Config, outer: seq<ParseState>)
    requires |outer| < MAX_NESTING_DEPTH && Ended(c, outer + [ObjectValue])
    ensures Ended(StepByte(c, RBRACE).0, outer)
  {
    assert c.stack[..|outer|] == outer;
    EndedTakes(c, c.stack, RBRACE);
  }

  lemma RunNothing(c: Config)
    requires Valid(c)
    ensures Run(c, []) == c
  {
  }

  lemma {:induction false} RunArray(c: Config, gap: bytes, es: Elements)
    requires Valid(c) && (c.state == BeginValue || c.state == BeginValueOrEmpty)
    requires ValidValue(Array(gap, es)) && |c.stack| + 1 + ElementsDepth(es) <= MAX_NESTING_DEPTH
    ensures Ended(Run(c, RenderValue(Array(gap, es))), c.stack)
    decreases es, 2
  {
    hide StepByte;
    hide Run;
    var c1 := Config(BeginValueOrEmpty, c.stack + [ArrayValue], false, false);
    OpenStep(c);
    RunOne(c, LBRACKET);
    LeadingWs(c1, gap);
    RunConcat(c, [LBRACKET], gap);
    RunConcat(c, [LBRACKET] + gap, RenderElements(es));
    RunConcat(c, [LBRACKET] + gap + RenderElements(es), [RBRACKET]);
    var c2 := Run(c1, RenderElements(es));
    if es != NoElements {
      RunElements(c1, es);
    } else {
      RunNothing(c1);
    }
    CloseArrayStep(c2, c.stack);
    RunOne(c2, RBRACKET);
  }

  lemma {:induction false} RunObject(c: Config, gap: bytes, ms: Members)
    requires Valid(c) && (c.state == BeginValue || c.state == BeginValueOrEmpty)
    requires ValidValue(Object(gap, ms)) && |c.stack| + 1 + MembersDepth(ms) <= MAX_NESTING_DEPTH
    ensures Ended(Run(c, RenderValue(Object(gap, ms))), c.stack)
    decreases ms, 2
  {
    hide StepByte;
    hide Run;
    var c1 := Config(BeginStringOrEmpty, c.stack + [ObjectKey], false, false);
    OpenStep(c);
    RunOne(c, LBRACE);
    LeadingWs(c1, gap);
    RunConcat(c, [LBRACE], gap);
    RunConcat(c, [LBRACE] + gap, RenderMembers(ms));
    RunConcat(c, [LBRACE] + gap + RenderMembers(ms), [RBRACE]);
    var c2 := Run(c1, RenderMembers(ms));
    if ms != NoMembers {
      RunMembers(c1, c.stack, ms);
      CloseObjectStep(c2, c.stack);
    } else {
      RunNothing(c1);
      CloseEmptyObjectStep(c2, c.stack);
    }
    RunOne(c2, RBRACE);
  }

  lemma CommaStep(c: Config, outer: seq<ParseState>)
    ensures Ended(c, outer + [ArrayValue]) ==>
              StepByte(c, COMMA).0 == Config(BeginValue, outer + [ArrayValue], false, false)
    ensures Ended(c, outer + [ObjectValue]) ==>
              StepByte(c, COMMA).0 == Config(BeginString, outer + [ObjectKey], false, false)
  {
    assert (outer + [ObjectValue])[..|outer|] == outer;
  }

  lemma ColonStep(c: Config, outer: seq<ParseState>)
    requires Ended(c, outer + [ObjectKey])
    ensures StepByte(c, COLON).0 == Config(BeginValue, outer + [ObjectValue], false, false)
  {
    assert (outer + [ObjectKey])[..|outer|] == outer;
  }

  lemma {:induction false} RunElement(c: Config, e: Element)
    requires Valid(c) && (c.state == BeginValue || c.state == BeginValueOrEmpty)
    requires ValidElement(e) && |c.stack| + Depth(e.value) <= MAX_NESTING_DEPTH
    ensures Ended(Run(c, RenderElement(e)), c.stack)
    decreases e
  {
    hide StepByte;
    hide Run;
    LeadingWs(c, e.before);
    RunValue(c, e.value);
    RunConcat(c, e.before, RenderValue(e.value));
    TrailingWs(Run(c, RenderValue(e.value)), c.stack, e.after);
    RunConcat(c, e.before + RenderValue(e.value), e.after);
  }

  lemma {:induction false} RunElements(c: Config, es: Elements)
    requires Valid(c) && c.state == BeginValueOrEmpty && es != NoElements
    requires ValidElements(es) && |c.stack| + ElementsDepth(es) <= MAX_NESTING_DEPTH
    ensures Ended(Run(c, RenderElements(es)), c.stack)
    decreases es, 0
  {
    hide StepByte;
    hide Run;
    var init, last := es.init, es.last;
    RunConcat(c, RenderElements(init), Separator(init == NoElements));
    RunConcat(c, RenderElements(init) + Separator(init == NoElements), RenderElement(last));
    if init == NoElements {
      RunNothing(c);
      RunElement(c, last);
    } else {
      RunElements(c, init);
      var c1 := Run(c, RenderElements(init));
      CommaStep(c1, c.stack[..|c.stack| - 1]);
      assert c.stack == c.stack[..|c.stack| - 1] + [ArrayValue];
      RunOne(c1, COMMA);
      RunElement(Run(c1, [COMMA]), last);
    }
  }

  lemma {:induction false} RunMember(c: Config, outer: seq<ParseState>, m: Member)
    requires Valid(c) && (c.state == BeginString || c.state == BeginStringOrEmpty) && c.stack == outer + [ObjectKey]
    requires ValidMember(m) && |c.stack| + Depth(m.element.value) <= MAX_NESTING_DEPTH
    ensures Ended(Run(c, RenderMember(m)), outer + [ObjectValue])
    decreases m
  {
    hide StepByte;
    hide Run;
    var k := m.key;
    LeadingWs(c, k.before);
    RunString(c, k.items);
    RunConcat(c, k.before, RenderString(k.items));
    var c1 := c.(state := EndValue);
    TrailingWs(c1, c.stack, k.after);
    RunConcat(c, k.before + RenderString(k.items), k.after);
    var c2 := Run(c1, k.after);
    ColonStep(c2, outer);
    RunOne(c2, COLON);
    RunConcat(c, RenderKey(k), [COLON]);
    var c3 := Run(c2, [COLON]);
    RunElement(c3, m.element);
    RunConcat(c, RenderKey(k) + [COLON], RenderElement(m.element));
  }

  lemma {:induction false} RunMembers(c: Config, outer: seq<ParseState>, ms: Members)
    requires Valid(c) && c.state == BeginStringOrEmpty && c.stack == outer + [ObjectKey] && ms != NoMembers
    requires ValidMembers(ms) && |c.stack| + MembersDepth(ms) <= MAX_NESTING_DEPTH
    ensures Ended(Run(c, RenderMembers(ms)), outer + [ObjectValue])
    decreases ms, 0
  {
    hide StepByte;
    hide Run;
    var init, last := ms.init, ms.last;
    RunConcat(c, RenderMembers(init), Separator(init == NoMembers));
    RunConcat(c, RenderMembers(init) + Separator(init == NoMembers), RenderMember(last));
    if init == NoMembers {
      RunNothing(c);
      RunMember(c, outer, last);
    } else {
      RunMembers(c, outer, init);
      var c1 := Run(c, RenderMembers(init));
      CommaStep(c1, outer);
      RunOne(c1, COMMA);
      var c2 := Run(c1, [COMMA]);
      RunMember(c2, outer, last);
    }
  }

  lemma Complete(s: bytes)
    requires IsJsonText(s, MAX_NESTING_DEPTH)
    ensures Accepts(s)
  {
    hide StepByte;
    hide Run;
    var e: Element :| ValidElement(e) && Depth(e.value) <= MAX_NESTING_DEPTH && RenderElement(e) == s;
    RunElement(Initial, e);
    var c := Run(Initial, s);
    if !c.endTop {
      EndedTakes(c, [], SPACE);
    }
  }
}
