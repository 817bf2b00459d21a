/** The incremental validator's transition function, one byte at a time, on values. */
module JsonAutomaton {
  import opened JsonGrammar

  const MAX_NESTING_DEPTH: nat := 256

  datatype ScanOp = ScanContinue | ScanEndObject | ScanError

  datatype ScanState =
    | BeginValue | BeginValueOrEmpty | BeginStringOrEmpty | BeginString
    | EndValue | EndTop
    | InString | InStringEscape
    | InStringUnicode1 | InStringUnicode2 | InStringUnicode3 | InStringUnicode4
    | Negative | Zero | Integer | DecimalPoint | Decimal
    | Exponent | ExponentSign | ExponentDigits
    | TrueR | TrueU | TrueE
    | FalseA | FalseL | FalseS | FalseE
    | NullU | NullL1 | NullL2
    | Error

  datatype ParseState = ObjectKey | ObjectValue | ArrayValue

  datatype Config = Config(state: ScanState, stack: seq<ParseState>, endTop: bool, failed: bool) {
    function Top(): ParseState
      requires stack != []
    {
      stack[|stack| - 1]
    }

    /** Rewrites the innermost container's parse state. */
    function WithTop(p: ParseState): Config
      requires stack != []
    {
      this.(stack := stack[..|stack| - 1] + [p])
    }
  }

  const Initial := Config(BeginValue, [], false, false)

  /** What every reachable configuration satisfies: each state knows what is on the stack. */
  predicate Valid(c: Config) {
    && |c.stack| <= MAX_NESTING_DEPTH
    && (c.failed <==> c.state == Error)
    && (c.state == BeginValueOrEmpty ==> c.stack != [] && c.Top() == ArrayValue)
    && (c.state == BeginStringOrEmpty || c.state == BeginString ==> c.stack != [] && c.Top() == ObjectKey)
    && (c.state == EndTop ==> c.stack == [] && c.endTop)
    && (!c.failed && c.endTop ==> c.state == EndTop)
  }

  type Outcome = (Config, ScanOp)

  function Fail(c: Config): Outcome {
    (c.(state := Error, failed := true), ScanError)
  }

  function Goto(c: Config, s: ScanState): Outcome {
    (c.(state := s), ScanContinue)
  }

  function Push(c: Config, p: ParseState, s: ScanState): Outcome {
    if |c.stack| == MAX_NESTING_DEPTH then Fail(c)
    else (c.(stack := c.stack + [p], state := s), ScanContinue)
  }

  function Pop(c: Config): Config
    requires c.stack != []
  {
    var rest := c.stack[..|c.stack| - 1];
    if rest == [] then c.(stack := rest, state := EndTop, endTop := true)
    else c.(stack := rest, state := EndValue)
  }

  function EndValueAt(c: Config, b: byte): Outcome {
    if c.stack == [] then
      var done := c.(state := EndTop, endTop := true);
      if IsWs(b) then (done, ScanContinue) else Fail(done)
    else if IsWs(b) then Goto(c, EndValue)
    else match c.Top()
      case ObjectKey =>
        if b != COLON then Fail(c) else Goto(c.WithTop(ObjectValue), BeginValue)
      case ObjectValue =>
        if b == COMMA then Goto(c.WithTop(ObjectKey), BeginString)
        else if b != RBRACE then Fail(c)
        else (Pop(c), ScanEndObject)
      case ArrayValue =>
        if b == COMMA then Goto(c, BeginValue)
        else if b != RBRACKET then Fail(c)
        else (Pop(c), ScanContinue)
  }

  function BeginValueAt(c: Config, b: byte): Outcome {
    if IsWs(b) then (c, ScanContinue)
    else if b == LBRACE then Push(c, ObjectKey, BeginStringOrEmpty)
    else if b == LBRACKET then Push(c, ArrayValue, BeginValueOrEmpty)
    else if b == QUOTE then Goto(c, InString)
    else if b == MINUS then Goto(c, Negative)
    else if b == ZERO then Goto(c, Zero)
    else if b == LOWER_T then Goto(c, TrueR)
    else if b == LOWER_F then Goto(c, FalseA)
    else if b == LOWER_N then Goto(c, NullU)
    else if IsDigit(b) then Goto(c, Integer)
    else Fail(c)
  }

  function BeginStringAt(c: Config, b: byte): Outcome {
    if IsWs(b) then (c, ScanContinue)
    else if b != QUOTE then Fail(c)
    else Goto(c, InString)
  }

  function AfterInteger(c: Config, b: byte): Outcome {
    if b == DOT then Goto(c, DecimalPoint)
    else if b == LOWER_E || b == UPPER_E then Goto(c, Exponent)
    else EndValueAt(c, b)
  }

  function Expect(c: Config, ok: bool, next: ScanState): Outcome {
    if ok then Goto(c, next) else Fail(c)
  }

  function StepString(c: Config, b: byte): Outcome {
    match c.state
    case InString =>
      if b == QUOTE then Goto(c, EndValue)
      else if b == BACKSLASH then Goto(c, InStringEscape)
      else if b < 0x20 then Fail(c)
      else (c, ScanContinue)
    case InStringEscape =>
      if IsEscapee(b) then Goto(c, InString)
      else if b == LOWER_U then Goto(c, InStringUnicode1)
      else Fail(c)
    case InStringUnicode1 => Expect(c, IsHex(b), InStringUnicode2)
    case InStringUnicode2 => Expect(c, IsHex(b), InStringUnicode3)
    case InStringUnicode3 => Expect(c, IsHex(b), InStringUnicode4)
    case InStringUnicode4 => Expect(c, IsHex(b), InString)
    case _ => Fail(c)
  }

  function StepNumber(c: Config, b: byte): Outcome {
    match c.state
    case Negative =>
      if b == ZERO then Goto(c, Zero) else Expect(c, IsDigit(b), Integer)
    case Integer => if IsDigit(b) then (c, ScanContinue) else AfterInteger(c, b)
    case Zero => AfterInteger(c, b)
    case DecimalPoint => Expect(c, IsDigit(b), Decimal)
    case Decimal =>
      if IsDigit(b) then (c, ScanContinue)
      else if b == LOWER_E || b == UPPER_E then Goto(c, Exponent)
      else EndValueAt(c, b)
    case Exponent =>
      if b == PLUS || b == MINUS then Goto(c, ExponentSign) else Expect(c, IsDigit(b), ExponentDigits)
    case ExponentSign => Expect(c, IsDigit(b), ExponentDigits)
    case ExponentDigits => if IsDigit(b) then (c, ScanContinue) else EndValueAt(c, b)
    case _ => Fail(c)
  }

  function StepLiteral(c: Config, b: byte): Outcome {
    match c.state
    case TrueR => Expect(c, b == LOWER_R, TrueU)
    case TrueU => Expect(c, b == LOWER_U, TrueE)
    case TrueE => Expect(c, b == LOWER_E, EndValue)
    case FalseA => Expect(c, b == LOWER_A, FalseL)
    case FalseL => Expect(c, b == LOWER_L, FalseS)
    case FalseS => Expect(c, b == LOWER_S, FalseE)
    case FalseE => Expect(c, b == LOWER_E, EndValue)
    case NullU => Expect(c, b == LOWER_U, NullL1)
    case NullL1 => Expect(c, b == LOWER_L, NullL2)
    case NullL2 => Expect(c, b == LOWER_L, EndValue)
    case _ => Fail(c)
  }

  predicate StringState(s: ScanState) {
    s == InString || s == InStringEscape || s == InStringUnicode1 || s == InStringUnicode2
    || s == InStringUnicode3 || s == InStringUnicode4
  }

  predicate NumberState(s: ScanState) {
    s == Negative || s == Zero || s == Integer || s == DecimalPoint || s == Decimal
    || s == Exponent || s == ExponentSign || s == ExponentDigits
  }

  predicate LiteralState(s: ScanState) {
    s == TrueR || s == TrueU || s == TrueE || s == FalseA || s == FalseL || s == FalseS || s == FalseE
    || s == NullU || s == NullL1 || s == NullL2
  }

  function StepStructure(c: Config, b: byte): Outcome
    requires Valid(c)
  {
    match c.state
    case BeginValue => BeginValueAt(c, b)
    case BeginValueOrEmpty => if b == RBRACKET then EndValueAt(c, b) else BeginValueAt(c, b)
    case BeginStringOrEmpty =>
      if b == RBRACE then EndValueAt(c.WithTop(ObjectValue), b) else BeginStringAt(c, b)
    case BeginString => BeginStringAt(c, b)
    case EndValue => EndValueAt(c, b)
    case EndTop => if IsWs(b) then (c, ScanContinue) else Fail(c)
    case _ => Fail(c)
  }

  function StepByte(c: Config, b: byte): (r: Outcome)
    requires Valid(c)
  {
    if c.failed then (c, ScanError)
    else if StringState(c.state) then StepString(c, b)
    else if NumberState(c.state) then StepNumber(c, b)
    else if LiteralState(c.state) then StepLiteral(c, b)
    else StepStructure(c, b)
  }

  /** What one step promises about its outcome, whatever the byte. */
  predicate Sound(c: Config, b: byte, r: Outcome) {
    && Valid(r.0)
    && (r.1 == ScanError <==> r.0.failed)
    && (r.1 == ScanEndObject ==> b == RBRACE && |r.0.stack| + 1 == |c.stack|)
  }

  lemma EndValueSound(c: Config, b: byte)
    requires |c.stack| <= MAX_NESTING_DEPTH && !c.failed && (c.endTop ==> c.stack == [])
    ensures Sound(c, b, EndValueAt(c, b))
  {
  }

  lemma StringStepSound(c: Config, b: byte)
    requires Valid(c) && StringState(c.state)
    ensures Sound(c, b, StepString(c, b))
  {
  }

  lemma NumberStepSound(c: Config, b: byte)
    requires Valid(c) && NumberState(c.state)
    ensures Sound(c, b, StepNumber(c, b))
  {
    EndValueSound(c, b);
  }

  lemma LiteralStepSound(c: Config, b: byte)
    requires Valid(c) && LiteralState(c.state)
    ensures Sound(c, b, StepLiteral(c, b))
  {
  }

  lemma StructureStepSound(c: Config, b: byte)
    requires Valid(c) && !c.failed
    requires !StringState(c.state) && !NumberState(c.state) && !LiteralState(c.state)
    ensures Sound(c, b, StepStructure(c, b))
  {
    EndValueSound(c, b);
    if c.state == BeginStringOrEmpty {
      EndValueSound(c.WithTop(ObjectValue), b);
    }
  }

  lemma StepSound(c: Config, b: byte)
    requires Valid(c)
    ensures Sound(c, b, StepByte(c, b))
  {
    if c.failed {
    } else if StringState(c.state) {
      StringStepSound(c, b);
    } else if NumberState(c.state) {
      NumberStepSound(c, b);
    } else if LiteralState(c.state) {
      LiteralStepSound(c, b);
    } else {
      StructureStepSound(c, b);
    }
  }

  /** The configuration after all of `s`. */
  function Run(c: Config, s: bytes): (r: Config)
    requires Valid(c)
    ensures Valid(r)
  {
    if s == [] then c
    else
      var before := Run(c, s[..|s| - 1]);
      StepSound(before, s[|s| - 1]);
      StepByte(before, s[|s| - 1]).0
  }

  /** `eof`: a pending number or string is closed by a virtual space. */
  function Eof(c: Config): (r: (Config, bool))
    requires Valid(c)
    ensures Valid(r.0)
  {
    if c.failed then (c, false)
    else if c.endTop then (c, true)
    else
      StepSound(c, SPACE);
      var (after, op) := StepByte(c, SPACE);
      (after, op != ScanError && after.endTop)
  }

  predicate Accepts(s: bytes) {
    Eof(Run(Initial, s)).1
  }

  lemma {:induction false} RunConcat(c: Config, s: bytes, t: bytes)
    requires Valid(c)
    ensures Run(c, s + t) == Run(Run(c, s), t)
    decreases |t|
  {
    if t == [] {
      assert s + t == s;
    } else {
      var init, last := t[..|t| - 1], t[|t| - 1];
      assert (s + t)[..|s + t| - 1] == s + init;
      RunConcat(c, s, init);
    }
  }

  lemma RunLast(c: Config, s: bytes, b: byte)
    requires Valid(c)
    ensures Run(c, s + [b]) == StepByte(Run(c, s), b).0
  {
    hide StepByte;
    assert (s + [b])[..|s|] == s;
  }

  lemma RunOne(c: Config, b: byte)
    requires Valid(c)
    ensures Valid(StepByte(c, b).0)
    ensures Run(c, [b]) == StepByte(c, b).0
  {
    assert [b][..0] == [];
    assert Run(c, []) == c;
    StepSound(c, b);
  }

  lemma {:induction false} FailedForever(c: Config, s: bytes)
    requires Valid(c) && c.failed
    ensures Run(c, s) == c
    decreases |s|
  {
    if s != [] {
      FailedForever(c, s[..|s| - 1]);
    }
  }
}
