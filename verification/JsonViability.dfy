/** The validator refuses at the first byte that no grammatical text could have there: as long
as it has not failed, what was read can still be completed. */
module JsonViability {
  import opened JsonGrammar
  import opened JsonAutomaton
  import opened JsonCompleteness
  import JsonValidator

  const DIGIT := [ZERO]
  const EMPTY_STRING := [QUOTE, QUOTE]

  /** Bytes that complete the token being read. */
  function TokenRest(s: ScanState): bytes {
    match s
    case BeginValue => DIGIT
    case BeginValueOrEmpty => DIGIT
    case BeginStringOrEmpty => EMPTY_STRING
    case BeginString => EMPTY_STRING
    case InString => [QUOTE]
    case InStringEscape => [LOWER_N, QUOTE]
    case InStringUnicode1 => [ZERO, ZERO, ZERO, ZERO, QUOTE]
    case InStringUnicode2 => [ZERO, ZERO, ZERO, QUOTE]
    case InStringUnicode3 => [ZERO, ZERO, QUOTE]
    case InStringUnicode4 => [ZERO, QUOTE]
    case Negative => DIGIT
    case DecimalPoint => DIGIT
    case Exponent => DIGIT
    case ExponentSign => DIGIT
    case TrueR => [LOWER_R, LOWER_U, LOWER_E]
    case TrueU => [LOWER_U, LOWER_E]
    case TrueE => [LOWER_E]
    case FalseA => [LOWER_A, LOWER_L, LOWER_S, LOWER_E]
    case FalseL => [LOWER_L, LOWER_S, LOWER_E]
    case FalseS => [LOWER_S, LOWER_E]
    case FalseE => [LOWER_E]
    case NullU => [LOWER_U, LOWER_L, LOWER_L]
    case NullL1 => [LOWER_L, LOWER_L]
    case NullL2 => [LOWER_L]
    case _ => []
  }

  /** `d` is `c` with the first byte of the token's rest read. */
  predicate OneLess(c: Config, d: Config) {
    && Valid(d) && !d.failed && !d.endTop && d.stack == c.stack
    && TokenRest(c.state) != [] && TokenRest(d.state) == TokenRest(c.state)[1..]
  }

  lemma FirstStringByte(c: Config)
    requires Valid(c) && StringState(c.state)
    ensures OneLess(c, StepString(c, TokenRest(c.state)[0]).0)
  {
  }

  lemma FirstLiteralByte(c: Config)
    requires Valid(c) && LiteralState(c.state)
    ensures OneLess(c, StepLiteral(c, TokenRest(c.state)[0]).0)
  {
    var s := StepLiteral(c, TokenRest(c.state)[0]).0.state;
    assert TokenRest(s) == TokenRest(c.state)[1..];
  }

  lemma FirstNumberByte(c: Config)
    requires Valid(c) && NumberState(c.state) && TokenRest(c.state) != []
    ensures OneLess(c, StepNumber(c, TokenRest(c.state)[0]).0)
  {
  }

  lemma FirstStructureByte(c: Config)
    requires Valid(c) && !c.failed && TokenRest(c.state) != []
    requires !StringState(c.state) && !NumberState(c.state) && !LiteralState(c.state)
    ensures OneLess(c, StepStructure(c, TokenRest(c.state)[0]).0)
  {
  }

  lemma FirstTokenByte(c: Config)
    requires Valid(c) && !c.failed && TokenRest(c.state) != []
    ensures OneLess(c, StepByte(c, TokenRest(c.state)[0]).0)
  {
    hide TokenRest;
    hide OneLess;
    hide StepString;
    hide StepNumber;
    hide StepLiteral;
    hide StepStructure;
    if StringState(c.state) {
      FirstStringByte(c);
    } else if NumberState(c.state) {
      FirstNumberByte(c);
    } else if LiteralState(c.state) {
      FirstLiteralByte(c);
    } else {
      FirstStructureByte(c);
    }
  }

  lemma {:induction false} FinishToken(c: Config)
    requires Valid(c) && !c.failed
    ensures Ended(Run(c, TokenRest(c.state)), c.stack)
    decreases |TokenRest(c.state)|
  {
    hide StepByte;
    var rest := TokenRest(c.state);
    if rest == [] {
      RunNothing(c);
    } else {
      FirstTokenByte(c);
      var d := StepByte(c, rest[0]).0;
      RunOne(c, rest[0]);
      RunConcat(c, [rest[0]], rest[1..]);
      assert rest == [rest[0]] + rest[1..];
      hide TokenRest;
      FinishToken(d);
    }
  }

  /** Bytes that close every open container, innermost first. */
  function Closers(stack: seq<ParseState>): bytes {
    if stack == [] then []
    else
      var outer := stack[..|stack| - 1];
      match stack[|stack| - 1]
      case ArrayValue => [RBRACKET] + Closers(outer)
      case ObjectValue => [RBRACE] + Closers(outer)
      case ObjectKey => [COLON] + ([ZERO] + ([RBRACE] + Closers(outer)))
  }

  lemma {:induction false} CloseAll(c: Config, stack: seq<ParseState>)
    requires Ended(c, stack)
    ensures Ended(Run(c, Closers(stack)), [])
    decreases |stack|
  {
    hide StepByte;
    hide Run;
    if stack == [] {
      RunNothing(c);
    } else {
      var outer, top := stack[..|stack| - 1], stack[|stack| - 1];
      assert stack == outer + [top];
      var rest := Closers(outer);
      match top
      case ArrayValue =>
        CloseArrayStep(c, outer);
        RunOne(c, RBRACKET);
        RunConcat(c, [RBRACKET], rest);
        CloseAll(Run(c, [RBRACKET]), outer);
      case ObjectValue =>
        CloseObjectStep(c, outer);
        RunOne(c, RBRACE);
        RunConcat(c, [RBRACE], rest);
        CloseAll(Run(c, [RBRACE]), outer);
      case ObjectKey =>
        ColonStep(c, outer);
        RunOne(c, COLON);
        var c1 := Run(c, [COLON]);
        DigitStep(c1, ZERO);
        ScanStep(c1, ZERO, Zero);
        var c2 := Run(c1, [ZERO]);
        CloseObjectStep(c2, outer);
        RunOne(c2, RBRACE);
        var c3 := Run(c2, [RBRACE]);
        CloseAll(c3, outer);
        RunConcat(c2, [RBRACE], rest);
        RunConcat(c1, [ZERO], [RBRACE] + rest);
        RunConcat(c, [COLON], [ZERO] + ([RBRACE] + rest));
    }
  }

  /** The bytes read so far make the validator fail exactly when no continuation is a JSON text. */
  lemma FailsAtFirstHopelessByte(s: bytes)
    ensures Run(Initial, s).failed <==> forall t: bytes :: !IsJsonText(s + t, MAX_NESTING_DEPTH)
  {
    hide StepByte;
    hide Run;
    hide IsJsonText;
    var c := Run(Initial, s);
    if c.failed {
      forall t: bytes
        ensures !IsJsonText(s + t, MAX_NESTING_DEPTH)
      {
        JsonValidator.RejectsForGood(s, t);
      }
    } else {
      var token := TokenRest(c.state);
      FinishToken(c);
      var d := Run(c, token);
      CloseAll(d, c.stack);
      RunConcat(c, token, Closers(c.stack));
      var t := token + Closers(c.stack);
      RunConcat(Initial, s, t);
      EndedIsAccepted(s + t);
      JsonValidator.AcceptsExactlyJson(s + t);
    }
  }

  lemma EndedIsAccepted(s: bytes)
    requires Ended(Run(Initial, s), [])
    ensures Accepts(s)
  {
    hide StepByte;
    hide Run;
    var c := Run(Initial, s);
    if !c.endTop {
      EndedTakes(c, [], SPACE);
    }
  }
}
