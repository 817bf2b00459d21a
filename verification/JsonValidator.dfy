/** The validator as the program runs it: fields updated in place, a fixed stack of parse states.
Every method is proved to make the automaton's step, so the acceptance theorem is about this class. */
module JsonValidator {
  import opened JsonGrammar
  import opened JsonAutomaton
  import JsonCompleteness
  import JsonSoundness

  /** The main result: the bytes are accepted exactly when the grammar writes them. */
  lemma AcceptsExactlyJson(s: bytes)
    ensures Accepts(s) <==> IsJsonText(s, MAX_NESTING_DEPTH)
  {
    hide Accepts;
    if Accepts(s) {
      JsonSoundness.Sound(s);
    }
    if IsJsonText(s, MAX_NESTING_DEPTH) {
      JsonCompleteness.Complete(s);
    }
  }

  /** Once a prefix is refused, no continuation of it is a JSON text. */
  lemma RejectsForGood(s: bytes, t: bytes)
    requires Run(Initial, s).failed
    ensures !IsJsonText(s + t, MAX_NESTING_DEPTH)
  {
    hide StepByte;
    RunConcat(Initial, s, t);
    FailedForever(Run(Initial, s), t);
    AcceptsExactlyJson(s + t);
  }

  class Validator {
    var state: ScanState
    const stack: array<ParseState>
    var depth: nat
    var endTop: bool
    var failed: bool

    predicate InBounds()
      reads this
    {
      stack.Length == MAX_NESTING_DEPTH && depth <= stack.Length
    }

    ghost function Here(): Config
      reads this, stack
      requires InBounds()
    {
      Config(state, stack[..depth], endTop, failed)
    }

    ghost predicate Ready()
      reads this, stack
    {
      InBounds() && Valid(Here())
    }

    constructor ()
      ensures Ready() && Here() == Initial
      ensures fresh(stack)
    {
      stack := new ParseState[MAX_NESTING_DEPTH];
      state, depth, endTop, failed := BeginValue, 0, false, false;
      new;
      assert stack[..0] == [];
    }

    method Reset()
      requires InBounds()
      modifies this
      ensures Ready() && Here() == Initial
    {
      state, depth, endTop, failed := BeginValue, 0, false, false;
      assert stack[..0] == [];
    }

    predicate ExpectsTopLevelObjectKey()
      reads this, stack
      requires InBounds()
    {
      depth == 1 && stack[0] == ObjectKey && (state == BeginStringOrEmpty || state == BeginString)
    }

    method Eof() returns (accepted: bool)
      requires Ready()
      modifies this, stack
      ensures Ready() && (Here(), accepted) == JsonAutomaton.Eof(old(Here()))
    {
      if failed {
        return false;
      }
      if endTop {
        return true;
      }
      var op := StepByte(SPACE);
      return op != ScanError && endTop;
    }

    method StepByte(current: byte) returns (op: ScanOp)
      requires Ready()
      modifies this, stack
      ensures Ready() && (Here(), op) == JsonAutomaton.StepByte(old(Here()), current)
    {
      StepSound(Here(), current);
      if failed {
        return ScanError;
      }
      var handled: bool;
      op, handled := StepString(current);
      if handled {
        return;
      }
      op, handled := StepNumber(current);
      if handled {
        return;
      }
      op, handled := StepLiteral(current);
      if handled {
        return;
      }
      op := StepStructure(current);
    }

    method StepStructure(current: byte) returns (op: ScanOp)
      requires Ready() && !failed && !StringState(state) && !NumberState(state) && !LiteralState(state)
      modifies this, stack
      ensures InBounds() && (Here(), op) == JsonAutomaton.StepStructure(old(Here()), current)
    {
      match state
      case BeginValue =>
        op := BeginValueAt(current);
      case BeginValueOrEmpty =>
        if IsWs(current) {
          return ScanContinue;
        }
        if current == RBRACKET {
          op := EndValueAt(current);
          return;
        }
        op := BeginValueAt(current);
      case BeginStringOrEmpty =>
        if IsWs(current) {
          return ScanContinue;
        }
        if current == RBRACE {
          SetTop(ObjectValue);
          op := EndValueAt(current);
          return;
        }
        op := BeginStringAt(current);
      case BeginString =>
        op := BeginStringAt(current);
      case EndValue =>
        op := EndValueAt(current);
      case EndTop =>
        if !IsWs(current) {
          op := Fail();
          return;
        }
        op := ScanContinue;
      case _ =>
        assert false;
        op := ScanError;
    }

    method StepString(current: byte) returns (op: ScanOp, handled: bool)
      requires Ready()
      modifies this
      ensures InBounds() && handled == StringState(old(state))
      ensures handled ==> (Here(), op) == JsonAutomaton.StepString(old(Here()), current)
      ensures !handled ==> Here() == old(Here())
    {
      handled := true;
      match state
      case InString =>
        if current == QUOTE {
          op := Goto(EndValue);
        } else if current == BACKSLASH {
          op := Goto(InStringEscape);
        } else if current < 0x20 {
          op := Fail();
        } else {
          op := ScanContinue;
        }
      case InStringEscape =>
        if IsEscapee(current) {
          op := Goto(InString);
        } else if current == LOWER_U {
          op := Goto(InStringUnicode1);
        } else {
          op := Fail();
        }
      case InStringUnicode1 => op := Expect(IsHex(current), InStringUnicode2);
      case InStringUnicode2 => op := Expect(IsHex(current), InStringUnicode3);
      case InStringUnicode3 => op := Expect(IsHex(current), InStringUnicode4);
      case InStringUnicode4 => op := Expect(IsHex(current), InString);
      case _ => op, handled := ScanContinue, false;
    }

    method StepNumber(current: byte) returns (op: ScanOp, handled: bool)
      requires Ready()
      modifies this, stack
      ensures InBounds() && handled == NumberState(old(state))
      ensures handled ==> (Here(), op) == JsonAutomaton.StepNumber(old(Here()), current)
      ensures !handled ==> Here() == old(Here())
    {
      handled := true;
      match state
      case Negative =>
        if current == ZERO {
          op := Goto(Zero);
        } else {
          op := Expect(IsDigit(current), Integer);
        }
      case Integer =>
        if IsDigit(current) {
          op := ScanContinue;
        } else {
          op := AfterInteger(current);
        }
      case Zero =>
        op := AfterInteger(current);
      case DecimalPoint =>
        op := Expect(IsDigit(current), Decimal);
      case Decimal =>
        if IsDigit(current) {
          op := ScanContinue;
        } else if current == LOWER_E || current == UPPER_E {
          op := Goto(Exponent);
        } else {
          op := EndValueAt(current);
        }
      case Exponent =>
        if current == PLUS || current == MINUS {
          op := Goto(ExponentSign);
        } else {
          op := Expect(IsDigit(current), ExponentDigits);
        }
      case ExponentSign =>
        op := Expect(IsDigit(current), ExponentDigits);
      case ExponentDigits =>
        if IsDigit(current) {
          op := ScanContinue;
        } else {
          op := EndValueAt(current);
        }
      case _ => op, handled := ScanContinue, false;
    }

    method StepLiteral(current: byte) returns (op: ScanOp, handled: bool)
      requires Ready()
      modifies this
      ensures InBounds() && handled == LiteralState(old(state))
      ensures handled ==> (Here(), op) == JsonAutomaton.StepLiteral(old(Here()), current)
      ensures !handled ==> Here() == old(Here())
    {
      handled := true;
      match state
      case TrueR => op := Expect(current == LOWER_R, TrueU);
      case TrueU => op := Expect(current == LOWER_U, TrueE);
      case TrueE => op := Expect(current == LOWER_E, EndValue);
      case FalseA => op := Expect(current == LOWER_A, FalseL);
      case FalseL => op := Expect(current == LOWER_L, FalseS);
      case FalseS => op := Expect(current == LOWER_S, FalseE);
      case FalseE => op := Expect(current == LOWER_E, EndValue);
      case NullU => op := Expect(current == LOWER_U, NullL1);
      case NullL1 => op := Expect(current == LOWER_L, NullL2);
      case NullL2 => op := Expect(current == LOWER_L, EndValue);
      case _ => op, handled := ScanContinue, false;
    }

    method BeginValueAt(current: byte) returns (op: ScanOp)
      requires InBounds()
      modifies this, stack
      ensures InBounds() && (Here(), op) == JsonAutomaton.BeginValueAt(old(Here()), current)
    {
      if IsWs(current) {
        op := ScanContinue;
      } else if current == LBRACE {
        op := Push(ObjectKey, BeginStringOrEmpty);
      } else if current == LBRACKET {
        op := Push(ArrayValue, BeginValueOrEmpty);
      } else if current == QUOTE {
        op := Goto(InString);
      } else if current == MINUS {
        op := Goto(Negative);
      } else if current == ZERO {
        op := Goto(Zero);
      } else if current == LOWER_T {
        op := Goto(TrueR);
      } else if current == LOWER_F {
        op := Goto(FalseA);
      } else if current == LOWER_N {
        op := Goto(NullU);
      } else if IsDigit(current) {
        op := Goto(Integer);
      } else {
        op := Fail();
      }
    }

    method BeginStringAt(current: byte) returns (op: ScanOp)
      requires InBounds()
      modifies this
      ensures InBounds() && (Here(), op) == JsonAutomaton.BeginStringAt(old(Here()), current)
    {
      if IsWs(current) {
        op := ScanContinue;
      } else {
        op := Expect(current == QUOTE, InString);
      }
    }

    method EndValueAt(current: byte) returns (op: ScanOp)
      requires InBounds()
      modifies this, stack
      ensures InBounds() && (Here(), op) == JsonAutomaton.EndValueAt(old(Here()), current)
    {
      if depth == 0 {
        state, endTop := EndTop, true;
        if !IsWs(current) {
          op := Fail();
          return;
        }
        return ScanContinue;
      }
      if IsWs(current) {
        op := Goto(EndValue);
        return;
      }
      match stack[depth - 1]
      case ObjectKey =>
        if current != COLON {
          op := Fail();
          return;
        }
        SetTop(ObjectValue);
        op := Goto(BeginValue);
      case ObjectValue =>
        if current == COMMA {
          SetTop(ObjectKey);
          op := Goto(BeginString);
          return;
        }
        if current != RBRACE {
          op := Fail();
          return;
        }
        Pop();
        op := ScanEndObject;
      case ArrayValue =>
        if current == COMMA {
          op := Goto(BeginValue);
          return;
        }
        if current != RBRACKET {
          op := Fail();
          return;
        }
        Pop();
        op := ScanContinue;
    }

    method AfterInteger(current: byte) returns (op: ScanOp)
      requires InBounds()
      modifies this, stack
      ensures InBounds() && (Here(), op) == JsonAutomaton.AfterInteger(old(Here()), current)
    {
      if current == DOT {
        op := Goto(DecimalPoint);
      } else if current == LOWER_E || current == UPPER_E {
        op := Goto(Exponent);
      } else {
        op := EndValueAt(current);
      }
    }

    method Goto(next: ScanState) returns (op: ScanOp)
      requires InBounds()
      modifies this`state
      ensures (Here(), op) == JsonAutomaton.Goto(old(Here()), next)
    {
      state := next;
      op := ScanContinue;
    }

    method Expect(ok: bool, next: ScanState) returns (op: ScanOp)
      requires InBounds()
      modifies this`state, this`failed
      ensures (Here(), op) == JsonAutomaton.Expect(old(Here()), ok, next)
    {
      if !ok {
        op := Fail();
        return;
      }
      op := Goto(next);
    }

    method SetTop(p: ParseState)
      requires InBounds() && depth > 0
      modifies stack
      ensures Here() == old(Here()).WithTop(p)
    {
      stack[depth - 1] := p;
      assert stack[..depth] == old(stack[..depth - 1]) + [p];
      assert old(stack[..depth])[..depth - 1] == old(stack[..depth - 1]);
    }

    method Push(p: ParseState, next: ScanState) returns (op: ScanOp)
      requires InBounds()
      modifies this, stack
      ensures InBounds() && (Here(), op) == JsonAutomaton.Push(old(Here()), p, next)
    {
      if depth == stack.Length {
        op := Fail();
        return;
      }
      stack[depth] := p;
      depth := depth + 1;
      state := next;
      assert stack[..depth] == old(stack[..depth]) + [p];
      op := ScanContinue;
    }

    method Pop()
      requires InBounds() && depth > 0
      modifies this
      ensures InBounds() && Here() == JsonAutomaton.Pop(old(Here()))
    {
      depth := depth - 1;
      assert stack[..depth] == old(stack[..depth])[..depth];
      if depth == 0 {
        state, endTop := EndTop, true;
      } else {
        state := EndValue;
      }
    }

    method Fail() returns (op: ScanOp)
      requires InBounds()
      modifies this`state, this`failed
      ensures (Here(), op) == JsonAutomaton.Fail(old(Here()))
    {
      failed := true;
      state := Error;
      op := ScanError;
    }
  }

  /** Feeding a whole body to a fresh validator and asking at its end. */
  method Validate(body: bytes) returns (accepted: bool)
    ensures accepted <==> IsJsonText(body, MAX_NESTING_DEPTH)
  {
    var v := new Validator();
    var i := 0;
    while i < |body|
      invariant 0 <= i <= |body|
      invariant v.Ready() && fresh(v) && fresh(v.stack)
      invariant v.Here() == Run(Initial, body[..i])
    {
      var op := v.StepByte(body[i]);
      assert body[..i + 1][..i] == body[..i];
      i := i + 1;
    }
    assert body[..i] == body;
    accepted := v.Eof();
    AcceptsExactlyJson(body);
  }
}
