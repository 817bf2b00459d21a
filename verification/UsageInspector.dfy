/** The usage inspector's reading of a JSON response, one byte at a time, on values: it follows the
validator and captures the object that each top-level member named `usage` holds. */
module UsageInspector {
  import opened JsonGrammar
  import opened JsonAutomaton

  const CAPTURE_LIMIT: nat := 65_536
  const USAGE: bytes := [0x75, 0x73, 0x61, 0x67, 0x65]

  /** What a member named `usage` turned out to hold. */
  datatype Span = Captured(text: bytes) | NotAnObject

  datatype Inspector = Inspector(
    config: Config, inString: bool, escaped: bool, matches: bool, position: nat, topKey: bool,
    usageKey: bool, awaiting: bool, capturing: bool, base: nat, capture: bytes, disabled: bool, spans: seq<Span>)

  const Fresh := Inspector(Initial, false, false, false, 0, false, false, false, false, 0, [], false, [])

  predicate ExpectsTopKey(c: Config) {
    |c.stack| == 1 && c.stack[0] == ObjectKey && (c.state == BeginStringOrEmpty || c.state == BeginString)
  }

  function Disabled(i: Inspector): Inspector {
    i.(disabled := true, capture := [])
  }

  /** What a byte means for a `usage` member that was announced, before the validator sees it. */
  function Announced(i: Inspector, b: byte): (r: Inspector)
    ensures r.config == i.config
  {
    if i.inString || i.capturing || IsWs(b) then i
    else if i.usageKey then i.(usageKey := false, awaiting := i.awaiting || b == COLON)
    else if i.awaiting then
      if b == LBRACE then i.(awaiting := false, capturing := true, base := |i.config.stack|, capture := [b])
      else i.(awaiting := false, spans := i.spans + [NotAnObject])
    else i
  }

  function WithinString(i: Inspector, b: byte): (r: Inspector)
    ensures r.config == i.config
  {
    if i.escaped then i.(escaped := false, matches := false)
    else if b == BACKSLASH then i.(escaped := true, matches := false)
    else if b == QUOTE then
      i.(inString := false,
         usageKey := if !i.capturing && i.topKey then i.matches && i.position == |USAGE| else i.usageKey)
    else i.(matches := i.matches && i.position < |USAGE| && b == USAGE[i.position], position := i.position + 1)
  }

  function OutsideString(i: Inspector, b: byte, starts: bool, op: ScanOp): (r: Inspector)
    ensures r.config == i.config
  {
    var j := if b == QUOTE then i.(inString := true, escaped := false, matches := starts, position := 0, topKey := starts) else i;
    if j.capturing && op == ScanEndObject && |j.config.stack| == j.base then
      j.(capturing := false, capture := [], spans := j.spans + [Captured(j.capture)])
    else j
  }

  function Scanned(i: Inspector, b: byte, starts: bool): (r: Inspector)
    requires Valid(i.config)
    ensures Valid(r.config)
  {
    StepSound(i.config, b);
    var (c, op) := StepByte(i.config, b);
    var j := i.(config := c);
    if op == ScanError then Disabled(j)
    else if j.inString then WithinString(j, b)
    else OutsideString(j, b, starts, op)
  }

  function Appended(i: Inspector, b: byte): (r: Inspector)
    ensures r.config == i.config
  {
    if i.capturing then i.(capture := i.capture + [b]) else i
  }

  function Step(i: Inspector, b: byte): (r: Inspector)
    requires Valid(i.config)
    ensures Valid(r.config)
  {
    if i.disabled then i
    else if i.capturing && |i.capture| == CAPTURE_LIMIT then Disabled(i)
    else Scanned(Announced(Appended(i, b), b), b, !i.inString && b == QUOTE && ExpectsTopKey(i.config))
  }

  function Inspect(i: Inspector, s: bytes): (r: Inspector)
    requires Valid(i.config)
    ensures Valid(r.config)
  {
    if s == [] then i else Step(Inspect(i, s[..|s| - 1]), s[|s| - 1])
  }

  /** The result does not depend on how the body is cut into chunks. */
  lemma {:induction false} ChunksDoNotMatter(i: Inspector, s: bytes, t: bytes)
    requires Valid(i.config)
    ensures Inspect(i, s + t) == Inspect(Inspect(i, s), t)
    decreases |t|
  {
    hide Step;
    if t == [] {
      assert s + t == s;
    } else {
      var init, last := t[..|t| - 1], t[|t| - 1];
      assert (s + t)[..|s + t| - 1] == s + init;
      ChunksDoNotMatter(i, s, init);
    }
  }

  lemma InspectLast(i: Inspector, s: bytes, b: byte)
    requires Valid(i.config)
    ensures Inspect(i, s + [b]) == Step(Inspect(i, s), b)
  {
    hide Step;
    assert (s + [b])[..|s|] == s;
  }

  lemma InspectOne(i: Inspector, b: byte)
    requires Valid(i.config)
    ensures Inspect(i, [b]) == Step(i, b)
  {
    hide Step;
    assert [b][..0] == [];
    assert Inspect(i, []) == i;
  }

  lemma {:induction false} DisabledForever(i: Inspector, s: bytes)
    requires Valid(i.config) && i.disabled
    ensures Inspect(i, s) == i
    decreases |s|
  {
    if s != [] {
      DisabledForever(i, s[..|s| - 1]);
    }
  }

  // What is said about the whole body

  function OwnSpans(m: Member): seq<Span> {
    if RenderItems(m.key.items) != USAGE then []
    else if m.element.value.Object? then [Captured(RenderValue(m.element.value))]
    else [NotAnObject]
  }

  /** The values of the top-level members named `usage`, in order. */
  function MemberSpans(ms: Members): seq<Span> {
    match ms
    case NoMembers => []
    case Members(init, last) => MemberSpans(init) + OwnSpans(last)
  }

  function UsageSpans(v: Value): seq<Span> {
    match v
    case Object(_, ms) => MemberSpans(ms)
    case _ => []
  }

  predicate Fit(spans: seq<Span>) {
    forall i :: 0 <= i < |spans| && spans[i].Captured? ==> |spans[i].text| <= CAPTURE_LIMIT
  }

  // How the validator moves in and out of strings

  lemma StringFacts(c: Config, b: byte)
    requires Valid(c) && StringState(c.state) && !StepByte(c, b).0.failed
    ensures var d := StepByte(c, b).0;
            && (StringState(d.state) <==> !(c.state == InString && b == QUOTE))
            && (d.state == InStringEscape <==> c.state == InString && b == BACKSLASH)
            && (c.state == InString && b != QUOTE && b != BACKSLASH ==> d.state == InString)
            && (c.state != InString && c.state != InStringEscape ==> b != QUOTE && b != BACKSLASH)
            && d.stack == c.stack && StepByte(c, b).1 == ScanContinue
  {
  }

  lemma EndFacts(c: Config, b: byte)
    ensures !EndValueAt(c, b).0.failed ==> !StringState(EndValueAt(c, b).0.state) && b != QUOTE
  {
  }

  lemma TokenFacts(c: Config, b: byte)
    requires Valid(c) && (NumberState(c.state) || LiteralState(c.state)) && !StepByte(c, b).0.failed
    ensures !StringState(StepByte(c, b).0.state) && b != QUOTE
  {
    EndFacts(c, b);
    hide EndValueAt;
  }

  predicate Beginning(s: ScanState) {
    s == BeginValue || s == BeginValueOrEmpty || s == BeginString || s == BeginStringOrEmpty
  }

  lemma StructureFacts(c: Config, b: byte)
    requires Valid(c) && !StringState(c.state) && !NumberState(c.state) && !LiteralState(c.state) && !StepByte(c, b).0.failed
    ensures var d := StepByte(c, b).0;
            (StringState(d.state) <==> b == QUOTE) && (b == QUOTE ==> d.state == InString && Beginning(c.state) && d.stack == c.stack)
  {
    EndFacts(c, b);
    if c.state == BeginStringOrEmpty {
      EndFacts(c.WithTop(ObjectValue), b);
    }
    hide EndValueAt;
  }

  lemma OtherFacts(c: Config, b: byte)
    requires Valid(c) && !StringState(c.state) && !StepByte(c, b).0.failed
    ensures var d := StepByte(c, b).0;
            && (StringState(d.state) <==> b == QUOTE) && StepByte(c, b).1 != ScanError
            && (b == QUOTE ==> d.state == InString && Beginning(c.state) && d.stack == c.stack)
  {
    StepSound(c, b);
    if NumberState(c.state) || LiteralState(c.state) {
      TokenFacts(c, b);
    } else {
      StructureFacts(c, b);
    }
    hide StepByte;
  }

  // Idle: nothing about `usage` is going on

  /** The inspector's own idea of being in a string is the validator's. */
  predicate Synced(i: Inspector) {
    && Valid(i.config) && !i.config.failed && !i.disabled
    && (i.inString <==> StringState(i.config.state)) && (i.inString ==> (i.escaped <==> i.config.state == InStringEscape))
  }

  predicate Idle(i: Inspector) {
    Synced(i) && !i.capturing && !i.usageKey && !i.awaiting && (i.inString ==> !i.topKey)
  }

  lemma IdleStep(i: Inspector, b: byte)
    requires Idle(i) && !StepByte(i.config, b).0.failed && (b == QUOTE ==> !ExpectsTopKey(i.config))
    ensures Idle(Step(i, b)) && Step(i, b).config == StepByte(i.config, b).0 && Step(i, b).spans == i.spans
  {
    StepSound(i.config, b);
    if i.inString {
      StringFacts(i.config, b);
    } else {
      OtherFacts(i.config, b);
    }
    hide StepByte;
  }

  /** No quote of `s` opens a top-level key. */
  ghost predicate NoTopKey(c: Config, s: bytes)
    requires Valid(c)
  {
    forall k :: 0 <= k < |s| && s[k] == QUOTE ==> !ExpectsTopKey(Run(c, s[..k]))
  }

  lemma {:induction false} IdleRun(i: Inspector, s: bytes)
    requires Idle(i) && !Run(i.config, s).failed && NoTopKey(i.config, s)
    ensures Idle(Inspect(i, s)) && Inspect(i, s).config == Run(i.config, s) && Inspect(i, s).spans == i.spans
    decreases |s|
  {
    hide StepByte;
    hide Step;
    if s != [] {
      var init, last := s[..|s| - 1], s[|s| - 1];
      assert !Run(i.config, init).failed by {
        EarlierNotFailed(i.config, s);
      }
      assert forall k :: 0 <= k < |init| ==> init[..k] == s[..k];
      assert NoTopKey(i.config, init);
      IdleRun(i, init);
      IdleStep(Inspect(i, init), last);
    }
  }

  lemma FailedStep(c: Config, b: byte)
    requires Valid(c) && c.failed
    ensures StepByte(c, b).0 == c
  {
  }

  lemma {:induction false} EarlierNotFailed(c: Config, s: bytes)
    requires Valid(c) && s != [] && !Run(c, s).failed
    ensures !Run(c, s[..|s| - 1]).failed
  {
    hide StepByte;
    var before := Run(c, s[..|s| - 1]);
    if before.failed {
      FailedStep(before, s[|s| - 1]);
    }
  }
}
