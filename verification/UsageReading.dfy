/** For an accepted body the inspector captures exactly what the syntax tree says. */
module UsageReading {
  import opened JsonGrammar
  import opened JsonAutomaton
  import opened JsonCompleteness
  import opened UsageInspector

  // A value read inside containers leaves them alone until its end

  /** The same configuration inside the containers `outer`. */
  function Inside(c: Config, outer: seq<ParseState>): Config {
    Config(if c.endTop then EndValue else c.state, outer + c.stack, false, false)
  }

  predicate Liftable(c: Config, outer: seq<ParseState>) {
    Valid(c) && !c.failed && outer != [] && Valid(Inside(c, outer))
  }

  lemma InsideTop(c: Config, outer: seq<ParseState>, p: ParseState)
    requires c.stack != []
    ensures var d := Inside(c, outer);
            && d.stack != [] && d.Top() == c.Top() && d.WithTop(p).stack == outer + c.WithTop(p).stack
            && d.stack[..|d.stack| - 1] == outer + c.stack[..|c.stack| - 1]
  {
  }

  lemma InsideEnd(c: Config, outer: seq<ParseState>, b: byte)
    requires outer != [] && !c.failed && !c.endTop && !EndValueAt(c, b).0.failed
    ensures EndValueAt(Inside(c, outer), b).0 == Inside(EndValueAt(c, b).0, outer)
  {
    if c.stack != [] {
      InsideTop(c, outer, ObjectKey);
      InsideTop(c, outer, ObjectValue);
    } else {
      assert outer + [] == outer;
    }
  }

  lemma InsideString(c: Config, outer: seq<ParseState>, b: byte)
    requires Liftable(c, outer) && StringState(c.state) && !StepByte(c, b).0.failed
    ensures StepByte(Inside(c, outer), b).0 == Inside(StepByte(c, b).0, outer)
  {
  }

  lemma InsideToken(c: Config, outer: seq<ParseState>, b: byte)
    requires Liftable(c, outer) && (NumberState(c.state) || LiteralState(c.state)) && !StepByte(c, b).0.failed
    ensures StepByte(Inside(c, outer), b).0 == Inside(StepByte(c, b).0, outer)
  {
    if !EndValueAt(c, b).0.failed {
      InsideEnd(c, outer, b);
    }
    hide EndValueAt;
  }

  lemma InsidePush(c: Config, outer: seq<ParseState>, p: ParseState, s: ScanState)
    requires !c.endTop && !Push(c, p, s).0.failed && !Push(Inside(c, outer), p, s).0.failed
    ensures Push(Inside(c, outer), p, s).0 == Inside(Push(c, p, s).0, outer)
  {
    assert outer + c.stack + [p] == outer + (c.stack + [p]);
  }

  lemma InsideBegin(c: Config, outer: seq<ParseState>, b: byte)
    requires !c.endTop && !c.failed && !BeginValueAt(c, b).0.failed && !BeginValueAt(Inside(c, outer), b).0.failed
    ensures BeginValueAt(Inside(c, outer), b).0 == Inside(BeginValueAt(c, b).0, outer)
  {
    if b == LBRACE {
      InsidePush(c, outer, ObjectKey, BeginStringOrEmpty);
    } else if b == LBRACKET {
      InsidePush(c, outer, ArrayValue, BeginValueOrEmpty);
    }
  }

  lemma InsideStructure(c: Config, outer: seq<ParseState>, b: byte)
    requires Liftable(c, outer) && !StringState(c.state) && !NumberState(c.state) && !LiteralState(c.state)
    requires !StepByte(c, b).0.failed && !StepByte(Inside(c, outer), b).0.failed
    ensures StepByte(Inside(c, outer), b).0 == Inside(StepByte(c, b).0, outer)
  {
    if c.state == EndValue || (c.state == BeginValueOrEmpty && b == RBRACKET) {
      InsideEnd(c, outer, b);
    } else if c.state == BeginStringOrEmpty && b == RBRACE {
      InsideTop(c, outer, ObjectValue);
      InsideEnd(c.WithTop(ObjectValue), outer, b);
    } else if c.state == BeginValue || c.state == BeginValueOrEmpty {
      InsideBegin(c, outer, b);
    }
    hide BeginValueAt;
    hide EndValueAt;
  }

  lemma InsideStep(c: Config, outer: seq<ParseState>, b: byte)
    requires Liftable(c, outer) && !StepByte(c, b).0.failed && !StepByte(Inside(c, outer), b).0.failed
    ensures StepByte(Inside(c, outer), b).0 == Inside(StepByte(c, b).0, outer)
  {
    if StringState(c.state) {
      InsideString(c, outer, b);
    } else if NumberState(c.state) || LiteralState(c.state) {
      InsideToken(c, outer, b);
    } else {
      InsideStructure(c, outer, b);
    }
    hide StepByte;
  }

  lemma {:induction false} InsideRun(c: Config, outer: seq<ParseState>, s: bytes)
    requires Liftable(c, outer) && !Run(c, s).failed && !Run(Inside(c, outer), s).failed
    ensures Run(Inside(c, outer), s) == Inside(Run(c, s), outer) && Liftable(Run(c, s), outer)
    decreases |s|
  {
    hide StepByte;
    if s != [] {
      EarlierNotFailed(c, s);
      EarlierNotFailed(Inside(c, outer), s);
      InsideRun(c, outer, s[..|s| - 1]);
      InsideStep(Run(c, s[..|s| - 1]), outer, s[|s| - 1]);
    }
  }

  lemma {:induction false} PrefixNotFailed(c: Config, s: bytes, k: nat)
    requires Valid(c) && k <= |s| && !Run(c, s).failed
    ensures !Run(c, s[..k]).failed
  {
    hide StepByte;
    hide Run;
    RunConcat(c, s[..k], s[k..]);
    assert s[..k] + s[k..] == s;
    if Run(c, s[..k]).failed {
      FailedForever(Run(c, s[..k]), s[k..]);
    }
  }

  const Holder: seq<ParseState> := [ObjectValue]
  const MemberStart := Config(BeginValue, Holder, false, false)

  /** Reading the value of a top-level member never goes below the member's object. */
  lemma ValueStays(v: Value, k: nat)
    requires ValidValue(v) && 1 + Depth(v) <= MAX_NESTING_DEPTH && k <= |RenderValue(v)|
    ensures var r := RenderValue(v);
            && !Run(Initial, r[..k]).failed && !Run(MemberStart, r[..k]).failed
            && Run(MemberStart, r[..k]).stack == Holder + Run(Initial, r[..k]).stack
  {
    hide Run;
    var r := RenderValue(v);
    RunValue(Initial, v);
    RunValue(MemberStart, v);
    PrefixNotFailed(Initial, r, k);
    PrefixNotFailed(MemberStart, r, k);
    assert Inside(Initial, Holder) == MemberStart;
    InsideRun(Initial, Holder, r[..k]);
  }

  lemma NoTopKeyAt(v: Value, k: nat)
    requires ValidValue(v) && 1 + Depth(v) <= MAX_NESTING_DEPTH && k <= |RenderValue(v)|
    ensures !ExpectsTopKey(Run(MemberStart, RenderValue(v)[..k]))
  {
    hide Run;
    ValueStays(v, k);
    hide RenderValue;
    hide ValidValue;
    assert Run(MemberStart, RenderValue(v)[..k]).stack[0] == ObjectValue;
  }

  lemma ValueHasNoTopKey(v: Value)
    requires ValidValue(v) && 1 + Depth(v) <= MAX_NESTING_DEPTH
    ensures NoTopKey(MemberStart, RenderValue(v))
  {
    hide Run;
    hide RenderValue;
    hide ValidValue;
    hide ExpectsTopKey;
    forall k | 0 <= k < |RenderValue(v)|
      ensures !ExpectsTopKey(Run(MemberStart, RenderValue(v)[..k]))
    {
      NoTopKeyAt(v, k);
    }
  }

  lemma WsHasNoTopKey(c: Config, ws: bytes)
    requires Valid(c) && AllWs(ws)
    ensures NoTopKey(c, ws)
  {
    hide Run;
  }

  // The key of a member

  /** Inside a top-level key of which `p` was read. */
  predicate InKey(i: Inspector, p: bytes) {
    && Synced(i) && i.inString && i.topKey && !i.capturing && !i.usageKey && !i.awaiting
    && (i.matches <==> p <= USAGE) && (i.matches ==> i.position == |p|) && (i.config.state != InString ==> !i.matches)
  }

  lemma KeyOpens(i: Inspector)
    requires Idle(i) && ExpectsTopKey(i.config)
    ensures InKey(Step(i, QUOTE), []) && Step(i, QUOTE).config == i.config.(state := InString) && Step(i, QUOTE).spans == i.spans
  {
    QuoteStep(i.config);
    StepSound(i.config, QUOTE);
    hide StepByte;
  }

  lemma PrefixMore(p: bytes, b: byte)
    ensures p + [b] <= USAGE <==> p <= USAGE && |p| < |USAGE| && b == USAGE[|p|]
    ensures b == BACKSLASH ==> !(p + [b] <= USAGE)
  {
    assert (p + [b])[|p|] == b;
    if p + [b] <= USAGE {
      assert p == (p + [b])[..|p|] == USAGE[..|p|];
      assert USAGE[|p|] == b;
    }
  }

  lemma KeyStep(i: Inspector, p: bytes, b: byte)
    requires InKey(i, p) && !StepByte(i.config, b).0.failed && !(i.config.state == InString && b == QUOTE)
    ensures InKey(Step(i, b), p + [b]) && Step(i, b).config == StepByte(i.config, b).0 && Step(i, b).spans == i.spans
  {
    StringFacts(i.config, b);
    StepSound(i.config, b);
    PrefixMore(p, b);
    hide StepByte;
  }

  /** No quote of `s` closes the string. */
  ghost predicate NoClose(c: Config, s: bytes)
    requires Valid(c)
  {
    forall k :: 0 <= k < |s| && s[k] == QUOTE ==> Run(c, s[..k]).state != InString
  }

  lemma NoCloseEarlier(c: Config, s: bytes)
    requires Valid(c) && s != [] && NoClose(c, s)
    ensures NoClose(c, s[..|s| - 1]) && (s[|s| - 1] == QUOTE ==> Run(c, s[..|s| - 1]).state != InString)
  {
    hide Run;
    var init := s[..|s| - 1];
    assert forall k :: 0 <= k < |init| ==> init[..k] == s[..k];
  }

  lemma KeyRunNone(i: Inspector, p: bytes)
    requires InKey(i, p)
    ensures InKey(Inspect(i, []), p + []) && Inspect(i, []).config == Run(i.config, []) && Inspect(i, []).spans == i.spans
  {
    hide StepByte;
    hide Step;
    assert p + [] == p;
  }

  lemma {:induction false} KeyRun(i: Inspector, p: bytes, s: bytes)
    requires InKey(i, p) && !Run(i.config, s).failed && NoClose(i.config, s)
    ensures InKey(Inspect(i, s), p + s) && Inspect(i, s).config == Run(i.config, s) && Inspect(i, s).spans == i.spans
    decreases |s|
  {
    hide StepByte;
    hide Step;
    hide NoClose;
    hide Run;
    hide Inspect;
    if s == [] {
      KeyRunNone(i, p);
    } else {
      var init, last := s[..|s| - 1], s[|s| - 1];
      assert s == init + [last];
      EarlierNotFailed(i.config, s);
      NoCloseEarlier(i.config, s);
      KeyRun(i, p, init);
      RunLast(i.config, init, last);
      InspectLast(i, init, last);
      hide InKey;
      assert p + init + [last] == p + s;
      KeyStep(Inspect(i, init), p + init, last);
    }
  }

  lemma ItemDoesNotClose(c: Config, item: StringItem)
    requires Valid(c) && c.state == InString && ValidItem(item)
    ensures NoClose(c, RenderItem(item))
  {
    hide StepByte;
    hide Run;
    if item.Escape? {
      EscapeStep(c, BACKSLASH);
      ScanStep(c, BACKSLASH, InStringEscape);
      assert RenderItem(item)[..1] == [BACKSLASH];
    }
  }

  lemma {:induction false} ItemsDoNotClose(c: Config, items: seq<StringItem>)
    requires Valid(c) && c.state == InString && ValidItems(items)
    ensures NoClose(c, RenderItems(items))
    decreases |items|
  {
    hide Run;
    if items != [] {
      var init, last := items[..|items| - 1], items[|items| - 1];
      ItemsDoNotClose(c, init);
      RunItems(c, init);
      ItemDoesNotClose(c, last);
      var a, b := RenderItems(init), RenderItem(last);
      forall k | 0 <= k < |a + b| && (a + b)[k] == QUOTE
        ensures Run(c, (a + b)[..k]).state != InString
      {
        if k < |a| {
          assert (a + b)[..k] == a[..k];
        } else {
          assert (a + b)[..k] == a + b[..k - |a|];
          RunConcat(c, a, b[..k - |a|]);
        }
      }
    }
  }

  /** After a top-level key, `usage` or not. */
  predicate AfterKey(i: Inspector, usage: bool) {
    && Synced(i) && !i.inString && !i.capturing && !i.awaiting && i.usageKey == usage
    && i.config == Config(EndValue, [ObjectKey], false, false)
  }

  lemma KeyCloses(i: Inspector, p: bytes)
    requires InKey(i, p) && i.config == Config(InString, [ObjectKey], false, false)
    ensures AfterKey(Step(i, QUOTE), p == USAGE) && Step(i, QUOTE).spans == i.spans
  {
    QuoteStep(i.config);
    StepSound(i.config, QUOTE);
    hide StepByte;
    assert p <= USAGE && |p| == |USAGE| <==> p == USAGE;
  }

  lemma AfterKeyStep(i: Inspector, usage: bool, b: byte)
    requires AfterKey(i, usage) && IsWs(b)
    ensures AfterKey(Step(i, b), usage) && Step(i, b).spans == i.spans
  {
    EndedTakes(i.config, [ObjectKey], b);
    hide StepByte;
  }

  lemma {:induction false} AfterKeyWs(i: Inspector, usage: bool, ws: bytes)
    requires AfterKey(i, usage) && AllWs(ws)
    ensures AfterKey(Inspect(i, ws), usage) && Inspect(i, ws).spans == i.spans
    decreases |ws|
  {
    hide Step;
    if ws != [] {
      AfterKeyWs(i, usage, ws[..|ws| - 1]);
      assert IsWs(ws[|ws| - 1]);
      AfterKeyStep(Inspect(i, ws[..|ws| - 1]), usage, ws[|ws| - 1]);
    }
  }

  /** Before the value of a member named `usage`. */
  predicate Waiting(i: Inspector) {
    Synced(i) && !i.inString && !i.capturing && i.awaiting && !i.usageKey && i.config == MemberStart
  }

  lemma ColonPasses(i: Inspector, usage: bool)
    requires AfterKey(i, usage)
    ensures var j := Step(i, COLON);
            && j.spans == i.spans && j.config == MemberStart && (if usage then Waiting(j) else Idle(j))
  {
    ColonStep(i.config, []);
    StepSound(i.config, COLON);
    hide StepByte;
    assert [] + Holder == Holder;
  }

  /** A whole key and its colon. */
  lemma ReadKey(i: Inspector, k: Key)
    requires Idle(i) && ExpectsTopKey(i.config) && i.config.stack == [ObjectKey] && !i.config.endTop && ValidKey(k)
    ensures var j := Inspect(i, RenderKey(k) + [COLON]);
            && j.spans == i.spans && j.config == MemberStart && (if RenderItems(k.items) == USAGE then Waiting(j) else Idle(j))
  {
    hide Step;
    hide Inspect;
    hide Run;
    hide StepByte;
    var c, text := i.config, RenderItems(k.items);
    LeadingWs(c, k.before);
    WsHasNoTopKey(c, k.before);
    IdleRun(i, k.before);
    var i1 := Inspect(i, k.before);
    KeyOpens(i1);
    InspectOne(i1, QUOTE);
    var i2 := Step(i1, QUOTE);
    RunItems(i2.config, k.items);
    ItemsDoNotClose(i2.config, k.items);
    KeyRun(i2, [], text);
    assert [] + text == text;
    var i3 := Inspect(i2, text);
    KeyCloses(i3, text);
    InspectOne(i3, QUOTE);
    var i4 := Step(i3, QUOTE);
    AfterKeyWs(i4, text == USAGE, k.after);
    var i5 := Inspect(i4, k.after);
    ColonPasses(i5, text == USAGE);
    InspectOne(i5, COLON);
    ChunksDoNotMatter(i1, [QUOTE], text);
    ChunksDoNotMatter(i1, [QUOTE] + text, [QUOTE]);
    ChunksDoNotMatter(i, k.before, RenderString(k.items));
    ChunksDoNotMatter(i, k.before + RenderString(k.items), k.after);
    ChunksDoNotMatter(i, RenderKey(k), [COLON]);
  }

  // The value of a member that is not `usage`

  lemma PlainValue(i: Inspector, v: Value)
    requires Idle(i) && i.config == MemberStart && ValidValue(v) && 1 + Depth(v) <= MAX_NESTING_DEPTH
    ensures var j := Inspect(i, RenderValue(v)); Idle(j) && Ended(j.config, Holder) && j.spans == i.spans
  {
    hide Run;
    RunValue(MemberStart, v);
    ValueHasNoTopKey(v);
    IdleRun(i, RenderValue(v));
  }

  // The value of a member named `usage`

  lemma WaitingStep(i: Inspector, b: byte)
    requires Waiting(i) && IsWs(b)
    ensures Waiting(Step(i, b)) && Step(i, b).spans == i.spans
  {
    BeginSkips(i.config, b);
    StepSound(i.config, b);
    hide StepByte;
  }

  lemma {:induction false} WaitingWs(i: Inspector, ws: bytes)
    requires Waiting(i) && AllWs(ws)
    ensures Waiting(Inspect(i, ws)) && Inspect(i, ws).spans == i.spans
    decreases |ws|
  {
    hide Step;
    if ws != [] {
      WaitingWs(i, ws[..|ws| - 1]);
      assert IsWs(ws[|ws| - 1]);
      WaitingStep(Inspect(i, ws[..|ws| - 1]), ws[|ws| - 1]);
    }
  }

  lemma FirstByte(v: Value)
    requires ValidValue(v)
    ensures RenderValue(v) != [] && !IsWs(RenderValue(v)[0]) && (v.Object? <==> RenderValue(v)[0] == LBRACE)
  {
    match v
    case Name(l) =>
    case Text(items) =>
    case Numeral(n) =>
      assert IsDigit(n.whole[0]);
      assert RenderWhole(n) != [] && RenderNumber(n)[0] == RenderWhole(n)[0];
    case Array(gap, es) =>
    case Object(gap, ms) =>
  }

  /** Not waiting any more: the value is known not to be an object. */
  function Dismissed(i: Inspector): Inspector {
    i.(awaiting := false, spans := i.spans + [NotAnObject])
  }

  lemma DismissStep(i: Inspector, b: byte)
    requires Waiting(i) && !IsWs(b) && b != LBRACE
    ensures Idle(Dismissed(i)) && Step(i, b) == Step(Dismissed(i), b)
  {
    hide StepByte;
  }

  lemma NotObjectValue(i: Inspector, v: Value)
    requires Waiting(i) && ValidValue(v) && !v.Object? && 1 + Depth(v) <= MAX_NESTING_DEPTH
    ensures var j := Inspect(i, RenderValue(v)); Idle(j) && Ended(j.config, Holder) && j.spans == i.spans + [NotAnObject]
  {
    hide Step;
    hide Inspect;
    var r := RenderValue(v);
    FirstByte(v);
    DismissStep(i, r[0]);
    var d := Dismissed(i);
    InspectOne(i, r[0]);
    InspectOne(d, r[0]);
    ChunksDoNotMatter(i, [r[0]], r[1..]);
    ChunksDoNotMatter(d, [r[0]], r[1..]);
    assert [r[0]] + r[1..] == r;
    PlainValue(d, v);
  }

  // Capturing an object

  /** Once the outermost container was opened, an empty stack means the end. */
  predicate Past(c: Config) {
    Valid(c) && !c.failed && (c.stack != [] || c.state == EndTop)
  }

  predicate Onward(c: Config) {
    c.failed || c.stack != [] || c.state == EndTop
  }

  lemma OnwardEnd(c: Config, b: byte)
    requires c.stack != []
    ensures Onward(EndValueAt(c, b).0)
  {
  }

  lemma OnwardToken(c: Config, b: byte)
    requires Valid(c) && !c.failed && c.stack != [] && (StringState(c.state) || NumberState(c.state) || LiteralState(c.state))
    ensures Onward(StepByte(c, b).0)
  {
    OnwardEnd(c, b);
    hide EndValueAt;
  }

  lemma OnwardStructure(c: Config, b: byte)
    requires Valid(c) && !c.failed && c.stack != []
    requires !StringState(c.state) && !NumberState(c.state) && !LiteralState(c.state)
    ensures Onward(StepByte(c, b).0)
  {
    OnwardEnd(c, b);
    if c.state == BeginStringOrEmpty {
      OnwardEnd(c.WithTop(ObjectValue), b);
    }
    hide EndValueAt;
  }

  lemma EndTopStep(c: Config, b: byte)
    requires Valid(c) && !c.failed && c.state == EndTop
    ensures StepByte(c, b).0.failed || (IsWs(b) && StepByte(c, b).0.state == EndTop)
  {
  }

  lemma PastStep(c: Config, b: byte)
    requires Past(c) && !StepByte(c, b).0.failed
    ensures Past(StepByte(c, b).0) && (c.state == EndTop ==> IsWs(b) && StepByte(c, b).0.state == EndTop)
  {
    hide StepByte;
    StepSound(c, b);
    if c.state == EndTop {
      EndTopStep(c, b);
    } else if StringState(c.state) || NumberState(c.state) || LiteralState(c.state) {
      OnwardToken(c, b);
    } else {
      OnwardStructure(c, b);
    }
  }

  lemma {:induction false} PastRun(c: Config, s: bytes)
    requires Past(c) && !Run(c, s).failed
    ensures Past(Run(c, s)) && (c.state == EndTop ==> AllWs(s) && Run(c, s).state == EndTop)
    decreases |s|
  {
    hide StepByte;
    if s != [] {
      EarlierNotFailed(c, s);
      PastRun(c, s[..|s| - 1]);
      PastStep(Run(c, s[..|s| - 1]), s[|s| - 1]);
    }
  }

  lemma OpenedObject(r: bytes, k: nat)
    requires 1 <= k <= |r| && r[0] == LBRACE && !Run(Initial, r[..k]).failed
    ensures Past(Run(Initial, r[..k]))
  {
    hide Run;
    hide StepByte;
    OpenStep(Initial);
    RunOne(Initial, LBRACE);
    assert r[..k] == [LBRACE] + r[1..k];
    RunConcat(Initial, [LBRACE], r[1..k]);
    PastRun(Config(BeginStringOrEmpty, [] + [ObjectKey], false, false), r[1..k]);
  }

  /** The object's own brace stays open until its last byte. */
  lemma ObjectStaysOpen(v: Value, k: nat)
    requires ValidValue(v) && v.Object? && 1 + Depth(v) <= MAX_NESTING_DEPTH && 1 <= k < |RenderValue(v)|
    ensures Run(Initial, RenderValue(v)[..k]).stack != []
  {
    hide Run;
    hide StepByte;
    var r := RenderValue(v);
    ObjectShape(v);
    ValueStays(v, k);
    ValueStays(v, |r|);
    hide RenderValue;
    hide ValidValue;
    assert r[..|r|] == r;
    OpenedObject(r, k);
    var c := Run(Initial, r[..k]);
    assert r == r[..k] + r[k..];
    RunConcat(Initial, r[..k], r[k..]);
    PastRun(c, r[k..]);
    assert r[k..][|r| - 1 - k] == RBRACE;
  }

  predicate Capturing(i: Inspector, p: bytes, spans: seq<Span>) {
    Synced(i) && i.capturing && i.base == 1 && i.capture == p && !i.usageKey && !i.awaiting && i.spans == spans
  }

  lemma CaptureStarts(i: Inspector)
    requires Waiting(i)
    ensures Capturing(Step(i, LBRACE), [LBRACE], i.spans) && Step(i, LBRACE).config == StepByte(MemberStart, LBRACE).0
  {
    OpenStep(i.config);
    StepSound(i.config, LBRACE);
    hide StepByte;
  }

  lemma CaptureStep(i: Inspector, p: bytes, b: byte, spans: seq<Span>)
    requires Capturing(i, p, spans) && |p| < CAPTURE_LIMIT
    requires !StepByte(i.config, b).0.failed && |StepByte(i.config, b).0.stack| > 1
    ensures Capturing(Step(i, b), p + [b], spans) && Step(i, b).config == StepByte(i.config, b).0
  {
    StepSound(i.config, b);
    if i.inString {
      StringFacts(i.config, b);
    } else {
      OtherFacts(i.config, b);
    }
    hide StepByte;
  }

  lemma PopOp(c: Config, b: byte)
    requires Valid(c) && !StepByte(c, b).0.failed && b == RBRACE && |StepByte(c, b).0.stack| < |c.stack|
    ensures StepByte(c, b).1 == ScanEndObject && !StringState(c.state)
  {
  }

  lemma CaptureEnds(i: Inspector, p: bytes, spans: seq<Span>)
    requires Capturing(i, p, spans) && |p| < CAPTURE_LIMIT && |i.config.stack| > 1
    requires var d := StepByte(i.config, RBRACE).0; Ended(d, Holder)
    ensures var j := Step(i, RBRACE);
            Idle(j) && j.config == StepByte(i.config, RBRACE).0 && j.spans == spans + [Captured(p + [RBRACE])]
  {
    StepSound(i.config, RBRACE);
    PopOp(i.config, RBRACE);
    hide StepByte;
  }

  lemma CaptureFirst(i: Inspector, v: Value)
    requires Waiting(i) && v.Object?
    ensures var s := RenderValue(v)[..1];
            Capturing(Inspect(i, s), s, i.spans) && Inspect(i, s).config == Run(MemberStart, s)
  {
    hide Step;
    hide StepByte;
    hide Run;
    hide Inspect;
    ObjectShape(v);
    hide RenderValue;
    assert RenderValue(v)[..1] == [LBRACE];
    InspectOne(i, LBRACE);
    RunOne(MemberStart, LBRACE);
    CaptureStarts(i);
  }

  lemma {:induction false} CaptureRun(i: Inspector, v: Value, k: nat)
    requires Waiting(i) && ValidValue(v) && v.Object? && 1 + Depth(v) <= MAX_NESTING_DEPTH
    requires 1 <= k < |RenderValue(v)| && k <= CAPTURE_LIMIT
    ensures var r := RenderValue(v);
            Capturing(Inspect(i, r[..k]), r[..k], i.spans) && Inspect(i, r[..k]).config == Run(MemberStart, r[..k])
    decreases k
  {
    hide Step;
    hide StepByte;
    hide Run;
    hide Inspect;
    hide RenderValue;
    hide ValidValue;
    hide Waiting;
    var r := RenderValue(v);
    if k == 1 {
      CaptureFirst(i, v);
    } else {
      CaptureRun(i, v, k - 1);
      ValueStays(v, k);
      ObjectStaysOpen(v, k);
      assert r[..k - 1] + [r[k - 1]] == r[..k];
      RunLast(MemberStart, r[..k - 1], r[k - 1]);
      assert Valid(i.config) by {
        WaitingValid(i);
      }
      InspectLast(i, r[..k - 1], r[k - 1]);
      CaptureStep(Inspect(i, r[..k - 1]), r[..k - 1], r[k - 1], i.spans);
    }
  }

  lemma WaitingValid(i: Inspector)
    requires Waiting(i)
    ensures Valid(i.config)
  {
  }

  lemma ShortObjectRead(i: Inspector, v: Value)
    requires Waiting(i) && ValidValue(v) && v.Object? && 1 + Depth(v) <= MAX_NESTING_DEPTH && |RenderValue(v)| <= CAPTURE_LIMIT
    ensures var j := Inspect(i, RenderValue(v));
            Idle(j) && Ended(j.config, Holder) && j.spans == i.spans + [Captured(RenderValue(v))]
  {
    hide Step;
    hide StepByte;
    hide Run;
    hide Inspect;
    var r := RenderValue(v);
    ObjectShape(v);
    var k := |r| - 1;
    CaptureRun(i, v, k);
    ValueStays(v, k);
    ObjectStaysOpen(v, k);
    RunValue(MemberStart, v);
    hide RenderValue;
    hide ValidValue;
    var j := Inspect(i, r[..k]);
    assert r == r[..k] + [RBRACE];
    RunConcat(MemberStart, r[..k], [RBRACE]);
    RunOne(j.config, RBRACE);
    CaptureEnds(j, r[..k], i.spans);
    ChunksDoNotMatter(i, r[..k], [RBRACE]);
    InspectOne(j, RBRACE);
  }

  lemma LongObjectRead(i: Inspector, v: Value)
    requires Waiting(i) && ValidValue(v) && v.Object? && 1 + Depth(v) <= MAX_NESTING_DEPTH && |RenderValue(v)| > CAPTURE_LIMIT
    ensures Inspect(i, RenderValue(v)).disabled
  {
    hide Step;
    hide StepByte;
    hide Run;
    hide Inspect;
    var r, k := RenderValue(v), CAPTURE_LIMIT;
    CaptureRun(i, v, k);
    hide RenderValue;
    hide ValidValue;
    var j := Inspect(i, r[..k]);
    GivesUp(j, r[..k], i.spans, r[k]);
    InspectOne(j, r[k]);
    ChunksDoNotMatter(i, r[..k], [r[k]]);
    ChunksDoNotMatter(i, r[..k] + [r[k]], r[k + 1..]);
    DisabledForever(Step(j, r[k]), r[k + 1..]);
    assert r[..k] + [r[k]] + r[k + 1..] == r;
  }

  /** A captured object is the value itself, unless it is too long: then the inspector gives up. */
  lemma ObjectValueRead(i: Inspector, v: Value)
    requires Waiting(i) && ValidValue(v) && v.Object? && 1 + Depth(v) <= MAX_NESTING_DEPTH
    ensures var j := Inspect(i, RenderValue(v));
            if |RenderValue(v)| <= CAPTURE_LIMIT
            then Idle(j) && Ended(j.config, Holder) && j.spans == i.spans + [Captured(RenderValue(v))]
            else j.disabled
  {
    hide Inspect;
    hide RenderValue;
    if |RenderValue(v)| <= CAPTURE_LIMIT {
      ShortObjectRead(i, v);
    } else {
      LongObjectRead(i, v);
    }
  }

  lemma ObjectShape(v: Value)
    requires v.Object?
    ensures |RenderValue(v)| >= 2 && RenderValue(v)[0] == LBRACE && RenderValue(v)[|RenderValue(v)| - 1] == RBRACE
  {
  }

  lemma GivesUp(i: Inspector, p: bytes, spans: seq<Span>, b: byte)
    requires Capturing(i, p, spans) && |p| == CAPTURE_LIMIT
    ensures Step(i, b).disabled
  {
    hide StepByte;
  }

  // Members and the whole body

  /** The inspector has read so far as `spans` say, or gave up because one of them is too long. */
  predicate Done(i: Inspector, j: Inspector, spans: seq<Span>, stack: seq<ParseState>) {
    if Fit(spans) then Idle(j) && Ended(j.config, stack) && j.spans == i.spans + spans else j.disabled
  }

  lemma ReadValue(i: Inspector, m: Member)
    requires ValidMember(m) && 1 + Depth(m.element.value) <= MAX_NESTING_DEPTH && i.config == MemberStart
    requires if RenderItems(m.key.items) == USAGE then Waiting(i) else Idle(i)
    ensures Done(i, Inspect(i, RenderValue(m.element.value)), OwnSpans(m), Holder)
  {
    hide Inspect;
    hide RenderValue;
    hide RenderItems;
    hide Depth;
    hide ValidValue;
    var v := m.element.value;
    if RenderItems(m.key.items) != USAGE {
      PlainValue(i, v);
      NoSpans();
      assert i.spans + [] == i.spans;
    } else if v.Object? {
      FitOne(Captured(RenderValue(v)));
      ObjectValueRead(i, v);
    } else {
      FitOne(NotAnObject);
      NotObjectValue(i, v);
    }
    hide Fit;
    hide Idle;
    hide Ended;
  }

  lemma FitOne(x: Span)
    ensures Fit([x]) <==> (x.Captured? ==> |x.text| <= CAPTURE_LIMIT)
  {
    assert [x][0] == x;
  }

  lemma WsBefore(i: Inspector, usage: bool, ws: bytes)
    requires AllWs(ws) && i.config == MemberStart && (if usage then Waiting(i) else Idle(i))
    ensures var j := Inspect(i, ws);
            j.config == MemberStart && j.spans == i.spans && (if usage then Waiting(j) else Idle(j))
  {
    hide Run;
    if usage {
      WaitingWs(i, ws);
    } else {
      LeadingWs(MemberStart, ws);
      WsHasNoTopKey(MemberStart, ws);
      IdleRun(i, ws);
    }
  }

  lemma WsAfter(i: Inspector, j: Inspector, spans: seq<Span>, stack: seq<ParseState>, ws: bytes)
    requires Done(i, j, spans, stack) && AllWs(ws) && Valid(j.config)
    ensures Done(i, Inspect(j, ws), spans, stack)
  {
    hide Run;
    if Fit(spans) {
      TrailingWs(j.config, stack, ws);
      WsHasNoTopKey(j.config, ws);
      IdleRun(j, ws);
    } else {
      DisabledForever(j, ws);
    }
    hide Fit;
  }

  lemma ReadMember(i: Inspector, m: Member)
    requires Idle(i) && ExpectsTopKey(i.config) && i.config.stack == [ObjectKey] && !i.config.endTop
    requires ValidMember(m) && 1 + Depth(m.element.value) <= MAX_NESTING_DEPTH
    ensures Done(i, Inspect(i, RenderMember(m)), OwnSpans(m), Holder)
  {
    hide Inspect;
    hide Step;
    hide OwnSpans;
    hide Fit;
    var e, head := m.element, RenderKey(m.key) + [COLON];
    var usage := RenderItems(m.key.items) == USAGE;
    ReadKey(i, m.key);
    var i1 := Inspect(i, head);
    WsBefore(i1, usage, e.before);
    var i2 := Inspect(i1, e.before);
    ReadValue(i2, m);
    var i3 := Inspect(i2, RenderValue(e.value));
    WsAfter(i2, i3, OwnSpans(m), Holder, e.after);
    ChunksDoNotMatter(i1, e.before, RenderValue(e.value));
    ChunksDoNotMatter(i1, e.before + RenderValue(e.value), e.after);
    ChunksDoNotMatter(i, head, RenderElement(e));
  }

  lemma FitBoth(a: seq<Span>, b: seq<Span>)
    ensures Fit(a + b) <==> Fit(a) && Fit(b)
  {
    if Fit(a + b) {
      assert forall k :: 0 <= k < |a| ==> (a + b)[k] == a[k];
      assert forall k :: 0 <= k < |b| ==> (a + b)[|a| + k] == b[k];
    }
  }

  lemma CommaPasses(i: Inspector)
    requires Idle(i) && Ended(i.config, Holder)
    ensures var j := Inspect(i, [COMMA]);
            Idle(j) && j.config == Config(BeginString, [ObjectKey], false, false) && j.spans == i.spans
  {
    hide StepByte;
    hide Step;
    assert [] + Holder == Holder && [] + [ObjectKey] == [ObjectKey];
    CommaStep(i.config, []);
    IdleStep(i, COMMA);
    InspectOne(i, COMMA);
  }

  lemma ReadAfterComma(i: Inspector, m: Member)
    requires Idle(i) && Ended(i.config, Holder) && ValidMember(m) && 1 + Depth(m.element.value) <= MAX_NESTING_DEPTH
    ensures Done(i, Inspect(i, [COMMA] + RenderMember(m)), OwnSpans(m), Holder)
  {
    hide Inspect;
    hide OwnSpans;
    hide Ended;
    hide RenderMember;
    hide ValidMember;
    ChunksDoNotMatter(i, [COMMA], RenderMember(m));
    CommaPasses(i);
    var j := Inspect(i, [COMMA]);
    ReadMember(j, m);
    hide Idle;
    hide Fit;
  }

  lemma DoneBoth(i: Inspector, j: Inspector, k: Inspector, before: seq<Span>, own: seq<Span>)
    requires Done(i, j, before, Holder) && (if Fit(before) then Done(j, k, own, Holder) else k.disabled)
    ensures Done(i, k, before + own, Holder)
  {
    hide Idle;
    hide Ended;
    hide Fit;
    FitBoth(before, own);
    assert i.spans + before + own == i.spans + (before + own);
  }

  lemma ReadNext(i: Inspector, j: Inspector, before: seq<Span>, m: Member)
    requires Valid(j.config) && Done(i, j, before, Holder)
    requires ValidMember(m) && 1 + Depth(m.element.value) <= MAX_NESTING_DEPTH
    ensures Done(i, Inspect(j, [COMMA] + RenderMember(m)), before + OwnSpans(m), Holder)
  {
    hide Inspect;
    hide OwnSpans;
    hide Ended;
    hide Idle;
    hide Fit;
    hide RenderMember;
    hide ValidMember;
    if Fit(before) {
      ReadAfterComma(j, m);
    } else {
      DisabledForever(j, [COMMA] + RenderMember(m));
    }
    hide Done;
    DoneBoth(i, j, Inspect(j, [COMMA] + RenderMember(m)), before, OwnSpans(m));
  }

  lemma {:induction false} FirstMember(last: Member)
    ensures RenderMembers(Members(NoMembers, last)) == RenderMember(last)
    ensures MemberSpans(Members(NoMembers, last)) == OwnSpans(last)
  {
    hide OwnSpans;
    assert RenderMembers(NoMembers) == [] && MemberSpans(NoMembers) == [];
    assert [] + [] + RenderMember(last) == RenderMember(last);
    assert [] + OwnSpans(last) == OwnSpans(last);
  }

  lemma {:induction false} NextMember(init: Members, last: Member)
    requires init != NoMembers
    ensures RenderMembers(Members(init, last)) == RenderMembers(init) + ([COMMA] + RenderMember(last))
    ensures MemberSpans(Members(init, last)) == MemberSpans(init) + OwnSpans(last)
  {
    hide OwnSpans;
    assert RenderMembers(init) + [COMMA] + RenderMember(last) == RenderMembers(init) + ([COMMA] + RenderMember(last));
  }

  lemma {:induction false} ReadMembers(i: Inspector, ms: Members)
    requires Idle(i) && i.config == Config(BeginStringOrEmpty, [ObjectKey], false, false) && ms != NoMembers
    requires ValidMembers(ms) && 1 + MembersDepth(ms) <= MAX_NESTING_DEPTH
    ensures Done(i, Inspect(i, RenderMembers(ms)), MemberSpans(ms), Holder)
    decreases ms
  {
    hide Inspect;
    hide Step;
    hide StepByte;
    hide OwnSpans;
    hide Done;
    hide RenderMember;
    var init, last := ms.init, ms.last;
    if init == NoMembers {
      FirstMember(last);
      ReadMember(i, last);
    } else {
      ReadMembers(i, init);
      NextMember(init, last);
      hide RenderMembers;
      hide MemberSpans;
      ReadNext(i, Inspect(i, RenderMembers(init)), MemberSpans(init), last);
      ChunksDoNotMatter(i, RenderMembers(init), [COMMA] + RenderMember(last));
    }
  }

  lemma InspectNothing(i: Inspector)
    requires Valid(i.config)
    ensures Inspect(i, []) == i
  {
  }

  lemma NoSpans()
    ensures MemberSpans(NoMembers) == [] && Fit([])
  {
  }

  lemma BraceOpens(i: Inspector)
    requires Idle(i) && i.config == Initial
    ensures var j := Inspect(i, [LBRACE]);
            Idle(j) && j.config == Config(BeginStringOrEmpty, [ObjectKey], false, false) && j.spans == i.spans
  {
    hide StepByte;
    hide Step;
    assert [] + [ObjectKey] == [ObjectKey];
    OpenStep(Initial);
    IdleStep(i, LBRACE);
    InspectOne(i, LBRACE);
  }

  lemma BraceCloses(i: Inspector)
    requires Idle(i)
    requires Ended(i.config, Holder) || i.config == Config(BeginStringOrEmpty, [ObjectKey], false, false)
    ensures var j := Inspect(i, [RBRACE]); Idle(j) && Ended(j.config, []) && j.spans == i.spans
  {
    hide StepByte;
    hide Step;
    assert [] + Holder == Holder && [] + [ObjectKey] == [ObjectKey];
    if Ended(i.config, Holder) {
      CloseObjectStep(i.config, []);
    } else {
      CloseEmptyObjectStep(i.config, []);
    }
    IdleStep(i, RBRACE);
    InspectOne(i, RBRACE);
  }

  lemma ReadObject(i: Inspector, gap: bytes, ms: Members)
    requires Idle(i) && i.config == Initial && ValidValue(Object(gap, ms)) && 1 + MembersDepth(ms) <= MAX_NESTING_DEPTH
    ensures Done(i, Inspect(i, RenderValue(Object(gap, ms))), MemberSpans(ms), [])
  {
    hide Inspect;
    hide Step;
    hide Run;
    hide Fit;
    BraceOpens(i);
    var i1 := Inspect(i, [LBRACE]);
    LeadingWs(i1.config, gap);
    WsHasNoTopKey(i1.config, gap);
    IdleRun(i1, gap);
    var i2 := Inspect(i1, gap);
    var i3 := Inspect(i2, RenderMembers(ms));
    ChunksDoNotMatter(i, [LBRACE], gap);
    ChunksDoNotMatter(i, [LBRACE] + gap, RenderMembers(ms));
    ChunksDoNotMatter(i, [LBRACE] + gap + RenderMembers(ms), [RBRACE]);
    if ms == NoMembers {
      InspectNothing(i2);
      NoSpans();
      assert i.spans + [] == i.spans;
      BraceCloses(i3);
    } else {
      ReadMembers(i2, ms);
      hide MemberSpans;
      if Fit(MemberSpans(ms)) {
        BraceCloses(i3);
      } else {
        DisabledForever(i3, [RBRACE]);
      }
    }
  }

  // A body that is not an object has no top-level key

  predicate Harmless(c: Config) {
    Valid(c) && !c.failed && if c.stack == [] then c.state != BeginValue else c.stack[0] == ArrayValue
  }

  lemma HarmlessEnd(c: Config, b: byte)
    requires !EndValueAt(c, b).0.failed && (c.stack != [] ==> c.stack[0] == ArrayValue)
    ensures var d := EndValueAt(c, b).0;
            if d.stack == [] then d.state != BeginValue else d.stack[0] == ArrayValue
  {
  }

  lemma HarmlessToken(c: Config, b: byte)
    requires Harmless(c) && !StepByte(c, b).0.failed && (StringState(c.state) || NumberState(c.state) || LiteralState(c.state))
    ensures Harmless(StepByte(c, b).0)
  {
    StepSound(c, b);
    if !EndValueAt(c, b).0.failed {
      HarmlessEnd(c, b);
    }
    hide EndValueAt;
  }

  lemma HarmlessStructure(c: Config, b: byte)
    requires Harmless(c) && !StepByte(c, b).0.failed && !StringState(c.state) && !NumberState(c.state) && !LiteralState(c.state)
    ensures Harmless(StepByte(c, b).0)
  {
    StepSound(c, b);
    if c.state == BeginStringOrEmpty {
      if !EndValueAt(c.WithTop(ObjectValue), b).0.failed {
        HarmlessEnd(c.WithTop(ObjectValue), b);
      }
    } else if !EndValueAt(c, b).0.failed {
      HarmlessEnd(c, b);
    }
    hide EndValueAt;
  }

  lemma HarmlessStep(c: Config, b: byte)
    requires Harmless(c) && !StepByte(c, b).0.failed
    ensures Harmless(StepByte(c, b).0)
  {
    hide StepByte;
    if StringState(c.state) || NumberState(c.state) || LiteralState(c.state) {
      HarmlessToken(c, b);
    } else {
      HarmlessStructure(c, b);
    }
  }

  lemma {:induction false} HarmlessRun(c: Config, s: bytes)
    requires Harmless(c) && !Run(c, s).failed
    ensures Harmless(Run(c, s)) && NoTopKey(c, s)
    decreases |s|
  {
    hide StepByte;
    if s != [] {
      var init, last := s[..|s| - 1], s[|s| - 1];
      EarlierNotFailed(c, s);
      HarmlessRun(c, init);
      HarmlessStep(Run(c, init), last);
      hide Run;
      forall k | 0 <= k < |s| && s[k] == QUOTE
        ensures !ExpectsTopKey(Run(c, s[..k]))
      {
        if k < |init| {
          assert s[..k] == init[..k];
          assert init[k] == QUOTE;
        } else {
          assert s[..k] == init;
        }
      }
    }
  }

  lemma FirstHarmless(b: byte)
    requires b != LBRACE && !IsWs(b) && !StepByte(Initial, b).0.failed
    ensures Harmless(StepByte(Initial, b).0)
  {
    StepSound(Initial, b);
  }

  lemma ReadOther(i: Inspector, v: Value)
    requires Idle(i) && i.config == Initial && ValidValue(v) && !v.Object? && Depth(v) <= MAX_NESTING_DEPTH
    ensures var j := Inspect(i, RenderValue(v)); Idle(j) && Ended(j.config, []) && j.spans == i.spans
  {
    hide StepByte;
    hide Run;
    var r := RenderValue(v);
    FirstByte(v);
    RunValue(Initial, v);
    var rest := r[1..];
    assert r == [r[0]] + rest;
    RunConcat(Initial, [r[0]], rest);
    RunOne(Initial, r[0]);
    PrefixNotFailed(Initial, r, 1);
    assert r[..1] == [r[0]];
    FirstHarmless(r[0]);
    var c := StepByte(Initial, r[0]).0;
    HarmlessRun(c, rest);
    forall k | 0 <= k < |r| && r[k] == QUOTE
      ensures !ExpectsTopKey(Run(Initial, r[..k]))
    {
      if k == 0 {
        RunNothing(Initial);
        assert r[..0] == [];
      } else {
        assert rest[k - 1] == QUOTE;
        assert r[..k] == [r[0]] + rest[..k - 1];
        RunConcat(Initial, [r[0]], rest[..k - 1]);
      }
    }
    IdleRun(i, r);
  }

  lemma ReadWhole(i: Inspector, v: Value)
    requires Idle(i) && i.config == Initial && ValidValue(v) && Depth(v) <= MAX_NESTING_DEPTH
    ensures Done(i, Inspect(i, RenderValue(v)), UsageSpans(v), [])
  {
    hide Inspect;
    if v.Object? {
      ReadObject(i, v.gap, v.members);
    } else {
      hide RenderValue;
      hide ValidValue;
      ReadOther(i, v);
      assert i.spans + [] == i.spans;
    }
  }

  lemma ReadBefore(ws: bytes)
    requires AllWs(ws)
    ensures var i := Inspect(Fresh, ws); Idle(i) && i.config == Initial && i.spans == []
  {
    hide Inspect;
    hide Run;
    assert Idle(Fresh);
    LeadingWs(Initial, ws);
    WsHasNoTopKey(Initial, ws);
    IdleRun(Fresh, ws);
  }

  /** For an accepted body, whatever tree it is written by: the captured spans are exactly the values
  of the top-level members spelled `usage`, in order, unless one of those objects is longer than the
  capture limit, and then the inspector has given up. */
  lemma CapturesExactlyUsage(e: Element)
    requires ValidElement(e) && Depth(e.value) <= MAX_NESTING_DEPTH
    ensures var i := Inspect(Fresh, RenderElement(e));
            if Fit(UsageSpans(e.value)) then !i.disabled && i.spans == UsageSpans(e.value) else i.disabled
  {
    hide Inspect;
    hide RenderValue;
    hide ValidValue;
    hide Fit;
    hide UsageSpans;
    ReadBefore(e.before);
    var i := Inspect(Fresh, e.before);
    var spans := UsageSpans(e.value);
    ReadWhole(i, e.value);
    WsAfter(i, Inspect(i, RenderValue(e.value)), spans, [], e.after);
    ChunksDoNotMatter(Fresh, e.before, RenderValue(e.value));
    ChunksDoNotMatter(Fresh, e.before + RenderValue(e.value), e.after);
    assert [] + spans == spans;
  }
}
