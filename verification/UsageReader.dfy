/** What the inspector reports at the end, and the inspector as the program keeps it. */
module UsageReader {
  import opened ExpiryQueue
  import opened JsonGrammar
  import opened JsonAutomaton
  import opened JsonValidator
  import opened UsageInspector
  import opened UsageReading
  import Admission

  type Usage = Admission.Usage

  /** What decoding and normalizing a captured object comes to; not modelled further. */
  datatype Judgement = Undecodable | Judged(usage: Option<Usage>, valid: bool, suspicious: bool)

  type Judge = bytes -> Judgement

  datatype Findings = Findings(usage: Option<Usage>, failed: bool, invalid: bool)

  const Nothing := Findings(None, false, false)

  function Verdict(span: Span, judge: Judge): Judgement {
    if span.Captured? then judge(span.text) else Undecodable
  }

  function Consider(f: Findings, span: Span, verdict: Judgement): Findings {
    match span
    case NotAnObject => Findings(None, true, true)
    case Captured(_) =>
      match verdict
      case Undecodable => f.(failed := true)
      case Judged(usage, valid, suspicious) =>
        var failed := f.failed || suspicious;
        if !valid then Findings(None, failed, true)
        else if f.invalid then f.(failed := failed)
        else Findings(usage, failed, false)
  }

  function ConsiderAll(spans: seq<Span>, judge: Judge): Findings {
    if spans == [] then Nothing
    else Consider(ConsiderAll(spans[..|spans| - 1], judge), spans[|spans| - 1], Verdict(spans[|spans| - 1], judge))
  }

  /** The result of a finished inspection: the usage and whether anything was wrong. */
  function Result(i: Inspector, judge: Judge): (Option<Usage>, bool)
    requires Valid(i.config)
  {
    if i.disabled || !JsonAutomaton.Eof(i.config).1 then (None, true)
    else (ConsiderAll(i.spans, judge).usage, ConsiderAll(i.spans, judge).failed)
  }

  // Only an accepted body has its usage reported

  lemma BeforeScan(i: Inspector, b: byte)
    ensures Announced(Appended(i, b), b).config == i.config && Announced(Appended(i, b), b).disabled == i.disabled
  {
  }

  lemma ScanFollows(i: Inspector, b: byte, starts: bool)
    requires Valid(i.config) && !i.disabled
    ensures !Scanned(i, b, starts).disabled ==> Scanned(i, b, starts).config == StepByte(i.config, b).0
  {
    hide StepByte;
    hide WithinString;
    hide OutsideString;
    var (c, op) := StepByte(i.config, b);
    KeepsConfig(i.(config := c), b, starts, op);
  }

  lemma KeepsConfig(i: Inspector, b: byte, starts: bool, op: ScanOp)
    ensures WithinString(i, b).config == i.config && OutsideString(i, b, starts, op).config == i.config
  {
  }

  lemma FollowStep(i: Inspector, b: byte)
    requires Valid(i.config) && !Step(i, b).disabled
    ensures !i.disabled && Step(i, b).config == StepByte(i.config, b).0
  {
    hide StepByte;
    hide Announced;
    hide Appended;
    hide Scanned;
    BeforeScan(i, b);
    if !i.disabled {
      ScanFollows(Announced(Appended(i, b), b), b, !i.inString && b == QUOTE && ExpectsTopKey(i.config));
    }
  }

  lemma {:induction false} FollowsValidator(s: bytes)
    requires !Inspect(Fresh, s).disabled
    ensures Inspect(Fresh, s).config == Run(Initial, s)
    decreases |s|
  {
    hide StepByte;
    hide Step;
    if s != [] {
      FollowStep(Inspect(Fresh, s[..|s| - 1]), s[|s| - 1]);
      FollowsValidator(s[..|s| - 1]);
    }
  }

  /** A usage is reported only if the whole body is a JSON text within the nesting limit. */
  lemma ReportedOnlyIfAccepted(s: bytes, judge: Judge)
    requires Result(Inspect(Fresh, s), judge).0.Some? || !Result(Inspect(Fresh, s), judge).1
    ensures IsJsonText(s, MAX_NESTING_DEPTH)
  {
    FollowsValidator(s);
    assert Accepts(s);
    AcceptsExactlyJson(s);
  }

  // What a report says, member by member

  /** The member forfeits any report: it is no object, or an object judged invalid. */
  predicate Forfeits(span: Span, judge: Judge) {
    span.NotAnObject? || (judge(span.text).Judged? && !judge(span.text).valid)
  }

  /** The member offers a usage: it is an object judged valid. */
  predicate Offers(span: Span, judge: Judge) {
    span.Captured? && judge(span.text).Judged? && judge(span.text).valid
  }

  /** Something about the member is wrong: it is no object, cannot be decoded, or looks suspicious. */
  predicate Alarms(span: Span, judge: Judge) {
    span.NotAnObject? || judge(span.text).Undecodable? || judge(span.text).suspicious
  }

  predicate LastOffer(spans: seq<Span>, judge: Judge, k: nat) {
    k < |spans| && Offers(spans[k], judge) && forall j :: k < j < |spans| ==> !Offers(spans[j], judge)
  }

  /** The report on `spans`: the usage of the last object that offers one, unless some member forfeits
  it; an object that cannot be decoded neither offers nor forfeits. */
  ghost predicate Reports(spans: seq<Span>, judge: Judge, usage: Option<Usage>, failed: bool) {
    && (failed <==> exists k :: 0 <= k < |spans| && Alarms(spans[k], judge))
    && ((exists k :: 0 <= k < |spans| && Forfeits(spans[k], judge)) ==> usage.None?)
    && ((forall k :: 0 <= k < |spans| ==> !Forfeits(spans[k], judge) && !Offers(spans[k], judge)) ==> usage.None?)
    && ((forall k :: 0 <= k < |spans| ==> !Forfeits(spans[k], judge)) ==>
          forall k: nat :: LastOffer(spans, judge, k) ==> usage == judge(spans[k].text).usage)
  }

  ghost predicate Found(spans: seq<Span>, judge: Judge, f: Findings) {
    && Reports(spans, judge, f.usage, f.failed)
    && (f.invalid <==> exists k :: 0 <= k < |spans| && Forfeits(spans[k], judge))
  }

  /** One more member: what it does to each part of the report. */
  lemma FoundMore(init: seq<Span>, span: Span, judge: Judge, f: Findings)
    requires Found(init, judge, f)
    ensures Found(init + [span], judge, Consider(f, span, Verdict(span, judge)))
  {
    var spans, g := init + [span], Consider(f, span, Verdict(span, judge));
    assert forall k :: 0 <= k < |init| ==> spans[k] == init[k];
    assert spans[|init|] == span;
    forall k: nat | LastOffer(spans, judge, k) && forall j :: 0 <= j < |spans| ==> !Forfeits(spans[j], judge)
      ensures g.usage == judge(spans[k].text).usage
    {
      if k < |init| {
        assert !Offers(spans[|init|], judge);
        assert LastOffer(init, judge, k);
      }
    }
  }

  /** Going through the members one after another gives the report on all of them. */
  lemma {:induction false} ConsiderAllReports(spans: seq<Span>, judge: Judge)
    ensures Found(spans, judge, ConsiderAll(spans, judge))
    decreases |spans|
  {
    if spans == [] {
    } else {
      hide Found;
      hide Consider;
      var init, last := spans[..|spans| - 1], spans[|spans| - 1];
      ConsiderAllReports(init, judge);
      assert spans == init + [last];
      FoundMore(init, last, judge, ConsiderAll(init, judge));
    }
  }

  /** What is reported of a tree are its usage members, unless one is over the limit. */
  ghost predicate TellsUsage(e: Element, judge: Judge, found: Option<Usage>, bad: bool) {
    if Fit(UsageSpans(e.value)) then Reports(UsageSpans(e.value), judge, found, bad) else found.None? && bad
  }

  /** For a body the grammar writes, the report is that on its `usage` members; a body with an object
  over the limit among them, or that is no JSON text, has none and is reported as failed. */
  lemma ReportsExactlyUsage(e: Element, judge: Judge)
    requires ValidElement(e) && Depth(e.value) <= MAX_NESTING_DEPTH
    ensures TellsUsage(e, judge, Result(Inspect(Fresh, RenderElement(e)), judge).0, Result(Inspect(Fresh, RenderElement(e)), judge).1)
  {
    var s := RenderElement(e);
    hide Inspect;
    hide Run;
    CapturesExactlyUsage(e);
    if Fit(UsageSpans(e.value)) {
      FollowsValidator(s);
      assert IsJsonText(s, MAX_NESTING_DEPTH);
      AcceptsExactlyJson(s);
      assert Accepts(s);
      hide JsonAutomaton.Eof;
      ConsiderAllReports(UsageSpans(e.value), judge);
      hide Reports;
      hide ConsiderAll;
    }
    hide UsageSpans;
  }

  predicate Acceptable(span: Span, judge: Judge) {
    span.Captured? && (judge(span.text).Judged? ==> judge(span.text).valid)
  }

  /** One member that is not an object, or whose object is not valid, forfeits the report. */
  lemma {:induction false} ReportedMeansAllValid(spans: seq<Span>, judge: Judge, k: nat)
    requires k < |spans| && ConsiderAll(spans, judge).usage.Some?
    ensures Acceptable(spans[k], judge)
    decreases |spans|
  {
    var init := spans[..|spans| - 1];
    InvalidStays(init, judge);
    if k < |init| {
      assert spans[k] == init[k];
      if ConsiderAll(init, judge).usage.Some? {
        ReportedMeansAllValid(init, judge, k);
      } else {
        ValidSoFar(init, judge, k);
      }
    }
  }

  lemma {:induction false} InvalidStays(spans: seq<Span>, judge: Judge)
    ensures ConsiderAll(spans, judge).invalid ==> ConsiderAll(spans, judge).usage.None?
    decreases |spans|
  {
    if spans != [] {
      InvalidStays(spans[..|spans| - 1], judge);
    }
  }

  lemma {:induction false} ValidSoFar(spans: seq<Span>, judge: Judge, k: nat)
    requires k < |spans| && !ConsiderAll(spans, judge).invalid
    ensures Acceptable(spans[k], judge)
    decreases |spans|
  {
    var init := spans[..|spans| - 1];
    if k < |init| {
      assert spans[k] == init[k];
      ValidSoFar(init, judge, k);
    }
  }

  // The inspector itself

  /** What was found so far, updated with each member named `usage`. */
  class Report {
    var usage: Option<Usage>
    var failed: bool
    var invalidCandidate: bool

    function Shown(): Findings
      reads this
    {
      Findings(usage, failed, invalidCandidate)
    }

    constructor ()
      ensures Shown() == Nothing
    {
      usage, failed, invalidCandidate := None, false, false;
    }

    method Dismiss()
      modifies this
      ensures Shown() == Consider(old(Shown()), NotAnObject, Undecodable)
    {
      usage, failed, invalidCandidate := None, true, true;
    }

    method Consume(text: bytes, verdict: Judgement)
      modifies this
      ensures Shown() == Consider(old(Shown()), Captured(text), verdict)
    {
      match verdict
      case Undecodable => failed := true;
      case Judged(found, valid, suspicious) =>
        if suspicious {
          failed := true;
        }
        if !valid {
          invalidCandidate := true;
          usage := None;
        } else if !invalidCandidate {
          usage := found;
        }
    }
  }

  lemma ConsiderMore(spans: seq<Span>, span: Span, judge: Judge)
    ensures ConsiderAll(spans + [span], judge) == Consider(ConsiderAll(spans, judge), span, Verdict(span, judge))
  {
    assert (spans + [span])[..|spans|] == spans;
  }

  /** The inspector of a JSON body. `spans` are the objects it has consumed so far, in order. */
  class Reader {
    const validator: Validator
    const report: Report
    const judge: Judge
    var finalized: bool
    var disabled: bool
    var inString: bool
    var escaped: bool
    var matches: bool
    var position: nat
    var topKey: bool
    var usageKey: bool
    var awaiting: bool
    var capturing: bool
    var base: nat
    var capture: bytes
    ghost var spans: seq<Span>

    ghost function ShownWith(c: Config): Inspector
      reads this
    {
      Inspector(c, inString, escaped, matches, position, topKey, usageKey, awaiting, capturing, base, capture, disabled, spans)
    }

    ghost function Shown(): Inspector
      reads this, validator, validator.stack
      requires validator.InBounds()
    {
      ShownWith(validator.Here())
    }

    /** The report is the judgement of what was consumed; giving up forfeits it. */
    ghost predicate Told()
      reads this, report
    {
      if disabled then report.failed && report.usage == None else report.Shown() == ConsiderAll(spans, judge)
    }

    constructor (judge: Judge)
      ensures validator.Ready() && Shown() == Fresh && Told() && !finalized && this.judge == judge
      ensures fresh(validator) && fresh(validator.stack) && fresh(report)
    {
      this.judge := judge;
      validator := new Validator();
      report := new Report();
      finalized, disabled, inString, escaped, matches, position, topKey := false, false, false, false, false, 0, false;
      usageKey, awaiting, capturing, base, capture, spans := false, false, false, 0, [], [];
    }

    method Disable(ghost c: Config)
      modifies this, report
      ensures ShownWith(c) == Disabled(old(ShownWith(c))) && Told() && finalized == old(finalized)
    {
      disabled, capture := true, [];
      report.failed, report.usage := true, None;
    }

    /** What the byte means for a `usage` member announced before. */
    method Announce(b: byte, depth: nat, ghost c: Config)
      requires depth == |c.stack| && Told() && !disabled
      modifies this, report
      ensures ShownWith(c) == Announced(old(ShownWith(c)), b) && Told() && finalized == old(finalized)
    {
      hide Consider;
      hide ConsiderAll;
      if !inString && !capturing && usageKey && !IsWs(b) {
        usageKey := false;
        if b == COLON {
          awaiting := true;
        }
      } else if !inString && !capturing && awaiting && !IsWs(b) {
        awaiting := false;
        if b == LBRACE {
          capturing, base, capture := true, depth, [b];
        } else {
          ConsiderMore(spans, NotAnObject, judge);
          report.Dismiss();
          spans := spans + [NotAnObject];
        }
      }
    }

    method ReadInString(b: byte, ghost c: Config)
      requires Told()
      modifies this
      ensures ShownWith(c) == WithinString(old(ShownWith(c)), b) && Told() && finalized == old(finalized)
    {
      hide ConsiderAll;
      if escaped {
        escaped, matches := false, false;
        return;
      }
      if b == BACKSLASH {
        escaped, matches := true, false;
      } else if b == QUOTE {
        inString := false;
        if !capturing && topKey {
          usageKey := matches && position == |USAGE|;
        }
      } else {
        if matches && (position >= |USAGE| || b != USAGE[position]) {
          matches := false;
        }
        position := position + 1;
      }
    }

    method Consume()
      requires Told() && !disabled && capturing
      modifies this`capturing, this`capture, this`spans, report
      ensures Told() && !capturing && capture == [] && spans == old(spans) + [Captured(old(capture))]
    {
      hide Consider;
      hide ConsiderAll;
      ConsiderMore(spans, Captured(capture), judge);
      report.Consume(capture, judge(capture));
      spans := spans + [Captured(capture)];
      capturing, capture := false, [];
    }

    method ReadOutside(b: byte, starts: bool, op: ScanOp, depth: nat, ghost c: Config)
      requires depth == |c.stack| && Told() && !disabled
      modifies this, report
      ensures ShownWith(c) == OutsideString(old(ShownWith(c)), b, starts, op) && Told() && finalized == old(finalized)
    {
      hide ConsiderAll;
      if b == QUOTE {
        inString, escaped, matches, position, topKey := true, false, starts, 0, starts;
      }
      if capturing && op == ScanEndObject && depth == base {
        Consume();
      }
    }

    method Scan(b: byte, starts: bool)
      requires validator.Ready() && Told() && !disabled
      modifies this, report, validator, validator.stack
      ensures validator.Ready() && Shown() == Scanned(old(Shown()), b, starts) && Told() && finalized == old(finalized)
    {
      hide JsonAutomaton.StepByte;
      hide WithinString;
      hide OutsideString;
      hide ConsiderAll;
      var op := validator.StepByte(b);
      ghost var c := validator.Here();
      if op == ScanError {
        Disable(c);
      } else if inString {
        ReadInString(b, c);
      } else {
        ReadOutside(b, starts, op, validator.depth, c);
      }
    }

    method WriteByte(b: byte)
      requires validator.Ready() && Told()
      modifies this, report, validator, validator.stack
      ensures validator.Ready() && Shown() == UsageInspector.Step(old(Shown()), b) && Told() && finalized == old(finalized)
    {
      hide Announced;
      hide Scanned;
      hide ConsiderAll;
      ghost var before := validator.Here();
      if disabled {
        return;
      }
      if capturing && |capture| == CAPTURE_LIMIT {
        Disable(before);
        return;
      }
      if capturing {
        capture := capture + [b];
      }
      var starts := !inString && b == QUOTE && validator.ExpectsTopLevelObjectKey();
      ghost var i := ShownWith(before);
      StaysEnabled(i, b);
      Announce(b, validator.depth, before);
      Scan(b, starts);
    }

    /** A chunk that comes after the end is ignored. */
    method Write(data: bytes)
      requires validator.Ready() && (!finalized ==> Told())
      modifies this, report, validator, validator.stack
      ensures validator.Ready() && (!finalized ==> Told()) && finalized == old(finalized)
      ensures Shown() == if old(finalized) then old(Shown()) else Inspect(old(Shown()), data)
      ensures old(finalized) ==> report.Shown() == old(report.Shown())
    {
      hide UsageInspector.Step;
      hide ConsiderAll;
      if finalized {
        return;
      }
      for k := 0 to |data|
        invariant validator.Ready() && Shown() == Inspect(old(Shown()), data[..k]) && Told() && !finalized
      {
        assert data[..k + 1][..k] == data[..k];
        WriteByte(data[k]);
      }
      assert data[..|data|] == data;
    }

    /** Ends the inspection: the report counts only if the reader is enabled and the validator accepts.
    Asked again, it answers the same. */
    method Finish() returns (found: Option<Usage>, bad: bool)
      requires validator.Ready() && (!finalized ==> Told())
      modifies this, report, validator, validator.stack
      ensures finalized && found == report.usage && bad == report.failed
      ensures (found, bad) == if old(finalized) then old((report.usage, report.failed)) else Result(old(Shown()), judge)
    {
      hide ConsiderAll;
      if !finalized {
        finalized := true;
        var accepted := validator.Eof();
        if !accepted {
          report.failed, report.usage := true, None;
        }
      }
      return report.usage, report.failed;
    }
  }

  lemma StaysEnabled(i: Inspector, b: byte)
    ensures Announced(i, b).disabled == i.disabled
  {
  }

  function Body(chunks: seq<bytes>): bytes {
    if chunks == [] then [] else Body(chunks[..|chunks| - 1]) + chunks[|chunks| - 1]
  }

  /** The tree is one that writes `s` within the nesting limit. */
  ghost predicate Writes(e: Element, s: bytes) {
    ValidElement(e) && Depth(e.value) <= MAX_NESTING_DEPTH && RenderElement(e) == s
  }

  lemma AnsweredTree(e: Element, s: bytes, judge: Judge)
    requires Writes(e, s)
    ensures TellsUsage(e, judge, Result(Inspect(Fresh, s), judge).0, Result(Inspect(Fresh, s), judge).1)
  {
    ReportsExactlyUsage(e, judge);
    hide Result;
    hide Inspect;
    hide TellsUsage;
  }

  lemma Answered(s: bytes, judge: Judge)
    ensures var r := Result(Inspect(Fresh, s), judge);
            && (!IsJsonText(s, MAX_NESTING_DEPTH) ==> r.0.None? && r.1)
            && (forall e: Element :: Writes(e, s) ==> TellsUsage(e, judge, r.0, r.1))
  {
    var r := Result(Inspect(Fresh, s), judge);
    if r.0.Some? || !r.1 {
      ReportedOnlyIfAccepted(s, judge);
    }
    hide *;
    forall e: Element | Writes(e, s)
      ensures TellsUsage(e, judge, r.0, r.1)
    {
      AnsweredTree(e, s, judge);
    }
  }

  /** A response from its first chunk to its end: what is reported depends on the body alone. */
  method Examine(chunks: seq<bytes>, judge: Judge) returns (found: Option<Usage>, bad: bool)
    ensures (found, bad) == Result(Inspect(Fresh, Body(chunks)), judge)
    ensures !IsJsonText(Body(chunks), MAX_NESTING_DEPTH) ==> found.None? && bad
    ensures forall e: Element :: Writes(e, Body(chunks)) ==> TellsUsage(e, judge, found, bad)
  {
    hide TellsUsage;
    hide Writes;
    hide IsJsonText;
    hide Result;
    hide Inspect;
    var reader := new Reader(judge);
    InspectNothing(Fresh);
    for k := 0 to |chunks|
      invariant fresh(reader) && fresh(reader.report) && fresh(reader.validator) && fresh(reader.validator.stack)
      invariant reader.validator.Ready() && reader.Told() && !reader.finalized && reader.judge == judge
      invariant reader.Shown() == Inspect(Fresh, Body(chunks[..k]))
    {
      assert chunks[..k + 1][..k] == chunks[..k];
      ChunksDoNotMatter(Fresh, Body(chunks[..k]), chunks[k]);
      reader.Write(chunks[k]);
    }
    assert chunks[..|chunks|] == chunks;
    found, bad := reader.Finish();
    Answered(Body(chunks), judge);
  }
}
