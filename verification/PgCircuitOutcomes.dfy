/** What reported outcomes do to a shared circuit, whichever replica they come through: enough failures
open it, a failed or expired probe reopens it, and the last probe closes it after a success. */
module PgCircuitOutcomes {
  import opened ExpiryQueue
  import opened CircuitBreaker
  import opened Counting
  import opened PgCircuits
  import opened PgCircuitSteps
  import opened PgCircuitRuns
  import CircuitBook

  // 1. Failures of a closed circuit

  /** When a reported failure is taken to have happened: never after now. */
  function Happened(cm: Completion, now: Time): Time {
    if cm.reportedAt <= now then cm.reportedAt else now
  }

  predicate InTime(at: Time, now: Time) {
    now - 24 * 3_600_000_000_000 < at <= now + 5 * 60_000_000_000
  }

  /** A failure nobody has reported yet, of a call that was no probe. */
  predicate FreshFailure(s: Store, cm: Completion, now: Time) {
    cm.outcome == Failure && cm.attemptId !in s.d.probes && cm.attemptId !in s.receipts && InTime(cm.reportedAt, now)
  }

  /** The failure is of the present revision and generation, and happened within the window. */
  predicate Counts(c: CircuitRow, o: Options, cm: Completion, now: Time) {
    c.revision == cm.backend.revision && c.generation == cm.generation && now - o.window <= Happened(cm, now)
  }

  /** The failures on record with this one among them. */
  function WithFailure(failures: Failures, cm: Completion, revision: int, now: Time): Failures {
    if cm.attemptId in failures then failures else failures[cm.attemptId := FailureRow(cm.backend.id, revision, Happened(cm, now))]
  }

  predicate IsOf(f: FailureRow, b: int, revision: int) {
    f.backend == b && f.revision == revision
  }

  /** `t` is when the latest of these failures happened. */
  ghost predicate IsLatest(failures: Failures, b: int, revision: int, t: Time) {
    && (exists f :: f in failures && IsOf(failures[f], b, revision) && failures[f].at == t)
    && (forall f :: f in failures && IsOf(failures[f], b, revision) ==> failures[f].at <= t)
  }

  /** Of the failures of this circuit those within the window of the latest, and all others. */
  function Recent(failures: Failures, b: int, revision: int, latest: Time, window: int): Failures {
    map f | f in failures && (IsOf(failures[f], b, revision) ==> failures[f].at >= latest - window) :: failures[f]
  }

  function Held(failures: Failures, b: int, revision: int): set<Id> {
    set f | f in failures && IsOf(failures[f], b, revision)
  }

  lemma NewestIsLatest(failures: Failures, b: int, revision: int)
    ensures match Newest(Times(failures, b, revision))
            case None => Held(failures, b, revision) == {}
            case Some(t) => IsLatest(failures, b, revision, t)
  {
    var times := Times(failures, b, revision);
    NewestMeaning(times);
    hide Newest;
    assert forall f :: f in Held(failures, b, revision) ==> failures[f].at in times;
    if times == {} {
      Vacant(Held(failures, b, revision));
    } else {
      var t := Newest(times).value;
      assert t in times;
      forall f | f in failures && IsOf(failures[f], b, revision)
        ensures failures[f].at <= t
      {
        assert failures[f].at in times;
      }
    }
  }

  lemma PruneIsRecent(all: Failures, b: int, revision: int, latest: Time, window: int)
    ensures PruneFailures(all, b, revision, latest, window) == Recent(all, b, revision, latest, window)
  {
    var kept, pruned := Recent(all, b, revision, latest, window), PruneFailures(all, b, revision, latest, window);
    forall f
      ensures f in kept <==> f in pruned
    {
    }
    assert kept.Keys == pruned.Keys;
  }

  lemma CountIsHeld(kept: Failures, b: int, revision: int)
    ensures CountOf(kept, b, revision) == |Held(kept, b, revision)|
  {
    var counted := set f | f in kept && kept[f].backend == b && kept[f].revision == revision;
    forall f
      ensures f in counted <==> f in Held(kept, b, revision)
    {
    }
    assert counted == Held(kept, b, revision);
  }

  lemma RecordMeaning(failures: Failures, cm: Completion, revision: int, now: Time, window: int, latest: Time)
    requires var r := Record(failures, cm.attemptId, cm.backend.id, revision, NotAfter(cm.reportedAt, now), window);
             r.Some? && r.value.1 == latest
    ensures var b, all := cm.backend.id, WithFailure(failures, cm, revision, now);
            var r := Record(failures, cm.attemptId, b, revision, NotAfter(cm.reportedAt, now), window).value;
            && IsLatest(all, b, revision, latest) && r.0 == Recent(all, b, revision, latest, window)
            && CountOf(r.0, b, revision) == |Held(r.0, b, revision)|
  {
    var b, all := cm.backend.id, WithFailure(failures, cm, revision, now);
    NewestIsLatest(all, b, revision);
    PruneIsRecent(all, b, revision, latest, window);
    CountIsHeld(Recent(all, b, revision, latest, window), b, revision);
    hide Newest;
    hide Times;
    hide IsLatest;
    hide Recent;
    hide PruneFailures;
    hide CountOf;
    hide Held;
  }

  /** After any run: a fresh failure of a closed circuit is put on record if it counts, those too old for
  the latest are forgotten, and the circuit opens exactly if enough are left. */
  lemma FailureOpensExactly(o: Options, run: seq<Event>, home: Home, cm: Completion, now: Time) returns (latest: Time)
    requires ValidOptions(o) && (forall i :: 0 <= i < |run| ==> Named(run[i], home)) && home(cm.attemptId) == cm.backend.id
    requires var s := After(o, run);
             && cm.backend.id in s.d.circuits && s.d.circuits[cm.backend.id].state == Closed && FreshFailure(s, cm, now)
             && Counts(s.d.circuits[cm.backend.id], o, cm, now)
    ensures var s, b := After(o, run), cm.backend.id;
            var c, all := s.d.circuits[b], WithFailure(s.d.failures, cm, s.d.circuits[b].revision, now);
            var (t, answer) := CompleteTx(s, o, cm, now);
            && answer == Done && IsLatest(all, b, c.revision, latest)
            && t.d.failures == Recent(all, b, c.revision, latest, o.window) && t.d.probes == s.d.probes
            && t.d.circuits == s.d.circuits[b :=
                 if |Held(t.d.failures, b, c.revision)| >= o.threshold
                 then CircuitRow(Open, c.revision, c.generation + 1, Some(latest), false, now) else c]
  {
    var s, b := After(o, run), cm.backend.id;
    RunKeepsInv(o, run, home);
    hide After;
    var c := s.d.circuits[b];
    RecordSucceeds(s.d, cm.attemptId, b, NotAfter(cm.reportedAt, now), o.window, home);
    hide Inv;
    var r := Record(s.d.failures, cm.attemptId, b, c.revision, NotAfter(cm.reportedAt, now), o.window);
    latest := r.value.1;
    RecordMeaning(s.d.failures, cm, c.revision, now, o.window, latest);
    assert !HasExpired(s.d, b, now);
    hide Record;
    hide CountOf;
    hide IsLatest;
    hide Recent;
    hide WithFailure;
    hide Held;
  }

  /** Any other failure reported for the first time changes nothing of the circuit. */
  lemma OtherFailuresDoNothing(s: Store, o: Options, cm: Completion, now: Time)
    requires cm.backend.id in s.d.circuits && s.d.circuits[cm.backend.id].state == Closed && FreshFailure(s, cm, now)
    requires !Counts(s.d.circuits[cm.backend.id], o, cm, now)
    ensures CompleteTx(s, o, cm, now).1 == Done && CompleteTx(s, o, cm, now).0.d == s.d
  {
    assert !HasExpired(s.d, cm.backend.id, now);
    hide Record;
  }

  // 2. Probes that run out

  /** An open probe of the circuit's present generation. */
  predicate IsOpenProbe(p: ProbeRow, b: int, c: CircuitRow) {
    p.backend == b && p.revision == c.revision && p.generation == c.generation && p.outcome.None?
  }

  /** The probe that runs out first among those that have run out. */
  ghost predicate RunsOutFirst(d: Tables, b: int, now: Time, first: Id)
    requires b in d.circuits
  {
    && first in d.probes && IsOpenProbe(d.probes[first], b, d.circuits[b]) && d.probes[first].expiresAt <= now
    && forall p :: p in d.probes && IsOpenProbe(d.probes[p], b, d.circuits[b]) && d.probes[p].expiresAt <= now ==>
         d.probes[first].expiresAt <= d.probes[p].expiresAt
  }

  /** Every open probe is settled: the first one as expired, the others as superseded. */
  ghost predicate SettledBy(probes: Probes, after: Probes, b: int, c: CircuitRow, first: Id) {
    && after.Keys == probes.Keys
    && forall p :: p in probes ==>
         if IsOpenProbe(probes[p], b, c)
         then after[p].outcome == Some(if p == first then Expired else Superseded) && after[p].backend == b
              && after[p].generation == c.generation
         else after[p] == probes[p]
  }

  lemma TripMeaning(d: Tables, o: Options, b: int, now: Time) returns (first: Id, latest: Time)
    requires HasExpired(d, b, now) && !LapseFails(d, o, b, now)
    ensures RunsOutFirst(d, b, now, first)
    ensures var c, t := d.circuits[b], Lapse(d, o, b, now);
            var all := if first in d.failures then d.failures else d.failures[first := FailureRow(b, c.revision, d.probes[first].expiresAt)];
            && IsLatest(all, b, c.revision, latest) && t.failures == Recent(all, b, c.revision, latest, o.window)
            && t.circuits == d.circuits[b := CircuitRow(Open, c.revision, c.generation + 1, Some(latest), false, now)]
            && SettledBy(d.probes, t.probes, b, c, first)
  {
    SomeOverdue(d, b, now);
    var c := d.circuits[b];
    var overdue := Overdue(d.probes, b, c, now);
    first := FirstOf(d.probes, overdue);
    assert first in overdue;
    forall p | p in d.probes && IsOpenProbe(d.probes[p], b, c) && d.probes[p].expiresAt <= now
      ensures d.probes[first].expiresAt <= d.probes[p].expiresAt
    {
      assert p in overdue;
      assert Before(d.probes, first, p);
    }
    var all := InsertFailure(d.failures, first, FailureRow(b, c.revision, d.probes[first].expiresAt));
    NewestIsLatest(all, b, c.revision);
    latest := Newest(Times(all, b, c.revision)).value;
    PruneIsRecent(all, b, c.revision, latest, o.window);
    hide Newest;
    hide Times;
    hide IsLatest;
    hide Recent;
    hide PruneFailures;
    hide Overdue;
  }

  /** After any run: once a probe of a half-open circuit has run out, every transaction on its backend and
  every refresh of it begins by reopening the circuit. */
  lemma ExpiredProbeReopens(o: Options, run: seq<Event>, home: Home, b: int, now: Time) returns (first: Id, latest: Time)
    requires ValidOptions(o) && forall i :: 0 <= i < |run| ==> Named(run[i], home)
    requires var d := After(o, run).d;
             && b in d.circuits && d.circuits[b].state == HalfOpen
             && exists p :: p in d.probes && IsOpenProbe(d.probes[p], b, d.circuits[b]) && d.probes[p].expiresAt <= now
    ensures var d := After(o, run).d;
            var c, t := d.circuits[b], Lapse(d, o, b, now);
            var all := if first in d.failures then d.failures
                       else d.failures[first := FailureRow(b, c.revision, if first in d.probes then d.probes[first].expiresAt else 0)];
            && RunsOutFirst(d, b, now, first) && t == Reconcile(d, o, b, now)
            && IsLatest(all, b, c.revision, latest) && t.failures == Recent(all, b, c.revision, latest, o.window)
            && t.circuits == d.circuits[b := CircuitRow(Open, c.revision, c.generation + 1, Some(latest), false, now)]
            && SettledBy(d.probes, t.probes, b, c, first)
  {
    var d := After(o, run).d;
    ExpiryNeverFails(o, run, home, b, now);
    hide After;
    var p :| p in d.probes && IsOpenProbe(d.probes[p], b, d.circuits[b]) && d.probes[p].expiresAt <= now;
    assert Unresolved(d.probes[p], b, d.circuits[b]);
    assert HasExpired(d, b, now);
    hide LapseFails;
    first, latest := TripMeaning(d, o, b, now);
    hide IsLatest;
    hide Recent;
    hide SettledBy;
    hide Trip;
  }

  // 3. Probes that are reported

  /** The report is the first about an open probe that has time left, and names it rightly. */
  predicate Concludes(d: Tables, cm: Completion, now: Time) {
    && cm.attemptId in d.probes && InTime(cm.reportedAt, now)
    && var p := d.probes[cm.attemptId];
    p.outcome.None? && p.revision == cm.backend.revision && p.generation == cm.generation
  }

  /** The probe belongs to the present generation of a half-open circuit. */
  predicate Present(d: Tables, cm: Completion)
    requires cm.backend.id in d.circuits
  {
    var c := d.circuits[cm.backend.id];
    c.state == HalfOpen && c.revision == cm.backend.revision && c.generation == cm.generation
  }

  /** Other probes of the generation are still open. */
  ghost predicate OthersOpen(d: Tables, cm: Completion)
    requires cm.backend.id in d.circuits
  {
    exists p :: p in d.probes && p != cm.attemptId && IsOpenProbe(d.probes[p], cm.backend.id, d.circuits[cm.backend.id])
  }

  ghost predicate OwnReport(probes: Probes, after: Probes, cm: Completion) {
    && after.Keys == probes.Keys && cm.attemptId in probes
    && after[cm.attemptId].outcome == Some(Reported(cm.outcome)) && after[cm.attemptId].reportedAt == Some(cm.reportedAt)
  }

  ghost predicate OthersSame(probes: Probes, after: Probes, id: Id)
    requires after.Keys == probes.Keys
  {
    forall p :: p in probes && p != id ==> after[p] == probes[p]
  }

  lemma NoOthers(d: Tables, cm: Completion, t: Tables, now: Time)
    requires cm.backend.id in d.circuits && Concludes(d, cm, now) && t.probes == d.probes[cm.attemptId := WithReport(d.probes[cm.attemptId], cm, now)]
    requires cm.backend.id in t.circuits && t.circuits[cm.backend.id].revision == d.circuits[cm.backend.id].revision
    requires t.circuits[cm.backend.id].generation == d.circuits[cm.backend.id].generation
    ensures Outstanding(t.probes, cm.backend.id, t.circuits[cm.backend.id]) == {} <==> !OthersOpen(d, cm)
  {
    var b := cm.backend.id;
    var left := Outstanding(t.probes, b, t.circuits[b]);
    if OthersOpen(d, cm) {
      var p :| p in d.probes && p != cm.attemptId && IsOpenProbe(d.probes[p], b, d.circuits[b]);
      assert p in left;
    } else {
      forall p
        ensures p !in left
      {
        if p in t.probes && p != cm.attemptId {
          assert t.probes[p] == d.probes[p] && !IsOpenProbe(d.probes[p], b, d.circuits[b]);
        }
      }
      Vacant(left);
    }
  }

  /** A report that concludes a probe of an earlier generation is only noted. */
  lemma LateReportIsNoted(d: Tables, o: Options, cm: Completion, now: Time)
    requires cm.backend.id in d.circuits && Concludes(d, cm, now) && !Present(d, cm)
    ensures var r := ConcludeProbe(d, o, cm, now);
            && r.Some? && r.value.1 == Done && r.value.0.circuits == d.circuits && r.value.0.failures == d.failures
            && OwnReport(d.probes, r.value.0.probes, cm) && OthersSame(d.probes, r.value.0.probes, cm.attemptId)
  {
  }

  /** A report of success or of neither closes the circuit if a probe of the generation succeeded and no
  other is open, and else only notes it. */
  lemma GoodReport(d: Tables, o: Options, cm: Completion, now: Time)
    requires cm.backend.id in d.circuits && Concludes(d, cm, now) && Present(d, cm) && cm.outcome != Failure
    ensures var b := cm.backend.id;
            var c, r := d.circuits[b], ConcludeProbe(d, o, cm, now);
            && r.Some? && r.value.1 == Done
            && OwnReport(d.probes, r.value.0.probes, cm) && OthersSame(d.probes, r.value.0.probes, cm.attemptId)
            && var t, good := r.value.0, cm.outcome == Success || c.succeeded;
            if good && !OthersOpen(d, cm)
            then && t.circuits == d.circuits[b := CircuitRow(Closed, c.revision, c.generation + 1, None, false, now)]
                 && t.failures == DropFailures(d.failures, b)
            else && t.circuits == d.circuits[b := c.(succeeded := good, updatedAt := t.circuits[b].updatedAt)]
                 && t.failures == d.failures
  {
    var b := cm.backend.id;
    var t := d.(probes := d.probes[cm.attemptId := WithReport(d.probes[cm.attemptId], cm, now)]);
    var c := d.circuits[b];
    NoOthers(d, cm, t, now);
    NoOthers(d, cm, t.(circuits := d.circuits[b := c.(succeeded := true, updatedAt := now)]), now);
    hide Outstanding;
    hide OthersOpen;
    hide DropFailures;
    hide Record;
  }

  /** A report of failure reopens the circuit and supersedes the other probes of the generation. */
  lemma BadReport(d: Tables, o: Options, cm: Completion, now: Time, home: Home) returns (latest: Time)
    requires Inv(d, o, home) && home(cm.attemptId) == cm.backend.id
    requires cm.backend.id in d.circuits && Concludes(d, cm, now) && Present(d, cm) && cm.outcome == Failure
    ensures var b := cm.backend.id;
            var c, r, all := d.circuits[b], ConcludeProbe(d, o, cm, now), WithFailure(d.failures, cm, d.circuits[b].revision, now);
            && r.Some? && r.value.1 == Done && IsLatest(all, b, c.revision, latest)
            && var t := r.value.0;
            && t.failures == Recent(all, b, c.revision, latest, o.window)
            && t.circuits == d.circuits[b := CircuitRow(Open, c.revision, c.generation + 1, Some(latest), false, now)]
            && OwnReport(d.probes, t.probes, cm)
            && (forall p :: p in d.probes && p != cm.attemptId ==>
                  if d.probes[p].backend == b && d.probes[p].generation == c.generation && d.probes[p].outcome.None?
                  then t.probes[p].outcome == Some(Superseded) else t.probes[p] == d.probes[p])
  {
    var b := cm.backend.id;
    var c := d.circuits[b];
    RecordSucceeds(d, cm.attemptId, b, NotAfter(cm.reportedAt, now), o.window, home);
    hide Inv;
    latest := Record(d.failures, cm.attemptId, b, c.revision, NotAfter(cm.reportedAt, now), o.window).value.1;
    RecordMeaning(d.failures, cm, c.revision, now, o.window, latest);
    hide Record;
    hide IsLatest;
    hide Recent;
    hide WithFailure;
  }

  // 4. What a transaction does to each circuit

  /** The report marks the circuit: a probe of its present generation succeeded. */
  ghost predicate Marks(s: Store, o: Options, e: Event, b: int) {
    && e.op.Completes? && e.op.cm.backend.id == b && b in s.d.circuits && e.op.cm.outcome == Success
    && var d := Lapse(s.d, o, b, e.now);
    b in d.circuits && Concludes(d, e.op.cm, e.now) && Present(d, e.op.cm)
  }

  /** The report is a fresh failure of the closed circuit that counts. */
  ghost predicate Blames(s: Store, o: Options, e: Event, b: int) {
    && e.op.Completes? && e.op.cm.backend.id == b && b in s.d.circuits
    && FreshFailure(s, e.op.cm, e.now) && Counts(s.d.circuits[b], o, e.op.cm, e.now)
  }

  /** A circuit stays in its generation as it was, but for the mark, or goes on to a later one without
  it; a closed one opens only on a failure that counts. */
  predicate Turns(c: CircuitRow, n: CircuitRow, marks: bool, blames: bool) {
    && (n.generation == c.generation ==>
          n.state == c.state && n.revision == c.revision && n.openedAt == c.openedAt && (n.succeeded <==> c.succeeded || marks))
    && (n.generation != c.generation ==> n.generation > c.generation && !n.succeeded)
    && (c.state == Closed && n.state != Closed ==> blames && n.state == Open && n.generation == c.generation + 1)
    && (marks ==> c.state == HalfOpen)
  }

  lemma LapseTurns(d: Tables, o: Options, k: int, now: Time, b: int)
    requires b in d.circuits
    ensures var t := Lapse(d, o, k, now);
            && b in t.circuits && Turns(d.circuits[b], t.circuits[b], false, false)
            && (t.circuits[b] != d.circuits[b] ==> k == b && d.circuits[b].state == HalfOpen && t.circuits[b].state == Open)
            && (t.circuits[b] == d.circuits[b] && k == b ==> t == d)
  {
    if HasExpired(d, k, now) {
      SomeOverdue(d, k, now);
    }
    hide Newest;
    hide Times;
    hide FirstOf;
    hide ResolveProbes;
    hide PruneFailures;
  }

  lemma AdmitTurns(d: Tables, o: Options, known: Backend, r: Request, now: Time, b: int)
    requires r.backend.id in d.circuits && b in d.circuits
    ensures var t := Admit(d, o, known, r, now).0;
            b in t.circuits && Turns(d.circuits[b], t.circuits[b], false, false)
  {
    hide InFlight;
  }

  lemma AcquireTurns(s: Store, o: Options, r: Request, now: Time, b: int)
    requires b in s.d.circuits
    ensures var t := AcquireTx(s, o, r, now).0.d; b in t.circuits && Turns(s.d.circuits[b], t.circuits[b], false, false)
  {
    var k := r.backend.id;
    LapseTurns(s.d, o, k, now, b);
    if k in s.d.circuits && k in s.backends {
      AdmitTurns(Lapse(s.d, o, k, now), o, s.backends[k], r, now, b);
    }
    hide Lapse;
    hide LapseFails;
    hide Admit;
    hide Replay;
  }

  lemma ConcludeTurns(d: Tables, o: Options, cm: Completion, now: Time, b: int)
    requires cm.attemptId in d.probes && cm.backend.id in d.circuits && b in d.circuits
    requires ConcludeProbe(d, o, cm, now).Some?
    ensures var t := ConcludeProbe(d, o, cm, now).value.0;
            && b in t.circuits
            && Turns(d.circuits[b], t.circuits[b],
                     cm.outcome == Success && b == cm.backend.id && Concludes(d, cm, now) && Present(d, cm), false)
  {
    hide Record;
    hide Outstanding;
    hide Terminalized;
    hide DropFailures;
  }

  lemma ApplyTurns(d: Tables, o: Options, cm: Completion, now: Time, b: int)
    requires cm.backend.id in d.circuits && b in d.circuits && ApplyFailure(d, o, cm, now).Some?
    ensures var t := ApplyFailure(d, o, cm, now).value;
            && b in t.circuits
            && Turns(d.circuits[b], t.circuits[b], false, b == cm.backend.id && Counts(d.circuits[b], o, cm, now))
  {
    hide Record;
    hide CountOf;
  }

  lemma CompleteTurns(s: Store, o: Options, e: Event, b: int)
    requires b in s.d.circuits && e.op.Completes? && !LapseFails(s.d, o, b, e.now)
    ensures var t := CompleteTx(s, o, e.op.cm, e.now).0.d;
            b in t.circuits && Turns(s.d.circuits[b], t.circuits[b], Marks(s, o, e, b), Blames(s, o, e, b))
  {
    var cm, k := e.op.cm, e.op.cm.backend.id;
    if k in s.d.circuits {
      LapseTurns(s.d, o, k, e.now, b);
      LapseTurns(s.d, o, k, e.now, k);
      var d := Lapse(s.d, o, k, e.now);
      if cm.attemptId in d.probes {
        if ConcludeProbe(d, o, cm, e.now).Some? {
          ConcludeTurns(d, o, cm, e.now, b);
        }
      } else if ApplyFailure(d, o, cm, e.now).Some? {
        ApplyTurns(d, o, cm, e.now, b);
      }
      LapseProbes(s.d, o, k, e.now);
    }
    hide Lapse;
    hide LapseFails;
    hide ConcludeProbe;
    hide ApplyFailure;
  }

  lemma LapseProbes(d: Tables, o: Options, k: int, now: Time)
    ensures Lapse(d, o, k, now).probes.Keys == d.probes.Keys
  {
    if HasExpired(d, k, now) {
      SomeOverdue(d, k, now);
    }
    hide Newest;
    hide Times;
    hide FirstOf;
    hide PruneFailures;
  }

  lemma {:induction false} LapseEachTurns(d: Tables, o: Options, ids: seq<int>, now: Time, b: int)
    requires b in d.circuits && LapseEach(d, o, ids, now).Some?
    ensures var t := LapseEach(d, o, ids, now).value; b in t.circuits && Turns(d.circuits[b], t.circuits[b], false, false)
    decreases |ids|
  {
    if ids == [] {
    } else {
      var init, k := ids[..|ids| - 1], ids[|ids| - 1];
      LapseEachTurns(d, o, init, now, b);
      LapseTurns(LapseEach(d, o, init, now).value, o, k, now, b);
      hide Lapse;
      hide LapseFails;
    }
  }

  lemma ReconcileTurns(d: Tables, o: Options, k: int, now: Time, b: int)
    requires b in d.circuits
    ensures var t := Reconcile(d, o, k, now); b in t.circuits && Turns(d.circuits[b], t.circuits[b], false, false)
  {
    LapseTurns(d, o, k, now, b);
    hide Trip;
  }

  lemma RefreshTurns(d: Tables, o: Options, ids: set<int>, now: Time, b: int)
    requires b in d.circuits
    ensures var t := Refresh(d, o, ids, now); b in t.circuits && Turns(d.circuits[b], t.circuits[b], false, false)
  {
    hide Newest;
    hide Times;
    hide InsertAll;
    hide PruneAll;
    hide ResolveAll;
  }

  lemma {:induction false} IdentifyTurns(s: Store, ids: seq<int>, now: Time, b: int)
    requires b in s.d.circuits
    ensures var t := IdentifyAll(s, ids, now).d; b in t.circuits && Turns(s.d.circuits[b], t.circuits[b], false, false)
    decreases |ids|
  {
    if ids == [] {
    } else {
      IdentifyTurns(s, ids[..|ids| - 1], now, b);
      hide SupersedeAll;
      hide DropFailures;
    }
  }

  /** What any transaction does to any circuit. */
  lemma StepTurns(s: Store, o: Options, e: Event, b: int)
    requires b in s.d.circuits && !LapseFails(s.d, o, b, e.now)
    ensures var t := Step(s, o, e).d;
            b in t.circuits && Turns(s.d.circuits[b], t.circuits[b], Marks(s, o, e, b), Blames(s, o, e, b))
  {
    match e.op
    case Acquires(r) => AcquireTurns(s, o, r, e.now, b);
    case Completes(cm) => CompleteTurns(s, o, e, b);
    case Renews(ids, permits) =>
      if LapseEach(s.d, o, ids, e.now).Some? {
        LapseEachTurns(s.d, o, ids, e.now, b);
      }
    case Reconciles(k) => ReconcileTurns(s.d, o, k, e.now, b);
    case Refreshes(ids) => RefreshTurns(s.d, o, (set k | k in ids), e.now, b);
    case Identifies(ids) => IdentifyTurns(s, ids, e.now, b);
    case Creates(k, enabled, draining) =>
    case Changes(k, change) =>
    case Cleans(probes, receipts) =>
    hide LapseFails;
    hide AcquireTx;
    hide CompleteTx;
    hide LapseEach;
    hide Reconcile;
    hide Refresh;
    hide IdentifyAll;
  }

  // 5. Runs

  ghost predicate NamedRun(o: Options, run: seq<Event>, home: Home) {
    ValidOptions(o) && forall i :: 0 <= i < |run| ==> Named(run[i], home)
  }

  lemma LastIsStep(o: Options, run: seq<Event>)
    requires run != []
    ensures After(o, run) == Step(After(o, run[..|run| - 1]), o, run[|run| - 1])
  {
    hide Step;
  }

  lemma RunTurns(o: Options, run: seq<Event>, home: Home, b: int)
    requires NamedRun(o, run, home) && run != [] && b in After(o, run[..|run| - 1]).d.circuits
    ensures var s, t, e := After(o, run[..|run| - 1]), After(o, run), run[|run| - 1];
            b in t.d.circuits && Turns(s.d.circuits[b], t.d.circuits[b], Marks(s, o, e, b), Blames(s, o, e, b))
  {
    hide After;
    hide Step;
    hide LapseFails;
    hide Turns;
    hide Marks;
    hide Blames;
    var n := |run| - 1;
    LastIsStep(o, run);
    ExpiryNeverFails(o, run[..n], home, b, run[n].now);
    StepTurns(After(o, run[..n]), o, run[n], b);
  }

  /** A closed circuit opens on nothing but a fresh failure that counts. */
  lemma OnlyFailuresOpen(o: Options, run: seq<Event>, home: Home, b: int)
    requires NamedRun(o, run, home) && run != [] && b in After(o, run[..|run| - 1]).d.circuits && b in After(o, run).d.circuits
    requires After(o, run[..|run| - 1]).d.circuits[b].state == Closed && After(o, run).d.circuits[b].state != Closed
    ensures Blames(After(o, run[..|run| - 1]), o, run[|run| - 1], b)
    ensures After(o, run).d.circuits[b].state == Open
    ensures After(o, run).d.circuits[b].generation == After(o, run[..|run| - 1]).d.circuits[b].generation + 1
  {
    hide After;
    RunTurns(o, run, home, b);
    hide Marks;
    hide Blames;
  }

  /** Event `j` reports success of a probe of generation `g`, while that is the present one. */
  ghost predicate MarksAt(o: Options, run: seq<Event>, j: nat, b: int, g: int) {
    j < |run| && run[j].op.Completes? && run[j].op.cm.generation == g && Marks(After(o, run[..j]), o, run[j], b)
  }

  ghost predicate SuccessTold(o: Options, run: seq<Event>, b: int, g: int) {
    exists j: nat :: MarksAt(o, run, j, b, g)
  }

  lemma MarksPresent(s: Store, o: Options, e: Event, b: int)
    requires Marks(s, o, e, b)
    ensures b in s.d.circuits && e.op.Completes? && s.d.circuits[b].generation == e.op.cm.generation && s.d.circuits[b].state == HalfOpen
  {
    LapseTurns(s.d, o, b, e.now, b);
    hide Lapse;
  }

  lemma MarksBefore(o: Options, run: seq<Event>, j: nat, b: int, g: int)
    requires run != []
    ensures var n := |run| - 1;
            && (j < n ==> MarksAt(o, run[..n], j, b, g) == MarksAt(o, run, j, b, g))
            && (j >= n ==> !MarksAt(o, run[..n], j, b, g)) && (MarksAt(o, run, j, b, g) ==> j <= n)
            && (MarksAt(o, run, n, b, g) <==>
                  Marks(After(o, run[..n]), o, run[n], b) && run[n].op.Completes? && run[n].op.cm.generation == g)
  {
    hide Marks;
    hide After;
    var n := |run| - 1;
    if j < n {
      assert run[..n][..j] == run[..j];
    }
  }

  lemma SuccessToldMore(o: Options, run: seq<Event>, b: int, g: int)
    requires run != []
    ensures var n := |run| - 1;
            SuccessTold(o, run, b, g) <==>
              SuccessTold(o, run[..n], b, g) || (Marks(After(o, run[..n]), o, run[n], b) && run[n].op.Completes? && run[n].op.cm.generation == g)
  {
    hide MarksAt;
    hide Marks;
    hide After;
    var n := |run| - 1;
    MarksBefore(o, run, n, b, g);
    if SuccessTold(o, run, b, g) {
      var j: nat :| MarksAt(o, run, j, b, g);
      MarksBefore(o, run, j, b, g);
    }
    if SuccessTold(o, run[..n], b, g) {
      var j: nat :| MarksAt(o, run[..n], j, b, g);
      MarksBefore(o, run, j, b, g);
    }
  }

  lemma {:induction false} ToldOfReached(o: Options, run: seq<Event>, home: Home, b: int, g: int)
    requires NamedRun(o, run, home) && SuccessTold(o, run, b, g)
    ensures b in After(o, run).d.circuits && g <= After(o, run).d.circuits[b].generation
    decreases |run|
  {
    hide After;
    hide Marks;
    if run == [] {
      assert false;
    } else {
      var n := |run| - 1;
      SuccessToldMore(o, run, b, g);
      if SuccessTold(o, run[..n], b, g) {
        ToldOfReached(o, run[..n], home, b, g);
      } else {
        MarksPresent(After(o, run[..n]), o, run[n], b);
      }
      hide SuccessTold;
      RunTurns(o, run, home, b);
      hide Blames;
    }
  }

  lemma NoneAtFirst(o: Options, run: seq<Event>, b: int)
    requires b in After(o, run).d.circuits
    ensures run != []
  {
  }

  /** The mark of success of a half-open circuit tells whether a probe of this generation was reported,
  through whichever replica, to have gone well. */
  lemma {:induction false} SuccessesAreMarked(o: Options, run: seq<Event>, home: Home, b: int)
    requires NamedRun(o, run, home) && b in After(o, run).d.circuits && After(o, run).d.circuits[b].state == HalfOpen
    ensures var c := After(o, run).d.circuits[b]; c.succeeded <==> SuccessTold(o, run, b, c.generation)
    decreases |run|
  {
    NoneAtFirst(o, run, b);
    hide After;
    hide Marks;
    hide Blames;
    hide SuccessTold;
    var n := |run| - 1;
    var s, c := After(o, run[..n]), After(o, run).d.circuits[b];
    SuccessToldMore(o, run, b, c.generation);
    if b in s.d.circuits {
      RunTurns(o, run, home, b);
      if Marks(s, o, run[n], b) {
        MarksPresent(s, o, run[n], b);
      }
      if s.d.circuits[b].generation == c.generation {
        SuccessesAreMarked(o, run[..n], home, b);
      } else if SuccessTold(o, run[..n], b, c.generation) {
        ToldOfReached(o, run[..n], home, b, c.generation);
      }
    } else {
      NewCircuit(o, run, b);
      assert false;
    }
  }

  lemma {:induction false} IdentifiedIsClosed(s: Store, ids: seq<int>, now: Time, b: int)
    requires b !in s.d.circuits && b in IdentifyAll(s, ids, now).d.circuits
    ensures IdentifyAll(s, ids, now).d.circuits[b].state == Closed
    decreases |ids|
  {
    var init := ids[..|ids| - 1];
    if b in IdentifyAll(s, init, now).d.circuits {
      IdentifiedIsClosed(s, init, now, b);
    }
    hide SupersedeAll;
    hide DropFailures;
  }

  lemma {:induction false} LapseEachKeys(d: Tables, o: Options, ids: seq<int>, now: Time)
    requires LapseEach(d, o, ids, now).Some?
    ensures LapseEach(d, o, ids, now).value.circuits.Keys == d.circuits.Keys
    decreases |ids|
  {
    if ids == [] {
    } else {
      LapseEachKeys(d, o, ids[..|ids| - 1], now);
      hide Lapse;
      hide LapseFails;
    }
  }

  lemma CompleteKeys(s: Store, o: Options, cm: Completion, now: Time)
    ensures CompleteTx(s, o, cm, now).0.d.circuits.Keys == s.d.circuits.Keys
  {
    hide Lapse;
    hide LapseFails;
    hide Record;
    hide Outstanding;
    hide CountOf;
  }

  lemma AcquireKeys(s: Store, o: Options, r: Request, now: Time)
    ensures AcquireTx(s, o, r, now).0.d.circuits.Keys == s.d.circuits.Keys
  {
    hide Lapse;
    hide LapseFails;
    hide InFlight;
    hide Replay;
  }

  lemma ReconcileKeys(d: Tables, o: Options, b: int, ids: set<int>, now: Time)
    ensures Reconcile(d, o, b, now).circuits.Keys == d.circuits.Keys && Refresh(d, o, ids, now).circuits.Keys == d.circuits.Keys
  {
    hide Newest;
    hide Times;
    hide FirstOf;
    hide InsertAll;
    hide PruneAll;
    hide ResolveAll;
  }

  lemma KeysStay(s: Store, o: Options, e: Event)
    requires !e.op.Identifies? && !e.op.Creates?
    ensures Step(s, o, e).d.circuits.Keys == s.d.circuits.Keys
  {
    hide AcquireTx;
    hide CompleteTx;
    hide LapseEach;
    hide Reconcile;
    hide Refresh;
    match e.op
    case Acquires(r) => AcquireKeys(s, o, r, e.now);
    case Completes(cm) => CompleteKeys(s, o, cm, e.now);
    case Renews(ids, permits) =>
      if LapseEach(s.d, o, ids, e.now).Some? {
        LapseEachKeys(s.d, o, ids, e.now);
      }
    case Reconciles(k) => ReconcileKeys(s.d, o, k, {}, e.now);
    case Refreshes(ids) => ReconcileKeys(s.d, o, 0, (set k | k in ids), e.now);
    case Changes(k, change) =>
    case Cleans(probes, receipts) =>
  }

  /** A circuit comes into being closed. */
  lemma NewIsClosed(s: Store, o: Options, e: Event, b: int)
    requires b !in s.d.circuits && b in Step(s, o, e).d.circuits
    ensures Step(s, o, e).d.circuits[b].state == Closed
  {
    if e.op.Identifies? {
      IdentifiedIsClosed(s, e.op.ids, e.now, b);
      hide IdentifyAll;
    } else if !e.op.Creates? {
      KeysStay(s, o, e);
      hide Step;
    }
  }

  lemma NewCircuit(o: Options, run: seq<Event>, b: int)
    requires run != [] && b !in After(o, run[..|run| - 1]).d.circuits && b in After(o, run).d.circuits
    ensures After(o, run).d.circuits[b].state == Closed
  {
    LastIsStep(o, run);
    hide After;
    NewIsClosed(After(o, run[..|run| - 1]), o, run[|run| - 1], b);
    hide Step;
  }

  lemma ConcludedTx(s: Store, o: Options, cm: Completion, now: Time)
    requires cm.backend.id in s.d.circuits && !LapseFails(s.d, o, cm.backend.id, now)
    requires var d := Lapse(s.d, o, cm.backend.id, now); cm.attemptId in d.probes && ConcludeProbe(d, o, cm, now).Some?
    ensures var r := ConcludeProbe(Lapse(s.d, o, cm.backend.id, now), o, cm, now).value;
            CompleteTx(s, o, cm, now) == (s.(d := r.0), r.1)
  {
    hide LapseFails;
    hide Lapse;
    hide ConcludeProbe;
  }

  /** After any run: a probe of the present generation that is reported to have failed reopens the circuit,
  from the latest failure on, and the other probes of the generation are superseded. */
  lemma FailedProbeReopens(o: Options, run: seq<Event>, home: Home, cm: Completion, now: Time) returns (latest: Time)
    requires NamedRun(o, run, home) && home(cm.attemptId) == cm.backend.id && cm.backend.id in After(o, run).d.circuits
    requires var d := Lapse(After(o, run).d, o, cm.backend.id, now);
             Concludes(d, cm, now) && Present(d, cm) && cm.outcome == Failure
    ensures var s, b := After(o, run), cm.backend.id;
            var d, (t, answer) := Lapse(s.d, o, b, now), CompleteTx(s, o, cm, now);
            var c, all := d.circuits[b], WithFailure(d.failures, cm, d.circuits[b].revision, now);
            && answer == Done && IsLatest(all, b, c.revision, latest)
            && t.d.failures == Recent(all, b, c.revision, latest, o.window)
            && t.d.circuits == d.circuits[b := CircuitRow(Open, c.revision, c.generation + 1, Some(latest), false, now)]
            && (forall p :: p in t.d.probes ==> !IsOpenProbe(t.d.probes[p], b, c))
  {
    var s, b := After(o, run), cm.backend.id;
    RunKeepsInv(o, run, home);
    hide After;
    LapseMoves(s.d, o, b, now, home);
    hide LapseFails;
    var d := Lapse(s.d, o, b, now);
    hide Lapse;
    latest := BadReport(d, o, cm, now, home);
    ConcludedTx(s, o, cm, now);
    hide Inv;
    hide IsLatest;
    hide Recent;
    hide WithFailure;
    hide CompleteTx;
    hide ConcludeProbe;
  }

  lemma LapsedCircuit(s: Store, o: Options, b: int, now: Time)
    requires b in s.d.circuits && b in Lapse(s.d, o, b, now).circuits && Lapse(s.d, o, b, now).circuits[b].state == HalfOpen
    ensures Lapse(s.d, o, b, now) == s.d
  {
    LapseTurns(s.d, o, b, now, b);
    hide Lapse;
  }

  /** After any run: a half-open circuit closes exactly with the report that concludes its last open probe,
  if that one or one before it went well and it did not fail; its failures are then forgotten. */
  lemma ClosesExactlyWhen(o: Options, run: seq<Event>, home: Home, cm: Completion, now: Time)
    requires NamedRun(o, run, home) && home(cm.attemptId) == cm.backend.id && cm.backend.id in After(o, run).d.circuits
    requires var d := Lapse(After(o, run).d, o, cm.backend.id, now);
             Concludes(d, cm, now) && Present(d, cm) && cm.outcome != Failure
    ensures var s, b := After(o, run), cm.backend.id;
            var (t, answer) := CompleteTx(s, o, cm, now);
            var c, good := s.d.circuits[b], cm.outcome == Success || SuccessTold(o, run, b, s.d.circuits[b].generation);
            && answer == Done && b in t.d.circuits
            && if good && !OthersOpen(s.d, cm)
               then t.d.circuits == s.d.circuits[b := CircuitRow(Closed, c.revision, c.generation + 1, None, false, now)]
                    && t.d.failures == DropFailures(s.d.failures, b)
               else t.d.circuits == s.d.circuits[b := c.(succeeded := good, updatedAt := t.d.circuits[b].updatedAt)]
                    && t.d.failures == s.d.failures
  {
    var s, b := After(o, run), cm.backend.id;
    ExpiryNeverFails(o, run, home, b, now);
    hide LapseFails;
    LapsedCircuit(s, o, b, now);
    SuccessesAreMarked(o, run, home, b);
    hide After;
    GoodReport(s.d, o, cm, now);
    ConcludedTx(s, o, cm, now);
    hide Lapse;
    hide CompleteTx;
    hide ConcludeProbe;
    hide OthersOpen;
    hide SuccessTold;
    hide DropFailures;
  }

  // 6. An open circuit

  /** The circuit is open and its cooldown is not over. */
  predicate Cools(d: Tables, o: Options, b: int, now: Time) {
    b in d.circuits && d.circuits[b].state == Open && d.circuits[b].openedAt.Some? && now < d.circuits[b].openedAt.value + o.cooldown
  }

  predicate SameRow(d: Tables, t: Tables, b: int) {
    b in d.circuits && b in t.circuits && t.circuits[b] == d.circuits[b]
  }

  lemma LapseCools(d: Tables, o: Options, k: int, now: Time, b: int)
    requires Cools(d, o, b, now)
    ensures SameRow(d, Lapse(d, o, k, now), b) && SameRow(d, Reconcile(d, o, k, now), b)
  {
    LapseTurns(d, o, k, now, b);
    hide Trip;
  }

  lemma {:induction false} LapseEachCools(d: Tables, o: Options, ids: seq<int>, now: Time, b: int)
    requires Cools(d, o, b, now) && LapseEach(d, o, ids, now).Some?
    ensures SameRow(d, LapseEach(d, o, ids, now).value, b)
    decreases |ids|
  {
    if ids == [] {
    } else {
      var init := ids[..|ids| - 1];
      LapseEachCools(d, o, init, now, b);
      LapseCools(LapseEach(d, o, init, now).value, o, ids[|ids| - 1], now, b);
      hide Lapse;
      hide LapseFails;
    }
  }

  lemma AcquireCools(s: Store, o: Options, r: Request, now: Time, b: int)
    requires Cools(s.d, o, b, now)
    ensures SameRow(s.d, AcquireTx(s, o, r, now).0.d, b)
  {
    LapseCools(s.d, o, r.backend.id, now, b);
    hide Lapse;
    hide LapseFails;
    hide InFlight;
    hide Replay;
  }

  lemma ConcludeCools(d: Tables, o: Options, cm: Completion, now: Time, b: int)
    requires Cools(d, o, b, now) && cm.attemptId in d.probes && cm.backend.id in d.circuits && ConcludeProbe(d, o, cm, now).Some?
    ensures SameRow(d, ConcludeProbe(d, o, cm, now).value.0, b)
  {
    hide Record;
    hide Outstanding;
    hide DropFailures;
    hide Terminalized;
  }

  lemma CompleteCools(s: Store, o: Options, cm: Completion, now: Time, b: int)
    requires Cools(s.d, o, b, now)
    ensures SameRow(s.d, CompleteTx(s, o, cm, now).0.d, b)
  {
    var k := cm.backend.id;
    LapseCools(s.d, o, k, now, b);
    if k in s.d.circuits {
      var d := Lapse(s.d, o, k, now);
      if cm.attemptId in d.probes && ConcludeProbe(d, o, cm, now).Some? {
        ConcludeCools(d, o, cm, now, b);
      }
    }
    hide Lapse;
    hide LapseFails;
    hide ConcludeProbe;
    hide Record;
    hide CountOf;
  }

  lemma RefreshCools(d: Tables, o: Options, ids: set<int>, now: Time, b: int)
    requires Cools(d, o, b, now)
    ensures SameRow(d, Refresh(d, o, ids, now), b)
  {
    hide Newest;
    hide Times;
    hide InsertAll;
    hide PruneAll;
    hide ResolveAll;
  }

  /** No transaction moves an open circuit before its cooldown is over, unless its backend changes. */
  lemma OpenStays(s: Store, o: Options, e: Event, b: int)
    requires Cools(s.d, o, b, e.now) && !e.op.Identifies? && !e.op.Changes?
    ensures SameRow(s.d, Step(s, o, e).d, b)
  {
    match e.op
    case Acquires(r) => AcquireCools(s, o, r, e.now, b);
    case Completes(cm) => CompleteCools(s, o, cm, e.now, b);
    case Renews(ids, permits) =>
      if LapseEach(s.d, o, ids, e.now).Some? {
        LapseEachCools(s.d, o, ids, e.now, b);
      }
    case Reconciles(k) => LapseCools(s.d, o, k, e.now, b);
    case Refreshes(ids) => RefreshCools(s.d, o, (set k | k in ids), e.now, b);
    case Creates(k, enabled, draining) =>
    case Cleans(probes, receipts) =>
    hide AcquireTx;
    hide CompleteTx;
    hide LapseEach;
    hide Reconcile;
    hide Refresh;
  }

  /** An open circuit stays as it is, whatever the replicas do, until the cooldown from the latest failure
  is over. */
  lemma {:induction false} OpenForItsCooldown(o: Options, run: seq<Event>, i: nat, b: int)
    requires i <= |run| && b in After(o, run[..i]).d.circuits && After(o, run[..i]).d.circuits[b].state == Open
    requires After(o, run[..i]).d.circuits[b].openedAt.Some?
    requires forall j :: i <= j < |run| ==>
               && !run[j].op.Identifies? && !run[j].op.Changes?
               && run[j].now < After(o, run[..i]).d.circuits[b].openedAt.value + o.cooldown
    ensures SameRow(After(o, run[..i]).d, After(o, run).d, b)
    decreases |run|
  {
    hide After;
    hide Step;
    assert run[..|run|] == run;
    if i < |run| {
      var n := |run| - 1;
      assert run[..n][..i] == run[..i];
      OpenForItsCooldown(o, run[..n], i, b);
      LastIsStep(o, run);
      OpenStays(After(o, run[..n]), o, run[n], b);
    }
  }

  /** Once it is over, a reconciliation of the backend makes the circuit half-open, in a new generation. */
  lemma CooledDownIsHalfOpened(d: Tables, o: Options, b: int, now: Time)
    requires b in d.circuits && d.circuits[b].state == Open && d.circuits[b].openedAt.Some?
    requires d.circuits[b].openedAt.value + o.cooldown <= now
    ensures var c := d.circuits[b];
            Reconcile(d, o, b, now) == d.(circuits := d.circuits[b := CircuitRow(HalfOpen, c.revision, c.generation + 1, None, false, now)])
  {
    assert !HasExpired(d, b, now);
  }
}
