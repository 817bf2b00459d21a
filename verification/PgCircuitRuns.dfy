/** What the transactions on the circuit tables keep, over all runs in which an attempt identifier is
used with one backend: the conditions under which the bulk refresh is the simple one, and the limit on
open probes. */
module PgCircuitRuns {
  import opened ExpiryQueue
  import opened Counting
  import opened CircuitBreaker
  import opened PgCircuits
  import opened PgCircuitSteps

  /** Which backend each attempt identifier is used with. */
  type Home = Id -> int

  ghost predicate ProbesHome(probes: Probes, circuits: map<int, CircuitRow>, home: Home) {
    forall p :: p in probes ==>
      && probes[p].backend == home(p) && probes[p].backend in circuits
      && probes[p].generation <= circuits[probes[p].backend].generation
  }

  ghost predicate FailuresHome(failures: Failures, circuits: map<int, CircuitRow>, home: Home) {
    forall f :: f in failures ==>
      && failures[f].backend == home(f) && failures[f].backend in circuits
      && failures[f].revision == circuits[failures[f].backend].revision
  }

  predicate Within(probes: Probes, b: int, c: CircuitRow, limit: int) {
    c.state == HalfOpen ==> |Outstanding(probes, b, c)| <= limit
  }

  ghost predicate Limited(d: Tables, limit: int) {
    forall b :: b in d.circuits ==> Within(d.probes, b, d.circuits[b], limit)
  }

  ghost predicate Inv(d: Tables, o: Options, home: Home) {
    ValidOptions(o) && ProbesHome(d.probes, d.circuits, home) && FailuresHome(d.failures, d.circuits, home) && Limited(d, o.maxProbes)
  }

  lemma InvIsSound(d: Tables, o: Options, home: Home)
    requires Inv(d, o, home)
    ensures Sound(d, o)
  {
  }

  // Circuits that move on

  /** Only backend `b` may differ, its generation does not go back, and unless its failures are gone its
  revision is the same. */
  ghost predicate Advances(d: Tables, t: Tables, b: int) {
    && (forall k :: k in d.circuits ==> k in t.circuits) && (forall k :: k in t.circuits && k != b ==> k in d.circuits && t.circuits[k] == d.circuits[k])
    && (b in d.circuits ==> t.circuits[b].generation >= d.circuits[b].generation)
  }

  /** Probes stay, or end; those of other backends are as before. */
  ghost predicate Endings(probes: Probes, after: Probes, b: int) {
    && after.Keys == probes.Keys
    && (forall p :: p in probes ==>
          && after[p].backend == probes[p].backend && after[p].generation == probes[p].generation && after[p].revision == probes[p].revision
          && (probes[p].backend != b ==> after[p] == probes[p]) && (probes[p].outcome.Some? ==> after[p].outcome.Some?))
  }

  lemma EndingsKeepHome(d: Tables, t: Tables, b: int, home: Home)
    requires ProbesHome(d.probes, d.circuits, home) && Advances(d, t, b) && Endings(d.probes, t.probes, b)
    ensures ProbesHome(t.probes, t.circuits, home)
  {
  }

  lemma FewerOutstanding(probes: Probes, after: Probes, b: int, k: int, c: CircuitRow)
    requires Endings(probes, after, b)
    ensures |Outstanding(after, k, c)| <= |Outstanding(probes, k, c)|
  {
    forall p | p in Outstanding(after, k, c)
      ensures p in Outstanding(probes, k, c)
    {
    }
    SmallerSet(Outstanding(after, k, c), Outstanding(probes, k, c));
  }

  lemma EndingsKeepLimit(d: Tables, t: Tables, b: int, limit: int)
    requires Limited(d, limit) && Advances(d, t, b) && Endings(d.probes, t.probes, b)
    requires b in t.circuits ==> Within(t.probes, b, t.circuits[b], limit)
    ensures Limited(t, limit)
  {
    forall k | k in t.circuits
      ensures Within(t.probes, k, t.circuits[k], limit)
    {
      if k != b {
        assert Within(d.probes, k, d.circuits[k], limit);
        FewerOutstanding(d.probes, t.probes, b, k, d.circuits[k]);
      }
    }
  }

  /** Failures of `b` carry the revision of its circuit, the others are as before. */
  ghost predicate Refiled(d: Tables, t: Tables, b: int, home: Home) {
    forall f :: f in t.failures ==>
      || (f in d.failures && t.failures[f] == d.failures[f] && t.failures[f].backend != b)
      || (t.failures[f].backend == b == home(f) && b in t.circuits && t.failures[f].revision == t.circuits[b].revision)
  }

  lemma RefiledKeepsHome(d: Tables, t: Tables, b: int, home: Home)
    requires FailuresHome(d.failures, d.circuits, home) && Advances(d, t, b) && Refiled(d, t, b, home)
    ensures FailuresHome(t.failures, t.circuits, home)
  {
  }

  /** The usual way to keep the invariant: one circuit moves on, probes end, failures are refiled. */
  lemma MovesOn(d: Tables, t: Tables, o: Options, b: int, home: Home)
    requires Inv(d, o, home) && Advances(d, t, b) && Endings(d.probes, t.probes, b) && Refiled(d, t, b, home)
    requires b in t.circuits ==> Within(t.probes, b, t.circuits[b], o.maxProbes)
    ensures Inv(t, o, home)
  {
    EndingsKeepHome(d, t, b, home);
    EndingsKeepLimit(d, t, b, o.maxProbes);
    RefiledKeepsHome(d, t, b, home);
  }

  // Recording a failure

  lemma RecordSucceeds(d: Tables, id: Id, b: int, at: Time, window: int, home: Home)
    requires FailuresHome(d.failures, d.circuits, home) && b in d.circuits && home(id) == b
    ensures Record(d.failures, id, b, d.circuits[b].revision, at, window).Some?
  {
    var all := InsertFailure(d.failures, id, FailureRow(b, d.circuits[b].revision, at));
    assert all[id].at in Times(all, b, d.circuits[b].revision);
    NewestMeaning(Times(all, b, d.circuits[b].revision));
    hide Times;
    hide Newest;
  }

  lemma RecordRefiles(d: Tables, t: Tables, id: Id, b: int, at: Time, window: int, home: Home)
    requires FailuresHome(d.failures, d.circuits, home) && b in d.circuits && home(id) == b
    requires b in t.circuits && t.circuits[b].revision == d.circuits[b].revision
    requires var r := Record(d.failures, id, b, d.circuits[b].revision, at, window); r.Some? && t.failures == r.value.0
    ensures Refiled(d, t, b, home)
  {
    hide Times;
    hide Newest;
  }

  // Overdue probes

  lemma LapseMoves(d: Tables, o: Options, b: int, now: Time, home: Home)
    requires Inv(d, o, home)
    ensures Inv(Lapse(d, o, b, now), o, home) && !LapseFails(d, o, b, now)
    ensures Endings(d.probes, Lapse(d, o, b, now).probes, b)
    ensures Lapse(d, o, b, now).circuits.Keys == d.circuits.Keys
    ensures b in d.circuits && Lapse(d, o, b, now).circuits[b].state == HalfOpen ==> Lapse(d, o, b, now) == d && !HasExpired(d, b, now)
  {
    if HasExpired(d, b, now) {
      SomeOverdue(d, b, now);
      var c := d.circuits[b];
      var first := FirstOf(d.probes, Overdue(d.probes, b, c, now));
      assert first in d.probes && Unresolved(d.probes[first], b, c);
      RecordSucceeds(d, first, b, d.probes[first].expiresAt, o.window, home);
      TripMoves(d, o, b, now, first, home);
    }
  }

  lemma TripMoves(d: Tables, o: Options, b: int, now: Time, first: Id, home: Home)
    requires Inv(d, o, home) && b in d.circuits && Overdue(d.probes, b, d.circuits[b], now) != {}
    requires first == FirstOf(d.probes, Overdue(d.probes, b, d.circuits[b], now)) && home(first) == b
    requires Record(d.failures, first, b, d.circuits[b].revision, d.probes[first].expiresAt, o.window).Some?
    ensures Inv(Trip(d, o, b, now), o, home) && Endings(d.probes, Trip(d, o, b, now).probes, b)
    ensures Trip(d, o, b, now).circuits.Keys == d.circuits.Keys && Trip(d, o, b, now).circuits[b].state == Open
  {
    hide Newest;
    hide Times;
    hide PruneFailures;
    hide InsertFailure;
    var t := Trip(d, o, b, now);
    RecordRefiles(d, t, first, b, d.probes[first].expiresAt, o.window, home);
    hide FirstOf;
    assert t.circuits == d.circuits[b := t.circuits[b]];
    MovesOn(d, t, o, b, home);
  }

  lemma ReconcileKeeps(d: Tables, o: Options, b: int, now: Time, home: Home)
    requires Inv(d, o, home)
    ensures Inv(Reconcile(d, o, b, now), o, home)
  {
    LapseMoves(d, o, b, now, home);
    var t := Reconcile(d, o, b, now);
    if b in d.circuits && !HasExpired(d, b, now) && CooledDown(d.circuits[b], o, now) {
      NoneOfNext(d, b, home);
      hide Trip;
      MovesOn(d, t, o, b, home);
    }
  }

  /** No probe is of a generation that has not begun. */
  lemma NoneOfNext(d: Tables, b: int, home: Home)
    requires ProbesHome(d.probes, d.circuits, home) && b in d.circuits
    ensures forall c: CircuitRow :: c.generation > d.circuits[b].generation ==> Outstanding(d.probes, b, c) == {}
  {
    forall c: CircuitRow | c.generation > d.circuits[b].generation
      ensures Outstanding(d.probes, b, c) == {}
    {
      forall p
        ensures p !in Outstanding(d.probes, b, c)
      {
      }
      Vacant(Outstanding(d.probes, b, c));
    }
  }

  // Acquisition

  lemma AllInFlight(d: Tables, b: int, now: Time)
    requires b in d.circuits && d.circuits[b].state == HalfOpen && !HasExpired(d, b, now)
    ensures InFlight(d.probes, b, d.circuits[b], now) == Outstanding(d.probes, b, d.circuits[b])
  {
    forall p
      ensures p in InFlight(d.probes, b, d.circuits[b], now) <==> p in Outstanding(d.probes, b, d.circuits[b])
    {
    }
  }

  lemma OneMoreProbe(probes: Probes, id: Id, row: ProbeRow, b: int, c: CircuitRow)
    requires id !in probes
    ensures |Outstanding(probes[id := row], b, c)| <= |Outstanding(probes, b, c)| + 1
    ensures row.backend != b ==> Outstanding(probes[id := row], b, c) == Outstanding(probes, b, c)
  {
    var after := Outstanding(probes[id := row], b, c);
    forall p | p in after
      ensures p in Outstanding(probes, b, c) + {id}
    {
    }
    SmallerSet(after, Outstanding(probes, b, c) + {id});
    if row.backend != b {
      forall p
        ensures p in after <==> p in Outstanding(probes, b, c)
      {
      }
    }
  }

  lemma ProbeAddsLimited(d: Tables, id: Id, row: ProbeRow, limit: int)
    requires Limited(d, limit) && id !in d.probes && row.backend in d.circuits
    requires |Outstanding(d.probes, row.backend, d.circuits[row.backend])| < limit
    ensures Limited(d.(probes := d.probes[id := row]), limit)
  {
    forall b | b in d.circuits
      ensures Within(d.probes[id := row], b, d.circuits[b], limit)
    {
      assert Within(d.probes, b, d.circuits[b], limit);
      OneMoreProbe(d.probes, id, row, b, d.circuits[b]);
    }
  }

  lemma ProbeKeeps(d: Tables, o: Options, r: Request, now: Time, home: Home)
    requires Inv(d, o, home) && r.backend.id in d.circuits && r.attemptId !in d.probes && home(r.attemptId) == r.backend.id
    requires d.circuits[r.backend.id].state == Open
             || (d.circuits[r.backend.id].state == HalfOpen && !HasExpired(d, r.backend.id, now))
    ensures Inv(Probe(d, o, r, now).0, o, home)
  {
    var b := r.backend.id;
    var c := d.circuits[b];
    var h := if c.state == Open then HalfOpened(c, now) else c;
    var t := d.(circuits := d.circuits[b := h]);
    NoneOfNext(d, b, home);
    if c.state == Open {
      assert Outstanding(d.probes, b, h) == {};
      MovesOn(d, t, o, b, home);
    } else {
      assert t == d;
      AllInFlight(d, b, now);
    }
    var u := Probe(d, o, r, now).0;
    if u != t {
      ProbeAddsLimited(t, r.attemptId, NewProbe(r, h.generation, now), o.maxProbes);
      hide Limited;
    }
  }

  lemma AcquireKeeps(s: Store, o: Options, r: Request, now: Time, home: Home)
    requires Inv(s.d, o, home) && home(r.attemptId) == r.backend.id
    ensures Inv(AcquireTx(s, o, r, now).0.d, o, home)
  {
    var b := r.backend.id;
    LapseMoves(s.d, o, b, now, home);
    hide LapseFails;
    if b in s.d.circuits && b in s.backends {
      var d := Lapse(s.d, o, b, now);
      if r.attemptId !in d.probes && d.circuits[b].state != Closed {
        ProbeKeeps(d, o, r, now, home);
      }
    }
    hide Inv;
    hide Lapse;
    hide Probe;
  }

  // Completion

  lemma SameFailuresRefiled(d: Tables, t: Tables, b: int, home: Home)
    requires FailuresHome(d.failures, d.circuits, home) && t.failures == d.failures
    requires b in d.circuits ==> b in t.circuits && t.circuits[b].revision == d.circuits[b].revision
    ensures Refiled(d, t, b, home)
  {
  }

  /** Probes end, nothing else changes. */
  lemma QuietMove(d: Tables, t: Tables, o: Options, b: int, home: Home)
    requires Inv(d, o, home) && t == d.(probes := t.probes) && Endings(d.probes, t.probes, b)
    ensures Inv(t, o, home)
  {
    SameFailuresRefiled(d, t, b, home);
    if b in d.circuits {
      assert Within(d.probes, b, d.circuits[b], o.maxProbes);
      FewerOutstanding(d.probes, t.probes, b, b, d.circuits[b]);
    }
    MovesOn(d, t, o, b, home);
  }

  lemma CloseKeeps(d: Tables, o: Options, b: int, now: Time, home: Home)
    requires Inv(d, o, home) && b in d.circuits
    ensures Inv(CloseIfDone(d, b, now), o, home)
  {
    var t := CloseIfDone(d, b, now);
    if t != d {
      assert Refiled(d, t, b, home);
      MovesOn(d, t, o, b, home);
    }
  }

  lemma SucceededKeeps(d: Tables, o: Options, b: int, now: Time, home: Home)
    requires Inv(d, o, home) && b in d.circuits
    ensures Inv(d.(circuits := d.circuits[b := d.circuits[b].(succeeded := true, updatedAt := now)]), o, home)
  {
    var t := d.(circuits := d.circuits[b := d.circuits[b].(succeeded := true, updatedAt := now)]);
    SameFailuresRefiled(d, t, b, home);
    assert Within(d.probes, b, d.circuits[b], o.maxProbes);
    forall p
      ensures p in Outstanding(d.probes, b, t.circuits[b]) <==> p in Outstanding(d.probes, b, d.circuits[b])
    {
    }
    assert Outstanding(d.probes, b, t.circuits[b]) == Outstanding(d.probes, b, d.circuits[b]);
    MovesOn(d, t, o, b, home);
  }

  lemma FailureKeeps(d: Tables, o: Options, cm: Completion, now: Time, home: Home)
    requires Inv(d, o, home) && cm.backend.id in d.circuits && home(cm.attemptId) == cm.backend.id && cm.outcome == Failure
    ensures EndProbe(d, o, cm, now).Some? && Inv(EndProbe(d, o, cm, now).value, o, home)
  {
    var b, at := cm.backend.id, NotAfter(cm.reportedAt, now);
    RecordSucceeds(d, cm.attemptId, b, at, o.window, home);
    var t := EndProbe(d, o, cm, now).value;
    RecordRefiles(d, t, cm.attemptId, b, at, o.window, home);
    hide Record;
    MovesOn(d, t, o, b, home);
  }

  lemma EndProbeKeeps(d: Tables, o: Options, cm: Completion, now: Time, home: Home)
    requires Inv(d, o, home) && cm.backend.id in d.circuits && home(cm.attemptId) == cm.backend.id
    ensures EndProbe(d, o, cm, now).Some? && Inv(EndProbe(d, o, cm, now).value, o, home)
  {
    hide Inv;
    var b := cm.backend.id;
    match cm.outcome
    case Failure => FailureKeeps(d, o, cm, now, home);
    case Success =>
      SucceededKeeps(d, o, b, now, home);
      CloseKeeps(d.(circuits := d.circuits[b := d.circuits[b].(succeeded := true, updatedAt := now)]), o, b, now, home);
    case Neutral => CloseKeeps(d, o, b, now, home);
  }

  lemma CompleteProbeKeeps(d: Tables, o: Options, cm: Completion, now: Time, home: Home)
    requires Inv(d, o, home) && cm.backend.id in d.circuits && home(cm.attemptId) == cm.backend.id && cm.attemptId in d.probes
    ensures ConcludeProbe(d, o, cm, now).Some? ==> Inv(ConcludeProbe(d, o, cm, now).value.0, o, home)
  {
    var b := cm.backend.id;
    var t := d.(probes := d.probes[cm.attemptId := WithReport(d.probes[cm.attemptId], cm, now)]);
    QuietMove(d, t, o, b, home);
    hide Inv;
    EndProbeKeeps(t, o, cm, now, home);
    hide EndProbe;
  }

  lemma ApplyKeeps(d: Tables, o: Options, cm: Completion, now: Time, home: Home)
    requires Inv(d, o, home) && cm.backend.id in d.circuits && home(cm.attemptId) == cm.backend.id
    ensures ApplyFailure(d, o, cm, now).Some? && Inv(ApplyFailure(d, o, cm, now).value, o, home)
  {
    var b, at := cm.backend.id, NotAfter(cm.reportedAt, now);
    RecordSucceeds(d, cm.attemptId, b, at, o.window, home);
    var t := ApplyFailure(d, o, cm, now).value;
    if Applies(d.circuits[b], o, cm, now) {
      RecordRefiles(d, t, cm.attemptId, b, at, o.window, home);
      hide Record;
      hide CountOf;
      MovesOn(d, t, o, b, home);
    }
  }

  lemma CompleteKeeps(s: Store, o: Options, cm: Completion, now: Time, home: Home)
    requires Inv(s.d, o, home) && home(cm.attemptId) == cm.backend.id
    ensures Inv(CompleteTx(s, o, cm, now).0.d, o, home)
  {
    var b := cm.backend.id;
    LapseMoves(s.d, o, b, now, home);
    hide LapseFails;
    hide Inv;
    hide ConcludeProbe;
    hide ApplyFailure;
    if b in s.d.circuits {
      var d := Lapse(s.d, o, b, now);
      hide Lapse;
      if cm.attemptId in d.probes {
        CompleteProbeKeeps(d, o, cm, now, home);
      }
      ApplyKeeps(d, o, cm, now, home);
    }
  }

  // Renewal

  lemma {:induction false} LapseEachKeeps(d: Tables, o: Options, ids: seq<int>, now: Time, home: Home)
    requires Inv(d, o, home)
    ensures LapseEach(d, o, ids, now).Some? ==> Inv(LapseEach(d, o, ids, now).value, o, home)
    decreases |ids|
  {
    hide Inv;
    hide Lapse;
    hide LapseFails;
    if ids == [] {
    } else {
      var init, b := ids[..|ids| - 1], ids[|ids| - 1];
      LapseEachKeeps(d, o, init, now, home);
      if LapseEach(d, o, init, now).Some? {
        LapseMoves(LapseEach(d, o, init, now).value, o, b, now, home);
      }
    }
  }

  lemma {:induction false} RenewAllKeeps(d: Tables, o: Options, permits: seq<Permit>, now: Time, home: Home)
    requires Inv(d, o, home)
    ensures Inv(d.(probes := RenewAll(d.probes, permits, now)), o, home)
    decreases |permits|
  {
    hide Inv;
    if permits == [] {
      assert d.(probes := d.probes) == d;
    } else {
      var init, p := permits[..|permits| - 1], permits[|permits| - 1];
      RenewAllKeeps(d, o, init, now, home);
      var t := d.(probes := RenewAll(d.probes, init, now));
      var u := d.(probes := RenewAll(d.probes, permits, now));
      if StillHeld(t.probes, p, now) {
        assert Endings(t.probes, u.probes, p.backend.id);
        QuietMove(t, u, o, p.backend.id, home);
      } else {
        assert u == t;
      }
    }
  }

  lemma RenewKeeps(s: Store, o: Options, ids: seq<int>, permits: seq<Permit>, now: Time, home: Home)
    requires Inv(s.d, o, home)
    ensures Inv(RenewTx(s, o, ids, permits, now).d, o, home)
  {
    hide Inv;
    LapseEachKeeps(s.d, o, ids, now, home);
    if LapseEach(s.d, o, ids, now).Some? {
      RenewAllKeeps(LapseEach(s.d, o, ids, now).value, o, permits, now, home);
    }
  }

  // Identities

  lemma SupersededKeeps(d: Tables, o: Options, b: int, now: Time, home: Home)
    requires Inv(d, o, home)
    ensures Inv(d.(probes := SupersedeAll(d.probes, b, now)), o, home)
  {
    QuietMove(d, d.(probes := SupersedeAll(d.probes, b, now)), o, b, home);
  }

  lemma ResetKeeps(d: Tables, o: Options, b: int, revision: int, now: Time, home: Home)
    requires Inv(d, o, home)
    ensures Inv(Reset(d, b, revision, now), o, home)
  {
    var t := Reset(d, b, revision, now);
    assert Refiled(d, t, b, home);
    MovesOn(d, t, o, b, home);
  }

  lemma NewCircuitKeeps(d: Tables, o: Options, b: int, revision: int, now: Time, home: Home)
    requires Inv(d, o, home) && b !in d.circuits
    ensures Inv(d.(circuits := d.circuits[b := CircuitRow(Closed, revision, 0, None, false, now)]), o, home)
  {
    var t := d.(circuits := d.circuits[b := CircuitRow(Closed, revision, 0, None, false, now)]);
    assert Refiled(d, t, b, home);
    MovesOn(d, t, o, b, home);
  }

  lemma IdentifyKeeps(d: Tables, o: Options, known: Backend, b: int, now: Time, home: Home)
    requires Inv(d, o, home)
    ensures Inv(Identify(d, known, b, now), o, home)
  {
    hide Inv;
    hide Reset;
    hide SupersedeAll;
    if b !in d.circuits {
      NewCircuitKeeps(d, o, b, known.revision, now, home);
    } else {
      ResetKeeps(d, o, b, known.revision, now, home);
    }
    var t :=
      if b !in d.circuits then d.(circuits := d.circuits[b := CircuitRow(Closed, known.revision, 0, None, false, now)])
      else if d.circuits[b].revision != known.revision then Reset(d, b, known.revision, now)
      else d;
    SupersededKeeps(t, o, b, now, home);
  }

  lemma {:induction false} IdentifyAllKeeps(s: Store, o: Options, ids: seq<int>, now: Time, home: Home)
    requires Inv(s.d, o, home)
    ensures Inv(IdentifyAll(s, ids, now).d, o, home)
    decreases |ids|
  {
    hide Inv;
    hide Identify;
    if ids == [] {
    } else {
      var init, b := ids[..|ids| - 1], ids[|ids| - 1];
      IdentifyAllKeeps(s, o, init, now, home);
      var before := IdentifyAll(s, init, now);
      if b in before.backends {
        IdentifyKeeps(before.d, o, before.backends[b], b, now, home);
      }
    }
  }

  // Cleanup and the bulk refresh

  lemma CleanupKeeps(s: Store, o: Options, probes: set<Id>, receipts: set<Id>, now: Time, home: Home)
    requires Inv(s.d, o, home)
    ensures Inv(CleanupTx(s, probes, receipts, now).d, o, home)
  {
    var d, t := s.d, CleanupTx(s, probes, receipts, now).d;
    forall b | b in t.circuits
      ensures Within(t.probes, b, t.circuits[b], o.maxProbes)
    {
      assert Within(d.probes, b, d.circuits[b], o.maxProbes);
      forall p | p in Outstanding(t.probes, b, t.circuits[b])
        ensures p in Outstanding(d.probes, b, d.circuits[b])
      {
      }
      SmallerSet(Outstanding(t.probes, b, t.circuits[b]), Outstanding(d.probes, b, d.circuits[b]));
    }
  }

  ghost predicate SameElements(a: seq<int>, b: seq<int>) {
    forall x :: x in a <==> x in b
  }

  lemma {:induction false} Listed(ids: seq<int>) returns (distinct: seq<int>)
    ensures (forall i, j :: 0 <= i < j < |distinct| ==> distinct[i] != distinct[j]) && SameElements(ids, distinct)
    decreases |ids|
  {
    if ids == [] {
      distinct := [];
    } else {
      var init, last := ids[..|ids| - 1], ids[|ids| - 1];
      var shorter := Listed(init);
      distinct := if last in shorter then shorter else shorter + [last];
      assert ids == init + [last];
      forall x
        ensures x in ids <==> x in distinct
      {
        assert x in init <==> x in shorter;
      }
    }
  }

  lemma SameSet(a: seq<int>, b: seq<int>)
    requires SameElements(a, b)
    ensures (set x | x in a) == (set x | x in b)
  {
    var p, q := (set x | x in a), (set x | x in b);
    forall x
      ensures x in p <==> x in q
    {
    }
    assert p == q;
  }

  lemma {:induction false} ReconcileEachKeeps(d: Tables, o: Options, ids: seq<int>, now: Time, home: Home)
    requires Inv(d, o, home)
    ensures Inv(ReconcileEach(d, o, ids, now), o, home)
    decreases |ids|
  {
    hide Inv;
    hide Reconcile;
    if ids == [] {
    } else {
      ReconcileEachKeeps(d, o, ids[..|ids| - 1], now, home);
      ReconcileKeeps(ReconcileEach(d, o, ids[..|ids| - 1], now), o, ids[|ids| - 1], now, home);
    }
  }

  lemma RefreshKeeps(d: Tables, o: Options, ids: seq<int>, now: Time, home: Home)
    requires Inv(d, o, home)
    ensures Inv(Refresh(d, o, (set b | b in ids), now), o, home)
  {
    InvIsSound(d, o, home);
    hide Inv;
    hide Sound;
    hide Refresh;
    hide ReconcileEach;
    var distinct := Listed(ids);
    SameSet(ids, distinct);
    RefreshRefinesReconcile(d, o, distinct, now);
    ReconcileEachKeeps(d, o, distinct, now, home);
  }

  // Runs

  /** The event uses attempt identifiers with the backends they belong to. */
  predicate Named(e: Event, home: Home) {
    && (e.op.Acquires? ==> home(e.op.r.attemptId) == e.op.r.backend.id)
    && (e.op.Completes? ==> home(e.op.cm.attemptId) == e.op.cm.backend.id)
  }

  lemma StepKeeps(s: Store, o: Options, e: Event, home: Home)
    requires Inv(s.d, o, home) && Named(e, home)
    ensures Inv(Step(s, o, e).d, o, home)
  {
    hide Inv;
    hide AcquireTx;
    hide CompleteTx;
    hide RenewTx;
    hide Reconcile;
    hide Refresh;
    hide IdentifyAll;
    hide CleanupTx;
    match e.op
    case Acquires(r) => AcquireKeeps(s, o, r, e.now, home);
    case Completes(cm) => CompleteKeeps(s, o, cm, e.now, home);
    case Renews(ids, permits) => RenewKeeps(s, o, ids, permits, e.now, home);
    case Reconciles(b) => ReconcileKeeps(s.d, o, b, e.now, home);
    case Refreshes(ids) => RefreshKeeps(s.d, o, ids, e.now, home);
    case Identifies(ids) => IdentifyAllKeeps(s, o, ids, e.now, home);
    case Creates(b, enabled, draining) =>
      if b !in s.d.circuits {
        NewCircuitKeeps(s.d, o, b, 1, e.now, home);
      }
    case Changes(b, change) =>
      if b in s.backends {
        ResetKeeps(s.d, o, b, s.backends[b].revision + 1, e.now, home);
      }
      hide Reset;
    case Cleans(probes, receipts) => CleanupKeeps(s, o, probes, receipts, e.now, home);
  }

  /** Whatever the replicas and the configuration do, the tables stay in order. */
  lemma {:induction false} RunKeepsInv(o: Options, run: seq<Event>, home: Home)
    requires ValidOptions(o) && forall i :: 0 <= i < |run| ==> Named(run[i], home)
    ensures Inv(After(o, run).d, o, home)
    decreases |run|
  {
    hide Step;
    hide Named;
    if run == [] {
    } else {
      RunKeepsInv(o, run[..|run| - 1], home);
      hide Inv;
      StepKeeps(After(o, run[..|run| - 1]), o, run[|run| - 1], home);
    }
  }

  /** After any run in which attempt identifiers are not shared between backends, the bulk refresh does
  exactly what reconciling each backend in turn does. */
  lemma RefreshIsReconciling(o: Options, run: seq<Event>, home: Home, ids: seq<int>, now: Time)
    requires ValidOptions(o) && forall i :: 0 <= i < |run| ==> Named(run[i], home)
    requires forall i, j :: 0 <= i < j < |ids| ==> ids[i] != ids[j]
    ensures var d := After(o, run).d;
            Refresh(d, o, (set b | b in ids), now) == ReconcileEach(d, o, ids, now)
  {
    RunKeepsInv(o, run, home);
    hide After;
    InvIsSound(After(o, run).d, o, home);
    hide Inv;
    RefreshRefinesReconcile(After(o, run).d, o, ids, now);
  }

  /** However many replicas ask for probes, a half-open circuit never has more open ones than it may. */
  lemma ProbesAreBounded(o: Options, run: seq<Event>, home: Home, b: int)
    requires ValidOptions(o) && forall i :: 0 <= i < |run| ==> Named(run[i], home)
    requires b in After(o, run).d.circuits && After(o, run).d.circuits[b].state == HalfOpen
    ensures var d := After(o, run).d; |Outstanding(d.probes, b, d.circuits[b])| <= o.maxProbes
  {
    RunKeepsInv(o, run, home);
    hide After;
    assert Within(After(o, run).d.probes, b, After(o, run).d.circuits[b], o.maxProbes);
  }

  /** Settling overdue probes never makes a transaction fail for want of a failure to date the opening by. */
  lemma ExpiryNeverFails(o: Options, run: seq<Event>, home: Home, b: int, now: Time)
    requires ValidOptions(o) && forall i :: 0 <= i < |run| ==> Named(run[i], home)
    ensures !LapseFails(After(o, run).d, o, b, now)
  {
    RunKeepsInv(o, run, home);
    hide After;
    LapseMoves(After(o, run).d, o, b, now, home);
    hide LapseFails;
  }
}
