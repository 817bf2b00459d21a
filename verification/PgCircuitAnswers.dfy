/** What the shared circuit tables answer: who is let through, what is said to a report and to its
repetition, how long a permit lasts, and how long a record is kept. */
module PgCircuitAnswers {
  import opened ExpiryQueue
  import opened CircuitBreaker
  import opened Counting
  import opened PgCircuits
  import opened PgCircuitSteps
  import opened PgCircuitRuns
  import opened PgCircuitOutcomes
  import CircuitBook

  // 1. Answers to acquisitions

  /** What a probe on record is answered: the same permit while it runs, else that it is lost. */
  ghost predicate Repeats(d: Tables, r: Request, now: Time, answer: Answer)
    requires r.attemptId in d.probes && r.backend.id in d.circuits
  {
    var p, c := d.probes[r.attemptId], d.circuits[r.backend.id];
    if p.request != r then answer == Refused(CircuitBook.IdempotencyConflict)
    else if p.outcome.None? && p.revision == r.backend.revision && p.generation == c.generation && p.expiresAt > now
    then answer == Permitted(p.generation, p.expiresAt)
    else answer == Refused(CircuitBook.LeaseLost)
  }

  /** The answer to a new attempt: the backend must be served in the revision asked for, the attempt
  timely; then the circuit decides. */
  ghost predicate LetThrough(d: Tables, o: Options, known: Backend, r: Request, now: Time, answer: Answer)
    requires r.backend.id in d.circuits
  {
    var c := d.circuits[r.backend.id];
    var served := c.revision == known.revision && known.revision == r.backend.revision && known.enabled && !known.draining;
    if !served then answer == Refused(CircuitBook.StaleBackend)
    else if !InTime(r.startedAt, now) then answer == Refused(CircuitBook.StaleOperation)
    else
      match c.state
      case Closed => answer == Granted
      case Open =>
        if c.openedAt.Some? && now < c.openedAt.value + o.cooldown then answer == Refused(CircuitBook.CircuitOpen)
        else answer == Permitted(c.generation + 1, now + r.probeTtl)
      case HalfOpen =>
        if c.succeeded || |Outstanding(d.probes, r.backend.id, c)| >= o.maxProbes
        then answer == Refused(CircuitBook.ProbeCapacityExhausted)
        else answer == Permitted(c.generation, now + r.probeTtl)
  }

  lemma AdmitAnswers(d: Tables, o: Options, known: Backend, r: Request, now: Time)
    requires r.backend.id in d.circuits && ValidOptions(o)
    requires d.circuits[r.backend.id].state == HalfOpen ==> !HasExpired(d, r.backend.id, now)
    ensures LetThrough(d, o, known, r, now, Admit(d, o, known, r, now).1)
    ensures Admit(d, o, known, r, now).1.Permitted? ==>
              var t, answer := Admit(d, o, known, r, now).0, Admit(d, o, known, r, now).1;
              && r.attemptId in t.probes && t.probes[r.attemptId].request == r && t.probes[r.attemptId].outcome.None?
              && t.probes[r.attemptId].generation == answer.generation == t.circuits[r.backend.id].generation
              && t.probes[r.attemptId].expiresAt == answer.expiresAt
  {
    var b := r.backend.id;
    if d.circuits[b].state == HalfOpen {
      AllInFlight(d, b, now);
    }
    hide Outstanding;
    hide InFlight;
    hide HasExpired;
  }

  /** After any run every acquisition is answered as it should be, after overdue probes were settled. */
  lemma AcquisitionsAnswered(o: Options, run: seq<Event>, home: Home, r: Request, now: Time)
    requires NamedRun(o, run, home)
    ensures var s, b := After(o, run), r.backend.id;
            var d, answer := Lapse(s.d, o, b, now), AcquireTx(s, o, r, now).1;
            if b !in s.d.circuits || b !in s.backends then answer == Refused(CircuitBook.StaleBackend)
            else if r.attemptId in d.probes then Repeats(d, r, now, answer)
            else LetThrough(d, o, s.backends[b], r, now, answer)
  {
    var s, b := After(o, run), r.backend.id;
    RunKeepsInv(o, run, home);
    hide After;
    LapseMoves(s.d, o, b, now, home);
    hide Inv;
    hide LapseFails;
    var d := Lapse(s.d, o, b, now);
    if b in s.d.circuits && b in s.backends && r.attemptId !in d.probes {
      AdmitAnswers(d, o, s.backends[b], r, now);
    }
    hide Lapse;
    hide LetThrough;
    hide Admit;
  }

  // 2. Renewed permits

  /** The permit names the probe as it is on record, and asks for some time. */
  predicate Names(permit: Permit, id: Id, p: ProbeRow) {
    && permit.id == id && permit.ttl > 0 && permit.backend.id == p.backend && permit.backend.revision == p.revision
    && permit.generation == p.generation && permit.replica == p.request.replica
  }

  /** The time asked for by the last of these permits that names the probe. */
  function AskedFor(permits: seq<Permit>, id: Id, p: ProbeRow): Option<int> {
    if permits == [] then None
    else if Names(permits[|permits| - 1], id, p) then Some(permits[|permits| - 1].ttl)
    else AskedFor(permits[..|permits| - 1], id, p)
  }

  lemma {:induction false} AskedForSome(permits: seq<Permit>, id: Id, p: ProbeRow)
    ensures AskedFor(permits, id, p).Some? <==> exists k :: 0 <= k < |permits| && Names(permits[k], id, p)
    ensures AskedFor(permits, id, p).Some? ==> AskedFor(permits, id, p).value > 0
    decreases |permits|
  {
    if permits == [] {
    } else {
      var init := permits[..|permits| - 1];
      assert forall k :: 0 <= k < |init| ==> init[k] == permits[k];
      AskedForSome(init, id, p);
    }
  }

  /** A renewal sets an open probe that has time left a new end, the time last asked for from now, and
  touches nothing else. */
  lemma {:induction false} RenewedProbe(probes: Probes, permits: seq<Permit>, now: Time, id: Id)
    requires id in probes
    ensures var t, p, asked := RenewAll(probes, permits, now), probes[id], AskedFor(permits, id, probes[id]);
            && t.Keys == probes.Keys
            && t[id] == if p.outcome.None? && p.expiresAt > now && asked.Some? then p.(expiresAt := now + asked.value) else p
    decreases |permits|
  {
    if permits == [] {
    } else {
      var init := permits[..|permits| - 1];
      RenewedProbe(probes, init, now, id);
      AskedForSome(init, id, probes[id]);
    }
  }

  // 3. Reports made again

  /** A failure that is accepted is on file afterwards, for a day from the later of now and its report. */
  lemma AcceptedFailureIsFiled(s: Store, o: Options, cm: Completion, now: Time)
    requires cm.backend.id in s.d.circuits && FreshFailure(s, cm, now) && CompleteTx(s, o, cm, now).1 == Done
    ensures var t := CompleteTx(s, o, cm, now).0;
            t.receipts == s.receipts[cm.attemptId := Receipt(cm.backend.revision, cm.generation, cm.reportedAt,
              (if cm.reportedAt > now then cm.reportedAt else now) + 24 * 3_600_000_000_000)]
  {
    LapseProbes(s.d, o, cm.backend.id, now);
    hide Lapse;
    hide LapseFails;
    hide ApplyFailure;
  }

  /** Reported again it is accepted and does nothing; anything else under its name is refused. */
  lemma FiledFailureRepeats(s: Store, o: Options, cm: Completion, now: Time)
    requires cm.backend.id in s.d.circuits && !LapseFails(s.d, o, cm.backend.id, now)
    requires cm.outcome == Failure && cm.attemptId !in s.d.probes && cm.attemptId in s.receipts
    ensures var kept, (t, answer) := s.receipts[cm.attemptId], CompleteTx(s, o, cm, now);
            if (kept.revision, kept.generation, kept.reportedAt) == (cm.backend.revision, cm.generation, cm.reportedAt)
            then answer == Done && t == s.(d := Lapse(s.d, o, cm.backend.id, now))
            else answer == Failed && t == s
  {
    LapseProbes(s.d, o, cm.backend.id, now);
    hide Lapse;
    hide LapseFails;
  }

  lemma CompleteKeepsReceipt(s: Store, o: Options, cm: Completion, now: Time, id: Id)
    requires id in s.receipts
    ensures id in CompleteTx(s, o, cm, now).0.receipts && CompleteTx(s, o, cm, now).0.receipts[id] == s.receipts[id]
  {
    hide Lapse;
    hide LapseFails;
    hide ConcludeProbe;
    hide ApplyFailure;
  }

  lemma {:induction false} IdentifyKeepsReceipts(s: Store, ids: seq<int>, now: Time)
    ensures IdentifyAll(s, ids, now).receipts == s.receipts
    decreases |ids|
  {
    if ids == [] {
    } else {
      IdentifyKeepsReceipts(s, ids[..|ids| - 1], now);
      hide Identify;
    }
  }

  /** A receipt is kept until a cleanup takes it after its time. */
  lemma ReceiptsAreKept(s: Store, o: Options, e: Event, id: Id)
    requires id in s.receipts
    ensures var t := Step(s, o, e);
            if e.op.Cleans? && id in e.op.receipts && s.receipts[id].retainUntil <= e.now then id !in t.receipts
            else id in t.receipts && t.receipts[id] == s.receipts[id]
  {
    match e.op
    case Acquires(r) =>
      hide Lapse;
      hide LapseFails;
      hide Admit;
      hide Replay;
    case Completes(cm) => CompleteKeepsReceipt(s, o, cm, e.now, id);
    case Renews(ids, permits) => hide LapseEach;
    case Reconciles(k) => hide Reconcile;
    case Refreshes(ids) => hide Refresh;
    case Identifies(ids) => IdentifyKeepsReceipts(s, ids, e.now);
    case Creates(k, enabled, draining) =>
    case Changes(k, change) => hide Reset;
    case Cleans(probes, receipts) =>
    hide CompleteTx;
    hide IdentifyAll;
  }

  /** A probe that was reported is answered from its report: the same again is accepted, anything else
  under its name refused, and nothing changes. */
  lemma ReportedProbeRepeats(d: Tables, o: Options, cm: Completion, now: Time)
    requires cm.attemptId in d.probes && cm.backend.id in d.circuits && d.probes[cm.attemptId].outcome.Some?
    ensures var p, r := d.probes[cm.attemptId], ConcludeProbe(d, o, cm, now);
            if p.revision != cm.backend.revision || p.generation != cm.generation then r == None
            else if p.outcome.value.Reported? && p.reportedAt.Some? then
              r == if p.outcome.value.outcome == cm.outcome && p.reportedAt.value == cm.reportedAt then Some((d, Done)) else None
            else r == Some((d, Done))
  {
  }

  // 4. Probes that are settled stay so

  /** The row of a settled probe is as it was, unless a cleanup took it after its time. */
  predicate Lasts(probes: Probes, after: Probes, id: Id) {
    id in probes && probes[id].outcome.Some? ==> id in after && after[id] == probes[id]
  }

  lemma LapseLasts(d: Tables, o: Options, b: int, now: Time, id: Id)
    ensures Lasts(d.probes, Lapse(d, o, b, now).probes, id) && Lasts(d.probes, Reconcile(d, o, b, now).probes, id)
  {
    if HasExpired(d, b, now) {
      SomeOverdue(d, b, now);
    }
    hide Newest;
    hide Times;
    hide FirstOf;
    hide PruneFailures;
  }

  lemma {:induction false} LapseEachLasts(d: Tables, o: Options, ids: seq<int>, now: Time, id: Id)
    requires LapseEach(d, o, ids, now).Some?
    ensures Lasts(d.probes, LapseEach(d, o, ids, now).value.probes, id)
    decreases |ids|
  {
    if ids == [] {
    } else {
      var init := ids[..|ids| - 1];
      LapseEachLasts(d, o, init, now, id);
      LapseLasts(LapseEach(d, o, init, now).value, o, ids[|ids| - 1], now, id);
      hide Lapse;
      hide LapseFails;
    }
  }

  lemma AcquireLasts(s: Store, o: Options, r: Request, now: Time, id: Id)
    ensures Lasts(s.d.probes, AcquireTx(s, o, r, now).0.d.probes, id)
  {
    LapseLasts(s.d, o, r.backend.id, now, id);
    hide Lapse;
    hide LapseFails;
    hide InFlight;
    hide Replay;
  }

  lemma ConcludeLasts(d: Tables, o: Options, cm: Completion, now: Time, id: Id)
    requires cm.attemptId in d.probes && cm.backend.id in d.circuits && ConcludeProbe(d, o, cm, now).Some?
    ensures Lasts(d.probes, ConcludeProbe(d, o, cm, now).value.0.probes, id)
  {
    hide Record;
    hide Outstanding;
    hide DropFailures;
  }

  lemma CompleteLasts(s: Store, o: Options, cm: Completion, now: Time, id: Id)
    ensures Lasts(s.d.probes, CompleteTx(s, o, cm, now).0.d.probes, id)
  {
    var b := cm.backend.id;
    LapseLasts(s.d, o, b, now, id);
    if b in s.d.circuits {
      var d := Lapse(s.d, o, b, now);
      if cm.attemptId in d.probes && ConcludeProbe(d, o, cm, now).Some? {
        ConcludeLasts(d, o, cm, now, id);
      }
    }
    hide Lapse;
    hide LapseFails;
    hide ConcludeProbe;
    hide Record;
    hide CountOf;
  }

  lemma {:induction false} IdentifyLasts(s: Store, ids: seq<int>, now: Time, id: Id)
    ensures Lasts(s.d.probes, IdentifyAll(s, ids, now).d.probes, id)
    decreases |ids|
  {
    if ids == [] {
    } else {
      IdentifyLasts(s, ids[..|ids| - 1], now, id);
      hide DropFailures;
    }
  }

  lemma RenewLasts(probes: Probes, permits: seq<Permit>, now: Time, id: Id)
    ensures Lasts(probes, RenewAll(probes, permits, now), id)
  {
    if id in probes {
      RenewedProbe(probes, permits, now, id);
    }
    hide RenewAll;
    hide AskedFor;
  }

  lemma RefreshLasts(d: Tables, o: Options, ids: set<int>, now: Time, id: Id)
    ensures Lasts(d.probes, Refresh(d, o, ids, now).probes, id)
  {
    hide ExpiredRows;
    hide InsertAll;
    hide PruneAll;
    hide UpdateAll;
  }

  /** What was settled of a probe stays on record until a cleanup takes it after its time. */
  lemma SettledProbesStay(s: Store, o: Options, e: Event, id: Id)
    requires id in s.d.probes && s.d.probes[id].outcome.Some?
    ensures var t, p := Step(s, o, e).d, s.d.probes[id];
            if e.op.Cleans? && id in e.op.probes && p.retainUntil.Some? && p.retainUntil.value <= e.now then id !in t.probes
            else id in t.probes && t.probes[id] == p
  {
    match e.op
    case Acquires(r) => AcquireLasts(s, o, r, e.now, id);
    case Completes(cm) => CompleteLasts(s, o, cm, e.now, id);
    case Renews(ids, permits) =>
      if LapseEach(s.d, o, ids, e.now).Some? {
        LapseEachLasts(s.d, o, ids, e.now, id);
        RenewLasts(LapseEach(s.d, o, ids, e.now).value.probes, permits, e.now, id);
      }
    case Reconciles(k) => LapseLasts(s.d, o, k, e.now, id);
    case Refreshes(ids) => RefreshLasts(s.d, o, (set k | k in ids), e.now, id);
    case Identifies(ids) => IdentifyLasts(s, ids, e.now, id);
    case Creates(k, enabled, draining) =>
    case Changes(k, change) =>
    case Cleans(probes, receipts) =>
    hide AcquireTx;
    hide CompleteTx;
    hide LapseEach;
    hide RenewAll;
    hide Reconcile;
    hide Refresh;
    hide IdentifyAll;
  }

  // 5. A new identity

  /** Nothing of the backend's past counts any more: its circuit is closed in a new generation, no failure
  is held against it and no probe of it is open. */
  ghost predicate Afresh(d: Tables, t: Tables, b: int, revision: int) {
    && (forall f :: f in t.failures ==> t.failures[f].backend != b)
    && (forall p :: p in t.probes && t.probes[p].backend == b ==> t.probes[p].outcome.Some?)
    && (b in d.circuits ==>
          b in t.circuits && t.circuits[b].state == Closed && t.circuits[b].generation == d.circuits[b].generation + 1
          && t.circuits[b].revision == revision && !t.circuits[b].succeeded)
  }

  /** A change of the configuration, and a reconciliation that finds another revision, start it afresh. */
  lemma NewIdentityStartsAfresh(s: Store, b: int, change: Option<(bool, bool)>, known: Backend, now: Time)
    ensures b in s.backends ==> Afresh(s.d, ChangeTx(s, b, change, now).d, b, s.backends[b].revision + 1)
    ensures b in s.d.circuits && s.d.circuits[b].revision != known.revision ==> Afresh(s.d, Identify(s.d, known, b, now), b, known.revision)
    ensures b in s.d.circuits && s.d.circuits[b].revision == known.revision ==>
              Identify(s.d, known, b, now).circuits == s.d.circuits && Identify(s.d, known, b, now).failures == s.d.failures
    ensures !known.enabled || known.draining ==>
              forall p :: p in Identify(s.d, known, b, now).probes && Identify(s.d, known, b, now).probes[p].backend == b ==>
                Identify(s.d, known, b, now).probes[p].outcome.Some?
  {
  }
}
