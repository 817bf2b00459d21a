/** What the circuit coordinator answers: who is let through and with which permit, what is said to a
report and to its repetition, and how long a renewed permit lasts. */
module CircuitAnswers {
  import opened ExpiryQueue
  import opened CircuitBreaker
  import opened CircuitBook
  import opened Counting
  import opened CircuitRuns
  import opened CircuitProperties
  import opened CircuitOnce
  import opened CircuitOutcomes

  // 1. Acquisitions

  /** The permit of a probe: it lasts its own time from now. */
  function PermitFor(r: Request, generation: int, now: Time): Permit {
    Permit(r.attemptId, r.backend, generation, r.replica, now + r.probeTtl, r.probeTtl)
  }

  predicate Cooling(m: Machine, o: Options, now: Time) {
    m.state == Open && now < m.openedAt + o.cooldown
  }

  /** The answer of the breaker: a closed circuit lets everybody through, an open one nobody until its
  cooldown is over and then one probe, a half-open one as many probes as it may have, until one succeeds. */
  ghost predicate LetThrough(m: Machine, o: Options, probes: nat, r: Request, now: Time, d: Decision) {
    match m.state
    case Closed => d.permit.None? && d.reason.None?
    case Open =>
      if Cooling(m, o, now) then d.permit.None? && d.reason == Some(CircuitOpen)
      else d.permit == Some(PermitFor(r, m.generation + 1, now)) && d.reason.None?
    case HalfOpen =>
      if m.succeeded || probes >= o.maxProbes then d.permit.None? && d.reason == Some(ProbeCapacityExhausted)
      else d.permit == Some(PermitFor(r, m.generation, now)) && d.reason.None?
  }

  lemma AskAnswers(b: Book, o: Options, r: Request, now: Time)
    requires Serves(b, r.backend) && ValidOptions(o) && Sane(b.machines[b.circuits[r.backend.id].serial], o)
    ensures var m := b.machines[b.circuits[r.backend.id].serial];
            LetThrough(m, o, m.probes, r, now, Ask(b, o, r, now).1)
  {
    var m := b.machines[b.circuits[r.backend.id].serial];
    AcquireThenObserve(m, o, now);
    hide Prune;
  }

  /** A new attempt: whether the backend is served as it is known to the caller, whether the attempt
  began in time, and then what the breaker says. */
  ghost predicate Admits(live: Book, o: Options, r: Request, now: Time, d: Decision) {
    var known := r.backend.id in live.circuits && live.circuits[r.backend.id].identity == r.backend;
    && (d.reason == Some(StaleBackend) <==> !known)
    && (d.reason == Some(StaleOperation) <==> known && !(now - RECEIPT_RETENTION < r.startedAt <= now + FUTURE_TOLERANCE))
    && (known && now - RECEIPT_RETENTION < r.startedAt <= now + FUTURE_TOLERANCE ==>
          var s := live.circuits[r.backend.id].serial;
          s in live.machines && LetThrough(live.machines[s], o, |Live(live, s)|, r, now, d))
  }

  lemma ServesKnown(b: Book, o: Options, backend: Backend)
    requires Inv(b, o)
    ensures Serves(b, backend) <==> backend.id in b.circuits && b.circuits[backend.id].identity == backend
  {
  }

  lemma EvictSame(live: Book, o: Options, capacity: nat, victim: Option<Id>, s: nat)
    requires Victim(live, capacity, victim) && s in live.machines
    ensures Live(Evict(live, victim), s) == Live(live, s)
  {
    var room := Evict(live, victim);
    forall id
      ensures id in Live(room, s) <==> id in Live(live, s)
    {
    }
  }

  lemma NewAnswered(live: Book, o: Options, r: Request, now: Time, capacity: nat, victim: Option<Id>)
    requires Inv(live, o) && Victim(live, capacity, victim)
    ensures var room := Evict(live, victim);
            var d := if !Serves(room, r.backend) then Decision(None, None, Some(StaleBackend))
                     else if !Timely(r.startedAt, now) then Decision(None, None, Some(StaleOperation))
                     else Ask(room, o, r, now).1;
            Admits(live, o, r, now, d)
  {
    var room := Evict(live, victim);
    ServesKnown(live, o, r.backend);
    assert Serves(room, r.backend) <==> Serves(live, r.backend);
    if Serves(live, r.backend) {
      var s := live.circuits[r.backend.id].serial;
      assert Probing(live, o, r.backend.id);
      AskAnswers(room, o, r, now);
      EvictSame(live, o, capacity, victim, s);
    }
    hide Inv;
    hide Live;
    hide Ask;
    hide Victim;
  }

  /** What is said to an attempt on record: a conflict, that it is over, or the same permit as it stands. */
  ghost predicate Repeats(live: Book, r: Request, d: Decision)
    requires r.attemptId in live.attempts
  {
    var a := live.attempts[r.attemptId];
    if a.request != r then d.reason == Some(IdempotencyConflict) && d.permit.None?
    else if a.retainUntil.Some? then d.reason == Some(LeaseLost) && d.permit.None?
    else d.reason.None? && d.permit == a.permit
  }

  /** After any run every acquisition is answered as it should be. */
  lemma AcquisitionsAnswered(u: Setup, run: seq<Event>, r: Request, now: Time, victim: Option<Id>)
    requires ValidOptions(u.o) && LawfulRun(Empty, u, run)
    requires Lawful(After(Empty, u, run), u, Event(AcquireOp(r, victim), now))
    ensures var b := After(Empty, u, run);
            var live, d := Expire(b, u.o, now), AcquireAttempt(b, u.o, r, now, u.capacity, victim).1;
            if r.attemptId in live.attempts then Repeats(live, r, d)
            else if |live.attempts| >= u.capacity && (forall id :: id in live.attempts ==> live.attempts[id].retainUntil.None?)
            then d.reason == Some(CoordinationUnavailable) && d.permit.None?
            else Admits(live, u.o, r, now, d)
  {
    var b := After(Empty, u, run);
    EmptyInv(u.o);
    RunKeepsInv(Empty, u, run);
    hide After;
    hide LawfulRun;
    ExpireKeepsInv(b, u.o, now);
    var live := Expire(b, u.o, now);
    hide Expire;
    hide Inv;
    if r.attemptId !in live.attempts && (victim.Some? || |live.attempts| < u.capacity) {
      NewAnswered(live, u.o, r, now, u.capacity, victim);
    }
    hide Admits;
    hide Ask;
    hide Observed;
    hide Seen;
  }

  // 2. Reports

  /** What is said to a report, from the record of its attempt. */
  ghost predicate Accepts(live: Book, c: Completion, now: Time, reason: Option<Reason>) {
    var id := c.attemptId;
    var told := id in live.attempts && live.attempts[id].completion.Some?;
    var timely := now - RECEIPT_RETENTION < c.reportedAt <= now + FUTURE_TOLERANCE;
    if told then reason == if live.attempts[id].completion == Some(c) then None else Some(IdempotencyConflict)
    else if !timely then reason == Some(StaleOperation)
    else if id in live.attempts && (live.attempts[id].request.backend != c.backend || live.attempts[id].ticket.generation != c.generation)
    then reason == Some(IdempotencyConflict)
    else reason.None?
  }

  lemma ReportsAnswered(b: Book, o: Options, c: Completion, now: Time)
    ensures Accepts(Expire(b, o, now), c, now, CompleteAttempt(b, o, c, now).2)
  {
    hide Expire;
    hide Record;
    hide Observed;
    hide Seen;
  }

  predicate OnFile(b: Book, c: Completion) {
    c.attemptId in b.attempts && b.attempts[c.attemptId].completion == Some(c)
  }

  /** A report that is accepted for an attempt on record is on file afterwards, word for word. */
  lemma AcceptedIsFiled(b: Book, u: Setup, c: Completion, now: Time)
    requires Inv(b, u.o) && c.attemptId in Expire(b, u.o, now).attempts && CompleteAttempt(b, u.o, c, now).2.None?
    ensures OnFile(CompleteAttempt(b, u.o, c, now).0, c)
  {
    ExpireKeepsInv(b, u.o, now);
    var live := Expire(b, u.o, now);
    assert Filed(live, c.attemptId);
    hide Expire;
    hide Inv;
    hide Complete;
    hide Observe;
    hide Seen;
  }

  /** The record of the attempt is neither outlived nor given up with the event. */
  ghost predicate Stays(b: Book, u: Setup, e: Event, id: Id) {
    id in Expire(b, u.o, e.now).attempts && !Evicted(b, u, e, id)
  }

  predicate SameReport(b: Book, n: Book, id: Id) {
    id in b.attempts && id in n.attempts && n.attempts[id].completion == b.attempts[id].completion
  }

  lemma ExpireSameReport(b: Book, o: Options, now: Time, id: Id)
    requires id in Expire(b, o, now).attempts
    ensures SameReport(b, Expire(b, o, now), id)
  {
    hide Lapses;
    hide Complete;
  }

  lemma {:induction false} RenewSameReport(b: Book, probes: seq<Permit>, now: Time, id: Id)
    requires id in b.attempts
    ensures SameReport(b, RenewAll(b, probes, now).0, id)
    decreases |probes|
  {
    if probes == [] {
    } else {
      RenewSameReport(b, probes[..|probes| - 1], now, id);
    }
  }

  lemma {:induction false} ReconcileSameReport(b: Book, values: seq<Backend>, now: Time, id: Id)
    requires id in b.attempts
    ensures SameReport(b, Reconciled(b, values, now), id)
    decreases |values|
  {
    if values == [] {
    } else {
      ReconcileSameReport(b, values[..|values| - 1], now, id);
    }
  }

  lemma AcquireSameReport(b: Book, u: Setup, r: Request, victim: Option<Id>, now: Time, id: Id)
    requires id in Expire(b, u.o, now).attempts && !Evicted(b, u, Event(AcquireOp(r, victim), now), id)
    ensures SameReport(Expire(b, u.o, now), AcquireAttempt(b, u.o, r, now, u.capacity, victim).0, id)
  {
    hide Expire;
    hide Acquire;
    hide Observe;
    hide Seen;
  }

  lemma CompleteSameReport(b: Book, u: Setup, c: Completion, now: Time, id: Id)
    requires id in Expire(b, u.o, now).attempts && Expire(b, u.o, now).attempts[id].completion.Some?
    ensures SameReport(Expire(b, u.o, now), CompleteAttempt(b, u.o, c, now).0, id)
  {
    hide Expire;
    hide Complete;
    hide Observe;
    hide Seen;
  }

  lemma StepKeepsFile(b: Book, u: Setup, e: Event, c: Completion)
    requires OnFile(b, c) && Stays(b, u, e, c.attemptId)
    ensures OnFile(Step(b, u, e), c)
  {
    var live := Expire(b, u.o, e.now);
    ExpireSameReport(b, u.o, e.now, c.attemptId);
    hide Expire;
    hide AcquireAttempt;
    hide CompleteAttempt;
    hide RenewAll;
    hide Reconciled;
    match e.op
    case AcquireOp(r, victim) =>
      assert e == Event(AcquireOp(r, victim), e.now);
      AcquireSameReport(b, u, r, victim, e.now, c.attemptId);
    case CompleteOp(d) => CompleteSameReport(b, u, d, e.now, c.attemptId);
    case RenewOp(probes) => RenewSameReport(live, probes, e.now, c.attemptId);
    case ReconcileOp(values) => ReconcileSameReport(live, values[..Leading(values)], e.now, c.attemptId);
    case SnapshotOp(id) =>
    case StatusOp =>
    hide Evicted;
  }

  ghost predicate StaysAt(u: Setup, run: seq<Event>, k: nat, id: Id) {
    k < |run| && Stays(After(Empty, u, run[..k]), u, run[k], id)
  }

  lemma {:induction false} FiledUntil(u: Setup, run: seq<Event>, c: Completion, i: nat, j: nat)
    requires i < j <= |run| && OnFile(After(Empty, u, run[..i + 1]), c)
    requires forall k :: i < k < j ==> StaysAt(u, run, k, c.attemptId)
    ensures OnFile(After(Empty, u, run[..j]), c)
    decreases j
  {
    hide Step;
    hide Stays;
    hide OnFile;
    if j == i + 1 {
    } else {
      FiledUntil(u, run, c, i, j - 1);
      assert run[..j][..j - 1] == run[..j - 1];
      assert StaysAt(u, run, j - 1, c.attemptId);
      StepKeepsFile(After(Empty, u, run[..j - 1]), u, run[j - 1], c);
    }
  }

  /** What event `i` answers to report `c`. */
  ghost function AnswerTo(u: Setup, run: seq<Event>, i: nat, c: Completion): Option<Reason>
    requires i < |run|
  {
    CompleteAttempt(After(Empty, u, run[..i]), u.o, c, run[i].now).2
  }

  /** A report accepted once is accepted again, word for word, for as long as its attempt is on record;
  any other report for that attempt then conflicts. */
  lemma RepetitionIsAccepted(u: Setup, run: seq<Event>, i: nat, j: nat, c: Completion, d: Completion)
    requires ValidOptions(u.o) && LawfulRun(Empty, u, run) && i < j < |run|
    requires run[i].op == CompleteOp(c) && AnswerTo(u, run, i, c).None? && d.attemptId == c.attemptId
    requires c.attemptId in Expire(After(Empty, u, run[..i]), u.o, run[i].now).attempts
    requires forall k :: i < k <= j ==> StaysAt(u, run, k, c.attemptId)
    ensures AnswerTo(u, run, j, d) == if d == c then None else Some(IdempotencyConflict)
  {
    hide LawfulRun;
    hide After;
    hide Expire;
    var b := After(Empty, u, run[..i]);
    PrefixLawful(Empty, u, run, i);
    EmptyInv(u.o);
    RunKeepsInv(Empty, u, run[..i]);
    hide Inv;
    AcceptedIsFiled(b, u, c, run[i].now);
    FiledAt(u, run, i, c);
    FiledUntil(u, run, c, i, j);
    var n := After(Empty, u, run[..j]);
    assert StaysAt(u, run, j, c.attemptId);
    ExpireSameReport(n, u.o, run[j].now, c.attemptId);
    ReportsAnswered(n, u.o, d, run[j].now);
    hide CompleteAttempt;
    hide Evicted;
  }

  lemma FiledAt(u: Setup, run: seq<Event>, i: nat, c: Completion)
    requires i < |run| && run[i].op == CompleteOp(c)
    ensures After(Empty, u, run[..i + 1]) == CompleteAttempt(After(Empty, u, run[..i]), u.o, c, run[i].now).0
  {
    hide CompleteAttempt;
    assert run[..i + 1][..i] == run[..i];
  }

  // 3. Renewed permits

  /** Some item of the renewal names the permit in its generation. */
  predicate Renews(probes: seq<Permit>, id: Id, generation: int) {
    exists k :: 0 <= k < |probes| && probes[k].id == id && probes[k].generation == generation
  }

  /** The attempt is open and holds a permit that lasts. */
  predicate HoldsPermit(b: Book, id: Id) {
    id in b.attempts && b.attempts[id].retainUntil.None? && b.attempts[id].permit.Some? && b.attempts[id].request.probeTtl > 0
  }

  lemma {:induction false} RenewedPermit(live: Book, probes: seq<Permit>, now: Time, id: Id)
    requires HoldsPermit(live, id)
    ensures var n, a := RenewAll(live, probes, now).0, live.attempts[id];
            && id in n.attempts
            && n.attempts[id] ==
                 if Renews(probes, id, a.permit.value.generation)
                 then a.(permit := Some(a.permit.value.(expiresAt := now + a.request.probeTtl))) else a
    decreases |probes|
  {
    if probes == [] {
    } else {
      var init, p := probes[..|probes| - 1], probes[|probes| - 1];
      RenewedPermit(live, init, now, id);
      var g := live.attempts[id].permit.value.generation;
      assert forall k :: 0 <= k < |init| ==> init[k] == probes[k];
      assert Renews(probes, id, g) <==> Renews(init, id, g) || (p.id == id && p.generation == g);
      hide Renews;
    }
  }

  lemma {:induction false} NothingRenewed(live: Book, probes: seq<Permit>, now: Time, id: Id)
    requires id !in live.attempts || live.attempts[id].retainUntil.Some? || live.attempts[id].permit.None?
    ensures var n := RenewAll(live, probes, now).0;
            (id in n.attempts <==> id in live.attempts) && (id in n.attempts ==> n.attempts[id] == live.attempts[id])
    decreases |probes|
  {
    if probes == [] {
    } else {
      NothingRenewed(live, probes[..|probes| - 1], now, id);
    }
  }

  lemma {:induction false} RenewSize(live: Book, probes: seq<Permit>, now: Time)
    ensures |RenewAll(live, probes, now).1| == |probes|
    decreases |probes|
  {
    if probes == [] {
    } else {
      RenewSize(live, probes[..|probes| - 1], now);
    }
  }

  /** Every permit held lasts. */
  ghost predicate Lasting(b: Book) {
    forall id :: id in b.attempts && b.attempts[id].retainUntil.None? && b.attempts[id].permit.Some? ==>
      b.attempts[id].request.probeTtl > 0
  }

  ghost predicate RenewalAnswer(live: Book, p: Permit, now: Time, answer: Renewal) {
    if HoldsPermit(live, p.id) && live.attempts[p.id].permit.value.generation == p.generation
    then answer == Renewed(p.id, now + live.attempts[p.id].request.probeTtl, live.attempts[p.id].request.probeTtl)
    else answer.Lost?
  }

  lemma {:induction false} RenewAnswers(live: Book, probes: seq<Permit>, now: Time, k: nat)
    requires k < |probes| && Lasting(live)
    ensures |RenewAll(live, probes, now).1| == |probes| && RenewalAnswer(live, probes[k], now, RenewAll(live, probes, now).1[k])
    decreases |probes|
  {
    RenewSize(live, probes, now);
    var init, p := probes[..|probes| - 1], probes[|probes| - 1];
    RenewSize(live, init, now);
    if k < |init| {
      RenewAnswers(live, init, now, k);
    } else if HoldsPermit(live, p.id) {
      RenewedPermit(live, init, now, p.id);
      hide Renews;
    } else {
      NothingRenewed(live, init, now, p.id);
    }
  }

  /** No permit lasts longer than its time from the last moment of the clock. */
  predicate TimedOne(a: Attempt, now: Time) {
    a.retainUntil.None? && a.permit.Some? ==> a.permit.value.expiresAt <= now + a.request.probeTtl
  }

  ghost predicate Timed(b: Book, now: Time) {
    forall id :: id in b.attempts ==> TimedOne(b.attempts[id], now)
  }

  lemma ExpireTimed(b: Book, o: Options, before: Time, now: Time)
    requires Timed(b, before) && before <= now
    ensures Timed(Expire(b, o, now), now) && Lasting(Expire(b, o, now))
  {
    var live := Expire(b, o, now);
    forall id | id in live.attempts
      ensures TimedOne(live.attempts[id], now)
      ensures live.attempts[id].retainUntil.None? && live.attempts[id].permit.Some? ==> live.attempts[id].request.probeTtl > 0
    {
      assert TimedOne(b.attempts[id], before);
    }
  }

  lemma {:induction false} RenewTimed(live: Book, probes: seq<Permit>, now: Time)
    requires Timed(live, now) && Lasting(live)
    ensures Timed(RenewAll(live, probes, now).0, now) && Lasting(RenewAll(live, probes, now).0)
    decreases |probes|
  {
    if probes == [] {
    } else {
      RenewTimed(live, probes[..|probes| - 1], now);
    }
  }

  lemma {:induction false} ReconcileTimed(b: Book, values: seq<Backend>, now: Time)
    requires Timed(b, now)
    ensures Timed(Reconciled(b, values, now), now)
    decreases |values|
  {
    if values == [] {
    } else {
      ReconcileTimed(b, values[..|values| - 1], now);
    }
  }

  lemma AcquireTimed(b: Book, u: Setup, r: Request, victim: Option<Id>, now: Time)
    requires Timed(Expire(b, u.o, now), now)
    ensures Timed(AcquireAttempt(b, u.o, r, now, u.capacity, victim).0, now)
  {
    hide Expire;
    hide Acquire;
    hide Observe;
    hide Seen;
  }

  lemma CompleteTimed(b: Book, u: Setup, c: Completion, now: Time)
    requires Timed(Expire(b, u.o, now), now)
    ensures Timed(CompleteAttempt(b, u.o, c, now).0, now)
  {
    hide Expire;
    hide Complete;
    hide Observe;
    hide Seen;
  }

  lemma StepKeepsTimed(b: Book, u: Setup, e: Event, before: Time)
    requires Timed(b, before) && before <= e.now
    ensures Timed(Step(b, u, e), e.now)
  {
    var live := Expire(b, u.o, e.now);
    ExpireTimed(b, u.o, before, e.now);
    hide Expire;
    match e.op
    case AcquireOp(r, victim) =>
      AcquireTimed(b, u, r, victim, e.now);
      hide AcquireAttempt;
    case CompleteOp(c) =>
      CompleteTimed(b, u, c, e.now);
      hide CompleteAttempt;
    case RenewOp(probes) => RenewTimed(live, probes, e.now);
    case ReconcileOp(values) => ReconcileTimed(live, values[..Leading(values)], e.now);
    case SnapshotOp(id) =>
    case StatusOp =>
  }

  lemma {:induction false} RunKeepsTimed(u: Setup, run: seq<Event>)
    requires Clocked(run)
    ensures run == [] || Timed(After(Empty, u, run), run[|run| - 1].now)
    decreases |run|
  {
    hide Step;
    hide Timed;
    if run == [] {
    } else if |run| == 1 {
      assert run[..0] == [];
      TimedAtFirst(run[0].now);
      StepKeepsTimed(Empty, u, run[0], run[0].now);
    } else {
      var n := |run| - 1;
      RunKeepsTimed(u, run[..n]);
      StepKeepsTimed(After(Empty, u, run[..n]), u, run[n], run[n - 1].now);
    }
  }

  lemma TimedAtFirst(now: Time)
    ensures Timed(Empty, now)
  {
  }

  /** After any run on a clock that does not go back each item of a renewal is answered with the truth:
  a permit that is held lasts its own time from now, any other is lost. */
  lemma RenewalsAnswered(u: Setup, run: seq<Event>, probes: seq<Permit>, now: Time, k: nat)
    requires Clocked(run) && (run != [] ==> run[|run| - 1].now <= now) && k < |probes|
    ensures var live := Expire(After(Empty, u, run), u.o, now);
            && |RenewAll(live, probes, now).1| == |probes|
            && RenewalAnswer(live, probes[k], now, RenewAll(live, probes, now).1[k])
  {
    RunKeepsTimed(u, run);
    TimedAtFirst(now);
    var b := After(Empty, u, run);
    ExpireTimed(b, u.o, if run == [] then now else run[|run| - 1].now, now);
    RenewAnswers(Expire(b, u.o, now), probes, now, k);
    hide *;
  }

  // 4. Snapshots

  lemma {:induction false} PrunedCount(failures: seq<Time>, cutoff: Time)
    ensures |Prune(failures, cutoff)| == CountFrom(failures, cutoff)
    decreases |failures|
  {
    if failures == [] {
    } else {
      PrunedCount(failures[..|failures| - 1], cutoff);
    }
  }

  /** What a snapshot says of the breaker that serves the backend: an open circuit whose cooldown is over
  shows as half-open, failures out of the window are not counted, and it is available exactly when the
  next attempt would be let through. */
  ghost predicate Shows(identity: Backend, m: Machine, o: Options, probes: nat, now: Time, snapshot: Snapshot) {
    && snapshot.backend == identity
    && (m.state == Closed ==> snapshot == Snapshot(identity, Closed, m.generation, CountFrom(m.failures, now - o.window), None, 0, true))
    && (Cooling(m, o, now) ==>
          snapshot == Snapshot(identity, Open, m.generation, |m.failures|, Some(m.openedAt + o.cooldown), 0, false))
    && (m.state == Open && !Cooling(m, o, now) ==>
          snapshot == Snapshot(identity, HalfOpen, m.generation + 1, |m.failures|, None, 0, true))
    && (m.state == HalfOpen ==>
          snapshot == Snapshot(identity, HalfOpen, m.generation, |m.failures|, None, probes, !m.succeeded && probes < o.maxProbes))
  }

  lemma ShownMachine(identity: Backend, m: Machine, o: Options, now: Time)
    requires ValidOptions(o) && Sane(m, o)
    ensures Shows(identity, m, o, m.probes, now, SnapshotOf(identity, Observe(m, o, now), o))
  {
    PrunedCount(m.failures, now - o.window);
    hide Prune;
    hide CountFrom;
  }

  /** An attempt would be let through exactly if the snapshot says so. */
  lemma AvailableMeansLetThrough(identity: Backend, m: Machine, o: Options, probes: nat, r: Request, now: Time, snapshot: Snapshot, d: Decision)
    requires Shows(identity, m, o, probes, now, snapshot) && LetThrough(m, o, probes, r, now, d)
    ensures snapshot.available <==> d.reason.None?
  {
    hide CountFrom;
  }

  /** After any run a snapshot of a served backend tells the truth; of any other it says closed to callers. */
  lemma SnapshotsAreTrue(u: Setup, run: seq<Event>, k: int, now: Time)
    requires ValidOptions(u.o) && LawfulRun(Empty, u, run)
    ensures var live := Expire(After(Empty, u, run), u.o, now);
            var snapshot := Seen(Observed(live, u.o, k, now), u.o, k);
            if k in live.circuits then
              var s := live.circuits[k].serial;
              s in live.machines && Shows(live.circuits[k].identity, live.machines[s], u.o, |Live(live, s)|, now, snapshot)
            else snapshot == Snapshot(Backend(k, 0, false, false), Open, 0, 0, None, 0, false)
  {
    var b := After(Empty, u, run);
    EmptyInv(u.o);
    RunKeepsInv(Empty, u, run);
    hide After;
    hide LawfulRun;
    ExpireKeepsInv(b, u.o, now);
    var live := Expire(b, u.o, now);
    hide Expire;
    if k in live.circuits {
      assert Probing(live, u.o, k);
      ShownMachine(live.circuits[k].identity, live.machines[live.circuits[k].serial], u.o, now);
    }
    hide Shows;
    hide Live;
    hide SnapshotOf;
    hide Observe;
  }

  // 5. How long a record is kept

  function Latest3(a: Time, b: Time, c: Time): Time {
    var d := if a >= b then a else b;
    if d >= c then d else c
  }

  /** The record is kept a day from the latest of now, the beginning of the attempt and one more moment. */
  ghost predicate KeptFor(a: Attempt, now: Time) {
    || a.retainUntil == Some(Latest3(now, a.request.startedAt, now) + RECEIPT_RETENTION)
    || (a.permit.Some? && a.retainUntil == Some(Latest3(now, a.request.startedAt, a.permit.value.expiresAt) + RECEIPT_RETENTION))
    || (a.completion.Some? && a.retainUntil == Some(Latest3(now, a.request.startedAt, a.completion.value.reportedAt) + RECEIPT_RETENTION))
  }

  ghost predicate SameRecord(a: Attempt, n: Attempt, now: Time) {
    n.request == a.request && n.ticket == a.ticket && (n.retainUntil == a.retainUntil || KeptFor(n, now))
  }

  lemma ExpireRecords(b: Book, o: Options, now: Time, id: Id)
    requires id in b.attempts
    ensures var live, a := Expire(b, o, now), b.attempts[id];
            if a.retainUntil.Some? && a.retainUntil.value <= now then id !in live.attempts
            else id in live.attempts && SameRecord(a, live.attempts[id], now)
  {
    hide Lapses;
    hide Complete;
  }

  lemma {:induction false} RenewRecords(b: Book, probes: seq<Permit>, now: Time, id: Id)
    requires id in b.attempts
    ensures var n := RenewAll(b, probes, now).0;
            && id in n.attempts && n.attempts[id].request == b.attempts[id].request && n.attempts[id].ticket == b.attempts[id].ticket
            && n.attempts[id].retainUntil == b.attempts[id].retainUntil
            && (b.attempts[id].retainUntil.Some? ==> n.attempts[id] == b.attempts[id])
    decreases |probes|
  {
    if probes == [] {
    } else {
      RenewRecords(b, probes[..|probes| - 1], now, id);
    }
  }

  predicate Ended(a: Attempt, n: Attempt, now: Time) {
    n == a || (a.retainUntil.None? && n == a.(retainUntil := Some(Latest3(now, a.request.startedAt, now) + RECEIPT_RETENTION)))
  }

  lemma {:induction false} ReconcileRecords(b: Book, values: seq<Backend>, now: Time, id: Id)
    requires id in b.attempts
    ensures id in Reconciled(b, values, now).attempts && Ended(b.attempts[id], Reconciled(b, values, now).attempts[id], now)
    decreases |values|
  {
    if values == [] {
    } else {
      ReconcileRecords(b, values[..|values| - 1], now, id);
    }
  }

  lemma AcquireRecords(b: Book, u: Setup, r: Request, victim: Option<Id>, now: Time, id: Id)
    requires id in Expire(b, u.o, now).attempts && !Evicted(b, u, Event(AcquireOp(r, victim), now), id)
    ensures var n := AcquireAttempt(b, u.o, r, now, u.capacity, victim).0;
            id in n.attempts && n.attempts[id] == Expire(b, u.o, now).attempts[id]
  {
    hide Expire;
    hide Acquire;
    hide Observe;
    hide Seen;
  }

  lemma CompleteRecords(b: Book, u: Setup, c: Completion, now: Time, id: Id)
    requires id in Expire(b, u.o, now).attempts
    ensures var n, a := CompleteAttempt(b, u.o, c, now).0, Expire(b, u.o, now).attempts[id];
            && id in n.attempts && n.attempts[id].request == a.request && n.attempts[id].ticket == a.ticket && n.attempts[id].permit == a.permit
            && (n.attempts[id].retainUntil == a.retainUntil
                || (n.attempts[id].completion == Some(c)
                    && n.attempts[id].retainUntil == Some(Latest3(now, a.request.startedAt, c.reportedAt) + RECEIPT_RETENTION)))
            && (n.attempts[id] == a || n.attempts[id].completion == Some(c))
  {
    hide Expire;
    hide Complete;
    hide Observe;
    hide Seen;
  }

  ghost predicate StillKept(a: Attempt, attempts: map<Id, Attempt>, id: Id, now: Time) {
    id in attempts && SameRecord(a, attempts[id], now)
  }

  lemma LiveRecords(b: Book, u: Setup, e: Event, a: Attempt, id: Id)
    requires StillKept(a, Expire(b, u.o, e.now).attempts, id, e.now) && !Evicted(b, u, e, id) && !e.op.CompleteOp?
    ensures StillKept(a, Step(b, u, e).attempts, id, e.now)
  {
    var live := Expire(b, u.o, e.now);
    hide Expire;
    match e.op
    case AcquireOp(r, victim) =>
      assert e == Event(AcquireOp(r, victim), e.now);
      AcquireRecords(b, u, r, victim, e.now, id);
      hide AcquireAttempt;
      hide Evicted;
    case RenewOp(probes) => RenewRecords(live, probes, e.now, id);
    case ReconcileOp(values) => ReconcileRecords(live, values[..Leading(values)], e.now, id);
    case SnapshotOp(k) =>
    case StatusOp =>
  }

  lemma CompletedRecords(b: Book, u: Setup, e: Event, a: Attempt, id: Id)
    requires StillKept(a, Expire(b, u.o, e.now).attempts, id, e.now) && e.op.CompleteOp?
    ensures StillKept(a, Step(b, u, e).attempts, id, e.now)
  {
    hide Expire;
    CompleteRecords(b, u, e.op.c, e.now, id);
    hide CompleteAttempt;
  }

  /** A record stays until its time is over, unless it is given up for room; its time is set when the
  attempt ends, and again when its report comes after that. */
  lemma AttemptsAreKept(b: Book, u: Setup, e: Event, id: Id)
    requires id in b.attempts
    ensures var live, a := Expire(b, u.o, e.now), b.attempts[id];
            && (id in live.attempts <==> !(a.retainUntil.Some? && a.retainUntil.value <= e.now))
            && (id in live.attempts && !Evicted(b, u, e, id) ==> StillKept(a, Step(b, u, e).attempts, id, e.now))
  {
    ExpireRecords(b, u.o, e.now, id);
    var live := Expire(b, u.o, e.now);
    assert id in live.attempts ==> StillKept(b.attempts[id], live.attempts, id, e.now);
    hide Expire;
    hide StillKept;
    hide SameRecord;
    hide Step;
    hide Evicted;
    if id in live.attempts && !Evicted(b, u, e, id) {
      if e.op.CompleteOp? {
        CompletedRecords(b, u, e, b.attempts[id], id);
      } else {
        LiveRecords(b, u, e, b.attempts[id], id);
      }
    }
  }
}
