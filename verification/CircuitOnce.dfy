/** An attempt is taken up once and ends once, in any run whose clock does not go back, unless the
coordinator was full and gave its record away. */
module CircuitOnce {
  import opened ExpiryQueue
  import opened CircuitBreaker
  import opened CircuitBook
  import opened CircuitProperties

  predicate Recorded(b: Book, r: Request) {
    r.attemptId in b.attempts && b.attempts[r.attemptId].request == r
  }

  predicate Underway(b: Book, r: Request) {
    Recorded(b, r) && b.attempts[r.attemptId].retainUntil.None?
  }

  /** Recorded, and to be remembered for as long as a repetition would be listened to. */
  predicate Held(b: Book, r: Request) {
    && Recorded(b, r)
    && (b.attempts[r.attemptId].retainUntil.Some? ==>
          b.attempts[r.attemptId].retainUntil.value >= r.startedAt + RECEIPT_RETENTION)
  }

  predicate TooLate(r: Request, now: Time) {
    now >= r.startedAt + RECEIPT_RETENTION
  }

  /** From `b` to `c` the attempt is not begun, and stays on record if it was. */
  predicate Carries(b: Book, c: Book, r: Request) {
    (Underway(c, r) ==> Underway(b, r)) && (Held(b, r) ==> Held(c, r))
  }

  /** The record of `id` is given up for room while it is still kept. */
  ghost predicate Evicted(b: Book, u: Setup, e: Event, id: Id) {
    && e.op.AcquireOp? && e.op.victim == Some(id)
    && e.op.r.attemptId !in Expire(b, u.o, e.now).attempts && id in Expire(b, u.o, e.now).attempts
  }

  // The parts of an operation

  lemma ExpirePermitsCarries(b: Book, o: Options, r: Request, now: Time)
    ensures Carries(b, ExpirePermits(b, o, now), r)
  {
    hide Lapses;
    hide Complete;
  }

  lemma ExpireCarries(b: Book, o: Options, r: Request, now: Time)
    ensures Carries(b, Expire(b, o, now), r) || TooLate(r, now)
    ensures Underway(Expire(b, o, now), r) ==> Underway(b, r)
    ensures !Recorded(Expire(b, o, now), r) && Held(b, r) ==> TooLate(r, now)
  {
    ExpirePermitsCarries(b, o, r, now);
    hide ExpirePermits;
  }

  lemma RecordCarries(b: Book, o: Options, c: Completion, r: Request, now: Time)
    ensures Carries(b, Judged(b, o, c, now).0, r)
  {
    hide Complete;
  }

  lemma {:induction false} RenewCarries(b: Book, probes: seq<Permit>, r: Request, now: Time)
    ensures Carries(b, RenewAll(b, probes, now).0, r)
    decreases |probes|
  {
    if probes != [] {
      RenewCarries(b, probes[..|probes| - 1], r, now);
    }
  }

  lemma RetireCarries(b: Book, ids: set<int>, r: Request, now: Time)
    ensures Carries(b, Retire(b, ids, now), r)
  {
  }

  lemma {:induction false} ReconciledCarries(b: Book, values: seq<Backend>, r: Request, now: Time)
    ensures Carries(b, Reconciled(b, values, now), r)
    decreases |values|
  {
    if values != [] {
      ReconciledCarries(b, values[..|values| - 1], r, now);
      RetireCarries(Reconciled(b, values[..|values| - 1], now), {values[|values| - 1].id}, r, now);
      hide Retire;
    }
  }

  lemma ReconcileCarries(b: Book, o: Options, values: seq<Backend>, r: Request, now: Time)
    ensures Carries(Expire(b, o, now), ReconcileAll(b, o, values, now).0, r)
  {
    hide Expire;
    hide Reconciled;
    hide Retire;
    var live := Expire(b, o, now);
    var taken := values[..Leading(values)];
    ReconciledCarries(live, taken, r, now);
    var c := Reconciled(live, taken, now);
    RetireCarries(c, c.circuits.Keys - Ids(values), r, now);
  }

  lemma AcquireCarries(b: Book, u: Setup, q: Request, victim: Option<Id>, r: Request, now: Time)
    requires var live := Expire(b, u.o, now);
             victim == Some(r.attemptId) && r.attemptId in live.attempts ==> q.attemptId in live.attempts
    ensures var live, c := Expire(b, u.o, now), AcquireAttempt(b, u.o, q, now, u.capacity, victim).0;
            && (Held(live, r) ==> Held(c, r))
            && (Underway(c, r) ==> Underway(live, r) || (q == r && r.attemptId !in live.attempts && Timely(r.startedAt, now)))
  {
    hide Expire;
    hide Ask;
    hide Observe;
    hide Seen;
    var live := Expire(b, u.o, now);
    var room := Evict(live, victim);
    if q.attemptId !in live.attempts && Serves(room, q.backend) {
      AskCarries(room, u.o, q, r, now);
    }
  }

  lemma AskCarries(b: Book, o: Options, q: Request, r: Request, now: Time)
    requires Serves(b, q.backend) && q.attemptId !in b.attempts
    ensures (Held(b, r) ==> Held(Ask(b, o, q, now).0, r)) && (Underway(Ask(b, o, q, now).0, r) ==> Underway(b, r) || q == r)
  {
    hide Acquire;
    hide Observe;
    hide Seen;
  }

  /** No operation but its own acquisition begins an attempt, and that only while it is timely. */
  lemma StepCarries(b: Book, u: Setup, e: Event, r: Request)
    requires !Evicted(b, u, e, r.attemptId)
    ensures var c := Step(b, u, e);
            && (Held(b, r) && !TooLate(r, e.now) ==> Held(c, r))
            && (Underway(c, r) ==> Underway(b, r) || (!TooLate(r, e.now) && !Held(b, r)))
  {
    hide Expire;
    hide Complete;
    hide ReconcileAll;
    hide AcquireAttempt;
    hide Judged;
    hide RenewAll;
    ExpireCarries(b, u.o, r, e.now);
    var live := Expire(b, u.o, e.now);
    match e.op
    case AcquireOp(q, victim) => AcquireCarries(b, u, q, victim, r, e.now);
    case CompleteOp(c) => RecordCarries(live, u.o, c, r, e.now);
    case RenewOp(probes) => RenewCarries(live, probes, r, e.now);
    case ReconcileOp(values) => ReconcileCarries(b, u.o, values, r, e.now);
    case SnapshotOp(id) =>
    case StatusOp =>
  }

  // Whole runs

  /** The attempt is not underway and cannot come back. */
  predicate Over(b: Book, r: Request, now: Time) {
    !Underway(b, r) && (Held(b, r) || TooLate(r, now))
  }

  lemma OverStays(b: Book, u: Setup, e: Event, r: Request, before: Time)
    requires Over(b, r, before) && before <= e.now && !Evicted(b, u, e, r.attemptId)
    ensures Over(Step(b, u, e), r, e.now)
  {
    StepCarries(b, u, e, r);
    hide Step;
  }

  predicate Clocked(run: seq<Event>) {
    forall i, j :: 0 <= i < j < |run| ==> run[i].now <= run[j].now
  }

  ghost predicate EvictedAt(b: Book, u: Setup, run: seq<Event>, k: nat, id: Id)
    requires k < |run|
  {
    Evicted(After(b, u, run[..k]), u, run[k], id)
  }

  ghost predicate EvictedBetween(b: Book, u: Setup, run: seq<Event>, i: nat, j: nat, id: Id)
    requires j < |run|
  {
    exists k :: i < k <= j && EvictedAt(b, u, run, k, id)
  }

  lemma {:induction false} OverUntil(b: Book, u: Setup, run: seq<Event>, r: Request, i: nat, j: nat)
    requires i < j <= |run| && Clocked(run) && Over(After(b, u, run[..i + 1]), r, run[i].now)
    requires forall k :: i < k < j ==> !EvictedAt(b, u, run, k, r.attemptId)
    ensures Over(After(b, u, run[..j]), r, run[j - 1].now)
    decreases j
  {
    hide Over;
    hide Step;
    if j > i + 1 {
      OverUntil(b, u, run, r, i, j - 1);
      assert run[..j][..j - 1] == run[..j - 1];
      assert !EvictedAt(b, u, run, j - 1, r.attemptId);
      OverStays(After(b, u, run[..j - 1]), u, run[j - 1], r, run[j - 2].now);
    }
  }

  /** Step `i` ends the attempt: its outcome counts, it runs out, or its backend is taken away. */
  ghost predicate Ends(b: Book, u: Setup, run: seq<Event>, i: nat, r: Request)
    requires i < |run|
  {
    Underway(After(b, u, run[..i]), r) && !Underway(After(b, u, run[..i + 1]), r)
  }

  lemma EndedIsOver(b: Book, u: Setup, e: Event, r: Request)
    requires Underway(b, r) && !Underway(Step(b, u, e), r) && !Evicted(b, u, e, r.attemptId)
    ensures Over(Step(b, u, e), r, e.now)
  {
    StepCarries(b, u, e, r);
    hide Step;
  }

  /** In a run whose clock never goes back an attempt ends at most once, however often it is acquired
  again, completed again or reconciled away, unless its record was evicted in between. */
  lemma EndsAtMostOnce(b: Book, u: Setup, run: seq<Event>, i: nat, j: nat, r: Request)
    requires i < j < |run| && Clocked(run) && Ends(b, u, run, i, r) && Ends(b, u, run, j, r)
    ensures EvictedAt(b, u, run, i, r.attemptId) || EvictedBetween(b, u, run, i, j, r.attemptId)
  {
    hide Step;
    if !EvictedAt(b, u, run, i, r.attemptId) && !EvictedBetween(b, u, run, i, j, r.attemptId) {
      assert run[..i + 1][..i] == run[..i];
      EndedIsOver(After(b, u, run[..i]), u, run[i], r);
      OverUntil(b, u, run, r, i, j);
      assert false;
    }
  }

  /** Step `i` takes the attempt up: it was unknown and now is underway. */
  ghost predicate Begins(b: Book, u: Setup, run: seq<Event>, i: nat, r: Request)
    requires i < |run|
  {
    !Recorded(After(b, u, run[..i]), r) && Underway(After(b, u, run[..i + 1]), r)
  }

  lemma {:induction false} HeldUntil(b: Book, u: Setup, run: seq<Event>, r: Request, i: nat, j: nat)
    requires i < j <= |run| && Clocked(run) && Held(After(b, u, run[..i + 1]), r)
    requires forall k :: i < k < j ==> !EvictedAt(b, u, run, k, r.attemptId)
    ensures Held(After(b, u, run[..j]), r) || TooLate(r, run[j - 1].now)
    decreases j
  {
    hide Held;
    hide Step;
    if j > i + 1 {
      HeldUntil(b, u, run, r, i, j - 1);
      assert run[..j][..j - 1] == run[..j - 1];
      assert !EvictedAt(b, u, run, j - 1, r.attemptId);
      StepCarries(After(b, u, run[..j - 1]), u, run[j - 1], r);
    }
  }

  /** The same request acquires a permit to call at most once: a repetition finds the first attempt on
  record, or comes too late. */
  lemma BeginsAtMostOnce(b: Book, u: Setup, run: seq<Event>, i: nat, j: nat, r: Request)
    requires i < j < |run| && Clocked(run) && Begins(b, u, run, i, r) && Begins(b, u, run, j, r)
    ensures EvictedBetween(b, u, run, i, j, r.attemptId)
  {
    hide Step;
    if !EvictedBetween(b, u, run, i, j, r.attemptId) {
      HeldUntil(b, u, run, r, i, j);
      assert run[..j + 1][..j] == run[..j];
      assert !EvictedAt(b, u, run, j, r.attemptId);
      StepCarries(After(b, u, run[..j]), u, run[j], r);
      assert false;
    }
  }
}
