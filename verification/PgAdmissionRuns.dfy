/** What holds of the admission tables after any run of transactions, of any replicas in any order. */
module PgAdmissionRuns {
  import opened ExpiryQueue
  import opened Counting
  import opened Admission
  import opened PgAdmission

  // What the answers depend on

  function Stripped(row: OperationRow): OperationRow {
    row.(expiredAt := None, retainUntil := None)
  }

  function Bare(operations: Operations): Operations {
    map id | id in operations :: Stripped(operations[id])
  }

  /** Nobody can tell the tables apart at `now`. */
  predicate SameView(a: Tables, b: Tables, now: Time) {
    Bare(a.operations) == Bare(b.operations) && Live(a.leases, now) == Live(b.leases, now) && a.rates == b.rates
  }

  /** An operation marked as expired has no live lease. */
  ghost predicate Honest(t: Tables, now: Time) {
    Marked(t.operations, t.leases, now)
  }

  ghost predicate Marked(operations: Operations, leases: Leases, now: Time) {
    forall id :: id in operations && operations[id].expiredAt.Some? ==> id !in Live(leases, now)
  }

  lemma BareMeaning(a: Operations, b: Operations)
    ensures Bare(a) == Bare(b) <==> a.Keys == b.Keys && forall id :: id in a ==> Stripped(a[id]) == Stripped(b[id])
  {
    assert a.Keys == Bare(a).Keys && b.Keys == Bare(b).Keys;
    forall id | id in a && id in b && Bare(a)[id] == Bare(b)[id]
      ensures Stripped(a[id]) == Stripped(b[id])
    {
    }
    if a.Keys == b.Keys && forall id :: id in a ==> Stripped(a[id]) == Stripped(b[id]) {
      assert Bare(a) == Bare(b);
    }
  }

  lemma LiveLater(leases: Leases, now: Time, later: Time)
    requires now <= later
    ensures Live(leases, later) == Live(Live(leases, now), later)
  {
  }

  lemma ViewLater(a: Tables, b: Tables, now: Time, later: Time)
    requires SameView(a, b, now) && now <= later
    ensures SameView(a, b, later)
  {
    LiveLater(a.leases, now, later);
    LiveLater(b.leases, now, later);
  }

  lemma HonestLater(t: Tables, now: Time, later: Time)
    requires Honest(t, now) && now <= later
    ensures Honest(t, later)
  {
  }

  // Updates of one row

  lemma LiveAdd(leases: Leases, id: Id, row: LeaseRow, now: Time)
    ensures Live(leases[id := row], now) == if row.expiresAt > now then Live(leases, now)[id := row] else Live(leases, now) - {id}
  {
  }

  lemma LiveDrop(leases: Leases, ids: set<Id>, now: Time)
    ensures Live(leases - ids, now) == Live(leases, now) - ids
  {
  }

  lemma BareSet(operations: Operations, id: Id, row: OperationRow)
    ensures Bare(operations[id := row]) == Bare(operations)[id := Stripped(row)]
  {
  }

  lemma BareSame(operations: Operations, id: Id, row: OperationRow)
    requires id in operations && Stripped(row) == Stripped(operations[id])
    ensures Bare(operations[id := row]) == Bare(operations)
  {
  }

  // Acquire

  lemma ResolveSame(a: Tables, b: Tables, r: Request, now: Time)
    requires SameView(a, b, now) && Honest(a, now) && Honest(b, now) && r.leaseId in a.operations && r.leaseId in b.operations
    ensures Resolve(a, r, now).1 == Resolve(b, r, now).1
    ensures SameView(Resolve(a, r, now).0, Resolve(b, r, now).0, now)
    ensures Honest(Resolve(a, r, now).0, now)
  {
    BareMeaning(a.operations, b.operations);
    BareSame(a.operations, r.leaseId, Forfeited(a.operations[r.leaseId], now));
    BareSame(b.operations, r.leaseId, Forfeited(b.operations[r.leaseId], now));
    assert r.leaseId in Live(a.leases, now) ==> a.leases[r.leaseId] == Live(a.leases, now)[r.leaseId] == Live(b.leases, now)[r.leaseId];
    hide Bare;
  }

  lemma FileSame(a: Tables, b: Tables, c: Config, r: Request, now: Time)
    requires SameView(a, b, now) && Honest(a, now)
    ensures File(a, c, r, now).1 == File(b, c, r, now).1
    ensures SameView(File(a, c, r, now).0, File(b, c, r, now).0, now)
    ensures Honest(File(a, c, r, now).0, now)
  {
    hide Decide;
    var (rates, verdict) := Decide(Live(a.leases, now), a.rates, c, r, now);
    var kept := OperationRow(r, verdict, None, None, if verdict.Granted? then None else Some(RetainUntil(r, now)));
    BareSet(a.operations, r.leaseId, kept);
    BareSet(b.operations, r.leaseId, kept);
    LiveAdd(a.leases, r.leaseId, NewRow(r, c, now), now);
    LiveAdd(b.leases, r.leaseId, NewRow(r, c, now), now);
    HonestFile(a, r.leaseId, kept, NewRow(r, c, now), now);
    hide Bare;
    hide Live;
    hide Marked;
    hide NewRow;
  }

  lemma HonestFile(t: Tables, id: Id, row: OperationRow, lease: LeaseRow, now: Time)
    requires Honest(t, now) && row.expiredAt.None?
    ensures Marked(t.operations[id := row], t.leases[id := lease], now) && Marked(t.operations[id := row], t.leases, now)
  {
  }

  lemma AcquireSame(a: Tables, b: Tables, c: Config, r: Request, now: Time)
    requires SameView(a, b, now) && Honest(a, now) && Honest(b, now)
    ensures AcquireTx(a, c, r, now).1 == AcquireTx(b, c, r, now).1
    ensures SameView(AcquireTx(a, c, r, now).0, AcquireTx(b, c, r, now).0, now)
    ensures Honest(AcquireTx(a, c, r, now).0, now)
  {
    hide SameView;
    hide Honest;
    hide Resolve;
    hide File;
    assert r.leaseId in a.operations <==> r.leaseId in b.operations by {
      SameKeys(a, b, now);
    }
    if r.leaseId in a.operations {
      ResolveSame(a, b, r, now);
    } else {
      FileSame(a, b, c, r, now);
    }
  }

  lemma SameKeys(a: Tables, b: Tables, now: Time)
    requires SameView(a, b, now)
    ensures a.operations.Keys == b.operations.Keys
  {
    BareMeaning(a.operations, b.operations);
  }

  // Expiry and renewal

  /** Deleting expired leases and marking their operations is not seen by anybody. */
  lemma ExpireUnseen(t: Tables, ids: set<Id>, now: Time)
    requires Honest(t, now)
    ensures SameView(t, ExpireTx(t, ids, now), now) && Honest(ExpireTx(t, ids, now), now)
  {
    var s := ExpireTx(t, ids, now);
    LiveDrop(t.leases, Ended(t.leases, ids, now), now);
    assert Live(t.leases, now) - Ended(t.leases, ids, now) == Live(t.leases, now);
    BareMeaning(t.operations, s.operations);
  }

  lemma ProlongedLive(leases: Leases, wants: seq<Lease>, now: Time)
    ensures Live(Prolonged(leases, Live(leases, now), wants, now), now)
         == Prolonged(Live(leases, now), Live(leases, now), wants, now)
  {
    hide Longest;
  }

  lemma ViewBack(a: Tables, b: Tables, now: Time)
    requires SameView(a, b, now)
    ensures SameView(b, a, now)
  {
  }

  lemma ViewThrough(a: Tables, b: Tables, c: Tables, now: Time)
    requires SameView(a, b, now) && SameView(b, c, now)
    ensures SameView(a, c, now)
  {
  }

  lemma ProlongedHonest(t: Tables, wants: seq<Lease>, now: Time)
    requires Honest(t, now)
    ensures Honest(t.(leases := Prolonged(t.leases, Live(t.leases, now), wants, now)), now)
  {
    ProlongedLive(t.leases, wants, now);
    hide Longest;
  }

  lemma RenewSame(a: Tables, b: Tables, wants: seq<Lease>, now: Time)
    requires SameView(a, b, now) && Honest(a, now) && Honest(b, now)
    ensures RenewTx(a, wants, now).1 == RenewTx(b, wants, now).1
    ensures SameView(RenewTx(a, wants, now).0, RenewTx(b, wants, now).0, now)
    ensures Honest(RenewTx(a, wants, now).0, now)
  {
    var live := Live(a.leases, now);
    assert live == Live(b.leases, now);
    ProlongedLive(a.leases, wants, now);
    ProlongedLive(b.leases, wants, now);
    var p := a.(leases := Prolonged(a.leases, live, wants, now));
    var q := b.(leases := Prolonged(b.leases, live, wants, now));
    assert SameView(p, q, now);
    ProlongedHonest(a, wants, now);
    ProlongedHonest(b, wants, now);
    ExpireUnseen(p, Wanted(wants), now);
    ExpireUnseen(q, Wanted(wants), now);
    hide SameView;
    hide Honest;
    hide ExpireTx;
    hide Live;
    hide Prolonged;
    var s, t := ExpireTx(p, Wanted(wants), now), ExpireTx(q, Wanted(wants), now);
    ViewBack(p, s, now);
    ViewThrough(s, p, q, now);
    ViewThrough(s, q, t, now);
  }

  // Complete

  lemma CompleteSame(a: Tables, b: Tables, c: Config, item: Item, now: Time)
    requires SameView(a, b, now) && Honest(a, now)
    ensures CompleteTx(a, c, item, now).1 == CompleteTx(b, c, item, now).1
    ensures SameView(CompleteTx(a, c, item, now).0, CompleteTx(b, c, item, now).0, now)
    ensures Honest(CompleteTx(a, c, item, now).0, now)
  {
    hide ChargeTokens;
    BareMeaning(a.operations, b.operations);
    var id := item.leaseId;
    if id in a.operations {
      var result := if id in Live(a.leases, now) then Released else CompletedLost;
      var x, y := a.operations[id], b.operations[id];
      var x', y' :=
        x.(completion := Some(result), retainUntil := Some(RetainUntil(x.request, now))),
        y.(completion := Some(result), retainUntil := Some(RetainUntil(y.request, now)));
      BareSet(a.operations, id, x');
      BareSet(b.operations, id, y');
      LiveDrop(a.leases, {id}, now);
      LiveDrop(b.leases, {id}, now);
      CompleteHonest(a, id, x', now);
      hide Bare;
      hide Live;
      hide Marked;
    }
  }

  lemma CompleteHonest(t: Tables, id: Id, row: OperationRow, now: Time)
    requires Honest(t, now)
    ensures Marked(t.operations[id := row], t.leases - {id}, now)
  {
    LiveDrop(t.leases, {id}, now);
  }

  // Runs with and without the cleanup

  predicate IsCleanup(e: Event) {
    e.op.CleanupExpiredOp?
  }

  lemma StepSame(a: Tables, b: Tables, e: Event)
    requires SameView(a, b, e.now) && Honest(a, e.now) && Honest(b, e.now) && !IsCleanup(e) && !e.op.CleanupReceiptsOp?
    ensures Step(a, e).1 == Step(b, e).1 && SameView(Step(a, e).0, Step(b, e).0, e.now)
    ensures Honest(Step(a, e).0, e.now) && Honest(Step(b, e).0, e.now)
  {
    hide SameView;
    hide Honest;
    hide AcquireTx;
    hide RenewTx;
    hide CompleteTx;
    ViewBack(a, b, e.now);
    match e.op
    case AcquireOp(r) =>
      AcquireSame(a, b, e.c, r, e.now);
      AcquireSame(b, a, e.c, r, e.now);
    case RenewOp(wants) =>
      RenewSame(a, b, wants, e.now);
      RenewSame(b, a, wants, e.now);
    case CompleteOp(item) =>
      CompleteSame(a, b, e.c, item, e.now);
      CompleteSame(b, a, e.c, item, e.now);
  }

  /** The same run without its cleanups of expired leases. */
  function Untidied(run: seq<Event>): seq<Event> {
    if run == [] then []
    else
      var init := Untidied(run[..|run| - 1]);
      if IsCleanup(run[|run| - 1]) then init else init + [run[|run| - 1]]
  }

  predicate ReceiptsKept(run: seq<Event>) {
    forall i :: 0 <= i < |run| ==> !run[i].op.CleanupReceiptsOp?
  }

  lemma {:induction false} RunSame(run: seq<Event>, now: Time)
    requires Clocked(run) && ReceiptsKept(run) && (run != [] ==> run[|run| - 1].now <= now)
    ensures SameView(After(run), After(Untidied(run)), now)
    ensures Honest(After(run), now) && Honest(After(Untidied(run)), now)
    decreases |run|
  {
    if run != [] {
      var init, e := run[..|run| - 1], run[|run| - 1];
      RunSame(init, e.now);
      var a, b := After(init), After(Untidied(init));
      if IsCleanup(e) {
        ExpireUnseen(a, e.op.ids, e.now);
        ViewBack(a, ExpireTx(a, e.op.ids, e.now), e.now);
        ViewThrough(ExpireTx(a, e.op.ids, e.now), a, b, e.now);
      } else {
        StepSame(a, b, e);
        assert (Untidied(init) + [e])[..|Untidied(init)|] == Untidied(init);
      }
      hide Step;
      hide ExpireTx;
      hide SameView;
      hide Honest;
      ViewLater(After(run), After(Untidied(run)), e.now, now);
      HonestLater(After(run), e.now, now);
      HonestLater(After(Untidied(run)), e.now, now);
    }
  }

  /** Cleanups of expired leases, any number of them anywhere in a run, change no answer to any later
  acquisition, renewal or completion and no set of live leases, while receipts are kept. */
  lemma CleanupIsInvisible(run: seq<Event>, e: Event)
    requires Clocked(run + [e]) && ReceiptsKept(run + [e]) && !IsCleanup(e)
    ensures Step(After(run), e).1 == Step(After(Untidied(run)), e).1
    ensures Live(After(run).leases, e.now) == Live(After(Untidied(run)).leases, e.now)
    ensures After(run).rates == After(Untidied(run)).rates
  {
    var all := run + [e];
    assert all[|run|] == e && forall i :: 0 <= i < |run| ==> all[i] == run[i];
    RunSame(run, e.now);
    StepSame(After(run), After(Untidied(run)), e);
    hide Step;
    hide After;
    hide Honest;
  }

  // At most once

  predicate Recorded(t: Tables, r: Request) {
    r.leaseId in t.operations && t.operations[r.leaseId].request == r
  }

  /** Recorded, and to be remembered for as long as a repetition would be listened to. */
  predicate Held(t: Tables, r: Request) {
    && Recorded(t, r)
    && (t.operations[r.leaseId].retainUntil.Some? ==> t.operations[r.leaseId].retainUntil.value >= r.startedAt + RETENTION)
  }

  predicate TooLate(r: Request, now: Time) {
    now >= r.startedAt + RETENTION
  }

  /** Event `e` admits the request afresh, debiting its client. */
  predicate Admits(t: Tables, e: Event, r: Request) {
    e.op == AcquireOp(r) && r.leaseId !in t.operations && Step(t, e).1.Decided? && Step(t, e).1.d.Admitted?
  }

  lemma AcquireHolds(t: Tables, e: Event, r: Request)
    requires e.op.AcquireOp? && Held(t, r)
    ensures Held(Step(t, e).0, r)
  {
    hide Decide;
    hide Live;
    hide NewRow;
  }

  lemma StepHolds(t: Tables, e: Event, r: Request)
    requires Held(t, r)
    ensures Held(Step(t, e).0, r) || TooLate(r, e.now)
  {
    if e.op.AcquireOp? {
      AcquireHolds(t, e, r);
      hide Step;
    } else {
      hide Live;
      hide Longest;
      hide ChargeTokens;
      hide AcquireTx;
    }
  }

  lemma AdmittedIsHeld(t: Tables, e: Event, r: Request)
    requires Admits(t, e, r)
    ensures Held(Step(t, e).0, r) && !Stale(r.startedAt, e.now)
  {
    hide Live;
    hide ChargeRates;
    hide Seed;
    hide NewRow;
  }

  lemma AfterNext(run: seq<Event>, j: nat)
    requires 0 < j <= |run|
    ensures After(run[..j]) == Step(After(run[..j - 1]), run[j - 1]).0
  {
    hide Step;
    assert run[..j][..j - 1] == run[..j - 1];
  }

  lemma {:induction false} HeldUntil(run: seq<Event>, r: Request, i: nat, j: nat)
    requires i < j <= |run| && Clocked(run) && Admits(After(run[..i]), run[i], r)
    ensures Held(After(run[..j]), r) || TooLate(r, run[j - 1].now)
    decreases j
  {
    hide Held;
    hide Admits;
    hide Step;
    hide After;
    AfterNext(run, j);
    if j == i + 1 {
      AdmittedIsHeld(After(run[..i]), run[i], r);
    } else {
      HeldUntil(run, r, i, j - 1);
      if Held(After(run[..j - 1]), r) {
        StepHolds(After(run[..j - 1]), run[j - 1], r);
      }
    }
  }

  /** In any run of transactions of any replicas, receipt cleanups included, a request is admitted and
  its client debited at most once. */
  lemma AdmittedAtMostOnce(run: seq<Event>, r: Request, i: nat, j: nat)
    requires i < j < |run| && Clocked(run) && Admits(After(run[..i]), run[i], r)
    ensures !Admits(After(run[..j]), run[j], r)
  {
    if Admits(After(run[..j]), run[j], r) {
      HeldUntil(run, r, i, j);
      AdmittedIsHeld(After(run[..j]), run[j], r);
      hide After;
      hide Step;
      assert false;
    }
  }

  /** Event `e` ends the operation of `r`, charging its usage. */
  predicate Completes(t: Tables, e: Event, r: Request) {
    e.op.CompleteOp? && e.op.item.leaseId == r.leaseId && Recorded(t, r) && CompleteTx(t, e.c, e.op.item, e.now).1.Done?
  }

  /** The operation of `r` was ended and can never be taken up again. */
  predicate Over(t: Tables, r: Request, now: Time) {
    || (Held(t, r) && t.operations[r.leaseId].completion.Some?)
    || (TooLate(r, now) && (Recorded(t, r) ==> t.operations[r.leaseId].verdict.Denied? || t.operations[r.leaseId].completion.Some?))
  }

  lemma AcquireStaysOver(t: Tables, e: Event, r: Request, before: Time)
    requires e.op.AcquireOp? && Over(t, r, before) && before <= e.now
    ensures Over(Step(t, e).0, r, e.now)
  {
    hide Live;
    hide ChargeRates;
    hide Seed;
    hide NewRow;
  }

  lemma StepStaysOver(t: Tables, e: Event, r: Request, before: Time)
    requires Over(t, r, before) && before <= e.now
    ensures Over(Step(t, e).0, r, e.now)
  {
    if e.op.AcquireOp? {
      AcquireStaysOver(t, e, r, before);
      hide Step;
    } else {
      hide Live;
      hide Longest;
      hide ChargeTokens;
      hide AcquireTx;
    }
  }

  lemma CompletedIsOver(t: Tables, e: Event, r: Request)
    requires Completes(t, e, r)
    ensures Over(Step(t, e).0, r, e.now)
  {
    hide Live;
    hide ChargeTokens;
  }

  lemma OverIsNotCompleted(t: Tables, e: Event, r: Request, before: Time)
    requires Over(t, r, before)
    ensures !Completes(t, e, r)
  {
    hide Live;
    hide ChargeTokens;
  }

  lemma {:induction false} OverUntil(run: seq<Event>, r: Request, i: nat, j: nat)
    requires i < j <= |run| && Clocked(run) && Completes(After(run[..i]), run[i], r)
    ensures Over(After(run[..j]), r, run[j - 1].now)
    decreases j
  {
    hide Over;
    hide Completes;
    hide Step;
    hide After;
    AfterNext(run, j);
    if j == i + 1 {
      CompletedIsOver(After(run[..i]), run[i], r);
    } else {
      OverUntil(run, r, i, j - 1);
      StepStaysOver(After(run[..j - 1]), run[j - 1], r, run[j - 2].now);
    }
  }

  /** In any run of transactions of any replicas, receipt cleanups included, an operation is completed
  and its usage charged at most once. */
  lemma CompletedAtMostOnce(run: seq<Event>, r: Request, i: nat, j: nat)
    requires i < j < |run| && Clocked(run) && Completes(After(run[..i]), run[i], r)
    ensures !Completes(After(run[..j]), run[j], r)
  {
    OverUntil(run, r, i, j);
    OverIsNotCompleted(After(run[..j]), run[j], r, run[j - 1].now);
  }

  // The high-priority reserve of a pool

  predicate Within(live: Leases, pool: int, limit: int, reserve: int) {
    |InPool(live, pool)| <= limit && |LowerInPool(live, pool)| <= limit - reserve
  }

  lemma FewerWithin(a: Leases, b: Leases, pool: int, limit: int, reserve: int)
    requires Within(a, pool, limit, reserve)
    requires forall id :: id in b ==> id in a && b[id].poolId == a[id].poolId && b[id].priority == a[id].priority
    ensures Within(b, pool, limit, reserve)
  {
    forall id | id in b
      ensures id in InPool(b, pool) ==> id in InPool(a, pool)
      ensures id in LowerInPool(b, pool) ==> id in LowerInPool(a, pool)
    {
    }
    SmallerSet(InPool(b, pool), InPool(a, pool));
    SmallerSet(LowerInPool(b, pool), LowerInPool(a, pool));
  }

  lemma OneMore(a: Leases, id: Id, row: LeaseRow, pool: int)
    ensures |InPool(a[id := row], pool)| <= |InPool(a, pool)| + if row.poolId == pool then 1 else 0
    ensures |LowerInPool(a[id := row], pool)|
         <= |LowerInPool(a, pool)| + if row.poolId == pool && row.priority in {Normal, Background} then 1 else 0
    ensures |LowerInPool(a, pool)| <= |InPool(a, pool)|
  {
    SmallerSet(LowerInPool(a, pool), InPool(a, pool));
    SmallerSet(InPool(a[id := row], pool), InPool(a, pool) + if row.poolId == pool then {id} else {});
    SmallerSet(LowerInPool(a[id := row], pool),
               LowerInPool(a, pool) + if row.poolId == pool && row.priority in {Normal, Background} then {id} else {});
  }

  /** The configuration gives the pool this limit and this reserve. */
  predicate Sized(c: Config, pool: int, limit: int, reserve: int) {
    pool in c.pools ==> c.pools[pool].limit == limit && c.pools[pool].reserve == reserve
  }

  lemma GrantWithin(t: Tables, c: Config, r: Request, now: Time, pool: int, limit: int, reserve: int)
    requires Within(Live(t.leases, now), pool, limit, reserve) && 0 <= reserve <= limit && 0 < limit && Sized(c, pool, limit, reserve)
    ensures Within(Live(FileLeases(t, c, r, now), now), pool, limit, reserve)
  {
    var live := Live(t.leases, now);
    var row := NewRow(r, c, now);
    LiveAdd(t.leases, r.leaseId, row, now);
    OneMore(live, r.leaseId, row, pool);
    FewerWithin(live, live - {r.leaseId}, pool, limit, reserve);
    hide Live;
    hide ChargeRates;
    hide Seed;
    hide InPool;
    hide LowerInPool;
    hide OfClient;
  }

  function FileLeases(t: Tables, c: Config, r: Request, now: Time): Leases {
    File(t, c, r, now).0.leases
  }

  lemma AcquireWithin(t: Tables, c: Config, r: Request, now: Time, pool: int, limit: int, reserve: int)
    requires Within(Live(t.leases, now), pool, limit, reserve) && 0 <= reserve <= limit && 0 < limit && Sized(c, pool, limit, reserve)
    ensures Within(Live(AcquireTx(t, c, r, now).0.leases, now), pool, limit, reserve)
  {
    hide Within;
    hide File;
    if r.leaseId !in t.operations {
      GrantWithin(t, c, r, now, pool, limit, reserve);
    } else {
      assert AcquireTx(t, c, r, now).0.leases == t.leases;
    }
  }

  lemma RenewWithin(t: Tables, wants: seq<Lease>, now: Time, pool: int, limit: int, reserve: int)
    requires Within(Live(t.leases, now), pool, limit, reserve)
    ensures Within(Live(RenewTx(t, wants, now).0.leases, now), pool, limit, reserve)
  {
    hide Longest;
    ProlongedLive(t.leases, wants, now);
    FewerWithin(Live(t.leases, now), Live(RenewTx(t, wants, now).0.leases, now), pool, limit, reserve);
  }

  lemma StepWithin(t: Tables, e: Event, pool: int, limit: int, reserve: int)
    requires Within(Live(t.leases, e.now), pool, limit, reserve) && 0 <= reserve <= limit && 0 < limit && Sized(e.c, pool, limit, reserve)
    ensures Within(Live(Step(t, e).0.leases, e.now), pool, limit, reserve)
  {
    hide Within;
    hide AcquireTx;
    hide RenewTx;
    match e.op
    case AcquireOp(r) => AcquireWithin(t, e.c, r, e.now, pool, limit, reserve);
    case RenewOp(wants) => RenewWithin(t, wants, e.now, pool, limit, reserve);
    case CompleteOp(item) =>
      hide ChargeTokens;
      FewerWithin(Live(t.leases, e.now), Live(Step(t, e).0.leases, e.now), pool, limit, reserve);
    case _ => FewerWithin(Live(t.leases, e.now), Live(Step(t, e).0.leases, e.now), pool, limit, reserve);
  }

  /** With a fixed limit and reserve, at every moment the live leases of the pool stay within the limit
  and those of the lower classes leave the reserve free, whatever the replicas do. */
  lemma {:induction false} ReserveHolds(run: seq<Event>, pool: int, limit: int, reserve: int, now: Time)
    requires Clocked(run) && 0 <= reserve <= limit && 0 < limit && (run != [] ==> run[|run| - 1].now <= now)
    requires forall i :: 0 <= i < |run| ==> Sized(run[i].c, pool, limit, reserve)
    ensures Within(Live(After(run).leases, now), pool, limit, reserve)
    decreases |run|
  {
    hide Step;
    if run == [] {
      assert InPool(Live(map[], now), pool) == {} && LowerInPool(Live(map[], now), pool) == {};
    } else {
      var init, e := run[..|run| - 1], run[|run| - 1];
      ReserveHolds(init, pool, limit, reserve, e.now);
      StepWithin(After(init), e, pool, limit, reserve);
      LiveLater(After(run).leases, e.now, now);
      FewerWithin(Live(After(run).leases, e.now), Live(After(run).leases, now), pool, limit, reserve);
      hide Within;
    }
  }

  function HighInPool(live: Leases, pool: int): set<Id> {
    InPool(live, pool) - LowerInPool(live, pool)
  }

  lemma HighAreTheRest(live: Leases, pool: int)
    ensures |InPool(live, pool)| == |LowerInPool(live, pool)| + |HighInPool(live, pool)|
  {
    forall id
      ensures id in InPool(live, pool) <==> id in LowerInPool(live, pool) + HighInPool(live, pool)
    {
    }
    assert InPool(live, pool) == LowerInPool(live, pool) + HighInPool(live, pool);
  }

  /** After any run of any replicas a new request of a High or Critical client is refused for the
  pool's sake only when leases of neither lower class fill the reserve, and never for the reserve's. */
  lemma HighRefusedOnlyWhenReserveUsed(run: seq<Event>, c: Config, r: Request, limit: int, reserve: int, now: Time)
    requires Clocked(run) && 0 <= reserve <= limit && 0 < limit && (run != [] ==> run[|run| - 1].now <= now)
    requires Sized(c, r.poolId, limit, reserve) && forall i :: 0 <= i < |run| ==> Sized(run[i].c, r.poolId, limit, reserve)
    requires r.leaseId !in After(run).operations && r.clientId in c.clients && !Lower(c.clients[r.clientId].priority)
    ensures var d := AcquireTx(After(run), c, r, now).1;
            && (d.Rejected? ==> d.reason != PoolPriorityReserve)
            && (d.Rejected? && d.scope == PoolScope ==> |HighInPool(Live(After(run).leases, now), r.poolId)| >= reserve)
  {
    ReserveHolds(run, r.poolId, limit, reserve, now);
    HighAreTheRest(Live(After(run).leases, now), r.poolId);
    hide After;
    hide Live;
    hide InPool;
    hide LowerInPool;
    hide HighInPool;
    hide OfClient;
    hide Seed;
    hide Sized;
    assert Sized(c, r.poolId, limit, reserve);
    SizedPool(c, r.poolId, limit, reserve);
  }

  lemma SizedPool(c: Config, pool: int, limit: int, reserve: int)
    requires Sized(c, pool, limit, reserve)
    ensures pool in c.pools ==> c.pools[pool].limit == limit && c.pools[pool].reserve == reserve
  {
  }

  /** A renewal brings no expired lease back, and ends none that is live. */
  lemma RenewRevivesNothing(t: Tables, wants: seq<Lease>, now: Time)
    ensures Live(RenewTx(t, wants, now).0.leases, now).Keys == Live(t.leases, now).Keys
  {
    hide Longest;
    ProlongedLive(t.leases, wants, now);
    var kept := RenewTx(t, wants, now).0.leases;
    forall id
      ensures id in Live(kept, now) <==> id in Live(t.leases, now)
    {
    }
  }
}
