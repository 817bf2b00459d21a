/** Capacity over whole runs: the high-priority reserve of a pool and the request rate of a client. */
module AdmissionLimits {
  import opened ExpiryQueue
  import opened Admission
  import opened Counting
  import opened AdmissionRuns

  lemma JudgedAdmission(s: Ledger, r: Request, now: Time)
    requires Judge(s, r, now).decision.Admitted?
    ensures !BadPriority(r) && !Stale(r.startedAt, now) && LimitDecision(s, r).None?
    ensures Judge(s, r, now) == JudgeRates(s, r, now, Observe(s.policies, r.clientId, RequestPolicy(r)))
    ensures Judge(s, r, now).decision.lease == NewLease(r, now)
  {
  }

  // 1. The priority reserve

  /** At most `limit` live leases in the pool, and at most `limit - reserve` below High. */
  ghost predicate PoolBound(s: Ledger, pool: int, limit: int, reserve: int) {
    |PoolLeases(s, pool)| <= limit && |LowerLeases(s, pool)| <= limit - reserve
  }

  ghost predicate NoMore(s: Ledger, t: Ledger, pool: int) {
    PoolLeases(t, pool) <= PoolLeases(s, pool) && LowerLeases(t, pool) <= LowerLeases(s, pool)
  }

  lemma NoMoreKeepsBound(s: Ledger, t: Ledger, pool: int, limit: int, reserve: int)
    requires PoolBound(s, pool, limit, reserve) && NoMore(s, t, pool)
    ensures PoolBound(t, pool, limit, reserve)
  {
    SmallerSet(PoolLeases(t, pool), PoolLeases(s, pool));
    SmallerSet(LowerLeases(t, pool), LowerLeases(s, pool));
  }

  lemma ExpireNoMore(s: Ledger, now: Time, pool: int)
    ensures NoMore(s, Expire(s, now), pool)
  {
  }

  lemma EvictNoMore(s: Ledger, victim: Option<Id>, pool: int)
    ensures NoMore(s, Evict(s, victim), pool)
  {
  }

  lemma {:induction false} RenewNoMore(s: Ledger, wants: seq<Lease>, now: Time, pool: int)
    ensures NoMore(s, RenewAll(s, wants, now).0, pool)
    decreases |wants|
  {
    if wants != [] {
      var init, last := wants[..|wants| - 1], wants[|wants| - 1];
      RenewNoMore(s, init, now, pool);
      RenewOneNoMore(RenewAll(s, init, now).0, last, now, pool);
      hide PoolLeases;
      hide LowerLeases;
    }
  }

  lemma RenewOneNoMore(s: Ledger, want: Lease, now: Time, pool: int)
    ensures NoMore(s, RenewOne(s, want, now).0, pool)
  {
  }

  lemma {:induction false} CompleteNoMore(s: Ledger, items: seq<Item>, now: Time, pool: int)
    ensures NoMore(s, CompleteAll(s, items, now).0, pool)
    decreases |items|
  {
    if items != [] {
      var init, last := items[..|items| - 1], items[|items| - 1];
      CompleteNoMore(s, init, now, pool);
      CompleteOneNoMore(CompleteAll(s, init, now).0, last, now, pool);
      hide PoolLeases;
      hide LowerLeases;
    }
  }

  lemma CompleteOneNoMore(s: Ledger, item: Item, now: Time, pool: int)
    ensures NoMore(s, CompleteOne(s, item, now).0, pool)
  {
    hide Charge;
  }

  lemma RefusalNoMore(s: Ledger, r: Request, now: Time, v: Verdict, pool: int)
    requires v.decision.Rejected? && r.leaseId !in s.leases
    ensures NoMore(s, Record(s, r, now, v), pool)
  {
  }

  lemma OneMore(a: set<Id>, b: set<Id>, id: Id)
    requires a <= b + {id}
    ensures |a| <= |b| + 1
  {
    SmallerSet(a, b + {id});
    if id in b {
      assert b + {id} == b;
    }
  }

  lemma RecordKeepsBound(s: Ledger, r: Request, now: Time, pool: int, limit: int, reserve: int)
    requires 0 <= reserve <= limit && 0 < limit && PoolBound(s, pool, limit, reserve)
    requires r.poolId == pool ==> r.poolLimit == limit && r.poolReserve == reserve
    requires r.leaseId !in s.leases
    ensures PoolBound(Record(s, r, now, Judge(s, r, now)), pool, limit, reserve)
  {
    var v := Judge(s, r, now);
    var t := Record(s, r, now, v);
    if v.decision.Rejected? {
      RefusalNoMore(s, r, now, v, pool);
      NoMoreKeepsBound(s, t, pool, limit, reserve);
    } else {
      JudgedAdmission(s, r, now);
      hide Judge;
      AdmittedGrowth(s, t, r, pool);
      if r.poolId != pool {
        NoMoreKeepsBound(s, t, pool, limit, reserve);
      } else {
        OneMore(PoolLeases(t, pool), PoolLeases(s, pool), r.leaseId);
        SmallerSet(LowerLeases(t, pool), PoolLeases(t, pool));
        if Lower(r.priority) {
          OneMore(LowerLeases(t, pool), LowerLeases(s, pool), r.leaseId);
        } else {
          SmallerSet(LowerLeases(t, pool), LowerLeases(s, pool));
        }
      }
    }
  }

  lemma AdmittedGrowth(s: Ledger, t: Ledger, r: Request, pool: int)
    requires r.leaseId in t.receipts && r.leaseId in t.leases && t.receipts[r.leaseId].request == r
    requires t.receipts == s.receipts[r.leaseId := t.receipts[r.leaseId]]
    requires t.leases == s.leases[r.leaseId := t.leases[r.leaseId]] && t.leases[r.leaseId].poolId == r.poolId
    requires r.leaseId !in s.leases
    ensures PoolLeases(t, pool) <= PoolLeases(s, pool) + {r.leaseId}
    ensures LowerLeases(t, pool) <= LowerLeases(s, pool) + {r.leaseId}
    ensures LowerLeases(t, pool) <= PoolLeases(t, pool)
    ensures r.poolId != pool ==> NoMore(s, t, pool)
    ensures !Lower(r.priority) ==> LowerLeases(t, pool) <= LowerLeases(s, pool)
  {
  }

  /** Every request for the pool carries the same limit and reserve. */
  ghost predicate Uniform(run: seq<Event>, pool: int, limit: int, reserve: int) {
    forall i :: 0 <= i < |run| && run[i].op.AcquireOp? && run[i].op.r.poolId == pool ==>
      run[i].op.r.poolLimit == limit && run[i].op.r.poolReserve == reserve
  }

  /** Receipts given up for capacity are terminal ones. */
  ghost predicate Lawful(s: Ledger, e: Event, capacity: nat) {
    e.op.AcquireOp? && e.op.r.leaseId !in Expire(s, e.now).receipts ==>
      Victim(Expire(s, e.now), capacity, e.op.victim)
  }

  ghost predicate LawfulRun(run: seq<Event>, capacity: nat) {
    forall i :: 0 <= i < |run| ==> Lawful(After(Empty, run[..i], capacity), run[i], capacity)
  }

  lemma {:induction false} RenewKeepsBacked(s: Ledger, wants: seq<Lease>, now: Time)
    requires Backed(s)
    ensures Backed(RenewAll(s, wants, now).0)
    decreases |wants|
  {
    if wants != [] {
      RenewKeepsBacked(s, wants[..|wants| - 1], now);
    }
  }

  lemma {:induction false} CompleteKeepsBacked(s: Ledger, items: seq<Item>, now: Time)
    requires Backed(s)
    ensures Backed(CompleteAll(s, items, now).0)
    decreases |items|
  {
    if items != [] {
      CompleteKeepsBacked(s, items[..|items| - 1], now);
      CompleteOneKeepsBacked(CompleteAll(s, items[..|items| - 1], now).0, items[|items| - 1], now);
    }
  }

  lemma CompleteOneKeepsBacked(s: Ledger, item: Item, now: Time)
    requires Backed(s)
    ensures Backed(CompleteOne(s, item, now).0)
  {
    hide Charge;
  }

  lemma EvictKeepsBacked(s: Ledger, capacity: nat, victim: Option<Id>)
    requires Backed(s) && Victim(s, capacity, victim)
    ensures Backed(Evict(s, victim))
  {
    match victim
    case None =>
    case Some(v) => ForgetKeepsBacked(s, {v});
  }

  lemma RecordKeepsBacked(s: Ledger, r: Request, now: Time)
    requires Backed(s) && r.leaseId !in s.receipts
    ensures Backed(Record(s, r, now, Judge(s, r, now))) && r.leaseId !in s.leases
  {
    if Judge(s, r, now).decision.Admitted? {
      JudgedAdmission(s, r, now);
    }
    hide Judge;
    hide JudgeRates;
    hide LimitDecision;
  }

  lemma AcquireKeepsBacked(s: Ledger, r: Request, now: Time, capacity: nat, victim: Option<Id>)
    requires Backed(s) && (r.leaseId !in Expire(s, now).receipts ==> Victim(Expire(s, now), capacity, victim))
    ensures Backed(Acquire(s, r, now, capacity, victim).0)
    ensures r.leaseId !in Expire(s, now).receipts ==> r.leaseId !in Evict(Expire(s, now), victim).leases
  {
    var live := Expire(s, now);
    ExpireKeepsBacked(s, now);
    hide Expire;
    hide Judge;
    if r.leaseId !in live.receipts {
      EvictKeepsBacked(live, capacity, victim);
      hide Victim;
      RecordKeepsBacked(Evict(live, victim), r, now);
      hide Backed;
    }
  }

  lemma StepKeepsBacked(s: Ledger, e: Event, capacity: nat)
    requires Backed(s) && Lawful(s, e, capacity)
    ensures Backed(Step(s, e, capacity))
  {
    ExpireKeepsBacked(s, e.now);
    hide Expire;
    match e.op
    case AcquireOp(r, victim) =>
      AcquireKeepsBacked(s, r, e.now, capacity, victim);
      hide Acquire;
    case RenewOp(wants) => RenewKeepsBacked(Expire(s, e.now), wants, e.now);
    case CompleteOp(items) => CompleteKeepsBacked(Expire(s, e.now), items, e.now);
    case ObserveOp(_, _) =>
    case QueryOp =>
  }

  lemma StepKeepsBound(s: Ledger, e: Event, capacity: nat, pool: int, limit: int, reserve: int)
    requires 0 <= reserve <= limit && 0 < limit && Backed(s) && Lawful(s, e, capacity)
    requires PoolBound(s, pool, limit, reserve) && Uniform([e], pool, limit, reserve)
    ensures PoolBound(Step(s, e, capacity), pool, limit, reserve)
  {
    var live := Expire(s, e.now);
    ExpireNoMore(s, e.now, pool);
    NoMoreKeepsBound(s, live, pool, limit, reserve);
    match e.op
    case AcquireOp(r, victim) =>
      assert [e][0].op.AcquireOp?;
      AcquireKeepsBacked(s, r, e.now, capacity, victim);
      hide Expire;
      hide PoolBound;
      if r.leaseId !in live.receipts {
        var room := Evict(live, victim);
        EvictNoMore(live, victim, pool);
        NoMoreKeepsBound(live, room, pool, limit, reserve);
        RecordKeepsBound(room, r, e.now, pool, limit, reserve);
      }
    case RenewOp(wants) =>
      RenewNoMore(live, wants, e.now, pool);
      NoMoreKeepsBound(live, RenewAll(live, wants, e.now).0, pool, limit, reserve);
    case CompleteOp(items) =>
      CompleteNoMore(live, items, e.now, pool);
      NoMoreKeepsBound(live, CompleteAll(live, items, e.now).0, pool, limit, reserve);
    case ObserveOp(client, policy) =>
      NoMoreKeepsBound(s, Step(s, e, capacity), pool, limit, reserve);
    case QueryOp =>
  }

  /** In every reachable state the reserve is intact: lower classes hold at most `limit - reserve`
  leases of the pool and everyone together at most `limit`. */
  lemma {:induction false} ReserveHolds(run: seq<Event>, capacity: nat, pool: int, limit: int, reserve: int)
    requires 0 <= reserve <= limit && 0 < limit
    requires LawfulRun(run, capacity) && Uniform(run, pool, limit, reserve)
    ensures Backed(After(Empty, run, capacity)) && PoolBound(After(Empty, run, capacity), pool, limit, reserve)
    decreases |run|
  {
    hide Step;
    if run == [] {
      assert PoolLeases(Empty, pool) == {} && LowerLeases(Empty, pool) == {};
    } else {
      var init, last := run[..|run| - 1], run[|run| - 1];
      assert forall i :: 0 <= i < |init| ==> init[..i] == run[..i];
      ReserveHolds(init, capacity, pool, limit, reserve);
      assert run[..|run| - 1] == init;
      StepKeepsBacked(After(Empty, init, capacity), last, capacity);
      StepKeepsBound(After(Empty, init, capacity), last, capacity, pool, limit, reserve);
    }
  }

  function HighLeases(s: Ledger, pool: int): set<Id> {
    set id | id in s.leases && s.leases[id].poolId == pool && id in s.receipts && !Lower(s.receipts[id].request.priority)
  }

  lemma HighAndLower(s: Ledger, pool: int)
    requires Backed(s)
    ensures |PoolLeases(s, pool)| == |HighLeases(s, pool)| + |LowerLeases(s, pool)|
  {
    var high, lower := HighLeases(s, pool), LowerLeases(s, pool);
    forall id
      ensures id in PoolLeases(s, pool) <==> id in high + lower
    {
    }
    assert PoolLeases(s, pool) == high + lower;
    assert high !! lower;
  }

  lemma EvictKeepsLeases(s: Ledger, capacity: nat, victim: Option<Id>, pool: int)
    requires Backed(s) && Victim(s, capacity, victim)
    ensures PoolLeases(Evict(s, victim), pool) == PoolLeases(s, pool)
  {
  }

  lemma JudgedRefusal(s: Ledger, r: Request, now: Time)
    requires !Lower(r.priority)
    ensures Judge(s, r, now).decision != Refuse(PoolPriorityReserve)
    ensures Judge(s, r, now).decision.Rejected? && Judge(s, r, now).decision.scope == PoolScope ==>
              |PoolLeases(s, r.poolId)| >= r.poolLimit
  {
  }

  lemma HighRefusedWithin(s: Ledger, r: Request, now: Time, capacity: nat, victim: Option<Id>)
    requires Backed(s) && PoolBound(s, r.poolId, r.poolLimit, r.poolReserve) && !Lower(r.priority)
    requires r.leaseId !in Expire(s, now).receipts && Victim(Expire(s, now), capacity, victim)
    ensures var d := Acquire(s, r, now, capacity, victim).1;
            && d != Refuse(PoolPriorityReserve)
            && (d.Rejected? && d.scope == PoolScope ==> |HighLeases(Expire(s, now), r.poolId)| >= r.poolReserve)
  {
    var live := Expire(s, now);
    ExpireNoMore(s, now, r.poolId);
    ExpireKeepsBacked(s, now);
    NoMoreKeepsBound(s, live, r.poolId, r.poolLimit, r.poolReserve);
    hide Expire;
    var room := Evict(live, victim);
    EvictKeepsLeases(live, capacity, victim, r.poolId);
    HighAndLower(live, r.poolId);
    JudgedRefusal(room, r, now);
    hide Evict;
    hide Judge;
    hide Backed;
    hide Victim;
    hide PoolLeases;
    hide LowerLeases;
    hide HighLeases;
  }

  lemma NoPoolToJudge(s: Ledger, r: Request, now: Time)
    requires !(0 <= r.poolReserve <= r.poolLimit && 0 < r.poolLimit) && !Lower(r.priority)
    ensures var d := Judge(s, r, now).decision;
            d != Refuse(PoolPriorityReserve) && (d.Rejected? ==> d.scope != PoolScope)
  {
    hide PoolLeases;
    hide LowerLeases;
    hide ClientLeases;
    hide Normalize;
  }

  lemma NoPoolToRefuse(s: Ledger, r: Request, now: Time, capacity: nat, victim: Option<Id>)
    requires !(0 <= r.poolReserve <= r.poolLimit && 0 < r.poolLimit) && r.leaseId !in Expire(s, now).receipts && !Lower(r.priority)
    ensures var d := Acquire(s, r, now, capacity, victim).1;
            d != Refuse(PoolPriorityReserve) && (d.Rejected? ==> d.scope != PoolScope)
  {
    hide Expire;
    hide Judge;
    NoPoolToJudge(Evict(Expire(s, now), victim), r, now);
  }

  /** After any run a High or Critical request is refused for the pool's sake only when at least
  `reserve` of them hold live leases there, and never on account of the reserve itself. */
  lemma HighRefusedOnlyWhenReserveUsed(run: seq<Event>, capacity: nat, r: Request, now: Time, victim: Option<Id>)
    requires LawfulRun(run, capacity) && Uniform(run, r.poolId, r.poolLimit, r.poolReserve) && !Lower(r.priority)
    requires Lawful(After(Empty, run, capacity), Event(AcquireOp(r, victim), now), capacity)
    requires r.leaseId !in Expire(After(Empty, run, capacity), now).receipts
    ensures var s := After(Empty, run, capacity);
            var d := Acquire(s, r, now, capacity, victim).1;
            && d != Refuse(PoolPriorityReserve)
            && (d.Rejected? && d.scope == PoolScope ==> |HighLeases(Expire(s, now), r.poolId)| >= r.poolReserve)
  {
    var s := After(Empty, run, capacity);
    if 0 <= r.poolReserve <= r.poolLimit && 0 < r.poolLimit {
      ReserveHolds(run, capacity, r.poolId, r.poolLimit, r.poolReserve);
      hide After;
      HighRefusedWithin(s, r, now, capacity, victim);
    } else {
      hide After;
      NoPoolToRefuse(s, r, now, capacity, victim);
    }
    hide Acquire;
  }

  /** Capacity that expired is gone for its holder: renewing keeps only leases that were still live. */
  lemma {:induction false} RenewRevivesNothing(s: Ledger, wants: seq<Lease>, now: Time, id: Id)
    requires id in RenewAll(Expire(s, now), wants, now).0.leases
    ensures id in s.leases && s.leases[id].expiresAt > now
    decreases |wants|
  {
    if wants != [] {
      var init, last := wants[..|wants| - 1], wants[|wants| - 1];
      RenewRevivesNothing(s, init, now, id);
    }
  }

  // 2. The request rate

  lemma RefillAdds(a: int, b: int, capacity: int)
    ensures Refill(a + b, capacity) == Refill(a, capacity) + Refill(b, capacity)
  {
  }

  lemma RefillGrows(a: int, capacity: int)
    requires a >= 0 && capacity >= 0
    ensures Refill(a, capacity) >= 0.0
  {
  }

  /** What the bucket holds at `now`, refilled and capped. */
  function Level(rates: Rates, client: int, p: RatePolicy, now: Time): real {
    Normalized(rates, client, RPM, p.revision, p.rpm, now).balance
  }

  /** A bucket of the current policy is neither overdrawn nor over-full, nor dated in the future. */
  predicate Sane(rates: Rates, client: int, p: RatePolicy, now: Time) {
    var key := (client, RPM);
    key in rates && rates[key].revision == p.revision && rates[key].capacity == p.rpm ==>
      0.0 <= rates[key].balance <= p.rpm as real && rates[key].at <= now
  }

  lemma LevelBounds(rates: Rates, client: int, p: RatePolicy, now: Time)
    requires p.rpm > 0 && Sane(rates, client, p, now)
    ensures 0.0 <= Level(rates, client, p, now) <= p.rpm as real
  {
    var key := (client, RPM);
    if key in rates && rates[key].revision == p.revision && rates[key].capacity == p.rpm {
      RefillGrows(now - rates[key].at, p.rpm);
    }
  }

  lemma LevelLater(rates: Rates, client: int, p: RatePolicy, before: Time, now: Time)
    requires p.rpm > 0 && Sane(rates, client, p, before) && before <= now
    ensures Sane(rates, client, p, now)
    ensures Level(rates, client, p, now) <= Level(rates, client, p, before) + Refill(now - before, p.rpm)
  {
    var key := (client, RPM);
    RefillGrows(now - before, p.rpm);
    if key in rates && rates[key].revision == p.revision && rates[key].capacity == p.rpm {
      var at := rates[key].at;
      RefillAdds(before - at, now - before, p.rpm);
      assert (before - at) + (now - before) == now - at;
      RefillGrows(before - at, p.rpm);
      hide Refill;
    }
  }

  /** Only one key of the rate table matters to the level. */
  lemma LevelOfKey(a: Rates, b: Rates, client: int, p: RatePolicy, now: Time)
    requires (client, RPM) in a <==> (client, RPM) in b
    requires (client, RPM) in a ==> a[(client, RPM)] == b[(client, RPM)]
    ensures Level(a, client, p, now) == Level(b, client, p, now) && (Sane(a, client, p, now) <==> Sane(b, client, p, now))
  {
  }

  lemma NormalizeKeepsLevel(rates: Rates, client: int, p: RatePolicy, now: Time)
    requires p.rpm > 0 && Sane(rates, client, p, now)
    ensures var n := Normalized(rates, client, RPM, p.revision, p.rpm, now);
            && n.revision == p.revision && n.capacity == p.rpm && n.at == now && 0.0 <= n.balance <= p.rpm as real
            && n.balance == Level(rates, client, p, now)
  {
    LevelBounds(rates, client, p, now);
  }

  /** A bucket dated now holds what it says. */
  lemma LevelNow(rates: Rates, client: int, p: RatePolicy, now: Time, balance: real)
    requires p.rpm > 0 && 0.0 <= balance <= p.rpm as real
    requires (client, RPM) in rates && rates[(client, RPM)] == RateState(p.revision, p.rpm, balance, now)
    ensures Level(rates, client, p, now) == balance && Sane(rates, client, p, now)
  {
  }

  /** A judgement takes exactly one request out of the client's bucket when it admits, else none. */
  lemma JudgeRatesDebits(s: Ledger, r: Request, now: Time, policies: Policies, client: int, p: RatePolicy)
    requires p.rpm > 0 && Sane(s.rates, client, p, now)
    requires r.clientId in policies && (r.clientId == client ==> policies[client] == p)
    ensures var v := JudgeRates(s, r, now, policies);
            && Sane(v.rates, client, p, now)
            && Level(v.rates, client, p, now) ==
                 Level(s.rates, client, p, now) - if r.clientId == client && v.decision.Admitted? then 1.0 else 0.0
  {
    var q := policies[r.clientId];
    var v := JudgeRates(s, r, now, policies);
    var tokens := Normalize(s.rates, r.clientId, TPM, q.revision, if q.tpm > 0 then q.tpm else 0, now);
    LevelOfKey(s.rates, tokens, client, p, now);
    if r.clientId != client {
      LevelOfKey(s.rates, v.rates, client, p, now);
    } else if q.tpm > 0 && tokens[(client, TPM)].balance < 1.0 {
      assert v.rates == tokens;
    } else {
      NormalizeKeepsLevel(tokens, client, p, now);
      var n := Normalized(tokens, client, RPM, p.revision, p.rpm, now);
      hide Normalized;
      hide Level;
      hide Sane;
      LevelNow(v.rates, client, p, now, if v.decision.Admitted? then n.balance - 1.0 else n.balance);
    }
  }

  /** The operations in `run` leave the client's policy at `p`. */
  ghost predicate PolicyStays(run: seq<Event>, client: int, p: RatePolicy) {
    forall i :: 0 <= i < |run| ==>
      && (run[i].op.AcquireOp? && run[i].op.r.clientId == client ==> run[i].op.r.policyRevision <= p.revision)
      && (run[i].op.ObserveOp? && run[i].op.client == client ==> run[i].op.policy.revision <= p.revision)
  }

  predicate AdmitsClient(s: Ledger, e: Event, capacity: nat, client: int) {
    e.op.AcquireOp? && e.op.r.clientId == client && Fresh(s, e, capacity, e.op.r)
  }

  function Admissions(s: Ledger, run: seq<Event>, capacity: nat, client: int): nat {
    if run == [] then 0
    else
      var before := run[..|run| - 1];
      Admissions(s, before, capacity, client)
      + if AdmitsClient(After(s, before, capacity), run[|run| - 1], capacity, client) then 1 else 0
  }

  lemma {:induction false} CompleteKeepsRPM(s: Ledger, items: seq<Item>, now: Time, client: int)
    ensures var t := CompleteAll(s, items, now).0;
            && t.policies == s.policies && ((client, RPM) in t.rates <==> (client, RPM) in s.rates)
            && ((client, RPM) in t.rates ==> t.rates[(client, RPM)] == s.rates[(client, RPM)])
    decreases |items|
  {
    if items != [] {
      CompleteKeepsRPM(s, items[..|items| - 1], now, client);
    }
  }

  lemma JudgeDebits(s: Ledger, r: Request, now: Time, client: int, p: RatePolicy)
    requires p.rpm > 0 && Sane(s.rates, client, p, now) && client in s.policies && s.policies[client] == p
    requires r.clientId == client ==> r.policyRevision <= p.revision
    ensures var v := Judge(s, r, now);
            && Sane(v.rates, client, p, now) && client in v.policies && v.policies[client] == p
            && Level(v.rates, client, p, now) ==
                 Level(s.rates, client, p, now) - if r.clientId == client && v.decision.Admitted? then 1.0 else 0.0
  {
    var policies := Observe(s.policies, r.clientId, RequestPolicy(r));
    JudgeRatesDebits(s, r, now, policies, client, p);
    hide JudgeRates;
    hide Level;
    hide Sane;
  }

  lemma AcquireDebits(s: Ledger, e: Event, capacity: nat, client: int, p: RatePolicy)
    requires p.rpm > 0 && Sane(s.rates, client, p, e.now) && client in s.policies && s.policies[client] == p
    requires e.op.AcquireOp? && PolicyStays([e], client, p)
    ensures var t := Step(s, e, capacity);
            && Sane(t.rates, client, p, e.now) && client in t.policies && t.policies[client] == p
            && Level(t.rates, client, p, e.now) ==
                 Level(s.rates, client, p, e.now) - if AdmitsClient(s, e, capacity, client) then 1.0 else 0.0
  {
    var live := Expire(s, e.now);
    assert live.rates == s.rates && live.policies == s.policies;
    hide Expire;
    hide Level;
    hide Sane;
    assert [e][0] == e;
    JudgeDebits(Evict(live, e.op.victim), e.op.r, e.now, client, p);
    hide Judge;
  }

  lemma StepDebits(s: Ledger, e: Event, capacity: nat, client: int, p: RatePolicy)
    requires p.rpm > 0 && Sane(s.rates, client, p, e.now) && client in s.policies && s.policies[client] == p
    requires PolicyStays([e], client, p)
    ensures var t := Step(s, e, capacity);
            && Sane(t.rates, client, p, e.now) && client in t.policies && t.policies[client] == p
            && Level(t.rates, client, p, e.now) ==
                 Level(s.rates, client, p, e.now) - if AdmitsClient(s, e, capacity, client) then 1.0 else 0.0
  {
    var live := Expire(s, e.now);
    assert live.rates == s.rates && live.policies == s.policies;
    hide Expire;
    hide Level;
    hide Sane;
    assert [e][0] == e;
    match e.op
    case AcquireOp(r, victim) => AcquireDebits(s, e, capacity, client, p);
    case RenewOp(wants) => RenewKeepsReceipts(live, wants, e.now);
    case CompleteOp(items) =>
      CompleteKeepsRPM(live, items, e.now, client);
      LevelOfKey(live.rates, CompleteAll(live, items, e.now).0.rates, client, p, e.now);
    case ObserveOp(_, _) =>
    case QueryOp =>
  }

  /** Token bucket: from any moment on, under one policy, a client is admitted at most as often as
  its capacity plus what flowed back since, and what is left in the bucket is the difference. */
  lemma {:induction false} RateBound(s: Ledger, run: seq<Event>, capacity: nat, client: int, p: RatePolicy, start: Time)
    requires p.rpm > 0 && client in s.policies && s.policies[client] == p && Sane(s.rates, client, p, start)
    requires Clocked(run) && (run != [] ==> start <= run[0].now) && PolicyStays(run, client, p)
    ensures var end := if run == [] then start else run[|run| - 1].now;
            var t := After(s, run, capacity);
            && client in t.policies && t.policies[client] == p && Sane(t.rates, client, p, end)
            && Admissions(s, run, capacity, client) as real + Level(t.rates, client, p, end)
                 <= Level(s.rates, client, p, start) + Refill(end - start, p.rpm)
            && Admissions(s, run, capacity, client) as real <= p.rpm as real + Refill(end - start, p.rpm)
    decreases |run|
  {
    hide Step;
    hide AdmitsClient;
    LevelBounds(s.rates, client, p, start);
    if run == [] {
      assert Refill(0, p.rpm) == 0.0;
    } else {
      var init, last := run[..|run| - 1], run[|run| - 1];
      RateBound(s, init, capacity, client, p, start);
      var mid := if init == [] then start else init[|init| - 1].now;
      var t := After(s, init, capacity);
      LevelLater(t.rates, client, p, mid, last.now);
      RefillAdds(mid - start, last.now - mid, p.rpm);
      assert (mid - start) + (last.now - mid) == last.now - start;
      StepDebits(t, last, capacity, client, p);
      LevelBounds(Step(t, last, capacity).rates, client, p, last.now);
      hide Level;
      hide Sane;
      hide Refill;
    }
  }
}
