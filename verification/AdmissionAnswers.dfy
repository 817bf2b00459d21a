/** What the admission coordinator answers, and why: a request is admitted exactly when nothing stands
against it, a refusal names what does, and renewals and completions tell the truth about the lease. */
module AdmissionAnswers {
  import opened ExpiryQueue
  import opened Admission
  import opened Counting
  import opened AdmissionRuns
  import opened AdmissionLimits
  import opened AdmissionOrphans
  import opened AdmissionLeases

  // 1. The limit of a client

  /** No lease is new or changes hands. */
  ghost predicate SameHands(s: Ledger, t: Ledger) {
    forall id :: id in t.leases ==> id in s.leases && t.leases[id].clientId == s.leases[id].clientId
  }

  lemma SameHandsHoldNoMore(s: Ledger, t: Ledger, client: int)
    requires SameHands(s, t)
    ensures |ClientLeases(t, client)| <= |ClientLeases(s, client)|
  {
    forall id | id in ClientLeases(t, client)
      ensures id in ClientLeases(s, client)
    {
    }
    SmallerSet(ClientLeases(t, client), ClientLeases(s, client));
  }

  lemma {:induction false} RenewSameHands(s: Ledger, wants: seq<Lease>, now: Time)
    ensures SameHands(s, RenewAll(s, wants, now).0)
    decreases |wants|
  {
    if wants == [] {
    } else {
      RenewSameHands(s, wants[..|wants| - 1], now);
    }
  }

  lemma {:induction false} CompleteSameHands(s: Ledger, items: seq<Item>, now: Time)
    ensures SameHands(s, CompleteAll(s, items, now).0)
    decreases |items|
  {
    if items == [] {
    } else {
      CompleteSameHands(s, items[..|items| - 1], now);
      hide Charge;
    }
  }

  lemma ExpireSameHands(s: Ledger, now: Time)
    ensures SameHands(s, Expire(s, now))
  {
  }

  /** Every request of the client asks for at most `limit` leases at a time. */
  ghost predicate Modest(e: Event, client: int, limit: int) {
    e.op.AcquireOp? && e.op.r.clientId == client ==> e.op.r.effectiveLimit <= limit
  }

  lemma JudgedWithin(s: Ledger, r: Request, now: Time)
    requires Judge(s, r, now).decision.Admitted?
    ensures |ClientLeases(s, r.clientId)| < r.effectiveLimit
  {
    JudgedAdmission(s, r, now);
    hide Judge;
  }

  lemma OneMoreLease(s: Ledger, t: Ledger, id: Id, l: Lease, client: int)
    requires t.leases == s.leases[id := l]
    ensures |ClientLeases(t, client)| <= |ClientLeases(s, client)| + if l.clientId == client then 1 else 0
  {
    if l.clientId == client {
      OneMore(ClientLeases(t, client), ClientLeases(s, client), id);
    } else {
      SmallerSet(ClientLeases(t, client), ClientLeases(s, client));
    }
  }

  lemma SameLeases(s: Ledger, t: Ledger, client: int)
    requires s.leases == t.leases
    ensures ClientLeases(s, client) == ClientLeases(t, client)
  {
  }

  lemma AcquireWithin(s: Ledger, e: Event, capacity: nat, client: int, limit: int)
    requires e.op.AcquireOp? && Modest(e, client, limit) && |ClientLeases(Expire(s, e.now), client)| <= limit
    ensures |ClientLeases(Step(s, e, capacity), client)| <= limit
  {
    var live, r := Expire(s, e.now), e.op.r;
    AcquiredLeases(s, e, capacity);
    var t := Step(s, e, capacity);
    if Fresh(s, e, capacity, r) {
      FreshWithin(s, e, capacity);
      OneMoreLease(live, t, r.leaseId, LeaseFor(r, e.now), client);
    } else {
      SameLeases(live, t, client);
    }
    hide Expire;
    hide ClientLeases;
    hide Step;
  }

  lemma FreshWithin(s: Ledger, e: Event, capacity: nat)
    requires e.op.AcquireOp? && Fresh(s, e, capacity, e.op.r)
    ensures |ClientLeases(Expire(s, e.now), e.op.r.clientId)| < e.op.r.effectiveLimit
  {
    var live := Expire(s, e.now);
    hide Expire;
    SameLeases(live, Evict(live, e.op.victim), e.op.r.clientId);
    JudgedWithin(Evict(live, e.op.victim), e.op.r, e.now);
    hide Judge;
    hide ClientLeases;
  }

  lemma StepWithin(s: Ledger, e: Event, capacity: nat, client: int, limit: int)
    requires Modest(e, client, limit) && |ClientLeases(s, client)| <= limit
    ensures |ClientLeases(Step(s, e, capacity), client)| <= limit
  {
    var live := Expire(s, e.now);
    ExpireSameHands(s, e.now);
    SameHandsHoldNoMore(s, live, client);
    hide Expire;
    hide SameHands;
    match e.op
    case AcquireOp(r, victim) => AcquireWithin(s, e, capacity, client, limit);
    case RenewOp(wants) =>
      RenewSameHands(live, wants, e.now);
      SameHandsHoldNoMore(live, RenewAll(live, wants, e.now).0, client);
    case CompleteOp(items) =>
      CompleteSameHands(live, items, e.now);
      SameHandsHoldNoMore(live, CompleteAll(live, items, e.now).0, client);
    case ObserveOp(_, _) => SameLeases(s, Step(s, e, capacity), client);
    case QueryOp =>
  }

  /** In every reachable state a client holds at most as many leases as the largest limit its requests
  were made with. */
  lemma {:induction false} ClientLimitHolds(run: seq<Event>, capacity: nat, client: int, limit: nat)
    requires forall i :: 0 <= i < |run| ==> Modest(run[i], client, limit)
    ensures |ClientLeases(After(Empty, run, capacity), client)| <= limit
    decreases |run|
  {
    if run == [] {
      assert ClientLeases(Empty, client) == {};
    } else {
      hide Step;
      hide ClientLeases;
      ClientLimitHolds(run[..|run| - 1], capacity, client, limit);
      StepWithin(After(Empty, run[..|run| - 1], capacity), run[|run| - 1], capacity, client, limit);
    }
  }

  // 2. Why a request is refused

  /** The operation began neither too far ahead of the clock nor a retention ago. */
  predicate InTime(r: Request, now: Time) {
    now - RETENTION < r.startedAt <= now + CLOCK_SKEW
  }

  /** A class is known or not given, and a reserve is part of a limit and asked for with a known class. */
  predicate WellFormed(r: Request) {
    && r.priority != Unknown
    && 0 <= r.poolReserve
    && (r.poolReserve > 0 ==> r.poolReserve <= r.poolLimit && r.priority != Unset)
  }

  predicate PoolHasRoom(s: Ledger, r: Request) {
    r.poolLimit > 0 ==> |PoolLeases(s, r.poolId)| < r.poolLimit
  }

  predicate ReserveHasRoom(s: Ledger, r: Request) {
    r.poolReserve > 0 && r.priority !in {High, Critical} ==> |LowerLeases(s, r.poolId)| < r.poolLimit - r.poolReserve
  }

  predicate ClientHasRoom(s: Ledger, r: Request) {
    0 < r.effectiveLimit <= r.configuredLimit && |ClientLeases(s, r.clientId)| < r.effectiveLimit
  }

  /** The newest policy known of the client, that of the request included. */
  function PolicyFor(s: Ledger, r: Request): RatePolicy {
    if r.clientId in s.policies && s.policies[r.clientId].revision >= r.policyRevision then s.policies[r.clientId]
    else RatePolicy(r.policyRevision, r.rpm, r.tpm)
  }

  /** What a bucket of this size holds now; a policy that sets no limit has none. */
  function Holding(s: Ledger, client: int, kind: RateKind, p: RatePolicy, now: Time): real {
    Normalized(s.rates, client, kind, p.revision, if kind == RPM then p.rpm else p.tpm, now).balance
  }

  predicate TokensLeft(s: Ledger, r: Request, now: Time) {
    PolicyFor(s, r).tpm > 0 ==> Holding(s, r.clientId, TPM, PolicyFor(s, r), now) >= 1.0
  }

  predicate RequestsLeft(s: Ledger, r: Request, now: Time) {
    PolicyFor(s, r).rpm > 0 ==> Holding(s, r.clientId, RPM, PolicyFor(s, r), now) >= 1.0
  }

  /** Each answer stands for its own reason, and everything asked before that is in order. */
  ghost predicate Justified(s: Ledger, r: Request, now: Time, d: Decision) {
    && (d == Refuse(StaleOperation) <==> !InTime(r, now))
    && (d == Refuse(StaleConfiguration) <==> InTime(r, now) && !WellFormed(r))
    && var sound := InTime(r, now) && WellFormed(r);
    && var ranged := sound && 0 < r.effectiveLimit <= r.configuredLimit;
    && (d == Rejected(ConcurrencyExhausted, None, PoolScope) <==> ranged && !PoolHasRoom(s, r))
    && var pooled := ranged && PoolHasRoom(s, r);
    && (d == Refuse(PoolPriorityReserve) <==> pooled && !ReserveHasRoom(s, r))
    && var reserved := pooled && ReserveHasRoom(s, r);
    && (d == Rejected(ConcurrencyExhausted, None, ClientScope) <==> (sound && !ranged) || (reserved && !ClientHasRoom(s, r)))
    && var roomy := reserved && ClientHasRoom(s, r);
    && ((d.Rejected? && d.reason == TPMExhausted) <==> roomy && !TokensLeft(s, r, now))
    && ((d.Rejected? && d.reason == RPMExhausted) <==> roomy && TokensLeft(s, r, now) && !RequestsLeft(s, r, now))
    && (d.Admitted? <==> roomy && TokensLeft(s, r, now) && RequestsLeft(s, r, now))
    && (d.Admitted? ==> d.lease == LeaseFor(r, now))
  }

  lemma LimitsJustified(s: Ledger, r: Request)
    requires WellFormed(r)
    ensures var ranged := 0 < r.effectiveLimit <= r.configuredLimit;
            var d := LimitDecision(s, r);
            && (d == Some(Rejected(ConcurrencyExhausted, None, PoolScope)) <==> ranged && !PoolHasRoom(s, r))
            && (d == Some(Refuse(PoolPriorityReserve)) <==> ranged && PoolHasRoom(s, r) && !ReserveHasRoom(s, r))
            && (d == Some(Rejected(ConcurrencyExhausted, None, ClientScope)) <==>
                  !ranged || (PoolHasRoom(s, r) && ReserveHasRoom(s, r) && !ClientHasRoom(s, r)))
            && (d == None <==> PoolHasRoom(s, r) && ReserveHasRoom(s, r) && ClientHasRoom(s, r))
  {
    hide PoolLeases;
    hide LowerLeases;
    hide ClientLeases;
  }

  lemma WellFormedIsNotBad(r: Request)
    ensures WellFormed(r) <==> !BadPriority(r)
  {
  }

  lemma PolicyForIsObserved(s: Ledger, r: Request)
    ensures Observe(s.policies, r.clientId, RequestPolicy(r))[r.clientId] == PolicyFor(s, r)
  {
  }

  lemma RatesJustified(s: Ledger, r: Request, now: Time, policies: Policies)
    requires r.clientId in policies && policies[r.clientId] == PolicyFor(s, r)
    ensures var d := JudgeRates(s, r, now, policies).decision;
            && ((d.Rejected? && d.reason == TPMExhausted) <==> !TokensLeft(s, r, now))
            && ((d.Rejected? && d.reason == RPMExhausted) <==> TokensLeft(s, r, now) && !RequestsLeft(s, r, now))
            && (d.Admitted? <==> TokensLeft(s, r, now) && RequestsLeft(s, r, now))
            && (d.Admitted? ==> d.lease == LeaseFor(r, now))
            && (d.Rejected? ==> d.reason == TPMExhausted || d.reason == RPMExhausted)
  {
    hide PolicyFor;
    var p := policies[r.clientId];
    var tokens := Normalize(s.rates, r.clientId, TPM, p.revision, if p.tpm > 0 then p.tpm else 0, now);
    assert Normalized(tokens, r.clientId, RPM, p.revision, p.rpm, now) == Normalized(s.rates, r.clientId, RPM, p.revision, p.rpm, now);
    hide Normalized;
    hide RetryAt;
  }

  lemma JudgeJustified(s: Ledger, r: Request, now: Time)
    ensures Justified(s, r, now, Judge(s, r, now).decision)
  {
    WellFormedIsNotBad(r);
    hide BadPriority;
    assert InTime(r, now) <==> !Stale(r.startedAt, now);
    hide InTime;
    hide Stale;
    if WellFormed(r) {
      LimitsJustified(s, r);
      PolicyForIsObserved(s, r);
      RatesJustified(s, r, now, Observe(s.policies, r.clientId, RequestPolicy(r)));
    }
    hide WellFormed;
    hide PoolHasRoom;
    hide ReserveHasRoom;
    hide ClientHasRoom;
    hide TokensLeft;
    hide RequestsLeft;
    hide LimitDecision;
    hide JudgeRates;
    hide Observe;
  }

  // A record made for room is terminal, so it counts for nothing

  lemma LowerSame(s: Ledger, capacity: nat, victim: Option<Id>, pool: int)
    requires Backed(s) && Victim(s, capacity, victim)
    ensures LowerLeases(Evict(s, victim), pool) == LowerLeases(s, pool)
  {
    var room := Evict(s, victim);
    forall id
      ensures id in LowerLeases(room, pool) <==> id in LowerLeases(s, pool)
    {
    }
  }

  lemma JustifiedSame(s: Ledger, capacity: nat, victim: Option<Id>, r: Request, now: Time, d: Decision)
    requires Backed(s) && Victim(s, capacity, victim) && Justified(Evict(s, victim), r, now, d)
    ensures Justified(s, r, now, d)
  {
    var room := Evict(s, victim);
    LowerSame(s, capacity, victim, r.poolId);
    EvictKeepsLeases(s, capacity, victim, r.poolId);
    SameLeases(s, room, r.clientId);
    assert room.rates == s.rates && room.policies == s.policies;
    hide Evict;
    hide Victim;
    hide Backed;
    hide LowerLeases;
    hide PoolLeases;
    hide ClientLeases;
    hide Normalized;
    assert PoolHasRoom(room, r) == PoolHasRoom(s, r) && ReserveHasRoom(room, r) == ReserveHasRoom(s, r);
    assert ClientHasRoom(room, r) == ClientHasRoom(s, r);
    assert TokensLeft(room, r, now) == TokensLeft(s, r, now) && RequestsLeft(room, r, now) == RequestsLeft(s, r, now);
    hide PoolHasRoom;
    hide ReserveHasRoom;
    hide ClientHasRoom;
    hide TokensLeft;
    hide RequestsLeft;
    hide InTime;
    hide WellFormed;
  }

  // 3. Requests made again

  /** Only an admitted operation was completed or expired, and its end is set when it was, or at once
  when it was refused. */
  predicate Ordered(r: Receipt) {
    && (r.completion.Some? || r.expired ==> r.decision.Admitted?)
    && (r.retainUntil.Some? <==> r.decision.Rejected? || r.completion.Some? || r.expired)
  }

  ghost predicate Booked(s: Ledger) {
    forall id :: id in s.receipts ==> Ordered(s.receipts[id])
  }

  lemma {:induction false} CompleteKeepsBooked(s: Ledger, items: seq<Item>, now: Time)
    requires Booked(s)
    ensures Booked(CompleteAll(s, items, now).0)
    decreases |items|
  {
    if items == [] {
    } else {
      CompleteKeepsBooked(s, items[..|items| - 1], now);
      hide Charge;
    }
  }

  lemma ExpireKeepsBooked(s: Ledger, now: Time)
    requires Booked(s) && Backed(s)
    ensures Booked(Expire(s, now))
  {
  }

  lemma AcquireKeepsBooked(s: Ledger, r: Request, now: Time, capacity: nat, victim: Option<Id>)
    requires Booked(Expire(s, now))
    ensures Booked(Acquire(s, r, now, capacity, victim).0)
  {
    hide Expire;
    hide Judge;
    hide Replay;
  }

  lemma StepKeepsBooked(s: Ledger, e: Event, capacity: nat)
    requires Booked(s) && Backed(s)
    ensures Booked(Step(s, e, capacity))
  {
    ExpireKeepsBooked(s, e.now);
    hide Expire;
    match e.op
    case AcquireOp(r, victim) =>
      AcquireKeepsBooked(s, r, e.now, capacity, victim);
      hide Acquire;
    case RenewOp(wants) => RenewKeepsReceipts(Expire(s, e.now), wants, e.now);
    case CompleteOp(items) => CompleteKeepsBooked(Expire(s, e.now), items, e.now);
    case ObserveOp(_, _) =>
    case QueryOp =>
  }

  lemma {:induction false} RunKeepsBooked(run: seq<Event>, capacity: nat)
    requires LawfulRun(run, capacity)
    ensures Booked(After(Empty, run, capacity))
    decreases |run|
  {
    hide Step;
    hide LawfulRun;
    if run == [] {
    } else {
      hide Booked;
      hide Backed;
      var init := run[..|run| - 1];
      var s := After(Empty, init, capacity);
      assert After(Empty, run, capacity) == Step(s, run[|run| - 1], capacity);
      hide After;
      PrefixLawful(run, capacity, |init|);
      RunKeepsBooked(init, capacity);
      RunKeepsBacked(init, capacity);
      StepKeepsBooked(s, run[|run| - 1], capacity);
    }
  }

  /** What is answered to a request on record: a lease that runs is given again as it is, a refusal is
  repeated, and an admission whose lease is over is lost. */
  ghost predicate Repeated(live: Ledger, r: Request, d: Decision)
    requires r.leaseId in live.receipts
  {
    var kept := live.receipts[r.leaseId];
    if kept.request != r then d == Refuse(IdempotencyConflict)
    else if r.leaseId in live.leases then d == Admitted(live.leases[r.leaseId])
    else if kept.decision.Admitted? then d == Refuse(LeaseLost)
    else d == kept.decision
  }

  lemma ReplayRepeats(live: Ledger, r: Request, now: Time)
    requires Backed(live) && Booked(live) && DueLeases(live, now) == {} && r.leaseId in live.receipts
    ensures Repeated(live, r, Replay(live, r, now))
  {
    assert r.leaseId in live.leases ==> r.leaseId !in DueLeases(live, now);
  }

  /** After any run: a request on record is answered from the record, a new one exactly as the live
  leases and the rates demand, unless every record kept is still open and there is no room for another. */
  lemma AnsweredExactly(run: seq<Event>, capacity: nat, r: Request, now: Time, victim: Option<Id>)
    requires LawfulRun(run, capacity) && Lawful(After(Empty, run, capacity), Event(AcquireOp(r, victim), now), capacity)
    ensures var s := After(Empty, run, capacity);
            var live, d := Expire(s, now), Acquire(s, r, now, capacity, victim).1;
            if r.leaseId in live.receipts then Repeated(live, r, d)
            else if |live.receipts| >= capacity && (forall id :: id in live.receipts ==> live.receipts[id].retainUntil.None?)
            then d == Refuse(CoordinationUnavailable)
            else Justified(live, r, now, d)
  {
    var s := After(Empty, run, capacity);
    RunKeepsBacked(run, capacity);
    RunKeepsBooked(run, capacity);
    hide After;
    hide LawfulRun;
    ExpireKeepsBacked(s, now);
    ExpireKeepsBooked(s, now);
    var live := Expire(s, now);
    hide Expire;
    if r.leaseId in live.receipts {
      ReplayRepeats(live, r, now);
      hide Repeated;
      hide Replay;
    } else if victim.Some? || |live.receipts| < capacity {
      hide Justified;
      JudgeJustified(Evict(live, victim), r, now);
      JustifiedSame(live, capacity, victim, r, now, Judge(Evict(live, victim), r, now).decision);
      hide Judge;
    }
  }

  // 4. Renewals

  /** What is answered to the renewal at `k`: the lease runs, is named rightly and was not dropped by an
  item before; it then runs its own time from now. */
  predicate Prolongs(live: Ledger, wants: seq<Lease>, k: nat)
    requires k < |wants|
  {
    && wants[k].leaseId in live.leases
    && !Misnames(wants[..k + 1], live.leases[wants[k].leaseId])
  }

  lemma {:induction false} RenewAnswers(live: Ledger, wants: seq<Lease>, now: Time, k: nat)
    requires k < |wants| && (forall id :: id in live.leases ==>
               live.leases[id].leaseId == id && live.leases[id].expiresAt > now && live.leases[id].ttl > 0)
    ensures RenewAll(live, wants, now).1[k] ==
              if Prolongs(live, wants, k)
              then Renewed(live.leases[wants[k].leaseId].(expiresAt := now + live.leases[wants[k].leaseId].ttl))
              else Lost(wants[k])
    decreases |wants|
  {
    var init, want := wants[..|wants| - 1], wants[|wants| - 1];
    if k < |init| {
      RenewAnswers(live, init, now, k);
      assert init[..k + 1] == wants[..k + 1];
    } else {
      assert wants[..k + 1] == wants;
      var before := RenewAll(live, init, now).0;
      if want.leaseId in live.leases {
        RenewedLease(live, init, now, live.leases[want.leaseId]);
        MisnamesMore(wants, live.leases[want.leaseId]);
      } else {
        RenewedAway(live, init, now, want.leaseId);
      }
      hide Misnames;
      hide Asks;
    }
  }

  lemma MisnamesMore(wants: seq<Lease>, l: Lease)
    requires wants != []
    ensures var init, want := wants[..|wants| - 1], wants[|wants| - 1];
            Misnames(wants, l) <==>
              Misnames(init, l) || (want.leaseId == l.leaseId && (want.clientId != l.clientId || want.poolId != l.poolId))
  {
    var init := wants[..|wants| - 1];
    assert forall k :: 0 <= k < |init| ==> init[k] == wants[k];
  }

  /** After any run on a clock that does not go back, each renewal is answered with the truth. */
  lemma RenewalsAnswered(run: seq<Event>, capacity: nat, wants: seq<Lease>, now: Time, k: nat)
    requires LawfulRun(run, capacity) && Clocked(run) && (run != [] ==> run[|run| - 1].now <= now) && k < |wants|
    ensures var s := After(Empty, run, capacity);
            var live := Expire(s, now);
            Renew(s, wants, now).1[k] ==
              if Prolongs(live, wants, k)
              then Renewed(live.leases[wants[k].leaseId].(expiresAt := now + live.leases[wants[k].leaseId].ttl))
              else Lost(wants[k])
  {
    var s := After(Empty, run, capacity);
    RunKeepsBacked(run, capacity);
    RunKeepsDated(run, capacity);
    ExpireKeepsBacked(s, now);
    var live := Expire(s, now);
    forall id | id in live.leases
      ensures live.leases[id].leaseId == id && live.leases[id].expiresAt > now && live.leases[id].ttl > 0
    {
    }
    RenewAnswers(live, wants, now, k);
    hide *;
  }

  // 5. Completions

  /** What the completion at `k` is answered, from the records at the start of the batch. */
  ghost predicate Concludes(live: Ledger, items: seq<Item>, k: nat, answers: seq<CompleteResult>)
    requires k < |items| == |answers|
  {
    var id := items[k].leaseId;
    if id !in live.receipts then answers[k] == UnknownOperation
    else if live.receipts[id].decision.Rejected? then answers[k] == NeverAdmitted
    else if live.receipts[id].completion.Some? then answers[k] == AlreadyCompleted(live.receipts[id].completion.value)
    else
      var own := if id in live.leases then Released else CompletedLost;
      if exists j :: 0 <= j < k && items[j].leaseId == id then answers[k] == AlreadyCompleted(own) else answers[k] == Done(own)
  }

  lemma {:induction false} BatchRecords(live: Ledger, items: seq<Item>, now: Time, id: Id)
    requires Backed(live) && DueLeases(live, now) == {} && id in live.receipts
    ensures var t := CompleteAll(live, items, now).0;
            var kept := live.receipts[id];
            && id in t.receipts && t.receipts[id].decision == kept.decision && t.receipts[id].request == kept.request
            && (id in t.leases ==> id in live.leases)
            && if kept.decision.Rejected? || kept.completion.Some? || (forall j :: 0 <= j < |items| ==> items[j].leaseId != id)
               then t.receipts[id] == kept && (id in t.leases <==> id in live.leases)
                    && (id in t.leases ==> t.leases[id] == live.leases[id])
               else t.receipts[id].completion == Some(if id in live.leases then Released else CompletedLost)
    decreases |items|
  {
    if items == [] {
    } else {
      var init, item := items[..|items| - 1], items[|items| - 1];
      BatchRecords(live, init, now, id);
      assert forall j :: 0 <= j < |init| ==> init[j] == items[j];
      assert id in live.leases ==> id !in DueLeases(live, now);
      hide Charge;
      hide DueLeases;
    }
  }

  lemma {:induction false} BatchUnknown(live: Ledger, items: seq<Item>, now: Time, id: Id)
    requires id !in live.receipts
    ensures id !in CompleteAll(live, items, now).0.receipts
    decreases |items|
  {
    if items == [] {
    } else {
      BatchUnknown(live, items[..|items| - 1], now, id);
      hide Charge;
    }
  }

  lemma {:induction false} CompleteAnswers(live: Ledger, items: seq<Item>, now: Time, k: nat)
    requires Backed(live) && DueLeases(live, now) == {} && k < |items|
    ensures Concludes(live, items, k, CompleteAll(live, items, now).1)
    decreases |items|
  {
    var init, item := items[..|items| - 1], items[|items| - 1];
    assert forall j :: 0 <= j < |init| ==> init[j] == items[j];
    if k < |init| {
      CompleteAnswers(live, init, now, k);
    } else {
      LastAnswer(live, items, now);
    }
  }

  lemma LastAnswer(live: Ledger, items: seq<Item>, now: Time)
    requires Backed(live) && DueLeases(live, now) == {} && items != []
    ensures Concludes(live, items, |items| - 1, CompleteAll(live, items, now).1)
  {
    var init, item := items[..|items| - 1], items[|items| - 1];
    assert forall j :: 0 <= j < |init| ==> init[j] == items[j];
    var id := item.leaseId;
    assert id in live.leases ==> id !in DueLeases(live, now);
    if id in live.receipts {
      BatchRecords(live, init, now, id);
    } else {
      BatchUnknown(live, init, now, id);
    }
    hide Charge;
    hide DueLeases;
  }

  /** After any run each completion of a batch is answered with the truth: whether the lease still ran,
  and for an operation completed before, what was answered then. */
  lemma CompletionsAnswered(run: seq<Event>, capacity: nat, items: seq<Item>, now: Time, k: nat)
    requires LawfulRun(run, capacity) && k < |items|
    ensures var s := After(Empty, run, capacity);
            Concludes(Expire(s, now), items, k, Complete(s, items, now).1)
  {
    var s := After(Empty, run, capacity);
    RunKeepsBacked(run, capacity);
    ExpireKeepsBacked(s, now);
    CompleteAnswers(Expire(s, now), items, now, k);
    hide *;
  }

  /** Item `k` of event `m` is the completion of the operation that took effect, with this result. */
  predicate Answered(run: seq<Event>, capacity: nat, m: nat, k: nat, id: Id, c: Completion) {
    && m < |run| && run[m].op.CompleteOp? && k < |run[m].op.items| && run[m].op.items[k].leaseId == id
    && Complete(After(Empty, run[..m], capacity), run[m].op.items, run[m].now).1[k] == Done(c)
  }

  lemma {:induction false} FirstNaming(items: seq<Item>, id: Id) returns (k: nat)
    requires exists j :: 0 <= j < |items| && items[j].leaseId == id
    ensures k < |items| && items[k].leaseId == id && forall j :: 0 <= j < k ==> items[j].leaseId != id
    decreases |items|
  {
    var init := items[..|items| - 1];
    assert forall j :: 0 <= j < |init| ==> init[j] == items[j];
    if exists j :: 0 <= j < |init| && init[j].leaseId == id {
      k := FirstNaming(init, id);
    } else {
      k := |init|;
    }
  }

  /** A completion comes on record with the answer that told it. */
  lemma RecordedWhenAnswered(s: Ledger, e: Event, capacity: nat, id: Id, c: Completion) returns (k: nat)
    requires Backed(s) && id in Step(s, e, capacity).receipts && Step(s, e, capacity).receipts[id].completion == Some(c)
    requires !(id in s.receipts && s.receipts[id].completion == Some(c))
    ensures e.op.CompleteOp? && k < |e.op.items| && e.op.items[k].leaseId == id && Complete(s, e.op.items, e.now).1[k] == Done(c)
  {
    var live := Expire(s, e.now);
    ExpireKeepsBacked(s, e.now);
    assert id in live.receipts ==> id in s.receipts && live.receipts[id].completion == s.receipts[id].completion;
    hide Expire;
    match e.op
    case AcquireOp(r, victim) =>
      AcquireRecordsNone(s, r, e.now, capacity, victim, id);
      assert false;
    case RenewOp(wants) =>
      RenewKeepsReceipts(live, wants, e.now);
      assert false;
    case CompleteOp(items) =>
      if id !in live.receipts {
        BatchUnknown(live, items, e.now, id);
        assert false;
      }
      BatchRecords(live, items, e.now, id);
      k := FirstNaming(items, id);
      CompleteAnswers(live, items, e.now, k);
    case ObserveOp(_, _) => assert false;
    case QueryOp => assert false;
  }

  lemma AcquireRecordsNone(s: Ledger, r: Request, now: Time, capacity: nat, victim: Option<Id>, id: Id)
    ensures var t, live := Acquire(s, r, now, capacity, victim).0, Expire(s, now);
            id in t.receipts && t.receipts[id].completion.Some? ==> id in live.receipts && t.receipts[id] == live.receipts[id]
  {
    hide Expire;
    hide Judge;
  }

  lemma AnsweredBefore(run: seq<Event>, capacity: nat, n: nat, m: nat, k: nat, id: Id, c: Completion)
    requires n <= |run| && Answered(run[..n], capacity, m, k, id, c)
    ensures Answered(run, capacity, m, k, id, c)
  {
    hide After;
    hide Complete;
    assert run[..n][..m] == run[..m];
  }

  lemma LastIsStep(run: seq<Event>, capacity: nat)
    requires run != []
    ensures After(Empty, run, capacity) == Step(After(Empty, run[..|run| - 1], capacity), run[|run| - 1], capacity)
  {
    hide Step;
  }

  /** What is on record of a completion, and answered ever after, is what was answered when it took effect. */
  lemma {:induction false} CompletionsAreRemembered(run: seq<Event>, capacity: nat, id: Id, c: Completion) returns (m: nat, k: nat)
    requires LawfulRun(run, capacity)
    requires id in After(Empty, run, capacity).receipts && After(Empty, run, capacity).receipts[id].completion == Some(c)
    ensures Answered(run, capacity, m, k, id, c)
    decreases |run|
  {
    assert run != [];
    hide LawfulRun;
    hide Step;
    hide Complete;
    hide Backed;
    hide After;
    var n := |run| - 1;
    var s := After(Empty, run[..n], capacity);
    LastIsStep(run, capacity);
    PrefixLawful(run, capacity, n);
    RunKeepsBacked(run[..n], capacity);
    if id in s.receipts && s.receipts[id].completion == Some(c) {
      hide Answered;
      m, k := CompletionsAreRemembered(run[..n], capacity, id, c);
      AnsweredBefore(run, capacity, n, m, k, id, c);
    } else {
      m := n;
      k := RecordedWhenAnswered(s, run[n], capacity, id, c);
    }
  }

  /** Event `m` was the first request under `id` and was answered with `d`. */
  predicate Decided(run: seq<Event>, capacity: nat, m: nat, r: Request, d: Decision) {
    && m < |run| && run[m].op.AcquireOp? && run[m].op.r == r
    && r.leaseId !in Expire(After(Empty, run[..m], capacity), run[m].now).receipts
    && Acquire(After(Empty, run[..m], capacity), r, run[m].now, capacity, run[m].op.victim).1 == d
  }

  lemma AcquireRecords(s: Ledger, r: Request, now: Time, capacity: nat, victim: Option<Id>, id: Id)
    requires id in Acquire(s, r, now, capacity, victim).0.receipts
    ensures var (t, d) := Acquire(s, r, now, capacity, victim);
            var live := Expire(s, now);
            if id in live.receipts then t.receipts[id] == live.receipts[id]
            else r.leaseId == id && t.receipts[id].request == r && t.receipts[id].decision == d
  {
    hide Expire;
    hide Judge;
    hide Replay;
  }

  lemma StepRecords(s: Ledger, e: Event, capacity: nat, id: Id)
    requires Backed(s) && id in Step(s, e, capacity).receipts
    ensures var t := Step(s, e, capacity);
            || (id in s.receipts && t.receipts[id].request == s.receipts[id].request && t.receipts[id].decision == s.receipts[id].decision)
            || (e.op.AcquireOp? && e.op.r.leaseId == id && t.receipts[id].request == e.op.r && id !in Expire(s, e.now).receipts
                && t.receipts[id].decision == Acquire(s, e.op.r, e.now, capacity, e.op.victim).1)
  {
    var live := Expire(s, e.now);
    ExpireKeepsBacked(s, e.now);
    assert id in live.receipts ==>
        id in s.receipts && live.receipts[id].request == s.receipts[id].request && live.receipts[id].decision == s.receipts[id].decision;
    hide Expire;
    match e.op
    case AcquireOp(r, victim) =>
      AcquireRecords(s, r, e.now, capacity, victim, id);
      hide Acquire;
    case RenewOp(wants) => RenewKeepsReceipts(live, wants, e.now);
    case CompleteOp(items) =>
      if id in live.receipts {
        BatchRecords(live, items, e.now, id);
      } else {
        BatchUnknown(live, items, e.now, id);
      }
      hide CompleteAll;
    case ObserveOp(_, _) =>
    case QueryOp =>
  }

  lemma DecidedBefore(run: seq<Event>, capacity: nat, n: nat, m: nat, r: Request, d: Decision)
    requires n <= |run| && Decided(run[..n], capacity, m, r, d)
    ensures Decided(run, capacity, m, r, d)
  {
    hide After;
    hide Expire;
    hide Acquire;
    assert run[..n][..m] == run[..m];
  }

  /** What is on record of a request, and repeated ever after, is what was decided when it was new. */
  lemma {:induction false} DecisionsAreRemembered(run: seq<Event>, capacity: nat, id: Id) returns (m: nat)
    requires LawfulRun(run, capacity) && id in After(Empty, run, capacity).receipts
    ensures var kept := After(Empty, run, capacity).receipts[id];
            kept.request.leaseId == id && Decided(run, capacity, m, kept.request, kept.decision)
    decreases |run|
  {
    assert run != [];
    hide LawfulRun;
    hide Step;
    hide Acquire;
    hide Expire;
    hide Backed;
    hide After;
    var n := |run| - 1;
    var s := After(Empty, run[..n], capacity);
    LastIsStep(run, capacity);
    PrefixLawful(run, capacity, n);
    RunKeepsBacked(run[..n], capacity);
    StepRecords(s, run[n], capacity, id);
    var kept := After(Empty, run, capacity).receipts[id];
    if id in s.receipts && kept.request == s.receipts[id].request && kept.decision == s.receipts[id].decision {
      hide Decided;
      m := DecisionsAreRemembered(run[..n], capacity, id);
      DecidedBefore(run, capacity, n, m, kept.request, kept.decision);
    } else {
      m := n;
    }
  }

  // 6. How long a record is kept

  /** A day from its end, or from its beginning if that is told to be later. */
  predicate KeptFor(r: Receipt, now: Time) {
    r.retainUntil == Some((if r.request.startedAt > now then r.request.startedAt else now) + RETENTION)
  }

  /** What an event does to a record that is kept: it stays as long as it should, or gets its end now. */
  lemma {:induction false} BatchKeeps(live: Ledger, items: seq<Item>, now: Time, id: Id)
    requires id in live.receipts
    ensures var t := CompleteAll(live, items, now).0;
            && id in t.receipts && t.receipts[id].request == live.receipts[id].request
            && (t.receipts[id].retainUntil == live.receipts[id].retainUntil || KeptFor(t.receipts[id], now))
    decreases |items|
  {
    if items == [] {
    } else {
      BatchKeeps(live, items[..|items| - 1], now, id);
      hide Charge;
    }
  }

  lemma ExpireKeeps(s: Ledger, now: Time, id: Id)
    requires Backed(s) && id in s.receipts
    ensures var live, kept := Expire(s, now), s.receipts[id];
            if kept.retainUntil.Some? && kept.retainUntil.value <= now then id !in live.receipts
            else
              && id in live.receipts && live.receipts[id].request == kept.request
              && (live.receipts[id].retainUntil == kept.retainUntil || KeptFor(live.receipts[id], now))
  {
  }

  lemma AcquireKeeps(s: Ledger, r: Request, now: Time, capacity: nat, victim: Option<Id>, id: Id)
    ensures var t, live := Acquire(s, r, now, capacity, victim).0, Expire(s, now);
            && (id in live.receipts && !(r.leaseId !in live.receipts && victim == Some(id)) ==>
                  id in t.receipts && t.receipts[id] == live.receipts[id])
            && (id in t.receipts && id !in live.receipts ==>
                  r.leaseId == id && t.receipts[id].request == r
                  && if t.receipts[id].decision.Admitted? then t.receipts[id].retainUntil.None? else KeptFor(t.receipts[id], now))
  {
    hide Expire;
    hide Judge;
    hide Replay;
  }

  /** Whether a record outlasts an event: it does until its time is over, unless it is given up for room,
  and it is given its time once, when the operation ends. */
  lemma RecordsAreKept(s: Ledger, e: Event, capacity: nat, id: Id)
    requires Backed(s) && !e.op.ObserveOp?
    ensures var t := Step(s, e, capacity);
            && (id in s.receipts && s.receipts[id].retainUntil.Some? && s.receipts[id].retainUntil.value <= e.now ==>
                  id !in Expire(s, e.now).receipts)
            && (id in s.receipts && id in Expire(s, e.now).receipts && !Evicts(s, e, id) ==>
                  && id in t.receipts && t.receipts[id].request == s.receipts[id].request
                  && (t.receipts[id].retainUntil == s.receipts[id].retainUntil || KeptFor(t.receipts[id], e.now)))
            && (id in s.receipts && id !in Expire(s, e.now).receipts ==>
                  s.receipts[id].retainUntil.Some? && s.receipts[id].retainUntil.value <= e.now)
            && (id in t.receipts && id !in Expire(s, e.now).receipts ==>
                  && e.op.AcquireOp? && t.receipts[id].request == e.op.r
                  && if t.receipts[id].decision.Admitted? then t.receipts[id].retainUntil.None? else KeptFor(t.receipts[id], e.now))
  {
    var live := Expire(s, e.now);
    if id in s.receipts {
      ExpireKeeps(s, e.now, id);
    }
    assert id in live.receipts ==> id in s.receipts;
    hide Expire;
    match e.op
    case AcquireOp(r, victim) =>
      AcquireKeeps(s, r, e.now, capacity, victim, id);
      hide Acquire;
    case RenewOp(wants) => RenewKeepsReceipts(live, wants, e.now);
    case CompleteOp(items) =>
      if id in live.receipts {
        BatchKeeps(live, items, e.now, id);
      } else {
        BatchUnknown(live, items, e.now, id);
      }
      hide CompleteAll;
    case QueryOp =>
  }
}
