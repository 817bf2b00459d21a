/** The single-replica coordinator: derived in-flight counters and two lazily cleaned deadline
queues beside the receipts and leases. Each method changes the ledger exactly as the module
Admission says, whatever stale entries the queues hold. */
module AdmissionCoordinator {
  import opened ExpiryQueue
  import opened Admission
  import opened Counting

  /** The counters are the sizes of the sets of leases they stand for. */
  ghost predicate CountersAgree(s: Ledger, clients: Counters, pools: Counters, lower: Counters) {
    && (forall c :: Count(clients, c) == |ClientLeases(s, c)|)
    && (forall p :: Count(pools, p) == |PoolLeases(s, p)|)
    && (forall p :: Count(lower, p) == |LowerLeases(s, p)|)
  }

  /** Every lease has a queue entry at exactly its current deadline. */
  ghost predicate LeasesQueued(leases: map<Id, Lease>, q: multiset<Entry>) {
    forall id :: id in leases ==> Entry(leases[id].expiresAt, id, AdmissionLease) in q
  }

  /** Every terminal receipt has a queue entry at exactly the end of its retention. */
  ghost predicate TerminalsQueued(receipts: map<Id, Receipt>, q: multiset<Entry>) {
    forall id :: id in receipts && receipts[id].retainUntil.Some? ==>
      Entry(receipts[id].retainUntil.value, id, AdmissionReceipt) in q
  }

  /** `t` has one more lease than `s`, held by `id`. */
  ghost predicate Inserted(s: Ledger, t: Ledger, id: Id) {
    && id !in s.leases && id in t.leases && t.leases == s.leases[id := t.leases[id]]
    && id in t.receipts
    && (forall i :: i in s.leases ==> i in s.receipts && i in t.receipts && t.receipts[i].request == s.receipts[i].request)
  }

  lemma ClientInsert(s: Ledger, t: Ledger, id: Id, c: int)
    requires Inserted(s, t, id)
    ensures |ClientLeases(t, c)| == |ClientLeases(s, c)| + if c == t.leases[id].clientId then 1 else 0
  {
    if c == t.leases[id].clientId {
      assert ClientLeases(t, c) == ClientLeases(s, c) + {id};
    } else {
      assert ClientLeases(t, c) == ClientLeases(s, c);
    }
  }

  lemma PoolInsert(s: Ledger, t: Ledger, id: Id, p: int)
    requires Inserted(s, t, id)
    ensures |PoolLeases(t, p)| == |PoolLeases(s, p)| + if p == t.leases[id].poolId then 1 else 0
  {
    if p == t.leases[id].poolId {
      assert PoolLeases(t, p) == PoolLeases(s, p) + {id};
    } else {
      assert PoolLeases(t, p) == PoolLeases(s, p);
    }
  }

  lemma LowerInsert(s: Ledger, t: Ledger, id: Id, p: int)
    requires Inserted(s, t, id)
    ensures |LowerLeases(t, p)| ==
            |LowerLeases(s, p)| + if p == t.leases[id].poolId && Lower(t.receipts[id].request.priority) then 1 else 0
  {
    var more := if p == t.leases[id].poolId && Lower(t.receipts[id].request.priority) then {id} else {};
    forall i
      ensures i in LowerLeases(t, p) <==> i in LowerLeases(s, p) + more
    {
      if i in s.leases {
        assert t.leases[i] == s.leases[i] && t.receipts[i].request == s.receipts[i].request;
      }
    }
    assert LowerLeases(t, p) == LowerLeases(s, p) + more;
  }

  lemma InsertCounts(s: Ledger, t: Ledger, id: Id, clients: Counters, pools: Counters, lower: Counters)
    requires CountersAgree(s, clients, pools, lower) && Inserted(s, t, id)
    ensures var l := t.leases[id];
            CountersAgree(t, Incremented(clients, l.clientId), Incremented(pools, l.poolId),
                          if Lower(t.receipts[id].request.priority) then Incremented(lower, l.poolId) else lower)
  {
    hide ClientLeases;
    hide PoolLeases;
    hide LowerLeases;
    forall c {
      ClientInsert(s, t, id, c);
    }
    forall p {
      PoolInsert(s, t, id, p);
    }
    forall p {
      LowerInsert(s, t, id, p);
    }
  }

  lemma RemoveCounts(s: Ledger, t: Ledger, id: Id, clients: Counters, pools: Counters, lower: Counters)
    requires CountersAgree(s, clients, pools, lower)
    requires Inserted(t, s, id)
    ensures var l := s.leases[id];
            CountersAgree(t, Decremented(clients, l.clientId), Decremented(pools, l.poolId),
                          if Lower(s.receipts[id].request.priority) then Decremented(lower, l.poolId) else lower)
  {
    hide ClientLeases;
    hide PoolLeases;
    hide LowerLeases;
    forall c {
      ClientInsert(t, s, id, c);
    }
    forall p {
      PoolInsert(t, s, id, p);
    }
    forall p {
      LowerInsert(t, s, id, p);
    }
  }

  /** Counters depend only on who holds which lease and at what class. */
  lemma SameCounts(s: Ledger, t: Ledger, clients: Counters, pools: Counters, lower: Counters)
    requires CountersAgree(s, clients, pools, lower)
    requires s.leases.Keys == t.leases.Keys
    requires forall id :: id in s.leases ==>
               s.leases[id].clientId == t.leases[id].clientId && s.leases[id].poolId == t.leases[id].poolId
    requires forall id :: id in s.leases ==>
               id in s.receipts && id in t.receipts && s.receipts[id].request == t.receipts[id].request
    ensures CountersAgree(t, clients, pools, lower)
  {
    forall c
      ensures ClientLeases(s, c) == ClientLeases(t, c)
    {
      forall i
        ensures i in ClientLeases(s, c) <==> i in ClientLeases(t, c)
      {
      }
    }
    forall p
      ensures PoolLeases(s, p) == PoolLeases(t, p) && LowerLeases(s, p) == LowerLeases(t, p)
    {
      forall i
        ensures (i in PoolLeases(s, p) <==> i in PoolLeases(t, p)) && (i in LowerLeases(s, p) <==> i in LowerLeases(t, p))
      {
      }
    }
  }

  class Coordinator {
    var receipts: map<Id, Receipt>
    var leases: map<Id, Lease>
    const expiries: Queue
    const terminalExpiries: Queue
    var clientInflight: Counters
    var poolInflight: Counters
    var poolLowerInflight: Counters
    const receiptCapacity: nat
    var rates: Rates
    var policies: Policies

    function Books(): Ledger
      reads this
    {
      Ledger(receipts, leases, rates, policies)
    }

    /** The counters and the lease-receipt pairing, without the queues. */
    ghost predicate Counted()
      reads this
    {
      Backed(Books()) && CountersAgree(Books(), clientInflight, poolInflight, poolLowerInflight)
    }

    ghost predicate Indexed()
      reads this, expiries, terminalExpiries
    {
      && expiries != terminalExpiries && expiries.Valid() && terminalExpiries.Valid()
      && Counted()
      && LeasesQueued(leases, expiries.Contents())
      && TerminalsQueued(receipts, terminalExpiries.Contents())
    }

    ghost predicate Valid()
      reads this, expiries, terminalExpiries
    {
      Indexed() && 0 < receiptCapacity && |receipts| <= receiptCapacity
    }

    constructor (capacity: int)
      ensures Valid() && Books() == Empty
      ensures receiptCapacity == if capacity <= 0 then 65_536 else capacity
      ensures fresh(expiries) && fresh(terminalExpiries)
    {
      receipts, leases := map[], map[];
      clientInflight, poolInflight, poolLowerInflight := map[], map[], map[];
      rates, policies := map[], map[];
      receiptCapacity := if capacity <= 0 then 65_536 else capacity;
      expiries := new Queue();
      terminalExpiries := new Queue();
      new;
      assert forall c :: ClientLeases(Books(), c) == {};
      assert forall p :: PoolLeases(Books(), p) == {};
      assert forall p :: LowerLeases(Books(), p) == {};
    }

    method RemoveLease(id: Id)
      requires Counted()
      modifies this
      ensures Counted() && Books() == Dropped(old(Books()), id)
    {
      if id !in leases {
        assert leases - {id} == leases;
        return;
      }
      var lease := leases[id];
      ghost var before := Books();
      leases := leases - {id};
      assert before.leases == leases[id := lease];
      RemoveCounts(before, Books(), id, clientInflight, poolInflight, poolLowerInflight);
      if Lower(receipts[id].request.priority) {
        poolLowerInflight := Decremented(poolLowerInflight, lease.poolId);
      }
      clientInflight := Decremented(clientInflight, lease.clientId);
      poolInflight := Decremented(poolInflight, lease.poolId);
    }

    /** Rewrites a receipt that no live lease depends on, leaving its request alone. */
    method SetReceipt(id: Id, receipt: Receipt)
      requires Counted() && id in receipts && id !in leases && receipt.request == receipts[id].request
      modifies this`receipts
      ensures Counted() && Books() == old(Books()).(receipts := old(receipts)[id := receipt])
    {
      ghost var before := Books();
      receipts := receipts[id := receipt];
      SameCounts(before, Books(), clientInflight, poolInflight, poolLowerInflight);
    }

    /** The lease at `id` is over and its receipt starts its retention. */
    method LoseLease(id: Id, now: Time)
      requires Counted() && id in leases && terminalExpiries.Valid()
      requires TerminalsQueued(receipts, terminalExpiries.Contents())
      modifies this, terminalExpiries
      ensures Counted() && Books() == MarkLost(old(Books()), {id}, now) && leases == old(leases) - {id}
      ensures terminalExpiries.Valid() && TerminalsQueued(receipts, terminalExpiries.Contents())
    {
      hide CountersAgree;
      hide TerminalsQueued;
      var lost := LostReceipt(receipts[id], now);
      TerminalMore(receipts, id, lost, terminalExpiries.Contents());
      RemoveLease(id);
      SetReceipt(id, lost);
      terminalExpiries.Add(AdmissionReceipt, id, lost.retainUntil.value);
      assert Books() == MarkLost(old(Books()), {id}, now);
    }

    /** The first drain loop of `expire`: leases whose time has come. */
    method ExpireLeases(now: Time)
      requires Indexed()
      modifies this, expiries, terminalExpiries
      ensures Indexed() && Books() == MarkLost(old(Books()), DueLeases(old(Books()), now), now)
    {
      hide LeasesQueued;
      hide TerminalsQueued;
      hide CountersAgree;
      hide Backed;
      hide MarkLost;
      hide DueLeases;
      hide Overdue;
      ghost var start := Books();
      ghost var lost: set<Id> := {};
      NothingLost(start, now);
      var more := true;
      while more
        invariant Indexed()
        invariant lost <= DueLeases(start, now) && Books() == MarkLost(start, lost, now)
        invariant !more ==> DueLeases(Books(), now) == {}
        decreases more, |expiries.entries|
      {
        ghost var before := expiries.Contents();
        var due := expiries.Due(now);
        match due
        case None =>
          NoneDue(Books(), before, now);
          more := false;
        case Some(e) =>
          if e.kind == AdmissionLease && e.id in leases && leases[e.id].expiresAt == e.at {
            LoseMore(start, lost, e.id, now);
            QueuedWithout(leases, {e.id}, before, e);
            LoseLease(e.id, now);
            lost := lost + {e.id};
          } else {
            QueuedWithout(leases, {}, before, e);
          }
      }
      AllLost(start, lost, now);
    }

    /** Takes one entry whose time has come off the queue and forgets its receipt, if it is still that entry's. */
    method ForgetDue(now: Time) returns (more: bool, ghost gone: set<Id>)
      requires Indexed()
      modifies this`receipts, terminalExpiries
      ensures Indexed() && Books() == Forget(old(Books()), gone) && gone <= Overdue(old(Books()), now)
      ensures more ==> |terminalExpiries.entries| < old(|terminalExpiries.entries|)
      ensures !more ==> gone == {} && Overdue(Books(), now) == {}
    {
      hide LeasesQueued;
      hide TerminalsQueued;
      hide CountersAgree;
      hide Backed;
      hide Overdue;
      NothingForgotten(Books());
      ghost var before := terminalExpiries.Contents();
      var due := terminalExpiries.Due(now);
      match due
      case None =>
        NoneOverdue(Books(), before, now);
        return false, {};
      case Some(e) =>
        if e.id in receipts && receipts[e.id].retainUntil == Some(e.at) {
          OverdueAt(Books(), e.id, now);
          KeptWithout(receipts, {e.id}, before, e);
          DropReceipt(e.id);
          return true, {e.id};
        }
        KeptWithout(receipts, {}, before, e);
        return true, {};
    }

    /** The second drain loop of `expire`: receipts whose retention is over. */
    method ForgetReceipts(now: Time)
      requires Indexed()
      modifies this`receipts, terminalExpiries
      ensures Indexed() && Books() == Forget(old(Books()), Overdue(old(Books()), now))
    {
      hide Indexed;
      hide Overdue;
      hide Forget;
      ghost var start := Books();
      ghost var gone: set<Id> := {};
      NothingForgotten(start);
      var more := true;
      while more
        invariant Indexed() && gone <= Overdue(start, now) && Books() == Forget(start, gone)
        invariant !more ==> Overdue(Books(), now) == {}
        decreases more, |terminalExpiries.entries|
      {
        ghost var forgot;
        more, forgot := ForgetDue(now);
        ForgetMore(start, gone, forgot, now);
        gone := gone + forgot;
      }
      AllForgotten(start, gone, now);
    }

    method DropReceipt(id: Id)
      requires Counted() && id in receipts && receipts[id].retainUntil.Some?
      modifies this`receipts
      ensures Counted() && Books() == Forget(old(Books()), {id})
    {
      ghost var before := Books();
      receipts := receipts - {id};
      ForgetKeepsBacked(before, {id});
      SameCounts(before, Books(), clientInflight, poolInflight, poolLowerInflight);
    }

    method Expire(now: Time)
      requires Valid()
      modifies this, expiries, terminalExpiries
      ensures Valid() && Books() == Admission.Expire(old(Books()), now)
    {
      ExpireLeases(now);
      ForgetReceipts(now);
      SmallerMap(receipts, old(receipts));
    }

    /** Whether the queue's front is a terminal receipt, after dropping entries that no longer match. */
    method HasTerminalReceipt() returns (found: bool)
      requires terminalExpiries.Valid() && TerminalsQueued(receipts, terminalExpiries.Contents())
      modifies terminalExpiries
      ensures terminalExpiries.Valid() && TerminalsQueued(receipts, terminalExpiries.Contents())
      ensures found ==>
                && terminalExpiries.entries != []
                && terminalExpiries.entries[0].id in receipts
                && receipts[terminalExpiries.entries[0].id].retainUntil == Some(terminalExpiries.entries[0].at)
      ensures !found ==> forall id :: id in receipts ==> receipts[id].retainUntil.None?
    {
      hide TerminalsQueued;
      while |terminalExpiries.entries| > 0
        invariant terminalExpiries.Valid() && TerminalsQueued(receipts, terminalExpiries.Contents())
        decreases |terminalExpiries.entries|
      {
        var front := terminalExpiries.entries[0];
        if front.id in receipts && receipts[front.id].retainUntil == Some(front.at) {
          return true;
        }
        KeptWithout(receipts, {}, terminalExpiries.Contents(), front);
        var _ := terminalExpiries.PopOldest();
      }
      SomeQueued(receipts, terminalExpiries.Contents());
      return false;
    }

    method EvictOldest() returns (ok: bool, ghost victim: Id)
      requires Indexed() && |receipts| >= receiptCapacity
      modifies this`receipts, terminalExpiries
      ensures Indexed()
      ensures !ok ==> Books() == old(Books()) && forall id :: id in receipts ==> receipts[id].retainUntil.None?
      ensures ok ==>
                && Victim(old(Books()), receiptCapacity, Some(victim))
                && Books() == Forget(old(Books()), {victim}) && |receipts| == old(|receipts|) - 1
    {
      hide CountersAgree;
      hide Backed;
      hide TerminalsQueued;
      hide LeasesQueued;
      ok := HasTerminalReceipt();
      if !ok {
        return false, 0;
      }
      ghost var before := terminalExpiries.Contents();
      var front := terminalExpiries.PopOldest();
      var e := front.value;
      OldestIsVictim(Books(), receiptCapacity, e, before);
      hide Victim;
      KeptWithout(receipts, {e.id}, before, e);
      KeyRemoved(receipts, e.id);
      DropReceipt(e.id);
      victim := e.id;
    }

    /** Evicts at most one terminal receipt, one that is nearest the end of its retention. */
    method MakeReceiptRoom() returns (ok: bool, ghost victim: Option<Id>)
      requires Valid()
      modifies this`receipts, terminalExpiries
      ensures Valid() && Books() == Evict(old(Books()), victim)
      ensures Victim(old(Books()), receiptCapacity, victim)
      ensures ok <==> |receipts| < receiptCapacity
      ensures !ok ==> victim.None?
    {
      hide Indexed;
      victim := None;
      while |receipts| >= receiptCapacity
        invariant Valid() && Books() == Evict(old(Books()), victim)
        invariant victim.Some? ==> Victim(old(Books()), receiptCapacity, victim) && |receipts| < receiptCapacity
        decreases |receipts|
      {
        ghost var evicted;
        ok, evicted := EvictOldest();
        if !ok {
          return false, None;
        }
        victim := Some(evicted);
      }
      return true, victim;
    }

    method NormalizeRate(client: int, kind: RateKind, revision: int, capacity: int, now: Time)
      modifies this`rates
      ensures rates == Normalize(old(rates), client, kind, revision, capacity, now)
    {
      var key := (client, kind);
      if key !in rates || rates[key].revision != revision || rates[key].capacity != capacity {
        rates := rates[key := RateState(revision, capacity, capacity as real, now)];
        return;
      }
      var state := rates[key];
      var elapsed := now - state.at;
      if elapsed > 0 {
        state := state.(balance := state.balance + Refill(elapsed, capacity));
        if state.balance > capacity as real {
          state := state.(balance := capacity as real);
        }
        state := state.(at := now);
      }
      rates := rates[key := state];
    }

    method ObserveClientRatePolicy(client: int, candidate: RatePolicy) returns (policy: RatePolicy)
      modifies this`policies
      ensures policies == Observe(old(policies), client, candidate)
      ensures client in policies && policy == policies[client]
    {
      if client !in policies || candidate.revision > policies[client].revision {
        policies := policies[client := candidate];
      }
      policy := policies[client];
    }

    /** The concurrency checks, answered from the counters. */
    method CheckLimits(r: Request) returns (d: Option<Decision>)
      requires Counted()
      ensures d == LimitDecision(Books(), r)
    {
      if r.effectiveLimit <= 0 || r.effectiveLimit > r.configuredLimit {
        return Some(Rejected(ConcurrencyExhausted, None, ClientScope));
      }
      var clientCount, poolCount := Count(clientInflight, r.clientId), Count(poolInflight, r.poolId);
      if r.poolLimit > 0 && poolCount >= r.poolLimit {
        return Some(Rejected(ConcurrencyExhausted, None, PoolScope));
      }
      if r.poolReserve > 0 && Lower(r.priority) && Count(poolLowerInflight, r.poolId) >= r.poolLimit - r.poolReserve {
        return Some(Refuse(PoolPriorityReserve));
      }
      if clientCount >= r.effectiveLimit {
        return Some(Rejected(ConcurrencyExhausted, None, ClientScope));
      }
      return None;
    }

    method CheckRates(r: Request, now: Time, policy: RatePolicy) returns (d: Decision)
      requires r.clientId in policies && policy == policies[r.clientId]
      modifies this`rates
      ensures Verdict(d, rates, policies) == JudgeRates(old(Books()), r, now, policies)
    {
      if policy.tpm > 0 {
        NormalizeRate(r.clientId, TPM, policy.revision, policy.tpm, now);
        var state := rates[(r.clientId, TPM)];
        if state.balance < 1.0 {
          return Rejected(TPMExhausted, Some(RetryAt(state.balance, policy.tpm, now)), NoScope);
        }
      } else {
        NormalizeRate(r.clientId, TPM, policy.revision, 0, now);
      }
      if policy.rpm > 0 {
        NormalizeRate(r.clientId, RPM, policy.revision, policy.rpm, now);
        var state := rates[(r.clientId, RPM)];
        if state.balance < 1.0 {
          return Rejected(RPMExhausted, Some(RetryAt(state.balance, policy.rpm, now)), NoScope);
        }
        rates := rates[(r.clientId, RPM) := state.(balance := state.balance - 1.0)];
      } else {
        NormalizeRate(r.clientId, RPM, policy.revision, 0, now);
      }
      return Admitted(NewLease(r, now));
    }

    method JudgeRequest(r: Request, now: Time) returns (d: Decision)
      requires Counted()
      modifies this`rates, this`policies
      ensures Verdict(d, rates, policies) == Judge(old(Books()), r, now)
    {
      hide CountersAgree;
      hide JudgeRates;
      hide LimitDecision;
      if Stale(r.startedAt, now) {
        return Refuse(StaleOperation);
      }
      if BadPriority(r) {
        return Refuse(StaleConfiguration);
      }
      var limited := CheckLimits(r);
      var policy := ObserveClientRatePolicy(r.clientId, RequestPolicy(r));
      match limited
      case Some(refusal) =>
        d := refusal;
      case None =>
        ghost var mid := Books();
        d := CheckRates(r, now, policy);
        RatesAlone(old(Books()), mid, r, now, policies);
    }

    /** Files a refusal: a receipt that is terminal at once. */
    method FileRefusal(r: Request, now: Time, d: Decision)
      requires Valid() && r.leaseId !in receipts && |receipts| < receiptCapacity && d.Rejected?
      modifies this`receipts, terminalExpiries
      ensures Valid() && Books() == Record(old(Books()), r, now, Verdict(d, rates, policies))
    {
      hide CountersAgree;
      hide Backed;
      hide LeasesQueued;
      hide TerminalsQueued;
      ghost var before := Books();
      var retain := Boundary(r.startedAt, now);
      var receipt := Receipt(r, d, None, false, Some(retain));
      KeyAdded(receipts, r.leaseId, receipt);
      TerminalMore(receipts, r.leaseId, receipt, terminalExpiries.Contents());
      NoLease(before, r.leaseId);
      receipts := receipts[r.leaseId := receipt];
      OtherReceipt(before, Books(), r.leaseId, clientInflight, poolInflight, poolLowerInflight);
      terminalExpiries.Add(AdmissionReceipt, r.leaseId, retain);
    }

    method CountLease(ghost before: Ledger, id: Id, priority: Priority)
      requires CountersAgree(before, clientInflight, poolInflight, poolLowerInflight) && Inserted(before, Books(), id)
      requires id in leases && id in receipts && priority == receipts[id].request.priority
      modifies this`clientInflight, this`poolInflight, this`poolLowerInflight
      ensures CountersAgree(Books(), clientInflight, poolInflight, poolLowerInflight)
    {
      InsertCounts(before, Books(), id, clientInflight, poolInflight, poolLowerInflight);
      hide CountersAgree;
      hide Inserted;
      hide Incremented;
      var lease := leases[id];
      clientInflight := Incremented(clientInflight, lease.clientId);
      poolInflight := Incremented(poolInflight, lease.poolId);
      if Lower(priority) {
        poolLowerInflight := Incremented(poolLowerInflight, lease.poolId);
      }
    }

    /** Files an admission: its receipt, and the lease with its counters and its deadline. */
    method FileAdmission(r: Request, now: Time, lease: Lease)
      requires Valid() && r.leaseId !in receipts && |receipts| < receiptCapacity && lease == NewLease(r, now)
      modifies this`receipts, this`leases, this`clientInflight, this`poolInflight, this`poolLowerInflight, expiries
      ensures Valid() && Books() == Record(old(Books()), r, now, Verdict(Admitted(lease), rates, policies))
    {
      hide CountersAgree;
      hide Backed;
      hide LeasesQueued;
      hide TerminalsQueued;
      hide Inserted;
      ghost var before := Books();
      var receipt := Receipt(r, Admitted(lease), None, false, None);
      KeyAdded(receipts, r.leaseId, receipt);
      TerminalMore(receipts, r.leaseId, receipt, terminalExpiries.Contents());
      LeaseMore(leases, r.leaseId, lease, expiries.Contents());
      receipts := receipts[r.leaseId := receipt];
      leases := leases[r.leaseId := lease];
      AdmissionInserted(before, Books(), r.leaseId);
      CountLease(before, r.leaseId, r.priority);
      expiries.Add(AdmissionLease, lease.leaseId, lease.expiresAt);
    }

    /** Admission decides as if it counted the live leases anew. */
    method Acquire(r: Request, now: Time) returns (d: Decision, ghost victim: Option<Id>)
      requires Valid()
      modifies this, expiries, terminalExpiries
      ensures Valid()
      ensures (Books(), d) == Admission.Acquire(old(Books()), r, now, receiptCapacity, victim)
      ensures r.leaseId !in Admission.Expire(old(Books()), now).receipts ==>
                Victim(Admission.Expire(old(Books()), now), receiptCapacity, victim)
    {
      hide CountersAgree;
      hide Backed;
      hide TerminalsQueued;
      hide LeasesQueued;
      hide Victim;
      hide Judge;
      hide Admission.Expire;
      victim := None;
      Expire(now);
      if r.leaseId in receipts {
        d := Replay(Books(), r, now);
        return;
      }
      ghost var live := Books();
      var ok;
      ok, victim := MakeReceiptRoom();
      if !ok {
        return Refuse(CoordinationUnavailable), victim;
      }
      ghost var room := Books();
      d := JudgeRequest(r, now);
      RatesIndexed(room, Books(), clientInflight, poolInflight, poolLowerInflight);
      AdmittedLease(room, r, now);
      match d
      case Rejected(_, _, _) => FileRefusal(r, now, d);
      case Admitted(lease) => FileAdmission(r, now, lease);
    }

    method RenewLease(want: Lease, now: Time) returns (result: RenewResult)
      requires Valid()
      modifies this, expiries
      ensures Valid() && (Books(), result) == RenewOne(old(Books()), want, now)
    {
      if !Holds(Books(), want, now) {
        RemoveLease(want.leaseId);
        return Lost(want);
      }
      var got := leases[want.leaseId];
      var ttl := if got.ttl > 0 then got.ttl else want.ttl;
      if ttl <= 0 {
        return Lost(want);
      }
      ghost var before := Books();
      got := got.(expiresAt := now + ttl);
      leases := leases[want.leaseId := got];
      SameCounts(before, Books(), clientInflight, poolInflight, poolLowerInflight);
      expiries.Add(AdmissionLease, got.leaseId, got.expiresAt);
      return Renewed(got);
    }

    method Renew(wants: seq<Lease>, now: Time) returns (results: seq<RenewResult>)
      requires Valid()
      modifies this, expiries, terminalExpiries
      ensures Valid() && (Books(), results) == Admission.Renew(old(Books()), wants, now)
    {
      hide CountersAgree;
      hide Backed;
      hide TerminalsQueued;
      hide LeasesQueued;
      hide RenewOne;
      Expire(now);
      ghost var live := Books();
      results := [];
      for i := 0 to |wants|
        invariant Valid() && (Books(), results) == RenewAll(live, wants[..i], now)
      {
        assert wants[..i + 1][..i] == wants[..i];
        var result := RenewLease(wants[i], now);
        results := results + [result];
      }
      assert wants[..|wants|] == wants;
    }

    method ChargeUsage(r: Request, usage: Option<Usage>, now: Time)
      modifies this`rates
      ensures rates == Charge(old(Books()), r, usage, now)
    {
      if usage.Some? && ValidUsage(usage.value) {
        var policy := if r.clientId in policies then policies[r.clientId] else RequestPolicy(r);
        NormalizeRate(r.clientId, TPM, policy.revision, policy.tpm, now);
        if policy.tpm > 0 {
          var state := rates[(r.clientId, TPM)];
          var tokens := usage.value.input + usage.value.output;
          rates := rates[(r.clientId, TPM) := state.(balance := state.balance - tokens as real)];
        }
      }
    }

    /** Ends an admitted operation: its lease is dropped, its usage charged, its receipt closed. */
    method CloseReceipt(id: Id, usage: Option<Usage>, completion: Completion, now: Time)
      requires Valid() && id in receipts
      modifies this, terminalExpiries
      ensures Valid() && Books() == Closed(old(Books()), id, usage, completion, now)
    {
      hide CountersAgree;
      hide Backed;
      hide TerminalsQueued;
      hide Charge;
      var receipt := receipts[id];
      RemoveLease(id);
      ghost var dropped := Books();
      ChargeUsage(receipt.request, usage, now);
      assert rates == Charge(old(Books()), receipt.request, usage, now) by {
        ChargeAlone(old(Books()), dropped, receipt.request, usage, now);
      }
      RatesIndexed(dropped, Books(), clientInflight, poolInflight, poolLowerInflight);
      var retain := Boundary(receipt.request.startedAt, now);
      var closed := receipt.(completion := Some(completion), retainUntil := Some(retain));
      TerminalMore(receipts, id, closed, terminalExpiries.Contents());
      SetReceipt(id, closed);
      terminalExpiries.Add(AdmissionReceipt, id, retain);
      assert receipts.Keys == old(receipts.Keys);
      assert |receipts| == |receipts.Keys| && old(|receipts| == |receipts.Keys|);
    }

    method CompleteLease(item: Item, now: Time) returns (result: CompleteResult)
      requires Valid()
      modifies this, terminalExpiries
      ensures Valid() && (Books(), result) == CompleteOne(old(Books()), item, now)
    {
      hide CountersAgree;
      hide Backed;
      hide TerminalsQueued;
      hide LeasesQueued;
      hide Charge;
      var id := item.leaseId;
      if id !in receipts {
        return UnknownOperation;
      }
      var receipt := receipts[id];
      if !receipt.decision.Admitted? {
        return NeverAdmitted;
      }
      if receipt.completion.Some? {
        return AlreadyCompleted(receipt.completion.value);
      }
      var live :=
        && id in leases && leases[id].clientId == receipt.request.clientId
        && leases[id].poolId == receipt.request.poolId && leases[id].expiresAt > now;
      var completion := if live then Released else CompletedLost;
      CloseReceipt(id, item.usage, completion, now);
      return Done(completion);
    }

    method Complete(items: seq<Item>, now: Time) returns (results: seq<CompleteResult>)
      requires Valid()
      modifies this, expiries, terminalExpiries
      ensures Valid() && (Books(), results) == Admission.Complete(old(Books()), items, now)
    {
      hide CountersAgree;
      hide Backed;
      hide TerminalsQueued;
      hide LeasesQueued;
      hide CompleteOne;
      Expire(now);
      ghost var live := Books();
      results := [];
      for i := 0 to |items|
        invariant Valid() && (Books(), results) == CompleteAll(live, items[..i], now)
      {
        assert items[..i + 1][..i] == items[..i];
        var result := CompleteLease(items[i], now);
        results := results + [result];
      }
      assert items[..|items|] == items;
    }

    /** The live leases of a pool, answered from the counter. */
    method PoolInflight(pool: int, now: Time) returns (count: int)
      requires Valid()
      modifies this, expiries, terminalExpiries
      ensures Valid() && Books() == Admission.Expire(old(Books()), now)
      ensures count == |PoolLeases(Books(), pool)|
    {
      Expire(now);
      count := Count(poolInflight, pool);
    }
  }

  lemma SomeQueued(receipts: map<Id, Receipt>, q: multiset<Entry>)
    requires TerminalsQueued(receipts, q)
    ensures (exists id :: id in receipts && receipts[id].retainUntil.Some?) ==> |q| > 0
  {
    if id :| id in receipts && receipts[id].retainUntil.Some? {
      assert Entry(receipts[id].retainUntil.value, id, AdmissionReceipt) in q;
    }
  }

  lemma OldestIsVictim(s: Ledger, capacity: nat, e: Entry, q: multiset<Entry>)
    requires TerminalsQueued(s.receipts, q) && |s.receipts| >= capacity
    requires e.id in s.receipts && s.receipts[e.id].retainUntil == Some(e.at)
    requires forall x :: x in q ==> e.at <= x.at
    ensures Victim(s, capacity, Some(e.id))
  {
    forall id | id in s.receipts && s.receipts[id].retainUntil.Some?
      ensures e.at <= s.receipts[id].retainUntil.value
    {
      assert Entry(s.receipts[id].retainUntil.value, id, AdmissionReceipt) in q;
    }
  }

  lemma TerminalMore(receipts: map<Id, Receipt>, id: Id, r: Receipt, q: multiset<Entry>)
    requires TerminalsQueued(receipts, q)
    ensures r.retainUntil.None? ==> TerminalsQueued(receipts[id := r], q)
    ensures r.retainUntil.Some? ==>
              TerminalsQueued(receipts[id := r], q + multiset{Entry(r.retainUntil.value, id, AdmissionReceipt)})
  {
  }

  lemma LeaseMore(leases: map<Id, Lease>, id: Id, l: Lease, q: multiset<Entry>)
    requires LeasesQueued(leases, q)
    ensures LeasesQueued(leases[id := l], q + multiset{Entry(l.expiresAt, id, AdmissionLease)})
  {
  }

  /** A receipt without a lease changes neither the pairing nor the counts. */
  lemma OtherReceipt(s: Ledger, t: Ledger, id: Id, clients: Counters, pools: Counters, lower: Counters)
    requires id !in s.leases && id in t.receipts && t == s.(receipts := s.receipts[id := t.receipts[id]])
    requires Backed(s) && CountersAgree(s, clients, pools, lower)
    ensures Backed(t) && CountersAgree(t, clients, pools, lower)
  {
    SameCounts(s, t, clients, pools, lower);
  }

  lemma NoLease(s: Ledger, id: Id)
    requires Backed(s) && id !in s.receipts
    ensures id !in s.leases
  {
  }

  lemma AdmissionInserted(s: Ledger, t: Ledger, id: Id)
    requires Backed(s) && id !in s.receipts && id in t.receipts && id in t.leases
    requires t == s.(receipts := s.receipts[id := t.receipts[id]], leases := s.leases[id := t.leases[id]])
    requires Active(t.receipts[id]) && t.leases[id].leaseId == id
    requires t.leases[id].clientId == t.receipts[id].request.clientId && t.leases[id].poolId == t.receipts[id].request.poolId
    ensures Backed(t) && Inserted(s, t, id)
  {
  }

  /** Rates are judged from the rates alone. */
  lemma RatesAlone(s: Ledger, t: Ledger, r: Request, now: Time, policies: Policies)
    requires s.rates == t.rates && r.clientId in policies
    ensures JudgeRates(s, r, now, policies) == JudgeRates(t, r, now, policies)
  {
  }

  lemma RatesIndexed(s: Ledger, t: Ledger, clients: Counters, pools: Counters, lower: Counters)
    requires s.leases == t.leases && s.receipts == t.receipts
    requires Backed(s) && CountersAgree(s, clients, pools, lower)
    ensures Backed(t) && CountersAgree(t, clients, pools, lower)
  {
    SameCounts(s, t, clients, pools, lower);
  }

  lemma AdmittedLease(s: Ledger, r: Request, now: Time)
    ensures Judge(s, r, now).decision.Admitted? ==> Judge(s, r, now).decision.lease == NewLease(r, now)
  {
  }

  function Dropped(s: Ledger, id: Id): Ledger {
    s.(leases := s.leases - {id})
  }

  function Closed(s: Ledger, id: Id, usage: Option<Usage>, completion: Completion, now: Time): Ledger
    requires id in s.receipts
  {
    var kept := s.receipts[id];
    var closed := kept.(completion := Some(completion), retainUntil := Some(Boundary(kept.request.startedAt, now)));
    Ledger(s.receipts[id := closed], s.leases - {id}, Charge(s, kept.request, usage, now), s.policies)
  }

  lemma ChargeAlone(s: Ledger, t: Ledger, r: Request, usage: Option<Usage>, now: Time)
    requires s.rates == t.rates && s.policies == t.policies
    ensures Charge(s, r, usage, now) == Charge(t, r, usage, now)
  {
  }

  lemma NothingLost(s: Ledger, now: Time)
    ensures MarkLost(s, {}, now) == s
  {
    assert MarkLost(s, {}, now).receipts == s.receipts;
    assert MarkLost(s, {}, now).leases == s.leases;
  }

  lemma LoseMore(s: Ledger, lost: set<Id>, id: Id, now: Time)
    requires Backed(s) && id in MarkLost(s, lost, now).leases && MarkLost(s, lost, now).leases[id].expiresAt <= now
    ensures id in DueLeases(s, now)
    ensures MarkLost(MarkLost(s, lost, now), {id}, now) == MarkLost(s, lost + {id}, now)
  {
    var a, b := MarkLost(MarkLost(s, lost, now), {id}, now), MarkLost(s, lost + {id}, now);
    assert a.leases == b.leases;
    assert a.receipts == b.receipts;
  }

  lemma ForgetMore(s: Ledger, gone: set<Id>, more: set<Id>, now: Time)
    requires gone <= Overdue(s, now) && more <= Overdue(Forget(s, gone), now)
    ensures gone + more <= Overdue(s, now) && Forget(Forget(s, gone), more) == Forget(s, gone + more)
  {
    assert s.receipts - gone - more == s.receipts - (gone + more);
  }

  lemma OverdueAt(s: Ledger, id: Id, now: Time)
    requires id in s.receipts && s.receipts[id].retainUntil.Some? && s.receipts[id].retainUntil.value <= now
    ensures id in Overdue(s, now)
  {
  }

  lemma NothingForgotten(s: Ledger)
    ensures Forget(s, {}) == s
  {
    assert s.receipts - {} == s.receipts;
  }

  /** Popping one entry leaves every other lease queued. */
  lemma QueuedWithout(leases: map<Id, Lease>, removed: set<Id>, q: multiset<Entry>, e: Entry)
    requires LeasesQueued(leases, q)
    requires e.kind == AdmissionLease && e.id in leases && leases[e.id].expiresAt == e.at ==> e.id in removed
    ensures LeasesQueued(leases - removed, q - multiset{e})
    ensures removed == {} ==> LeasesQueued(leases, q - multiset{e})
  {
    assert removed == {} ==> leases - removed == leases;
  }

  lemma KeptWithout(receipts: map<Id, Receipt>, removed: set<Id>, q: multiset<Entry>, e: Entry)
    requires TerminalsQueued(receipts, q)
    requires e.id in receipts && receipts[e.id].retainUntil == Some(e.at) ==> e.id in removed
    ensures TerminalsQueued(receipts - removed, q - multiset{e})
    ensures removed == {} ==> TerminalsQueued(receipts, q - multiset{e})
  {
    assert removed == {} ==> receipts - removed == receipts;
  }

  lemma NoneDue(s: Ledger, q: multiset<Entry>, now: Time)
    requires LeasesQueued(s.leases, q) && forall x :: x in q ==> x.at > now
    ensures DueLeases(s, now) == {}
  {
    forall id
      ensures id !in DueLeases(s, now)
    {
      assert id in s.leases ==> Entry(s.leases[id].expiresAt, id, AdmissionLease) in q;
    }
  }

  lemma NoneOverdue(s: Ledger, q: multiset<Entry>, now: Time)
    requires TerminalsQueued(s.receipts, q) && forall x :: x in q ==> x.at > now
    ensures Overdue(s, now) == {}
  {
    forall id
      ensures id !in Overdue(s, now)
    {
      assert id in s.receipts && s.receipts[id].retainUntil.Some? ==>
          Entry(s.receipts[id].retainUntil.value, id, AdmissionReceipt) in q;
    }
  }

  lemma AllLost(s: Ledger, lost: set<Id>, now: Time)
    requires lost <= DueLeases(s, now) && DueLeases(MarkLost(s, lost, now), now) == {}
    ensures lost == DueLeases(s, now)
  {
    forall id | id in DueLeases(s, now)
      ensures id in lost
    {
      assert id in lost || id in DueLeases(MarkLost(s, lost, now), now);
    }
  }

  lemma AllForgotten(s: Ledger, gone: set<Id>, now: Time)
    requires gone <= Overdue(s, now) && Overdue(Forget(s, gone), now) == {}
    ensures gone == Overdue(s, now)
  {
    forall id | id in Overdue(s, now)
      ensures id in gone
    {
      assert id in gone || id in Overdue(Forget(s, gone), now);
    }
  }

}
