/** What the admission protocol keeps over whole runs: any operations, in any order, for any number
of clients and pools, on a clock that does not go back. */
module AdmissionRuns {
  import opened ExpiryQueue
  import opened Admission

  datatype Op =
    | AcquireOp(r: Request, victim: Option<Id>)
    | RenewOp(wants: seq<Lease>)
    | CompleteOp(items: seq<Item>)
    | ObserveOp(client: int, policy: RatePolicy)
    | QueryOp

  datatype Event = Event(op: Op, now: Time)

  function Step(s: Ledger, e: Event, capacity: nat): Ledger {
    match e.op
    case AcquireOp(r, victim) => Acquire(s, r, e.now, capacity, victim).0
    case RenewOp(wants) => Renew(s, wants, e.now).0
    case CompleteOp(items) => Complete(s, items, e.now).0
    case ObserveOp(client, policy) => s.(policies := Observe(s.policies, client, policy))
    case QueryOp => Expire(s, e.now)
  }

  function After(s: Ledger, run: seq<Event>, capacity: nat): Ledger {
    if run == [] then s else Step(After(s, run[..|run| - 1], capacity), run[|run| - 1], capacity)
  }

  ghost predicate Clocked(run: seq<Event>) {
    forall i, j :: 0 <= i < j < |run| ==> run[i].now <= run[j].now
  }

  /** A request without a receipt is judged and admitted: a lease is created, and with a positive
  rate one request is debited. Answers replayed from a receipt are not admissions in this sense. */
  predicate Fresh(s: Ledger, e: Event, capacity: nat, r: Request) {
    && e.op.AcquireOp? && e.op.r == r
    && r.leaseId !in Expire(s, e.now).receipts
    && Acquire(s, r, e.now, capacity, e.op.victim).1.Admitted?
  }

  /** The receipt of `id` is given up for capacity while it is still retained. */
  predicate Evicts(s: Ledger, e: Event, id: Id) {
    && e.op.AcquireOp? && e.op.victim == Some(id)
    && e.op.r.leaseId !in Expire(s, e.now).receipts && id in Expire(s, e.now).receipts
  }

  // Receipts over a batch

  lemma {:induction false} RenewKeepsReceipts(s: Ledger, wants: seq<Lease>, now: Time)
    ensures RenewAll(s, wants, now).0.receipts == s.receipts
    ensures RenewAll(s, wants, now).0.rates == s.rates && RenewAll(s, wants, now).0.policies == s.policies
    decreases |wants|
  {
    if wants != [] {
      RenewKeepsReceipts(s, wants[..|wants| - 1], now);
    }
  }

  // 1. The same request is admitted at most once while its receipt is not evicted

  /** `r` is remembered, or too old to be admitted again. */
  predicate Remembered(s: Ledger, now: Time, r: Request) {
    || now >= r.startedAt + RETENTION
    || (r.leaseId in s.receipts && s.receipts[r.leaseId].request == r
        && (s.receipts[r.leaseId].retainUntil.Some? ==> s.receipts[r.leaseId].retainUntil.value >= r.startedAt + RETENTION))
  }

  lemma ExpireRemembers(s: Ledger, before: Time, now: Time, r: Request)
    requires Remembered(s, before, r) && before <= now
    ensures Remembered(Expire(s, now), now, r)
  {
  }

  lemma {:induction false} CompleteRemembers(s: Ledger, items: seq<Item>, now: Time, r: Request)
    requires Remembered(s, now, r)
    ensures Remembered(CompleteAll(s, items, now).0, now, r)
    decreases |items|
  {
    if items != [] {
      CompleteRemembers(s, items[..|items| - 1], now, r);
    }
  }

  lemma StepRemembers(s: Ledger, before: Time, e: Event, capacity: nat, r: Request)
    requires Remembered(s, before, r) && before <= e.now && !Evicts(s, e, r.leaseId)
    ensures Remembered(Step(s, e, capacity), e.now, r)
  {
    hide Expire;
    ExpireRemembers(s, before, e.now, r);
    match e.op
    case AcquireOp(q, victim) =>
      hide Judge;
    case RenewOp(wants) => RenewKeepsReceipts(Expire(s, e.now), wants, e.now);
    case CompleteOp(items) => CompleteRemembers(Expire(s, e.now), items, e.now, r);
    case ObserveOp(_, _) =>
    case QueryOp =>
  }

  lemma AdmissionRemembers(s: Ledger, e: Event, capacity: nat, r: Request)
    requires Fresh(s, e, capacity, r)
    ensures Remembered(Step(s, e, capacity), e.now, r)
  {
    hide Expire;
    hide Judge;
  }

  lemma RememberedIsNotFresh(s: Ledger, before: Time, e: Event, capacity: nat, r: Request)
    requires Remembered(s, before, r) && before <= e.now
    ensures !Fresh(s, e, capacity, r)
  {
    ExpireRemembers(s, before, e.now, r);
    hide Expire;
  }

  lemma AfterNext(s: Ledger, run: seq<Event>, capacity: nat, j: nat)
    requires 0 < j <= |run|
    ensures After(s, run[..j], capacity) == Step(After(s, run[..j - 1], capacity), run[j - 1], capacity)
  {
    hide Step;
    assert run[..j][..j - 1] == run[..j - 1];
  }

  lemma {:induction false} RemembersUntil(s: Ledger, run: seq<Event>, capacity: nat, r: Request, i: nat, j: nat)
    requires Clocked(run) && i < j <= |run| && Fresh(After(s, run[..i], capacity), run[i], capacity, r)
    requires forall k :: i < k < j ==> !Evicts(After(s, run[..k], capacity), run[k], r.leaseId)
    ensures Remembered(After(s, run[..j], capacity), run[j - 1].now, r)
    decreases j
  {
    hide Fresh;
    hide Evicts;
    hide Remembered;
    hide Step;
    hide After;
    AfterNext(s, run, capacity, j);
    var before := After(s, run[..j - 1], capacity);
    if j == i + 1 {
      AdmissionRemembers(before, run[i], capacity, r);
    } else {
      RemembersUntil(s, run, capacity, r, i, j - 1);
      StepRemembers(before, run[j - 2].now, run[j - 1], capacity, r);
    }
  }

  /** Retention and staleness interlock: a request admitted at `i` is admitted again at `j` only if
  its receipt was evicted in between. */
  lemma AdmittedAtMostOnce(s: Ledger, run: seq<Event>, capacity: nat, r: Request, i: nat, j: nat)
    requires Clocked(run) && i < j < |run|
    requires Fresh(After(s, run[..i], capacity), run[i], capacity, r)
    requires Fresh(After(s, run[..j], capacity), run[j], capacity, r)
    ensures exists k :: i < k < j && Evicts(After(s, run[..k], capacity), run[k], r.leaseId)
  {
    hide Fresh;
    hide Evicts;
    if forall k :: i < k < j ==> !Evicts(After(s, run[..k], capacity), run[k], r.leaseId) {
      RemembersUntil(s, run, capacity, r, i, j);
      RememberedIsNotFresh(After(s, run[..j], capacity), run[j - 1].now, run[j], capacity, r);
      assert false;
    }
  }

  // 2. A lease's usage is charged at most once

  /** Completing `id` now would neither charge nor change anything. */
  predicate Settled(s: Ledger, id: Id) {
    id in s.receipts ==> !s.receipts[id].decision.Admitted? || s.receipts[id].completion.Some?
  }

  lemma SettledCompletesNothing(s: Ledger, item: Item, now: Time)
    requires Settled(s, item.leaseId)
    ensures !CompleteOne(s, item, now).1.Done? && CompleteOne(s, item, now).0 == s
  {
  }

  lemma DoneSettles(s: Ledger, item: Item, now: Time)
    ensures Settled(CompleteOne(s, item, now).0, item.leaseId)
    ensures forall id :: Settled(s, id) ==> Settled(CompleteOne(s, item, now).0, id)
  {
  }

  lemma {:induction false} BatchSettles(s: Ledger, items: seq<Item>, now: Time, id: Id)
    requires Settled(s, id) || exists k :: 0 <= k < |items| && items[k].leaseId == id
    ensures Settled(CompleteAll(s, items, now).0, id)
    decreases |items|
  {
    if items != [] {
      var init, last := items[..|items| - 1], items[|items| - 1];
      var before := CompleteAll(s, init, now).0;
      DoneSettles(before, last, now);
      if last.leaseId != id {
        assert Settled(s, id) || exists k :: 0 <= k < |init| && init[k].leaseId == id;
        BatchSettles(s, init, now, id);
      }
    }
  }

  /** In one batch and in a settled ledger, a lease is charged for at most one of its items. */
  lemma {:induction false} BatchChargesOnce(s: Ledger, items: seq<Item>, now: Time, i: nat, j: nat)
    requires i < j < |items| && items[i].leaseId == items[j].leaseId
    ensures !CompleteAll(s, items, now).1[j].Done?
    decreases |items|
  {
    var init, last := items[..|items| - 1], items[|items| - 1];
    if j < |items| - 1 {
      BatchChargesOnce(s, init, now, i, j);
    } else {
      assert init[i].leaseId == last.leaseId;
      BatchSettles(s, init, now, last.leaseId);
      SettledCompletesNothing(CompleteAll(s, init, now).0, last, now);
    }
  }

  lemma ExpireSettles(s: Ledger, now: Time, id: Id)
    requires Settled(s, id)
    ensures Settled(Expire(s, now), id)
  {
  }

  lemma StepSettles(s: Ledger, e: Event, capacity: nat, id: Id)
    requires Settled(s, id) && !(e.op.AcquireOp? && e.op.r.leaseId == id && Fresh(s, e, capacity, e.op.r))
    ensures Settled(Step(s, e, capacity), id)
  {
    hide Expire;
    ExpireSettles(s, e.now, id);
    match e.op
    case AcquireOp(r, victim) =>
      hide Judge;
    case RenewOp(wants) => RenewKeepsReceipts(Expire(s, e.now), wants, e.now);
    case CompleteOp(items) => BatchSettles(Expire(s, e.now), items, e.now, id);
    case ObserveOp(_, _) =>
    case QueryOp =>
  }

  predicate Completes(s: Ledger, e: Event, id: Id) {
    && e.op.CompleteOp?
    && exists k :: 0 <= k < |e.op.items| && e.op.items[k].leaseId == id && Complete(s, e.op.items, e.now).1[k].Done?
  }

  lemma {:induction false} SettledBatchCompletesNothing(s: Ledger, items: seq<Item>, now: Time, k: nat)
    requires k < |items| && Settled(s, items[k].leaseId)
    ensures !CompleteAll(s, items, now).1[k].Done?
    decreases |items|
  {
    var init, last := items[..|items| - 1], items[|items| - 1];
    if k < |init| {
      SettledBatchCompletesNothing(s, init, now, k);
    } else {
      BatchSettles(s, init, now, last.leaseId);
      SettledCompletesNothing(CompleteAll(s, init, now).0, last, now);
    }
  }

  lemma SettledDoesNotComplete(s: Ledger, e: Event, id: Id)
    requires Settled(s, id)
    ensures !Completes(s, e, id)
  {
    if e.op.CompleteOp? {
      var live := Expire(s, e.now);
      ExpireSettles(s, e.now, id);
      forall k | 0 <= k < |e.op.items| && e.op.items[k].leaseId == id
        ensures !Complete(s, e.op.items, e.now).1[k].Done?
      {
        SettledBatchCompletesNothing(live, e.op.items, e.now, k);
      }
    }
  }

  lemma {:induction false} SettledUntil(s: Ledger, run: seq<Event>, capacity: nat, id: Id, i: nat, j: nat)
    requires i < j <= |run| && Settled(After(s, run[..i + 1], capacity), id)
    requires forall k :: i < k < j && run[k].op.AcquireOp? && run[k].op.r.leaseId == id ==>
               !Fresh(After(s, run[..k], capacity), run[k], capacity, run[k].op.r)
    ensures Settled(After(s, run[..j], capacity), id)
    decreases j
  {
    hide Fresh;
    hide Step;
    hide After;
    if j > i + 1 {
      AfterNext(s, run, capacity, j);
      SettledUntil(s, run, capacity, id, i, j - 1);
      StepSettles(After(s, run[..j - 1], capacity), run[j - 1], capacity, id);
    }
  }

  lemma CompletionNames(s: Ledger, e: Event, id: Id)
    requires Completes(s, e, id)
    ensures e.op.CompleteOp? && exists k :: 0 <= k < |e.op.items| && e.op.items[k].leaseId == id
  {
  }

  lemma CompletingSettles(s: Ledger, e: Event, capacity: nat, id: Id)
    requires e.op.CompleteOp? && exists k :: 0 <= k < |e.op.items| && e.op.items[k].leaseId == id
    ensures Settled(Step(s, e, capacity), id)
  {
    BatchSettles(Expire(s, e.now), e.op.items, e.now, id);
  }

  /** Whatever is retried, in whatever order: between two completions that took effect for the same
  lease identifier there is a new admission under that identifier. */
  lemma CompletedAtMostOnce(s: Ledger, run: seq<Event>, capacity: nat, id: Id, i: nat, j: nat)
    requires i < j < |run|
    requires Completes(After(s, run[..i], capacity), run[i], id)
    requires Completes(After(s, run[..j], capacity), run[j], id)
    ensures exists k ::
              && i < k < j && run[k].op.AcquireOp? && run[k].op.r.leaseId == id
              && Fresh(After(s, run[..k], capacity), run[k], capacity, run[k].op.r)
  {
    hide Fresh;
    hide Completes;
    if forall k :: i < k < j && run[k].op.AcquireOp? && run[k].op.r.leaseId == id ==>
         !Fresh(After(s, run[..k], capacity), run[k], capacity, run[k].op.r) {
      AfterNext(s, run, capacity, i + 1);
      CompletionNames(After(s, run[..i], capacity), run[i], id);
      CompletingSettles(After(s, run[..i], capacity), run[i], capacity, id);
      SettledUntil(s, run, capacity, id, i, j);
      SettledDoesNotComplete(After(s, run[..j], capacity), run[j], id);
      assert false;
    }
  }
}
