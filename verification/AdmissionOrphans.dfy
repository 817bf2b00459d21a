/** Operations that are still open but have no lease: which steps make them, and what becomes of them. */
module AdmissionOrphans {
  import opened ExpiryQueue
  import opened Admission
  import opened AdmissionRuns
  import opened AdmissionLimits

  /** The operation is still open and does not hold its lease. */
  predicate Orphan(s: Ledger, id: Id) {
    id in s.receipts && Active(s.receipts[id]) && id !in s.leases
  }

  ghost predicate NoOrphans(s: Ledger) {
    forall id :: !Orphan(s, id)
  }

  /** The renewal names a live lease under another client or pool. */
  predicate Impostor(s: Ledger, want: Lease) {
    want.leaseId in s.leases
    && (s.leases[want.leaseId].clientId != want.clientId || s.leases[want.leaseId].poolId != want.poolId)
  }

  // Renewals

  lemma RenewOneOrphans(s: Ledger, want: Lease, now: Time)
    requires Backed(s) && NoOrphans(s) && DueLeases(s, now) == {}
    ensures NoOrphans(RenewOne(s, want, now).0) <==> !Impostor(s, want)
  {
    var t := RenewOne(s, want, now).0;
    if Impostor(s, want) {
      assert Orphan(t, want.leaseId);
    } else if want.leaseId in s.leases {
      assert want.leaseId !in DueLeases(s, now);
      assert Holds(s, want, now);
      forall id
        ensures !Orphan(t, id)
      {
        assert !Orphan(s, id);
      }
    } else {
      forall id
        ensures !Orphan(t, id)
      {
        assert !Orphan(s, id);
      }
    }
  }

  /** A renewal under the right names changes no one's names. */
  lemma SameNames(s: Ledger, want: Lease, now: Time, other: Lease)
    requires Backed(s) && DueLeases(s, now) == {} && !Impostor(s, want)
    ensures DueLeases(RenewOne(s, want, now).0, now) == {}
    ensures Impostor(RenewOne(s, want, now).0, other) <==> Impostor(s, other)
  {
    assert want.leaseId !in DueLeases(s, now);
    var t := RenewOne(s, want, now).0;
    forall id
      ensures id !in DueLeases(t, now)
    {
      assert id !in DueLeases(s, now);
    }
  }

  lemma {:induction false} HonestRenewals(s: Ledger, wants: seq<Lease>, now: Time, other: Lease)
    requires Backed(s) && NoOrphans(s) && DueLeases(s, now) == {}
    requires forall k :: 0 <= k < |wants| ==> !Impostor(s, wants[k])
    ensures var t := RenewAll(s, wants, now).0;
            Backed(t) && NoOrphans(t) && DueLeases(t, now) == {} && (Impostor(t, other) <==> Impostor(s, other))
    decreases |wants|
  {
    hide DueLeases;
    hide Backed;
    hide NoOrphans;
    hide Impostor;
    if wants == [] {
    } else {
      var init, last := wants[..|wants| - 1], wants[|wants| - 1];
      HonestRenewals(s, init, now, last);
      HonestRenewals(s, init, now, other);
      var mid := RenewAll(s, init, now).0;
      hide RenewOne;
      RenewOneOrphans(mid, last, now);
      SameNames(mid, last, now, other);
      RenewKeepsBacked(s, wants, now);
    }
  }

  lemma {:induction false} RenewalsKeepOrphan(s: Ledger, wants: seq<Lease>, now: Time, id: Id)
    requires Orphan(s, id)
    ensures Orphan(RenewAll(s, wants, now).0, id) && RenewAll(s, wants, now).0.receipts[id] == s.receipts[id]
    decreases |wants|
  {
    if wants == [] {
    } else {
      RenewalsKeepOrphan(s, wants[..|wants| - 1], now, id);
    }
  }

  lemma {:induction false} DishonestRenewals(s: Ledger, wants: seq<Lease>, now: Time, k: nat) returns (id: Id)
    requires Backed(s) && NoOrphans(s) && DueLeases(s, now) == {} && k < |wants| && Impostor(s, wants[k])
    ensures Orphan(RenewAll(s, wants, now).0, id)
    decreases |wants|
  {
    var init, last := wants[..|wants| - 1], wants[|wants| - 1];
    assert k == |init| || wants[k] == init[k];
    if j: nat :| j < |init| && Impostor(s, init[j]) {
      id := DishonestRenewals(s, init, now, j);
      RenewalsKeepOrphan(RenewAll(s, init, now).0, [last], now, id);
      JustOne(RenewAll(s, init, now).0, last, now);
    } else {
      HonestRenewals(s, init, now, last);
      RenewOneOrphans(RenewAll(s, init, now).0, last, now);
      id :| Orphan(RenewAll(s, wants, now).0, id);
    }
  }

  lemma JustOne(s: Ledger, want: Lease, now: Time)
    ensures RenewAll(s, [want], now).0 == RenewOne(s, want, now).0
  {
    assert [want][..0] == [];
    assert RenewAll(s, [], now).0 == s;
  }

  // The other operations make none

  lemma {:induction false} CompleteLeavesNoOrphans(s: Ledger, items: seq<Item>, now: Time)
    requires NoOrphans(s)
    ensures NoOrphans(CompleteAll(s, items, now).0)
    decreases |items|
  {
    if items == [] {
    } else {
      var init, last := items[..|items| - 1], items[|items| - 1];
      CompleteLeavesNoOrphans(s, init, now);
      var mid := CompleteAll(s, init, now).0;
      forall id
        ensures !Orphan(CompleteOne(mid, last, now).0, id)
      {
        assert !Orphan(mid, id);
      }
    }
  }

  lemma RecordLeavesNoOrphans(s: Ledger, r: Request, now: Time)
    requires NoOrphans(s)
    ensures NoOrphans(Record(s, r, now, Judge(s, r, now)))
  {
    hide Judge;
    forall id
      ensures !Orphan(Record(s, r, now, Judge(s, r, now)), id)
    {
      assert !Orphan(s, id);
    }
  }

  lemma EvictLeavesNoOrphans(s: Ledger, victim: Option<Id>)
    requires NoOrphans(s)
    ensures NoOrphans(Evict(s, victim))
  {
    forall id
      ensures !Orphan(Evict(s, victim), id)
    {
      assert !Orphan(s, id);
    }
  }

  lemma ExpireLeavesNoOrphans(s: Ledger, now: Time)
    requires NoOrphans(s)
    ensures NoOrphans(Expire(s, now))
  {
    forall id
      ensures !Orphan(Expire(s, now), id)
    {
      assert !Orphan(s, id);
    }
  }

  lemma AcquireLeavesNoOrphans(s: Ledger, r: Request, now: Time, capacity: nat, victim: Option<Id>)
    requires NoOrphans(s)
    ensures NoOrphans(Acquire(s, r, now, capacity, victim).0)
  {
    ExpireLeavesNoOrphans(s, now);
    var live := Expire(s, now);
    hide Expire;
    hide NoOrphans;
    hide Record;
    hide Judge;
    EvictLeavesNoOrphans(live, victim);
    RecordLeavesNoOrphans(Evict(live, victim), r, now);
  }

  ghost predicate Honest(s: Ledger, e: Event) {
    e.op.RenewOp? ==> forall k :: 0 <= k < |e.op.wants| ==> !Impostor(Expire(s, e.now), e.op.wants[k])
  }

  /** An operation leaves an open operation without its lease if and only if it is a renewal that names
  a live lease under another client or pool. */
  lemma OrphansExactly(s: Ledger, e: Event, capacity: nat)
    requires Backed(s) && NoOrphans(s)
    ensures NoOrphans(Step(s, e, capacity)) <==> Honest(s, e)
  {
    var live := Expire(s, e.now);
    ExpireKeepsBacked(s, e.now);
    ExpireLeavesNoOrphans(s, e.now);
    hide Expire;
    match e.op
    case AcquireOp(r, victim) => AcquireLeavesNoOrphans(s, r, e.now, capacity, victim); hide Acquire;
    case RenewOp(wants) =>
      if Honest(s, e) {
        HonestRenewals(live, wants, e.now, Lease(0, 0, 0, "", 0, 0, 0));
      } else {
        var k: nat :| k < |wants| && Impostor(live, wants[k]);
        var id := DishonestRenewals(live, wants, e.now, k);
      }
    case CompleteOp(items) => CompleteLeavesNoOrphans(live, items, e.now);
    case ObserveOp(_, _) =>
      forall id
        ensures !Orphan(Step(s, e, capacity), id)
      {
        assert !Orphan(s, id);
      }
    case QueryOp =>
  }

  ghost predicate HonestRun(run: seq<Event>, capacity: nat) {
    forall i :: 0 <= i < |run| ==> Honest(After(Empty, run[..i], capacity), run[i])
  }

  lemma PrefixLawful(run: seq<Event>, capacity: nat, i: nat)
    requires LawfulRun(run, capacity) && i <= |run|
    ensures LawfulRun(run[..i], capacity)
  {
    hide After;
    hide Lawful;
    assert forall k :: 0 <= k < i ==> run[..i][..k] == run[..k];
  }

  lemma {:induction false} RunKeepsBacked(run: seq<Event>, capacity: nat)
    requires LawfulRun(run, capacity)
    ensures Backed(After(Empty, run, capacity))
    decreases |run|
  {
    hide Step;
    hide Lawful;
    if run == [] {
    } else {
      var init := run[..|run| - 1];
      PrefixLawful(run, capacity, |init|);
      RunKeepsBacked(init, capacity);
      hide Backed;
      StepKeepsBacked(After(Empty, init, capacity), run[|run| - 1], capacity);
    }
  }

  /** While every renewal uses the names its lease was issued under, no operation is open without a lease. */
  lemma {:induction false} HonestRunsLeaveNoOrphans(run: seq<Event>, capacity: nat)
    requires LawfulRun(run, capacity) && HonestRun(run, capacity)
    ensures NoOrphans(After(Empty, run, capacity))
    decreases |run|
  {
    hide Step;
    hide Lawful;
    if run == [] {
    } else {
      var init := run[..|run| - 1];
      PrefixLawful(run, capacity, |init|);
      assert forall k :: 0 <= k < |init| ==> init[..k] == run[..k];
      HonestRunsLeaveNoOrphans(init, capacity);
      RunKeepsBacked(init, capacity);
      OrphansExactly(After(Empty, init, capacity), run[|run| - 1], capacity);
    }
  }

  // It does happen

  const Issued := Request(1, 0, "a", 1, 0, 0, 7, 5, 0, 1, 1, 0, 0, Unset, 0, 0, 30 * SECOND)
  const Misnamed := Lease(1, 8, 5, "a", 1, 0, 0)

  lemma IssuedIsAdmitted()
    ensures Acquire(Empty, Issued, 0, 1, None).0.receipts == map[1 := Receipt(Issued, Admitted(NewLease(Issued, 0)), None, false, None)]
    ensures Acquire(Empty, Issued, 0, 1, None).0.leases == map[1 := NewLease(Issued, 0)]
  {
    assert Expire(Empty, 0) == Empty;
    assert ClientLeases(Empty, 7) == {};
    assert LimitDecision(Empty, Issued).None?;
    assert Judge(Empty, Issued, 0).decision == Admitted(NewLease(Issued, 0));
  }

  lemma NothingIsDue(s: Ledger, now: Time)
    requires DueLeases(s, now) == {} && Overdue(s, now) == {}
    ensures Expire(s, now).receipts == s.receipts && Expire(s, now).leases == s.leases
  {
    var lost := MarkLost(s, {}, now);
    assert lost.receipts == s.receipts && lost.leases == s.leases;
    assert Overdue(lost, now) == {};
  }

  lemma MisnamedOrphans(s: Ledger)
    requires s.receipts == map[1 := Receipt(Issued, Admitted(NewLease(Issued, 0)), None, false, None)]
    requires s.leases == map[1 := NewLease(Issued, 0)]
    ensures Orphan(Renew(s, [Misnamed], 1).0, 1)
  {
    assert DueLeases(s, 1) == {} && Overdue(s, 1) == {};
    NothingIsDue(s, 1);
    hide Expire;
    JustOne(Expire(s, 1), Misnamed, 1);
    hide RenewAll;
  }

  lemma TwoSteps(a: Event, b: Event, capacity: nat)
    ensures var run, s := [a, b], Step(Empty, a, capacity);
            && After(Empty, run, capacity) == Step(s, b, capacity)
            && (Lawful(Empty, a, capacity) && Lawful(s, b, capacity) ==> LawfulRun(run, capacity))
  {
    hide Step;
    hide Lawful;
    var run := [a, b];
    assert After(Empty, run[..0], capacity) == Empty;
    assert run[..1][..0] == run[..0] && run[..1][0] == a;
    assert After(Empty, run[..1], capacity) == Step(Empty, a, capacity);
    assert run[..2] == run;
  }

  /** An admission and then a renewal in the name of another client leave the operation without its lease. */
  lemma OrphanIsReached()
    ensures var run := [Event(AcquireOp(Issued, None), 0), Event(RenewOp([Misnamed]), 1)];
            LawfulRun(run, 1) && Orphan(After(Empty, run, 1), 1)
  {
    TwoSteps(Event(AcquireOp(Issued, None), 0), Event(RenewOp([Misnamed]), 1), 1);
    IssuedIsAdmitted();
    hide After;
    hide LawfulRun;
    MisnamedOrphans(Acquire(Empty, Issued, 0, 1, None).0);
    hide Acquire;
    hide Renew;
    assert Expire(Empty, 0).receipts == map[];
  }

  // What becomes of it

  predicate Names(e: Event, id: Id) {
    e.op.CompleteOp? && exists k :: 0 <= k < |e.op.items| && e.op.items[k].leaseId == id
  }

  lemma {:induction false} OthersKeepOrphan(s: Ledger, items: seq<Item>, now: Time, id: Id)
    requires Orphan(s, id) && forall k :: 0 <= k < |items| ==> items[k].leaseId != id
    ensures Orphan(CompleteAll(s, items, now).0, id) && CompleteAll(s, items, now).0.receipts[id] == s.receipts[id]
    decreases |items|
  {
    if items == [] {
    } else {
      OthersKeepOrphan(s, items[..|items| - 1], now, id);
    }
  }

  lemma ExpireKeepsOrphan(s: Ledger, now: Time, id: Id)
    requires Orphan(s, id)
    ensures Orphan(Expire(s, now), id) && Expire(s, now).receipts[id] == s.receipts[id]
  {
  }

  lemma AcquireKeepsOrphan(s: Ledger, r: Request, now: Time, capacity: nat, victim: Option<Id>, id: Id)
    requires Orphan(s, id) && (r.leaseId !in Expire(s, now).receipts ==> Victim(Expire(s, now), capacity, victim))
    ensures var (t, d) := Acquire(s, r, now, capacity, victim);
            && Orphan(t, id) && t.receipts[id] == s.receipts[id]
            && (r.leaseId == id ==> d == Refuse(LeaseLost) || d == Refuse(IdempotencyConflict))
  {
    ExpireKeepsOrphan(s, now, id);
    hide Expire;
    hide Judge;
  }

  lemma StepKeepsOrphan(s: Ledger, e: Event, capacity: nat, id: Id)
    requires Orphan(s, id) && Lawful(s, e, capacity) && !Names(e, id)
    ensures Orphan(Step(s, e, capacity), id) && Step(s, e, capacity).receipts[id] == s.receipts[id]
  {
    ExpireKeepsOrphan(s, e.now, id);
    var live := Expire(s, e.now);
    match e.op
    case AcquireOp(r, victim) => AcquireKeepsOrphan(s, r, e.now, capacity, victim, id); hide Acquire;
    case RenewOp(wants) => RenewalsKeepOrphan(live, wants, e.now, id); hide Expire;
    case CompleteOp(items) => OthersKeepOrphan(live, items, e.now, id); hide Expire;
    case ObserveOp(_, _) =>
    case QueryOp =>
  }

  /** An orphan stays on record as it is, open and without a lease, until a completion names it. */
  lemma {:induction false} OrphanStays(run: seq<Event>, capacity: nat, i: nat, j: nat, id: Id)
    requires LawfulRun(run, capacity) && i <= j <= |run| && Orphan(After(Empty, run[..i], capacity), id)
    requires forall k :: i <= k < j ==> !Names(run[k], id)
    ensures Orphan(After(Empty, run[..j], capacity), id)
    ensures After(Empty, run[..j], capacity).receipts[id] == After(Empty, run[..i], capacity).receipts[id]
    decreases j
  {
    hide Orphan;
    hide Names;
    hide Step;
    hide Lawful;
    if i == j {
    } else {
      OrphanStays(run, capacity, i, j - 1, id);
      assert run[..j][..j - 1] == run[..j - 1];
      StepKeepsOrphan(After(Empty, run[..j - 1], capacity), run[j - 1], capacity, id);
    }
  }

  lemma {:induction false} CompletionFinds(s: Ledger, items: seq<Item>, now: Time, id: Id, k: nat)
    requires Orphan(s, id) && k < |items| && items[k].leaseId == id && forall j :: 0 <= j < k ==> items[j].leaseId != id
    ensures CompleteAll(s, items, now).1[k] == Done(CompletedLost)
    ensures var t := CompleteAll(s, items, now).0;
            id in t.receipts && t.receipts[id].completion == Some(CompletedLost) && t.receipts[id].retainUntil.Some?
    decreases |items|
  {
    var init, last := items[..|items| - 1], items[|items| - 1];
    if k == |init| {
      OthersKeepOrphan(s, init, now, id);
    } else {
      CompletionFinds(s, init, now, id, k);
    }
  }

  /** The first completion that names it finds its lease lost and closes it. */
  lemma CompletionClosesOrphan(s: Ledger, items: seq<Item>, now: Time, capacity: nat, id: Id, k: nat)
    requires Orphan(s, id) && k < |items| && items[k].leaseId == id && forall j :: 0 <= j < k ==> items[j].leaseId != id
    ensures Complete(s, items, now).1[k] == Done(CompletedLost)
    ensures var t := Step(s, Event(CompleteOp(items), now), capacity);
            && id in t.receipts && t.receipts[id].completion == Some(CompletedLost) && t.receipts[id].retainUntil.Some?
            && !Orphan(t, id)
  {
    ExpireKeepsOrphan(s, now, id);
    hide Expire;
    CompletionFinds(Expire(s, now), items, now, id, k);
  }
}
