/** The life of a lease, told by the events alone: it runs from the admission that created it, each
renewal that names it rightly sets it a new end, and it is over with its end, with a completion that
names it or with a renewal that names it under another client or pool. The live leases of every
reachable ledger are exactly the leases that run in this sense. */
module AdmissionLeases {
  import opened ExpiryQueue
  import opened Admission
  import opened AdmissionRuns
  import opened AdmissionLimits
  import opened AdmissionOrphans

  /** The renewal names the lease. */
  predicate Asks(wants: seq<Lease>, id: Id) {
    exists k :: 0 <= k < |wants| && wants[k].leaseId == id
  }

  /** The renewal names the lease under another client or pool. */
  predicate Misnames(wants: seq<Lease>, l: Lease) {
    exists k :: 0 <= k < |wants| && wants[k].leaseId == l.leaseId && (wants[k].clientId != l.clientId || wants[k].poolId != l.poolId)
  }

  /** What becomes of a lease: nothing is left of it, or it has a new end. */
  function Next(l: Lease, e: Event): Option<Lease> {
    if e.op.ObserveOp? then Some(l)
    else if l.expiresAt <= e.now || Names(e, l.leaseId) then None
    else if !e.op.RenewOp? || !Asks(e.op.wants, l.leaseId) then Some(l)
    else if Misnames(e.op.wants, l) then None
    else Some(l.(expiresAt := e.now + l.ttl))
  }

  /** The lease a request is given. */
  function LeaseFor(r: Request, now: Time): Lease {
    Lease(r.leaseId, r.clientId, r.poolId, r.requestId, r.replicaId, now + r.ttl, r.ttl)
  }

  /** What `j` events leave of the lease created by the request at `i`. */
  function Leased(run: seq<Event>, i: nat, j: nat): Option<Lease>
    requires i < j <= |run| && run[i].op.AcquireOp?
  {
    if j == i + 1 then Some(LeaseFor(run[i].op.r, run[i].now))
    else
      match Leased(run, i, j - 1)
      case None => None
      case Some(l) => Next(l, run[j - 1])
  }

  // Renewals and completions in a batch

  lemma {:induction false} RenewedAway(s: Ledger, wants: seq<Lease>, now: Time, id: Id)
    requires id !in s.leases
    ensures id !in RenewAll(s, wants, now).0.leases
    decreases |wants|
  {
    if wants == [] {
    } else {
      RenewedAway(s, wants[..|wants| - 1], now, id);
    }
  }

  lemma {:induction false} RenewedLease(s: Ledger, wants: seq<Lease>, now: Time, l: Lease)
    requires l.leaseId in s.leases && s.leases[l.leaseId] == l && l.ttl > 0 && l.expiresAt > now
    ensures var t := RenewAll(s, wants, now).0;
            if Misnames(wants, l) then l.leaseId !in t.leases
            else l.leaseId in t.leases
                 && t.leases[l.leaseId] == if Asks(wants, l.leaseId) then l.(expiresAt := now + l.ttl) else l
    decreases |wants|
  {
    if wants == [] {
    } else {
      var init, want := wants[..|wants| - 1], wants[|wants| - 1];
      RenewedLease(s, init, now, l);
      assert forall k :: 0 <= k < |init| ==> init[k] == wants[k];
      assert Asks(wants, l.leaseId) <==> Asks(init, l.leaseId) || want.leaseId == l.leaseId;
      assert Misnames(wants, l) <==>
          Misnames(init, l) || (want.leaseId == l.leaseId && (want.clientId != l.clientId || want.poolId != l.poolId));
      hide Asks;
      hide Misnames;
    }
  }

  lemma {:induction false} CompletedLease(s: Ledger, items: seq<Item>, now: Time, id: Id)
    requires id in s.leases ==> id in s.receipts && Active(s.receipts[id])
    ensures var t, named := CompleteAll(s, items, now).0, exists k :: 0 <= k < |items| && items[k].leaseId == id;
            && (id in t.leases <==> id in s.leases && !named)
            && (id in t.leases ==> t.leases[id] == s.leases[id] && id in t.receipts && t.receipts[id] == s.receipts[id])
    decreases |items|
  {
    if items == [] {
    } else {
      var init, item := items[..|items| - 1], items[|items| - 1];
      CompletedLease(s, init, now, id);
      assert forall k :: 0 <= k < |init| ==> init[k] == items[k];
      hide Charge;
    }
  }

  // One step

  /** No lease lasts longer than its time from the last moment of the clock. */
  ghost predicate Dated(s: Ledger, now: Time) {
    forall id :: id in s.leases ==> s.leases[id].expiresAt <= now + s.leases[id].ttl
  }

  predicate Creates(s: Ledger, e: Event, capacity: nat, id: Id) {
    e.op.AcquireOp? && e.op.r.leaseId == id && Fresh(s, e, capacity, e.op.r)
  }

  /** The lease `id` of `s` is not over with the event. */
  predicate Survives(s: Ledger, e: Event, id: Id) {
    id in s.leases && Next(s.leases[id], e).Some?
  }

  lemma AdmissionIssues(s: Ledger, r: Request, now: Time)
    ensures Judge(s, r, now).decision.Admitted? ==> Judge(s, r, now).decision == Admitted(LeaseFor(r, now))
  {
    if Judge(s, r, now).decision.Admitted? {
      JudgedAdmission(s, r, now);
    }
    hide Judge;
  }

  lemma RecordedLeases(s: Ledger, r: Request, now: Time, victim: Option<Id>)
    ensures var room := Evict(s, victim);
            var v := Judge(room, r, now);
            Record(room, r, now, v).leases == if v.decision.Admitted? then s.leases[r.leaseId := LeaseFor(r, now)] else s.leases
  {
    AdmissionIssues(Evict(s, victim), r, now);
    hide Judge;
  }

  /** An acquisition adds its own lease or none. */
  lemma AcquiredLeases(s: Ledger, e: Event, capacity: nat)
    requires e.op.AcquireOp?
    ensures Step(s, e, capacity).leases ==
              if Fresh(s, e, capacity, e.op.r) then Expire(s, e.now).leases[e.op.r.leaseId := LeaseFor(e.op.r, e.now)]
              else Expire(s, e.now).leases
  {
    RecordedLeases(Expire(s, e.now), e.op.r, e.now, e.op.victim);
    hide Expire;
    hide Evict;
    hide Judge;
    hide Record;
    hide LeaseFor;
  }

  lemma AcquireOnLeases(s: Ledger, e: Event, capacity: nat, id: Id)
    requires Backed(s) && e.op.AcquireOp?
    ensures var t := Step(s, e, capacity);
            && (Survives(s, e, id) ==> id in t.leases && t.leases[id] == s.leases[id])
            && (Creates(s, e, capacity, id) ==> id in t.leases && t.leases[id] == LeaseFor(e.op.r, e.now))
            && (id in t.leases ==> Survives(s, e, id) || Creates(s, e, capacity, id))
  {
    var live := Expire(s, e.now);
    ExpireKeepsBacked(s, e.now);
    AcquiredLeases(s, e, capacity);
    assert id in live.leases <==> Survives(s, e, id);
    assert id in live.leases ==> live.leases[id] == s.leases[id];
    hide Survives;
    hide Expire;
    hide Step;
    hide Acquire;
  }

  lemma RenewOnLeases(s: Ledger, e: Event, capacity: nat, before: Time, id: Id)
    requires Dated(s, before) && before <= e.now && e.op.RenewOp? && (id in s.leases ==> s.leases[id].leaseId == id)
    ensures var t := Step(s, e, capacity);
            && (Survives(s, e, id) ==> id in t.leases && t.leases[id] == Next(s.leases[id], e).value)
            && (id in t.leases ==> Survives(s, e, id))
  {
    var live, wants := Expire(s, e.now), e.op.wants;
    assert id in live.leases <==> id in s.leases && s.leases[id].expiresAt > e.now;
    assert id in live.leases ==> live.leases[id] == s.leases[id];
    hide Expire;
    hide Asks;
    hide Misnames;
    if id in live.leases {
      RenewedLease(live, wants, e.now, live.leases[id]);
    } else {
      RenewedAway(live, wants, e.now, id);
    }
  }

  lemma CompleteOnLeases(s: Ledger, e: Event, capacity: nat, id: Id)
    requires Backed(s) && e.op.CompleteOp?
    ensures var t := Step(s, e, capacity);
            && (Survives(s, e, id) ==> id in t.leases && t.leases[id] == s.leases[id])
            && (id in t.leases ==> Survives(s, e, id))
  {
    var live := Expire(s, e.now);
    ExpireKeepsBacked(s, e.now);
    assert id in live.leases <==> id in s.leases && s.leases[id].expiresAt > e.now;
    assert id in live.leases ==> live.leases[id] == s.leases[id];
    hide Expire;
    CompletedLease(live, e.op.items, e.now, id);
    hide CompleteAll;
  }

  /** What an event does to each lease, whatever else it is about. */
  lemma StepOnLeases(s: Ledger, e: Event, capacity: nat, before: Time, id: Id)
    requires Backed(s) && Lawful(s, e, capacity) && Dated(s, before) && before <= e.now
    ensures var t := Step(s, e, capacity);
            && (Survives(s, e, id) ==> id in t.leases && t.leases[id] == Next(s.leases[id], e).value)
            && (Creates(s, e, capacity, id) ==> id in t.leases && t.leases[id] == LeaseFor(e.op.r, e.now))
            && (id in t.leases ==> Survives(s, e, id) || Creates(s, e, capacity, id))
  {
    match e.op
    case AcquireOp(r, victim) => AcquireOnLeases(s, e, capacity, id);
    case RenewOp(wants) => RenewOnLeases(s, e, capacity, before, id);
    case CompleteOp(items) => CompleteOnLeases(s, e, capacity, id);
    case ObserveOp(_, _) =>
    case QueryOp =>
  }

  lemma StepKeepsDated(s: Ledger, e: Event, capacity: nat, before: Time)
    requires Backed(s) && Lawful(s, e, capacity) && Dated(s, before) && before <= e.now
    ensures Dated(Step(s, e, capacity), e.now)
  {
    var t := Step(s, e, capacity);
    hide Step;
    hide Fresh;
    hide Asks;
    hide Misnames;
    hide Names;
    forall id | id in t.leases
      ensures t.leases[id].expiresAt <= e.now + t.leases[id].ttl
    {
      StepOnLeases(s, e, capacity, before, id);
    }
  }

  // Whole runs

  /** The lease created by the admission at `i` is not over. */
  predicate Running(run: seq<Event>, capacity: nat, i: nat, id: Id) {
    && i < |run| && run[i].op.AcquireOp? && Creates(After(Empty, run[..i], capacity), run[i], capacity, id)
    && Leased(run, i, |run|).Some?
  }

  lemma {:induction false} RunKeepsDated(run: seq<Event>, capacity: nat)
    requires LawfulRun(run, capacity) && Clocked(run)
    ensures run != [] ==> Dated(After(Empty, run, capacity), run[|run| - 1].now)
    decreases |run|
  {
    hide Step;
    if run == [] {
    } else {
      var init, last := run[..|run| - 1], run[|run| - 1];
      PrefixLawful(run, capacity, |init|);
      RunKeepsDated(init, capacity);
      RunKeepsBacked(init, capacity);
      var before := if init == [] then last.now else init[|init| - 1].now;
      StepKeepsDated(After(Empty, init, capacity), last, capacity, before);
    }
  }

  lemma {:induction false} LeasedPrefix(run: seq<Event>, i: nat, j: nat, n: nat)
    requires i < j <= n <= |run| && run[i].op.AcquireOp?
    ensures Leased(run[..n], i, j) == Leased(run, i, j)
    decreases j
  {
    if j == i + 1 {
    } else {
      hide Next;
      LeasedPrefix(run, i, j - 1, n);
    }
  }

  lemma RunningNext(run: seq<Event>, capacity: nat, i: nat, id: Id)
    requires run != [] && i < |run| - 1
    ensures var init, last := run[..|run| - 1], run[|run| - 1];
            && (Running(run, capacity, i, id) ==> Running(init, capacity, i, id))
            && (Running(init, capacity, i, id) ==>
                  Leased(run, i, |run|) == Next(Leased(init, i, |init|).value, last)
                  && (Running(run, capacity, i, id) <==> Leased(run, i, |run|).Some?))
  {
    hide After;
    hide Creates;
    hide Next;
    var init := run[..|run| - 1];
    assert init[..i] == run[..i];
    if run[i].op.AcquireOp? {
      LeasedPrefix(run, i, |init|, |init|);
    }
  }

  lemma StepOfRun(run: seq<Event>, capacity: nat, id: Id)
    requires run != [] && LawfulRun(run, capacity) && Clocked(run)
    ensures var s, t, e := After(Empty, run[..|run| - 1], capacity), After(Empty, run, capacity), run[|run| - 1];
            && (Survives(s, e, id) ==> id in t.leases && t.leases[id] == Next(s.leases[id], e).value)
            && (Creates(s, e, capacity, id) ==> id in t.leases && t.leases[id] == LeaseFor(e.op.r, e.now))
            && (id in t.leases ==> Survives(s, e, id) || Creates(s, e, capacity, id))
  {
    hide Step;
    hide Creates;
    hide Survives;
    var init, last := run[..|run| - 1], run[|run| - 1];
    PrefixLawful(run, capacity, |init|);
    RunKeepsDated(init, capacity);
    RunKeepsBacked(init, capacity);
    StepOnLeases(After(Empty, init, capacity), last, capacity, if init == [] then last.now else init[|init| - 1].now, id);
  }

  /** A lease that runs is on the books as the last event left it. */
  predicate Kept(run: seq<Event>, capacity: nat, i: nat, id: Id) {
    Running(run, capacity, i, id) ==>
      id in After(Empty, run, capacity).leases && Leased(run, i, |run|) == Some(After(Empty, run, capacity).leases[id])
  }

  lemma RunningIsKept(run: seq<Event>, capacity: nat, i: nat, id: Id)
    requires LawfulRun(run, capacity) && Clocked(run) && Running(run, capacity, i, id)
    requires i < |run| - 1 ==> Kept(run[..|run| - 1], capacity, i, id)
    ensures Kept(run, capacity, i, id)
  {
    hide After;
    hide Creates;
    hide Next;
    var init := run[..|run| - 1];
    StepOfRun(run, capacity, id);
    if i == |init| {
      assert run[..i] == init;
    } else {
      RunningNext(run, capacity, i, id);
    }
  }

  /** A lease on the books runs since its admission; `i` is that admission if it is not the last event. */
  lemma KeptIsRunning(run: seq<Event>, capacity: nat, i: nat, id: Id)
    requires run != [] && LawfulRun(run, capacity) && Clocked(run) && id in After(Empty, run, capacity).leases
    requires id in After(Empty, run[..|run| - 1], capacity).leases ==>
               Running(run[..|run| - 1], capacity, i, id) && Kept(run[..|run| - 1], capacity, i, id)
    ensures Running(run, capacity, i, id) || Running(run, capacity, |run| - 1, id)
  {
    hide After;
    hide Creates;
    hide Next;
    var init, last := run[..|run| - 1], run[|run| - 1];
    StepOfRun(run, capacity, id);
    if Survives(After(Empty, init, capacity), last, id) {
      RunningNext(run, capacity, i, id);
    } else {
      assert run[..|init|] == init;
      CreatesByAcquiring(After(Empty, init, capacity), last, capacity, id);
    }
  }

  lemma CreatesByAcquiring(s: Ledger, e: Event, capacity: nat, id: Id)
    requires Creates(s, e, capacity, id)
    ensures e.op.AcquireOp?
  {
  }

  lemma Shorter(run: seq<Event>, capacity: nat)
    requires run != [] && LawfulRun(run, capacity) && Clocked(run)
    ensures LawfulRun(run[..|run| - 1], capacity) && Clocked(run[..|run| - 1])
  {
    PrefixLawful(run, capacity, |run| - 1);
  }

  lemma {:induction false} EachIsKept(run: seq<Event>, capacity: nat, i: nat, id: Id)
    requires LawfulRun(run, capacity) && Clocked(run)
    ensures Kept(run, capacity, i, id)
    decreases |run|
  {
    hide LawfulRun;
    hide Clocked;
    hide After;
    hide Leased;
    if Running(run, capacity, i, id) {
      if i < |run| - 1 {
        Shorter(run, capacity);
        EachIsKept(run[..|run| - 1], capacity, i, id);
      }
      RunningIsKept(run, capacity, i, id);
    }
  }

  lemma NoLeaseAtFirst(run: seq<Event>, capacity: nat, id: Id)
    requires id in After(Empty, run, capacity).leases
    ensures run != []
  {
  }

  lemma {:induction false} EachRuns(run: seq<Event>, capacity: nat, id: Id) returns (i: nat)
    requires LawfulRun(run, capacity) && Clocked(run) && id in After(Empty, run, capacity).leases
    ensures Running(run, capacity, i, id)
    decreases |run|
  {
    hide LawfulRun;
    hide Clocked;
    hide Running;
    hide Kept;
    hide After;
    NoLeaseAtFirst(run, capacity, id);
    var init := run[..|run| - 1];
    i := 0;
    if id in After(Empty, init, capacity).leases {
      Shorter(run, capacity);
      i := EachRuns(init, capacity, id);
      EachIsKept(init, capacity, i, id);
    }
    KeptIsRunning(run, capacity, i, id);
    if !Running(run, capacity, i, id) {
      i := |init|;
    }
  }

  /** The live leases are those that run, and they are as the events left them. */
  lemma LeasesAreTheirHistory(run: seq<Event>, capacity: nat, id: Id)
    requires LawfulRun(run, capacity) && Clocked(run)
    ensures var s := After(Empty, run, capacity);
            && (id in s.leases <==> exists i: nat :: Running(run, capacity, i, id))
            && (forall i: nat :: Running(run, capacity, i, id) ==> Leased(run, i, |run|) == Some(s.leases[id]))
  {
    hide LawfulRun;
    hide Clocked;
    hide After;
    if id in After(Empty, run, capacity).leases {
      var i := EachRuns(run, capacity, id);
    }
    forall i: nat
      ensures Kept(run, capacity, i, id)
    {
      EachIsKept(run, capacity, i, id);
    }
    assert forall i: nat :: Running(run, capacity, i, id) ==> Kept(run, capacity, i, id);
  }
}
