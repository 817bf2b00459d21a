/** Which leases the manager keeps renewing: those it was told to track, until their completion is
settled or a renewal finds them lost. */
module LeaseTracking {
  import opened ExpiryQueue
  import opened Admission
  import opened LeaseDelivery

  /** The identifier that names no lease. */
  const NIL: Id := 0

  function LeaseIds(items: seq<Item>): set<Id> {
    set i | 0 <= i < |items| :: items[i].leaseId
  }

  // Renewals

  function LostIds(results: seq<RenewResult>): set<Id> {
    set i | 0 <= i < |results| && results[i].Lost? :: results[i].lease.leaseId
  }

  /** The lease as the last of the answers that renews it has it. */
  function Latest(results: seq<RenewResult>, id: Id, before: Lease): Lease {
    if results == [] then before
    else
      var last := results[|results| - 1];
      if last.Renewed? && last.lease.leaseId == id && id != NIL then last.lease
      else Latest(results[..|results| - 1], id, before)
  }

  function Refreshed(active: map<Id, Lease>, results: seq<RenewResult>): map<Id, Lease> {
    map id | id in active && id !in LostIds(results) :: Latest(results, id, active[id])
  }

  // Deliveries

  /** The leases of the items an answer settles, and of the others too if they find no room to wait. */
  function Parting(w: World, cap: nat, items: seq<Item>, a: Answer): set<Id> {
    var n := Confirmed(items, a);
    LeaseIds(items[..n]) + if n < |items| && |Items(w.pending)| + |items[n..]| > cap then LeaseIds(items[n..]) else {}
  }

  /** The leases that are no longer tracked after event `e`. */
  function Leaving(w: World, cap: nat, e: Event): set<Id> {
    match e
    case Sends(item) => if |w.channel| < cap then {} else {item.leaseId}
    case Delivers(a, _) => if w.stopped || w.batch == [] then {} else Parting(w, cap, w.batch, a)
    case Retries(a, _) => if w.stopped || w.due == [] then {} else Parting(w, cap, w.due[0].items, a)
    case DrainDelivers(a, _) => if !w.stopped || w.batch == [] then {} else LeaseIds(w.batch[..Confirmed(w.batch, a)])
    case DrainGivesUp => if !w.stopped then {} else LeaseIds(w.batch)
    case _ => {}
  }

  /** How many copies of the item were acknowledged or given up. */
  function Closed(w: World, x: Item): nat {
    w.acked[x] + w.dropped[x]
  }

  ghost predicate Closes(w: World, cap: nat, e: Event, id: Id) {
    exists x: Item :: x.leaseId == id && Closed(w, x) < Closed(Step(w, cap, e), x)
  }

  lemma Copies(items: seq<Item>, x: Item)
    ensures multiset(items)[x] > 0 <==> x in items
  {
  }

  lemma Named(items: seq<Item>, id: Id)
    ensures id in LeaseIds(items) <==> exists x :: x in items && x.leaseId == id
  {
    if id in LeaseIds(items) {
      var i :| 0 <= i < |items| && items[i].leaseId == id;
      assert items[i] in items;
    }
  }

  /** The items that `more` adds to what was closed. */
  ghost predicate Adds(w: World, v: World, more: seq<Item>) {
    forall x :: Closed(v, x) == Closed(w, x) + multiset(more)[x]
  }

  lemma AddsCloses(w: World, cap: nat, e: Event, more: seq<Item>, id: Id)
    requires Adds(w, Step(w, cap, e), more)
    ensures Closes(w, cap, e, id) <==> id in LeaseIds(more)
  {
    hide Step;
    hide Closed;
    Named(more, id);
    if id in LeaseIds(more) {
      var x :| x in more && x.leaseId == id;
      Copies(more, x);
      assert Closed(w, x) < Closed(Step(w, cap, e), x);
    }
    if Closes(w, cap, e, id) {
      var x: Item :| x.leaseId == id && Closed(w, x) < Closed(Step(w, cap, e), x);
      Copies(more, x);
    }
  }

  /** What a call and the queueing of its rest close. */
  function Ended(w: World, cap: nat, items: seq<Item>, a: Answer): seq<Item> {
    var n := Confirmed(items, a);
    if n < |items| && |Items(w.pending)| + |items[n..]| > cap then items else items[..n]
  }

  lemma SplitIds(items: seq<Item>, n: nat)
    requires n <= |items|
    ensures LeaseIds(items) == LeaseIds(items[..n]) + LeaseIds(items[n..])
  {
    forall id
      ensures id in LeaseIds(items) <==> id in LeaseIds(items[..n]) || id in LeaseIds(items[n..])
    {
      Named(items, id);
      Named(items[..n], id);
      Named(items[n..], id);
      assert items == items[..n] + items[n..];
    }
  }

  lemma EndedIsParting(w: World, cap: nat, items: seq<Item>, a: Answer)
    ensures LeaseIds(Ended(w, cap, items, a)) == Parting(w, cap, items, a)
  {
    hide Items;
    hide Confirmed;
    SplitIds(items, Confirmed(items, a));
    hide LeaseIds;
  }

  lemma CallAdds(w: World, cap: nat, items: seq<Item>, a: Answer, p: Pending, u: World, v: World)
    requires u.acked == w.acked + multiset(items[..Confirmed(items, a)]) && u.dropped == w.dropped && u.pending == w.pending
    requires p.items == items[Confirmed(items, a)..]
    requires v == if p.items == [] then u else QueueRetry(u, cap, p)
    ensures Adds(w, v, Ended(w, cap, items, a))
  {
    hide Items;
    var n := Confirmed(items, a);
    hide Confirmed;
    forall x
      ensures Closed(v, x) == Closed(w, x) + multiset(Ended(w, cap, items, a))[x]
    {
      OfSplit(items, n, x);
    }
  }

  lemma SendAdds(w: World, cap: nat, item: Item) returns (more: seq<Item>)
    ensures Adds(w, Send(w, cap, item), more) && LeaseIds(more) == if |w.channel| < cap then {} else {item.leaseId}
  {
    if |w.channel| < cap {
      more := [];
    } else {
      more := [item];
      assert more[0] == item;
      forall id
        ensures id in LeaseIds(more) <==> id in {item.leaseId}
      {
      }
    }
  }

  lemma DeliverAdds(w: World, cap: nat, a: Answer, now: Time) returns (more: seq<Item>)
    requires !w.stopped && w.batch != []
    ensures Adds(w, Deliver(w, cap, a, now), more) && LeaseIds(more) == Parting(w, cap, w.batch, a)
  {
    hide Items;
    hide QueueRetry;
    hide Confirmed;
    hide Ended;
    hide Parting;
    hide Adds;
    hide LeaseIds;
    more := Ended(w, cap, w.batch, a);
    var left := w.batch[Confirmed(w.batch, a)..];
    CallAdds(w, cap, w.batch, a, Pending(left, now + FIRST_BACKOFF, FIRST_BACKOFF),
             Called(w, w.batch, a, now).(batch := []), Deliver(w, cap, a, now));
    EndedIsParting(w, cap, w.batch, a);
  }

  lemma RetryAdds(w: World, cap: nat, a: Answer, now: Time) returns (more: seq<Item>)
    requires !w.stopped && w.due != []
    ensures Adds(w, RetryNext(w, cap, a, now), more) && LeaseIds(more) == Parting(w, cap, w.due[0].items, a)
  {
    hide Items;
    hide QueueRetry;
    hide Confirmed;
    hide Ended;
    hide Parting;
    hide Adds;
    hide LeaseIds;
    var p := w.due[0];
    more := Ended(w, cap, p.items, a);
    var left := p.items[Confirmed(p.items, a)..];
    CallAdds(w, cap, p.items, a, Pending(left, now + Doubled(p.backoff), Doubled(p.backoff)),
             Called(w, p.items, a, now).(due := w.due[1..]), RetryNext(w, cap, a, now));
    EndedIsParting(w, cap, p.items, a);
  }

  lemma NoneAdded(w: World, v: World)
    requires v.acked == w.acked && v.dropped == w.dropped
    ensures Adds(w, v, []) && LeaseIds([]) == {}
  {
  }

  lemma StepAdds(w: World, cap: nat, e: Event) returns (more: seq<Item>)
    ensures Adds(w, Step(w, cap, e), more) && LeaseIds(more) == Leaving(w, cap, e)
  {
    hide Items;
    hide Confirmed;
    hide Parting;
    hide LeaseIds;
    if e.Sends? {
      more := SendAdds(w, cap, e.item);
    } else if e.Delivers? && !w.stopped && w.batch != [] {
      hide Adds;
      more := DeliverAdds(w, cap, e.a, e.now);
    } else if e.Retries? && !w.stopped && w.due != [] {
      hide Adds;
      more := RetryAdds(w, cap, e.a, e.now);
    } else if e.DrainDelivers? && w.stopped && w.batch != [] {
      more := w.batch[..Confirmed(w.batch, e.a)];
    } else if e.DrainGivesUp? && w.stopped {
      more := w.batch;
    } else {
      hide Adds;
      more := [];
      NoneAdded(w, Step(w, cap, e));
    }
  }

  /** A lease leaves exactly when a completion that names it is acknowledged or given up. */
  lemma LeavesWhenClosed(w: World, cap: nat, e: Event, id: Id)
    ensures id in Leaving(w, cap, e) <==> Closes(w, cap, e, id)
  {
    var more := StepAdds(w, cap, e);
    hide Leaving;
    AddsCloses(w, cap, e, more, id);
  }

  // The manager's own leases over runs

  /** `handles[h]` is the lease of handle `h`; `spent` are the handles already completed. */
  datatype Watch = Watch(w: World, active: map<Id, Lease>, handles: seq<Id>, spent: set<nat>)

  const Unwatched := Watch(Start, map[], [], {})

  datatype Act =
    | Tracks(lease: Lease)
    | Completes(handle: nat, usage: Option<Usage>)
    | Renews(results: seq<RenewResult>)
    | Moves(e: Event)

  function Delivered(v: Watch, cap: nat, e: Event): Watch {
    v.(w := Step(v.w, cap, e), active := v.active - Leaving(v.w, cap, e))
  }

  function Next(v: Watch, cap: nat, act: Act): Watch {
    match act
    case Tracks(l) => v.(active := v.active[l.leaseId := l], handles := v.handles + [l.leaseId])
    case Completes(h, usage) =>
      if h >= |v.handles| || h in v.spent then v
      else Delivered(v, cap, Sends(Item(v.handles[h], usage))).(spent := v.spent + {h})
    case Renews(results) => v.(active := Refreshed(v.active, results))
    case Moves(e) => if e.Sends? then v else Delivered(v, cap, e)
  }

  function Watched(cap: nat, run: seq<Act>): Watch {
    if run == [] then Unwatched else Next(Watched(cap, run[..|run| - 1]), cap, run[|run| - 1])
  }

  /** What the steps of a run are for the delivery of completions. */
  function Deeds(cap: nat, run: seq<Act>): seq<Event> {
    if run == [] then []
    else
      var init, last := run[..|run| - 1], run[|run| - 1];
      Deeds(cap, init) + Deed(Watched(cap, init), last)
  }

  function Deed(v: Watch, act: Act): seq<Event> {
    match act
    case Completes(h, usage) => if h >= |v.handles| || h in v.spent then [] else [Sends(Item(v.handles[h], usage))]
    case Moves(e) => if e.Sends? then [] else [e]
    case _ => []
  }

  /** The manager delivers as the delivery protocol does, so all that holds of the one holds of the other. */
  lemma {:induction false} WatchedDelivers(cap: nat, run: seq<Act>)
    ensures Watched(cap, run).w == After(cap, Deeds(cap, run))
    decreases |run|
  {
    hide Step;
    hide Leaving;
    if run == [] {
    } else {
      var init, last := run[..|run| - 1], run[|run| - 1];
      WatchedDelivers(cap, init);
      var deed := Deed(Watched(cap, init), last);
      if deed == [] {
        assert Deeds(cap, init) + deed == Deeds(cap, init);
      } else {
        assert (Deeds(cap, init) + deed)[..|Deeds(cap, init)|] == Deeds(cap, init);
      }
    }
  }

  /** At this step a renewal finds the lease lost, or a completion that names it is closed. */
  ghost predicate Parts(v: Watch, cap: nat, act: Act, id: Id) {
    match act
    case Tracks(_) => false
    case Completes(h, usage) => h < |v.handles| && h !in v.spent && Closes(v.w, cap, Sends(Item(v.handles[h], usage)), id)
    case Renews(results) => id in LostIds(results)
    case Moves(e) => !e.Sends? && Closes(v.w, cap, e, id)
  }

  lemma NextTracks(v: Watch, cap: nat, act: Act, id: Id)
    requires act.Tracks? ==> act.lease.leaseId != id
    ensures id in Next(v, cap, act).active <==> id in v.active && !Parts(v, cap, act, id)
  {
    hide Step;
    hide Leaving;
    hide Closes;
    hide LostIds;
    match act
    case Tracks(_) =>
    case Completes(h, usage) =>
      if h < |v.handles| {
        LeavesWhenClosed(v.w, cap, Sends(Item(v.handles[h], usage)), id);
      }
    case Renews(_) =>
    case Moves(e) => LeavesWhenClosed(v.w, cap, e, id);
  }

  lemma WatchedNext(cap: nat, run: seq<Act>, j: nat)
    requires j < |run|
    ensures Watched(cap, run[..j + 1]) == Next(Watched(cap, run[..j]), cap, run[j])
  {
    hide Next;
    assert run[..j + 1][..j] == run[..j];
  }

  /** A lease is tracked from the moment it is handed over until a completion that names it is
  acknowledged or given up, or a renewal finds it lost, and only until then. */
  lemma {:induction false} TrackedUntilSettled(cap: nat, run: seq<Act>, i: nat, j: nat, id: Id)
    requires i < j <= |run| && run[i].Tracks? && run[i].lease.leaseId == id
    requires forall k :: i < k < j && run[k].Tracks? ==> run[k].lease.leaseId != id
    ensures id in Watched(cap, run[..j]).active <==>
              forall k :: i < k < j ==> !Parts(Watched(cap, run[..k]), cap, run[k], id)
    decreases j
  {
    hide Parts;
    hide Watched;
    WatchedNext(cap, run, j - 1);
    if j == i + 1 {
    } else {
      hide Next;
      TrackedUntilSettled(cap, run, i, j - 1, id);
      NextTracks(Watched(cap, run[..j - 1]), cap, run[j - 1], id);
    }
  }

  lemma {:induction false} SpentStays(cap: nat, run: seq<Act>, i: nat, j: nat, h: nat)
    requires i <= j <= |run| && h in Watched(cap, run[..i]).spent
    ensures h in Watched(cap, run[..j]).spent
    decreases j
  {
    hide Step;
    hide Leaving;
    hide Refreshed;
    if i == j {
    } else {
      SpentStays(cap, run, i, j - 1, h);
      WatchedNext(cap, run, j - 1);
      hide Watched;
    }
  }

  /** However often a handle is completed, only the first time hands anything over. */
  lemma HandleCompletesOnce(cap: nat, run: seq<Act>, i: nat, j: nat, h: nat)
    requires i < j < |run| && run[i].Completes? && run[i].handle == h && h < |Watched(cap, run[..i]).handles|
    requires run[j].Completes? && run[j].handle == h
    ensures Watched(cap, run[..j + 1]) == Watched(cap, run[..j])
  {
    hide Step;
    hide Leaving;
    WatchedNext(cap, run, i);
    SpentStays(cap, run, i + 1, j, h);
    WatchedNext(cap, run, j);
    hide Watched;
  }
}
