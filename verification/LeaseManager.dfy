/** The lease manager's own fields and loops. The channel is a sequence; the coordinator's answers
are handed in. */
module LeaseManager {
  import opened ExpiryQueue
  import opened Admission
  import opened LeaseDelivery
  import opened LeaseRetries
  import opened LeaseTracking

  /** The leases that leave while these answers come in. */
  function LeavingAll(w: World, cap: nat, answers: seq<Answer>, now: Time): set<Id> {
    if answers == [] then {}
    else
      var init, last := answers[..|answers| - 1], answers[|answers| - 1];
      LeavingAll(w, cap, init, now) + Leaving(RetryAll(w, cap, init, now), cap, Retries(last, now))
  }

  /** The shutdown drain: what is left is sent again with each answer, and then given up. */
  function DrainCalls(w: World, answers: seq<Answer>, now: Time): World {
    if answers == [] then w else DrainDeliver(DrainCalls(w, answers[..|answers| - 1], now), answers[|answers| - 1], now)
  }

  /** What a request handler holds on to: its completion counts once. */
  class Handle {
    const manager: Manager
    const lease: Lease
    var completed: bool

    constructor (manager: Manager, lease: Lease)
      ensures this.manager == manager && this.lease == lease && !completed
    {
      this.manager, this.lease, completed := manager, lease, false;
    }

    /** Hands the completion over the first time, and does nothing afterwards. */
    method Complete(usage: Option<Usage>, ghost w: World) returns (ok: bool)
      requires manager.Shows(w)
      modifies this, manager
      ensures completed
      ensures old(completed) ==> !ok && manager.Shows(w) && manager.active == old(manager.active)
      ensures !old(completed) ==>
                var e := Sends(Item(lease.leaseId, usage));
                && manager.Shows(Step(w, manager.backlogCap, e)) && (ok <==> |old(manager.completions)| < manager.backlogCap)
                && manager.active == old(manager.active) - Leaving(w, manager.backlogCap, e)
    {
      if completed {
        return false;
      }
      completed := true;
      ok := manager.Enqueue(Item(lease.leaseId, usage), w);
    }
  }

  class Manager {
    const backlogCap: nat
    var completions: seq<Item>
    var pending: seq<Pending>
    var active: map<Id, Lease>
    var dropped: nat

    ghost predicate Shows(w: World)
      reads this
    {
      completions == w.channel && pending == w.pending && dropped == |w.dropped|
    }

    constructor (backlog: int)
      ensures Shows(Start) && active == map[] && backlogCap == if backlog <= 0 then 4096 else backlog
    {
      backlogCap := if backlog <= 0 then 4096 else backlog;
      completions, pending, active, dropped := [], [], map[], 0;
    }

    /** From now on the lease is renewed, and its handle completes it. */
    method Track(l: Lease) returns (h: Handle)
      modifies this`active
      ensures active == old(active)[l.leaseId := l]
      ensures fresh(h) && h.manager == this && h.lease == l && !h.completed
    {
      active := active[l.leaseId := l];
      h := new Handle(this, l);
    }

    /** Hands a completion over without waiting: a full channel drops it. */
    method Enqueue(item: Item, ghost w: World) returns (ok: bool)
      requires Shows(w)
      modifies this
      ensures Shows(Send(w, backlogCap, item)) && (ok <==> |old(completions)| < backlogCap)
      ensures active == old(active) - Leaving(w, backlogCap, Sends(item))
    {
      if |completions| < backlogCap {
        completions := completions + [item];
        return true;
      }
      active := active - {item.leaseId};
      dropped := dropped + 1;
      return false;
    }

    /** Takes what the channel holds, up to the size of a batch. */
    method Collect(first: Item) returns (batch: seq<Item>)
      modifies this`completions
      ensures [first] + old(completions) == batch + completions && |batch| <= BATCH_LIMIT
      ensures |batch| < BATCH_LIMIT ==> completions == []
    {
      batch := [first];
      while |batch| < BATCH_LIMIT && completions != []
        invariant [first] + old(completions) == batch + completions && |batch| <= BATCH_LIMIT
        decreases |completions|
      {
        assert completions == [completions[0]] + completions[1..];
        batch := batch + [completions[0]];
        completions := completions[1..];
      }
    }

    /** The items an answer leaves open; those it settles are no longer tracked. */
    method Remaining(items: seq<Item>, a: Answer) returns (left: seq<Item>)
      modifies this`active
      ensures left == items[Confirmed(items, a)..]
      ensures active == old(active) - LeaseIds(items[..Confirmed(items, a)])
    {
      var completed := |items|;
      if a.failed {
        completed := |a.results|;
        if completed > |items| {
          completed := 0;
        }
        var i := 0;
        while i < completed
          invariant 0 <= i <= completed
          invariant completed > 0 ==> completed == |a.results| <= |items|
          invariant forall k :: 0 <= k < i ==> a.results[k] == items[k].leaseId
          invariant completed == 0 ==> !Matches(items, a.results) || a.results == []
          decreases completed - i
        {
          if a.results[i] != items[i].leaseId {
            completed := 0;
            break;
          }
          i := i + 1;
        }
      }
      assert completed == Confirmed(items, a);
      Untrack(items[..completed]);
      left := items[completed..];
    }

    method Untrack(items: seq<Item>)
      modifies this`active
      ensures active == old(active) - LeaseIds(items)
    {
      for i := 0 to |items|
        invariant active == old(active) - LeaseIds(items[..i])
      {
        assert LeaseIds(items[..i + 1]) == LeaseIds(items[..i]) + {items[i].leaseId};
        active := active - {items[i].leaseId};
      }
      assert items[..|items|] == items;
    }

    method Backlog() returns (queued: nat)
      ensures queued == |Items(pending)|
    {
      queued := 0;
      for i := 0 to |pending|
        invariant queued == |Items(pending[..i])|
      {
        assert pending[..i + 1][..i] == pending[..i];
        queued := queued + |pending[i].items|;
      }
      assert pending[..|pending|] == pending;
    }

    method Retry(p: Pending, ghost w: World)
      requires Shows(w)
      modifies this
      ensures Shows(QueueRetry(w, backlogCap, p)) && completions == old(completions)
      ensures active == if |Items(w.pending)| + |p.items| <= backlogCap then old(active) else old(active) - LeaseIds(p.items)
    {
      hide Items;
      var queued := Backlog();
      if queued + |p.items| <= backlogCap {
        pending := pending + [p];
        return;
      }
      Untrack(p.items);
      dropped := dropped + |p.items|;
    }

    /** Sends one batch that was collected from the channel. */
    method SendBatch(batch: seq<Item>, a: Answer, now: Time, ghost w: World)
      requires Shows(w) && w.batch == batch && batch != [] && !w.stopped
      modifies this
      ensures Shows(Deliver(w, backlogCap, a, now)) && active == old(active) - Leaving(w, backlogCap, Delivers(a, now))
    {
      hide QueueRetry;
      hide Items;
      var left := Remaining(batch, a);
      hide Confirmed;
      hide LeaseIds;
      if left != [] {
        Retry(Pending(left, now + FIRST_BACKOFF, FIRST_BACKOFF), Called(w, batch, a, now).(batch := []));
      }
    }

    /** Takes the due retries out of the backlog, leaving the others in order. */
    method TakeDue(now: Time) returns (due: seq<Pending>)
      modifies this`pending
      ensures due == Ready(old(pending), now) && pending == Later(old(pending), now)
    {
      var all := pending;
      due := [];
      var kept := [];
      for i := 0 to |all|
        invariant due == Ready(all[..i], now) && kept == Later(all[..i], now)
      {
        assert all[..i + 1][..i] == all[..i];
        if all[i].next <= now {
          due := due + [all[i]];
        } else {
          kept := kept + [all[i]];
        }
      }
      assert all[..|all|] == all;
      pending := kept;
    }

    method RetryOne(p: Pending, a: Answer, now: Time, ghost w: World)
      requires Shows(w) && !w.stopped && w.due != [] && w.due[0] == p
      modifies this
      ensures Shows(RetryNext(w, backlogCap, a, now)) && active == old(active) - Leaving(w, backlogCap, Retries(a, now))
    {
      hide QueueRetry;
      hide Items;
      var left := Remaining(p.items, a);
      hide Confirmed;
      hide LeaseIds;
      if left != [] {
        var backoff := 2 * p.backoff;
        if backoff > LAST_BACKOFF {
          backoff := LAST_BACKOFF;
        }
        Retry(Pending(left, now + backoff, backoff), Called(w, p.items, a, now).(due := w.due[1..]));
      }
    }

    /** Retries all that is due. Nothing is dropped on the way. */
    method RetryPending(answers: seq<Answer>, now: Time, ghost w: World)
      requires Shows(w) && Conserved(w, backlogCap) && !w.stopped && w.batch == [] && w.due == []
      requires |answers| == |Ready(pending, now)|
      modifies this
      ensures Shows(RetryAll(StartRetry(w, now), backlogCap, answers, now)) && dropped == old(dropped)
      ensures active == old(active) - LeavingAll(StartRetry(w, now), backlogCap, answers, now)
    {
      hide Leaving;
      hide Step;
      hide RetryNext;
      hide Conserved;
      var due := TakeDue(now);
      ghost var v := StartRetry(w, now);
      StepConserves(w, backlogCap, StartsRetry(now));
      assert Step(w, backlogCap, StartsRetry(now)) == v by {
        StartIsStep(w, backlogCap, now);
      }
      hide StartRetry;
      for i := 0 to |due|
        invariant Shows(v) && v == RetryAll(StartRetry(w, now), backlogCap, answers[..i], now) && Conserved(v, backlogCap)
        invariant !v.stopped && v.due == due[i..] && v.dropped == w.dropped
        invariant active == old(active) - LeavingAll(StartRetry(w, now), backlogCap, answers[..i], now)
      {
        RetryStep(v, backlogCap, answers[i], now);
        RetryOne(due[i], answers[i], now, v);
        assert answers[..i + 1][..i] == answers[..i];
        v := RetryNext(v, backlogCap, answers[i], now);
      }
      assert answers[..|answers|] == answers;
    }

    /** Applies the answers to a renewal: lost leases are no longer tracked, the others as last renewed, and
    a lease completed meanwhile is not tracked again. */
    method ApplyRenewals(results: seq<RenewResult>)
      modifies this`active
      ensures active == Refreshed(old(active), results)
    {
      for i := 0 to |results|
        invariant active.Keys == old(active).Keys - LostIds(results[..i])
        invariant forall id :: id in active ==> active[id] == Latest(results[..i], id, old(active)[id])
      {
        assert results[..i + 1] == results[..i] + [results[i]];
        LostMore(results[..i], results[i]);
        match results[i]
        case Lost(want) => active := active - {want.leaseId};
        case Renewed(lease) =>
          if lease.leaseId != NIL && lease.leaseId in active {
            active := active[lease.leaseId := lease];
          }
      }
      assert results[..|results|] == results;
    }

    /** The drain at shutdown: every completion left is acknowledged or counted as dropped, and its lease
    no longer tracked. */
    method Drain(answers: seq<Answer>, now: Time, ghost w: World) returns (ok: bool)
      requires Shows(w) && w.stopped && w.batch == [] && answers != []
      modifies this
      ensures Shows(DrainGiveUp(DrainCalls(DrainTake(w), answers, now))) && completions == [] && pending == []
      ensures active == old(active) - LeaseIds(old(completions) + Items(old(pending)))
      ensures ok <==> DrainCalls(DrainTake(w), answers, now).batch == []
    {
      hide DrainDeliver;
      hide LeaseIds;
      hide Confirmed;
      hide Items;
      ghost var all := completions + Items(pending);
      ghost var gone: set<Id> := {};
      var items := AllItems();
      completions, pending := [], [];
      ghost var v := DrainTake(w);
      for i := 0 to |answers|
        invariant v == DrainCalls(DrainTake(w), answers[..i], now) && v.batch == items && v.stopped
        invariant Shows(v) && completions == [] && pending == []
        invariant gone + LeaseIds(items) == LeaseIds(all) && active == old(active) - gone
      {
        assert answers[..i + 1][..i] == answers[..i];
        DrainStep(v, answers[i], now);
        v := DrainDeliver(v, answers[i], now);
        if items != [] {
          ghost var n := Confirmed(items, answers[i]);
          SplitIds(items, n);
          gone := gone + LeaseIds(items[..n]);
          items := Remaining(items, answers[i]);
        }
      }
      assert answers[..|answers|] == answers;
      Untrack(items);
      dropped := dropped + |items|;
      return items == [];
    }

    method AllItems() returns (items: seq<Item>)
      ensures items == completions + Items(pending)
    {
      items := completions;
      assert completions + Items(pending[..0]) == completions;
      for i := 0 to |pending|
        invariant items == completions + Items(pending[..i])
      {
        assert pending[..i + 1][..i] == pending[..i];
        assert completions + Items(pending[..i]) + pending[i].items == completions + (Items(pending[..i]) + pending[i].items);
        items := items + pending[i].items;
      }
      assert pending[..|pending|] == pending;
    }
  }

  lemma DrainStep(w: World, a: Answer, now: Time)
    requires w.stopped
    ensures var v := DrainDeliver(w, a, now);
            && v.stopped && v.batch == w.batch[Confirmed(w.batch, a)..]
            && v.channel == w.channel && v.pending == w.pending && v.dropped == w.dropped
  {
  }

  lemma LostMore(results: seq<RenewResult>, last: RenewResult)
    ensures LostIds(results + [last]) == LostIds(results) + if last.Lost? then {last.lease.leaseId} else {}
    ensures (results + [last])[..|results|] == results
  {
    var all := results + [last];
    forall id
      ensures id in LostIds(all) <==> id in LostIds(results) || (last.Lost? && id == last.lease.leaseId)
    {
      if id in LostIds(results) {
        var i :| 0 <= i < |results| && results[i].Lost? && results[i].lease.leaseId == id;
        assert all[i] == results[i];
      }
      if last.Lost? && id == last.lease.leaseId {
        assert all[|results|] == last;
      }
    }
  }

  lemma StartIsStep(w: World, cap: nat, now: Time)
    ensures Step(w, cap, StartsRetry(now)) == StartRetry(w, now)
  {
    hide StartRetry;
  }

  lemma RetryFrame(w: World, cap: nat, a: Answer, now: Time)
    requires !w.stopped && w.due != []
    ensures RetryNext(w, cap, a, now).due == w.due[1..] && !RetryNext(w, cap, a, now).stopped
  {
    hide Items;
    hide Confirmed;
  }

  lemma RetryStep(w: World, cap: nat, a: Answer, now: Time)
    requires Conserved(w, cap) && !w.stopped && w.due != []
    ensures var v := RetryNext(w, cap, a, now);
            Conserved(v, cap) && v.dropped == w.dropped && v.due == w.due[1..] && !v.stopped
  {
    hide Balanced;
    hide Bounded;
    hide RetryNext;
    StepConserves(w, cap, Retries(a, now));
    RetryBalance(w, cap, a, now, Item(0, None));
    RetryFrame(w, cap, a, now);
  }
}
