/** The imperative parts of the barrier: the recovery manager's state, the backlog, and the loop that
delivers the pending failures, keeping in place those to be tried again. */
module RecoveryManager {
  import opened ExpiryQueue
  import opened RecoveryBarrier

  /** The manager's own fields. */
  class Manager {
    var status: Status
    var failures: nat

    ghost predicate Shows(w: World)
      reads this
    {
      status == w.status && failures == w.failures
    }

    constructor ()
      ensures Shows(Start)
    {
      status, failures := Ready, 0;
    }

    method Degrade(ghost w: World)
      requires Shows(w)
      modifies this
      ensures Shows(MarkDegraded(w))
    {
      if status == PermanentFault {
        return;
      }
      status := Degraded;
      failures := failures + 1;
    }

    method BreakForGood(ghost w: World)
      requires Shows(w)
      modifies this
      ensures Shows(MarkPermanent(w))
    {
      status := PermanentFault;
      failures := failures + 1;
    }

    /** What `Recover` reads first; nothing when the fault is permanent. */
    method Begin(ghost w: World) returns (starting: Option<nat>)
      requires Shows(w) && w.recovering.None?
      ensures starting == match BeginRecover(w).recovering case None => None case Some(r) => Some(r.starting)
    {
      if status == PermanentFault {
        return None;
      }
      return Some(failures);
    }

    /** What `Recover` does when all its steps succeeded. */
    method Conclude(ghost w: World, starting: nat) returns (ok: bool)
      requires Shows(w) && w.recovering == Some(Recovering(starting, STEPS))
      modifies this
      ensures Shows(Finish(w)) && (ok <==> failures == starting) && (ok ==> status == Ready)
    {
      if failures != starting {
        return false;
      }
      status := Ready;
      return true;
    }
  }

  /** The backlog, with the lock held. */
  class Backlog {
    var items: seq<Item>

    constructor ()
      ensures items == []
    {
      items := [];
    }

    /** Keeps the newest of what it is given, up to the limit. */
    method Keep(all: seq<Item>, ghost w: World) returns (dropped: nat)
      modifies this
      ensures items == Store(w, all).backlog && dropped == Excess(all) && |items| <= BACKLOG_LIMIT
      ensures all == all[..dropped] + items
    {
      dropped := 0;
      items := all;
      if |items| > BACKLOG_LIMIT {
        dropped := |items| - BACKLOG_LIMIT;
        items := items[|items| - BACKLOG_LIMIT..];
      }
    }

    method Add(item: Item, ghost w: World) returns (dropped: nat)
      requires items == w.backlog && w.buffering == Some(Buffering(item.reportedAt, true)) && item.number == w.issued
      modifies this
      ensures items == Append(w).backlog && dropped == Excess(old(items) + [item])
    {
      dropped := Keep(items + [item], w);
    }

    method PutBack(kept: seq<Item>, ghost w: World) returns (dropped: nat)
      requires items == w.backlog && w.buffering.None? && w.replay.Some? && w.replay.value.phase == Delivering(kept, [])
      modifies this
      ensures items == Merge(w).backlog && dropped == Excess(kept + old(items))
    {
      dropped := Keep(kept + items, w);
    }
  }

  // Delivering what is pending

  /** What is left to be tried again, if `unavailable[i]` says how the coordinator answers for item `i`. */
  function Retained(items: seq<Item>, unavailable: seq<bool>, now: Time): seq<Item>
    requires |items| == |unavailable|
  {
    if items == [] then []
    else
      var n := |items| - 1;
      var init := Retained(items[..n], unavailable[..n], now);
      if !TooOld(items[n], now) && unavailable[n] then init + [items[n]] else init
  }

  function Aged(items: seq<Item>, now: Time): nat {
    if items == [] then 0
    else Aged(items[..|items| - 1], now) + if TooOld(items[|items| - 1], now) then 1 else 0
  }

  /** The loop of `ReplayCircuitFailures`: what is kept moves to the front of the same array. */
  method DeliverPending(pending: array<Item>, unavailable: seq<bool>, now: Time)
    returns (kept: nat, failed: bool, expired: nat)
    requires |unavailable| == pending.Length
    modifies pending
    ensures kept <= pending.Length && pending[..kept] == Retained(old(pending[..]), unavailable, now)
    ensures (failed <==> kept > 0) && expired == Aged(old(pending[..]), now)
  {
    ghost var all := pending[..];
    kept, failed, expired := 0, false, 0;
    for i := 0 to pending.Length
      invariant kept <= i && pending[..kept] == Retained(all[..i], unavailable[..i], now)
      invariant forall k :: i <= k < pending.Length ==> pending[k] == all[k]
      invariant (failed <==> kept > 0) && expired == Aged(all[..i], now)
    {
      assert all[..i + 1][..i] == all[..i] && unavailable[..i + 1][..i] == unavailable[..i];
      var item := pending[i];
      if TooOld(item, now) {
        expired := expired + 1;
      } else if unavailable[i] {
        pending[kept] := item;
        kept, failed := kept + 1, true;
      }
    }
    assert all[..pending.Length] == all && unavailable[..pending.Length] == unavailable;
  }

  /** The same deliveries, one event after the other. */
  function Deliveries(unavailable: seq<bool>, now: Time): seq<Event> {
    seq(|unavailable|, i requires 0 <= i < |unavailable| => ReplayDelivers(now, unavailable[i]))
  }

  lemma RetainedNone(now: Time)
    ensures Retained([], [], now) == []
  {
  }

  /** What is left of one item. */
  function Left(item: Item, unavailable: bool, now: Time): seq<Item> {
    if !TooOld(item, now) && unavailable then [item] else []
  }

  lemma RetainedLast(items: seq<Item>, unavailable: seq<bool>, now: Time)
    requires |items| == |unavailable| && items != []
    ensures var n := |items| - 1;
            Retained(items, unavailable, now) == Retained(items[..n], unavailable[..n], now) + Left(items[n], unavailable[n], now)
  {
  }

  lemma {:induction false} RetainedFirst(items: seq<Item>, unavailable: seq<bool>, now: Time)
    requires |items| == |unavailable| && items != []
    ensures Retained(items, unavailable, now)
            == Left(items[0], unavailable[0], now) + Retained(items[1..], unavailable[1..], now)
    decreases |items|
  {
    var n := |items| - 1;
    if n == 0 {
      assert Retained(items[..0], unavailable[..0], now) == [];
    } else {
      hide Retained;
      hide Left;
      RetainedLast(items, unavailable, now);
      RetainedFirst(items[..n], unavailable[..n], now);
      RetainedLast(items[1..], unavailable[1..], now);
      assert items[1..][..n - 1] == items[..n][1..] && unavailable[1..][..n - 1] == unavailable[..n][1..];
    }
  }

  lemma OneDelivery(w: World, unavailable: bool, now: Time)
    requires w.replay.Some? && w.replay.value.phase.Delivering? && w.replay.value.phase.todo != []
    ensures var p := w.replay.value.phase;
            var keep := !TooOld(p.todo[0], now) && unavailable;
            Step(w, ReplayDelivers(now, unavailable)).replay
            == Some(Replay(w.replay.value.forRecovery,
                           Delivering(if keep then p.kept + [p.todo[0]] else p.kept, p.todo[1..]),
                           w.replay.value.failed || keep))
  {
  }

  /** The loop leaves what the interleaved deliveries leave. */
  lemma {:induction false} LoopIsDeliveries(w: World, unavailable: seq<bool>, now: Time)
    requires w.replay.Some? && w.replay.value.phase.Delivering? && |unavailable| == |w.replay.value.phase.todo|
    ensures var p := w.replay.value.phase;
            var left := Retained(p.todo, unavailable, now);
            Then(w, Deliveries(unavailable, now)).replay
            == Some(Replay(w.replay.value.forRecovery, Delivering(p.kept + left, []), w.replay.value.failed || left != []))
    decreases |unavailable|
  {
    hide Retained;
    hide Step;
    var p := w.replay.value.phase;
    if unavailable == [] {
      RetainedNone(now);
      assert p.todo == [] && p.kept + [] == p.kept;
    } else {
      var run := Deliveries(unavailable, now);
      var v := Step(w, run[0]);
      assert run[1..] == Deliveries(unavailable[1..], now);
      OneDelivery(w, unavailable[0], now);
      LoopIsDeliveries(v, unavailable[1..], now);
      RetainedFirst(p.todo, unavailable, now);
      var left := Retained(p.todo[1..], unavailable[1..], now);
      assert p.kept + [p.todo[0]] + left == p.kept + ([p.todo[0]] + left);
      assert [] + left == left;
    }
  }
}
