/** What became of a buffered failure, told by the events: it is settled only by a delivery that reached
the coordinator, given up as old only when it was, and for lack of room only when there was none. */
module RecoveryFates {
  import opened ExpiryQueue
  import opened RecoveryBarrier

  /** The failure a delivery is about: the first of those still to be delivered. */
  predicate Delivers(w: World, item: Item) {
    && w.replay.Some? && w.replay.value.phase.Delivering?
    && w.replay.value.phase.todo != [] && w.replay.value.phase.todo[0] == item
  }

  /** Event `j` delivered the failure, young enough, and the coordinator took or refused it for good. */
  predicate SettledAt(run: seq<Event>, j: nat, item: Item) {
    && j < |run| && run[j].ReplayDelivers? && Delivers(After(run[..j]), item)
    && !run[j].unavailable && run[j].now < item.reportedAt + 24 * 3_600_000_000_000
  }

  /** Event `j` came to the failure a day or more after it was reported. */
  predicate ExpiredAt(run: seq<Event>, j: nat, item: Item) {
    && j < |run| && run[j].ReplayDelivers? && Delivers(After(run[..j]), item)
    && item.reportedAt + 24 * 3_600_000_000_000 <= run[j].now
  }

  /** The failures that are to go into the backlog with the event, the oldest first. */
  function Incoming(w: World, e: Event): seq<Item> {
    if e.BufferAppends? && w.buffering.Some? && w.buffering.value.notified
    then w.backlog + [Item(w.issued, w.buffering.value.reportedAt)]
    else if e.ReplayMerges? && w.buffering.None? && w.replay.Some? && w.replay.value.phase.Delivering? && w.replay.value.phase.todo == []
    then w.replay.value.phase.kept + w.backlog
    else []
  }

  /** Event `j` had more failures for the backlog than the 4096 it holds, and this was one of the oldest. */
  predicate OverflowedAt(run: seq<Event>, j: nat, item: Item) {
    && j < |run|
    && var items := Incoming(After(run[..j]), run[j]);
    exists i :: 0 <= i < |items| - 4096 && items[i] == item
  }

  lemma SettledStep(w: World, e: Event, n: nat)
    requires n in Step(w, e).settled && n !in w.settled
    ensures e.ReplayDelivers? && !e.unavailable
    ensures exists item: Item :: item.number == n && Delivers(w, item) && e.now < item.reportedAt + 24 * 3_600_000_000_000
  {
    var item := w.replay.value.phase.todo[0];
    assert item.number == n && Delivers(w, item);
  }

  lemma ExpiredStep(w: World, e: Event, n: nat)
    requires n in Step(w, e).expired && n !in w.expired
    ensures e.ReplayDelivers?
    ensures exists item: Item :: item.number == n && Delivers(w, item) && item.reportedAt + 24 * 3_600_000_000_000 <= e.now
  {
    var item := w.replay.value.phase.todo[0];
    assert item.number == n && Delivers(w, item);
  }

  lemma OverflowStep(w: World, e: Event, n: nat)
    requires n in Step(w, e).overflowed && n !in w.overflowed
    ensures exists i :: 0 <= i < |Incoming(w, e)| - 4096 && Incoming(w, e)[i].number == n
  {
    var items := Incoming(w, e);
    var given := items[..Excess(items)];
    assert n in Numbers(given);
    var i :| 0 <= i < |given| && given[i].number == n;
    assert items[i].number == n;
  }

  lemma LastIsStep(run: seq<Event>)
    requires run != []
    ensures After(run) == Step(After(run[..|run| - 1]), run[|run| - 1])
  {
    hide Step;
  }

  lemma Earlier(run: seq<Event>, n: nat, j: nat)
    requires j < n <= |run|
    ensures run[..n][..j] == run[..j] && run[..n][j] == run[j]
  {
  }

  /** A failure that counts as settled was delivered while it was young enough, to a coordinator that
  answered. */
  lemma {:induction false} SettledIsEarned(run: seq<Event>, n: nat) returns (j: nat, item: Item)
    requires n in After(run).settled
    ensures item.number == n && SettledAt(run, j, item)
    decreases |run|
  {
    assert run != [];
    hide After;
    hide Step;
    var m := |run| - 1;
    LastIsStep(run);
    if n in After(run[..m]).settled {
      j, item := SettledIsEarned(run[..m], n);
      Earlier(run, m, j);
    } else {
      SettledStep(After(run[..m]), run[m], n);
      j := m;
      item :| item.number == n && Delivers(After(run[..m]), item) && run[m].now < item.reportedAt + 24 * 3_600_000_000_000;
    }
  }

  /** One given up for its age was a day old. */
  lemma {:induction false} ExpiredIsEarned(run: seq<Event>, n: nat) returns (j: nat, item: Item)
    requires n in After(run).expired
    ensures item.number == n && ExpiredAt(run, j, item)
    decreases |run|
  {
    assert run != [];
    hide After;
    hide Step;
    var m := |run| - 1;
    LastIsStep(run);
    if n in After(run[..m]).expired {
      j, item := ExpiredIsEarned(run[..m], n);
      Earlier(run, m, j);
    } else {
      ExpiredStep(After(run[..m]), run[m], n);
      j := m;
      item :| item.number == n && Delivers(After(run[..m]), item) && item.reportedAt + 24 * 3_600_000_000_000 <= run[m].now;
    }
  }

  /** One given up for room had 4096 newer ones behind it. */
  lemma {:induction false} OverflowIsEarned(run: seq<Event>, n: nat) returns (j: nat, item: Item)
    requires n in After(run).overflowed
    ensures item.number == n && OverflowedAt(run, j, item)
    decreases |run|
  {
    assert run != [];
    hide After;
    hide Step;
    var m := |run| - 1;
    LastIsStep(run);
    if n in After(run[..m]).overflowed {
      j, item := OverflowIsEarned(run[..m], n);
      Earlier(run, m, j);
    } else {
      OverflowStep(After(run[..m]), run[m], n);
      j := m;
      var items := Incoming(After(run[..m]), run[m]);
      var i :| 0 <= i < |items| - 4096 && items[i].number == n;
      item := items[i];
    }
  }

  // The failures are those that were reported

  /** Event `j` put the failure in the backlog, under its number and with the time it was reported at. */
  predicate BufferedAt(run: seq<Event>, j: nat, item: Item) {
    j < |run| && run[j].BufferAppends? && NewItem(After(run[..j]), item)
  }

  predicate NewItem(w: World, item: Item) {
    w.buffering.Some? && w.buffering.value.notified && item == Item(w.issued, w.buffering.value.reportedAt)
  }

  lemma StoredItems(w: World, items: seq<Item>, item: Item)
    requires item in Store(w, items).backlog
    ensures item in items
  {
  }

  lemma AppendWaits(w: World, item: Item)
    requires item in Waiting(Append(w))
    ensures item in Waiting(w) || NewItem(w, item)
  {
    if w.buffering.Some? && w.buffering.value.notified {
      var all := w.backlog + [Item(w.issued, w.buffering.value.reportedAt)];
      if item in Store(w, all).backlog {
        StoredItems(w, all, item);
      }
    }
  }

  lemma MergeWaits(w: World, item: Item)
    requires item in Waiting(Merge(w))
    ensures item in Waiting(w)
  {
    if w.buffering.None? && w.replay.Some? && w.replay.value.phase.Delivering? && w.replay.value.phase.todo == [] {
      StoredItems(w, w.replay.value.phase.kept + w.backlog, item);
    }
  }

  lemma ReplayWaits(w: World, now: Time, unavailable: bool, item: Item)
    ensures item in Waiting(Take(w)) ==> item in Waiting(w)
    ensures item in Waiting(Deliver(w, now, unavailable)) ==> item in Waiting(w)
  {
    hide TooOld;
  }

  lemma OthersWait(w: World, e: Event)
    requires !e.BufferAppends? && !e.ReplayTakes? && !e.ReplayDelivers? && !e.ReplayMerges?
    ensures Waiting(Step(w, e)) == Waiting(w)
  {
  }

  lemma WaitingStep(w: World, e: Event, item: Item)
    requires item in Waiting(Step(w, e))
    ensures item in Waiting(w) || (e.BufferAppends? && NewItem(w, item))
  {
    hide Waiting;
    match e
    case BufferAppends => AppendWaits(w, item);
    case ReplayTakes => ReplayWaits(w, 0, false, item);
    case ReplayDelivers(now, unavailable) => ReplayWaits(w, now, unavailable, item);
    case ReplayMerges => MergeWaits(w, item);
    case _ => OthersWait(w, e);
  }

  /** Whatever waits to be delivered was reported, with this very time. */
  lemma {:induction false} WaitingWasReported(run: seq<Event>, item: Item) returns (j: nat)
    requires item in Waiting(After(run))
    ensures BufferedAt(run, j, item)
    decreases |run|
  {
    assert run != [];
    hide After;
    hide Step;
    hide Waiting;
    var m := |run| - 1;
    LastIsStep(run);
    WaitingStep(After(run[..m]), run[m], item);
    if item in Waiting(After(run[..m])) {
      j := WaitingWasReported(run[..m], item);
      Earlier(run, m, j);
    } else {
      j := m;
    }
  }

  /** Event `j` began to buffer with this time. */
  lemma {:induction false} BufferingWasReported(run: seq<Event>) returns (j: nat)
    requires After(run).buffering.Some?
    ensures j < |run| && run[j] == BufferLocks(After(run).buffering.value.reportedAt)
    decreases |run|
  {
    assert run != [];
    hide Store;
    hide Abort;
    hide Finish;
    hide Advance;
    hide Deliver;
    var m := |run| - 1;
    var w := After(run[..m]);
    if run[m].BufferLocks? && w.buffering.None? {
      j := m;
    } else {
      j := BufferingWasReported(run[..m]);
    }
  }

  /** The event is a permanent fault: reported as one, or met by a recovery in one of its steps. */
  predicate Breaks(w: World, e: Event) {
    || e == BreakForGood
    || (e == RecoverAborts(true) && w.recovering.Some? && w.recovering.value.next != 6
        && !(w.replay.Some? && w.replay.value.forRecovery))
  }

  lemma PermanentStep(w: World, e: Event)
    requires Barrier(w)
    ensures Step(w, e).status == PermanentFault <==> w.status == PermanentFault || Breaks(w, e)
  {
  }

  predicate BrokenAt(run: seq<Event>, j: nat) {
    j < |run| && Breaks(After(run[..j]), run[j])
  }

  lemma BrokenBefore(run: seq<Event>, j: nat)
    requires run != []
    ensures BrokenAt(run, j) <==> BrokenAt(run[..|run| - 1], j) || (j == |run| - 1 && Breaks(After(run[..|run| - 1]), run[|run| - 1]))
  {
    hide After;
    hide Breaks;
    if j < |run| - 1 {
      assert run[..|run| - 1][..j] == run[..j];
    }
  }

  /** Coordination is broken for good exactly if a permanent fault was ever met. */
  lemma {:induction false} PermanentIsEarned(run: seq<Event>)
    ensures After(run).status == PermanentFault <==> exists j: nat :: BrokenAt(run, j)
    decreases |run|
  {
    if run == [] {
    } else {
      var n := |run| - 1;
      RunKeepsBarrier(run[..n]);
      LastIsStep(run);
      hide After;
      hide Step;
      hide Barrier;
      hide Breaks;
      PermanentStep(After(run[..n]), run[n]);
      PermanentIsEarned(run[..n]);
      hide BrokenAt;
      forall j: nat
        ensures BrokenAt(run, j) <==> BrokenAt(run[..n], j) || (j == n && Breaks(After(run[..n]), run[n]))
      {
        BrokenBefore(run, j);
      }
      if Breaks(After(run[..n]), run[n]) {
        assert BrokenAt(run, n);
      }
    }
  }
}
