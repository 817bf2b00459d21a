/** The recovery barrier: circuit failures reported during an outage are buffered, replayed in the
background or by a recovery, and coordination is ready again only when none is left. Every event
below is one stretch of code under one lock, so that any interleaving of the threads is a run. */
module RecoveryBarrier {
  import opened ExpiryQueue

  const BACKLOG_LIMIT := 4096
  const REPLAY_WINDOW := 24 * 3_600_000_000_000

  datatype Status = Ready | Degraded | PermanentFault

  /** A buffered failure, numbered in the order of buffering. */
  datatype Item = Item(number: nat, reportedAt: Time)

  /** A thread inside `bufferCircuitFailure`, holding the manager's lock. */
  datatype Buffering = Buffering(reportedAt: Time, notified: bool)

  datatype Phase = Begun | Delivering(kept: seq<Item>, todo: seq<Item>) | Merged

  /** The one replay that holds the replay token. */
  datatype Replay = Replay(forRecovery: bool, phase: Phase, failed: bool)

  const REPLAY_STEP := 4
  const STEPS := 6

  /** The one recovery that holds `recoverMu`: `next` is the step it is at, six when all are done and
  seven when its replay failed. */
  datatype Recovering = Recovering(starting: nat, next: nat)

  datatype World = World(
    status: Status, failures: nat, backlog: seq<Item>, buffering: Option<Buffering>,
    replay: Option<Replay>, recovering: Option<Recovering>,
    issued: nat, settled: set<nat>, expired: set<nat>, overflowed: set<nat>)

  const Start := World(Ready, 0, [], None, None, None, 0, {}, {}, {})

  // The recovery manager

  function MarkDegraded(w: World): World {
    if w.status == PermanentFault then w else w.(status := Degraded, failures := w.failures + 1)
  }

  function MarkPermanent(w: World): World {
    w.(status := PermanentFault, failures := w.failures + 1)
  }

  function BeginRecover(w: World): World {
    if w.recovering.Some? || w.status == PermanentFault then w else w.(recovering := Some(Recovering(w.failures, 0)))
  }

  /** A step other than the replay succeeds. */
  function Advance(w: World): World {
    if w.recovering.None? || w.recovering.value.next == REPLAY_STEP || w.recovering.value.next >= STEPS then w
    else w.(recovering := Some(w.recovering.value.(next := w.recovering.value.next + 1)))
  }

  /** A step fails, or the replay did. */
  function Abort(w: World, permanent: bool): World {
    if w.recovering.None? || w.recovering.value.next == STEPS || (w.replay.Some? && w.replay.value.forRecovery) then w
    else (if permanent then MarkPermanent(w) else MarkDegraded(w)).(recovering := None)
  }

  function Finish(w: World): World {
    if w.recovering.None? || w.recovering.value.next != STEPS then w
    else if w.failures != w.recovering.value.starting then w.(recovering := None)
    else w.(recovering := None, status := Ready)
  }

  // Buffering

  function LockBuffer(w: World, at: Time): World {
    if w.buffering.Some? then w else w.(buffering := Some(Buffering(at, false)))
  }

  function Notify(w: World): World {
    if w.buffering.None? || w.buffering.value.notified then w
    else MarkDegraded(w).(buffering := Some(w.buffering.value.(notified := true)))
  }

  function Numbers(items: seq<Item>): set<nat> {
    set i | 0 <= i < |items| :: items[i].number
  }

  function Excess(items: seq<Item>): nat {
    if |items| > BACKLOG_LIMIT then |items| - BACKLOG_LIMIT else 0
  }

  /** Puts `items` in the backlog, giving up the oldest ones beyond the limit. */
  function Store(w: World, items: seq<Item>): World {
    w.(backlog := items[Excess(items)..], overflowed := w.overflowed + Numbers(items[..Excess(items)]))
  }

  function Append(w: World): World {
    if w.buffering.None? || !w.buffering.value.notified then w
    else
      Store(w, w.backlog + [Item(w.issued, w.buffering.value.reportedAt)]).(
        buffering := None, issued := w.issued + 1)
  }

  // Replaying

  function BeginReplay(w: World, forRecovery: bool): World {
    if w.replay.Some? || (forRecovery && (w.recovering.None? || w.recovering.value.next != REPLAY_STEP)) then w
    else w.(replay := Some(Replay(forRecovery, Begun, false)))
  }

  function Take(w: World): World {
    if w.buffering.Some? || w.replay.None? || w.replay.value.phase != Begun then w
    else
      var phase := if w.backlog == [] then Merged else Delivering([], w.backlog);
      w.(backlog := [], replay := Some(w.replay.value.(phase := phase)))
  }

  predicate TooOld(item: Item, now: Time) {
    item.reportedAt <= now - REPLAY_WINDOW
  }

  function Deliver(w: World, now: Time, unavailable: bool): World {
    if w.replay.None? || !w.replay.value.phase.Delivering? || w.replay.value.phase.todo == [] then w
    else
      var p := w.replay.value.phase;
      var item, rest := p.todo[0], p.todo[1..];
      if TooOld(item, now) then
        w.(replay := Some(w.replay.value.(phase := Delivering(p.kept, rest))), expired := w.expired + {item.number})
      else if unavailable then
        w.(replay := Some(w.replay.value.(phase := Delivering(p.kept + [item], rest), failed := true)))
      else
        w.(replay := Some(w.replay.value.(phase := Delivering(p.kept, rest))), settled := w.settled + {item.number})
  }

  function Merge(w: World): World {
    if w.buffering.Some? || w.replay.None? || !w.replay.value.phase.Delivering? || w.replay.value.phase.todo != [] then w
    else Store(w, w.replay.value.phase.kept + w.backlog).(replay := Some(w.replay.value.(phase := Merged)))
  }

  function EndReplay(w: World): World {
    if w.replay.None? || w.replay.value.phase != Merged then w
    else if w.replay.value.forRecovery && w.recovering.Some? then
      w.(replay := None, recovering := Some(w.recovering.value.(next := if w.replay.value.failed then STEPS + 1 else REPLAY_STEP + 1)))
    else w.(replay := None)
  }

  datatype Event =
    | Degrade | BreakForGood
    | RecoverBegins | RecoverAdvances | RecoverAborts(permanent: bool) | RecoverFinishes
    | BufferLocks(at: Time) | BufferNotifies | BufferAppends
    | ReplayBegins(forRecovery: bool) | ReplayTakes | ReplayDelivers(now: Time, unavailable: bool) | ReplayMerges | ReplayEnds

  function Step(w: World, e: Event): World {
    match e
    case Degrade => MarkDegraded(w)
    case BreakForGood => MarkPermanent(w)
    case RecoverBegins => BeginRecover(w)
    case RecoverAdvances => Advance(w)
    case RecoverAborts(permanent) => Abort(w, permanent)
    case RecoverFinishes => Finish(w)
    case BufferLocks(at) => LockBuffer(w, at)
    case BufferNotifies => Notify(w)
    case BufferAppends => Append(w)
    case ReplayBegins(forRecovery) => BeginReplay(w, forRecovery)
    case ReplayTakes => Take(w)
    case ReplayDelivers(now, unavailable) => Deliver(w, now, unavailable)
    case ReplayMerges => Merge(w)
    case ReplayEnds => EndReplay(w)
  }

  function After(run: seq<Event>): World {
    if run == [] then Start else Step(After(run[..|run| - 1]), run[|run| - 1])
  }

  // What every run keeps

  function Carried(w: World): seq<Item> {
    if w.replay.Some? && w.replay.value.phase.Delivering? then w.replay.value.phase.kept + w.replay.value.phase.todo else []
  }

  predicate Announced(w: World) {
    w.buffering.Some? && w.buffering.value.notified
  }

  /** No failure waits anywhere, not even between its announcement and its place in the backlog. */
  predicate Quiet(w: World) {
    w.backlog == [] && Carried(w) == [] && !Announced(w)
  }

  predicate OwnReplay(w: World) {
    w.replay.Some? && w.replay.value.forRecovery
  }

  /** No failure was counted since the recovery began. */
  predicate Untouched(w: World) {
    w.recovering.Some? && w.failures == w.recovering.value.starting
  }

  predicate Barrier(w: World) {
    && (w.status == Ready ==> Quiet(w))
    && (w.recovering.Some? ==>
          && w.recovering.value.starting <= w.failures
          && (w.status == PermanentFault ==> w.recovering.value.starting < w.failures))
    && (OwnReplay(w) ==> w.recovering.Some? && w.recovering.value.next == REPLAY_STEP)
    && (w.replay.Some? && w.replay.value.phase.Delivering? && !w.replay.value.failed ==> w.replay.value.phase.kept == [])
    && (w.replay.Some? && w.replay.value.phase == Begun ==> !w.replay.value.failed)
    && (Untouched(w) && REPLAY_STEP < w.recovering.value.next <= STEPS ==> Quiet(w))
    && (Untouched(w) && OwnReplay(w) && w.replay.value.phase.Delivering? ==> w.backlog == [] && !Announced(w))
    && (Untouched(w) && OwnReplay(w) && w.replay.value.phase == Merged && !w.replay.value.failed ==> Quiet(w))
  }

  lemma StepKeepsBarrier(w: World, e: Event)
    requires Barrier(w)
    ensures Barrier(Step(w, e))
  {
    if e.BufferAppends? || e.ReplayTakes? || e.ReplayDelivers? || e.ReplayMerges? || e.ReplayEnds? {
      BacklogKeepsBarrier(w, e);
    } else {
      ManagerKeepsBarrier(w, e);
    }
    hide Step;
    hide Barrier;
  }

  lemma ManagerKeepsBarrier(w: World, e: Event)
    requires Barrier(w) && !e.BufferAppends? && !e.ReplayTakes? && !e.ReplayDelivers? && !e.ReplayMerges? && !e.ReplayEnds?
    ensures Barrier(Step(w, e))
  {
    hide Store;
    hide Append;
    hide Take;
    hide Deliver;
    hide Merge;
    hide EndReplay;
  }

  lemma BacklogKeepsBarrier(w: World, e: Event)
    requires Barrier(w) && (e.BufferAppends? || e.ReplayTakes? || e.ReplayDelivers? || e.ReplayMerges? || e.ReplayEnds?)
    ensures Barrier(Step(w, e))
  {
  }

  lemma {:induction false} RunKeepsBarrier(run: seq<Event>)
    ensures Barrier(After(run))
    decreases |run|
  {
    hide Step;
    if run != [] {
      RunKeepsBarrier(run[..|run| - 1]);
      hide Barrier;
      StepKeepsBarrier(After(run[..|run| - 1]), run[|run| - 1]);
    }
  }

  // Nothing is lost on the way

  function Waiting(w: World): seq<Item> {
    Carried(w) + w.backlog
  }

  ghost predicate Increasing(items: seq<Item>) {
    forall i, j :: 0 <= i < j < |items| ==> items[i].number < items[j].number
  }

  /** The four sets share out the numbers below `issued`. */
  ghost predicate Partition(waiting: set<nat>, w: World) {
    && (forall n :: n in waiting || n in w.settled || n in w.expired || n in w.overflowed ==> n < w.issued)
    && (forall n: nat :: n < w.issued ==> n in waiting || n in w.settled || n in w.expired || n in w.overflowed)
    && waiting !! w.settled && waiting !! w.expired && waiting !! w.overflowed
    && w.settled !! w.expired && w.settled !! w.overflowed && w.expired !! w.overflowed
  }

  /** Each failure ever buffered is in exactly one place: waiting, settled, expired or given up. */
  ghost predicate Conserved(w: World) {
    Increasing(Waiting(w)) && Partition(Numbers(Waiting(w)), w) && |w.backlog| <= BACKLOG_LIMIT
  }

  lemma NumbersOf(a: seq<Item>, b: seq<Item>)
    ensures Numbers(a + b) == Numbers(a) + Numbers(b)
  {
    forall n
      ensures n in Numbers(a + b) <==> n in Numbers(a) || n in Numbers(b)
    {
      if n in Numbers(a) {
        var i :| 0 <= i < |a| && a[i].number == n;
        assert (a + b)[i].number == n;
      }
      if n in Numbers(b) {
        var i :| 0 <= i < |b| && b[i].number == n;
        assert (a + b)[|a| + i].number == n;
      }
    }
  }

  lemma Apart(a: seq<Item>, b: seq<Item>)
    requires Increasing(a + b)
    ensures Increasing(a) && Increasing(b) && Numbers(a) !! Numbers(b)
  {
    assert forall i :: 0 <= i < |a| ==> (a + b)[i] == a[i];
    assert forall i :: 0 <= i < |b| ==> (a + b)[|a| + i] == b[i];
    forall i, j | 0 <= i < |a| && 0 <= j < |b|
      ensures a[i].number < b[j].number
    {
      assert (a + b)[i].number < (a + b)[|a| + j].number;
    }
  }

  lemma Together(a: seq<Item>, m: seq<Item>, b: seq<Item>)
    requires Increasing(a + m + b)
    ensures Increasing(a + b)
    ensures Numbers(a + m + b) == Numbers(a + b) + Numbers(m) && Numbers(a + b) !! Numbers(m)
  {
    Apart(a + m, b);
    Apart(a, m);
    assert a + m + b == a + (m + b);
    Apart(a, m + b);
    Apart(m, b);
    NumbersOf(a + m, b);
    NumbersOf(a, m);
    NumbersOf(a, b);
    forall i, j | 0 <= i < j < |a + b|
      ensures (a + b)[i].number < (a + b)[j].number
    {
      var k := if j < |a| then j else j + |m|;
      assert (a + m + b)[k] == (a + b)[j];
      var l := if i < |a| then i else i + |m|;
      assert (a + m + b)[l] == (a + b)[i];
    }
  }

  lemma SingleNumber(x: Item)
    ensures Numbers([x]) == {x.number}
  {
    assert [x][0] == x;
  }

  lemma PushedLast(a: seq<Item>, x: Item, n: nat)
    requires Increasing(a) && x.number == n && forall m :: m in Numbers(a) ==> m < n
    ensures Increasing(a + [x]) && Numbers(a + [x]) == Numbers(a) + {n}
  {
    NumbersOf(a, [x]);
    SingleNumber(x);
    assert forall i :: 0 <= i < |a| ==> a[i].number in Numbers(a);
  }

  /** Giving up `m` from the middle of what waits. */
  lemma StoreConserves(w: World, v: World, a: seq<Item>, items: seq<Item>)
    requires Increasing(a + items) && Partition(Numbers(a + items), w)
    requires v == Store(w, items)
    ensures Increasing(a + v.backlog) && Partition(Numbers(a + v.backlog), v) && |v.backlog| <= BACKLOG_LIMIT
  {
    var k := Excess(items);
    assert a + items == a + items[..k] + items[k..];
    Together(a, items[..k], items[k..]);
  }

  lemma AppendConserves(w: World)
    requires Conserved(w)
    ensures Conserved(Append(w))
  {
    hide Numbers;
    hide Increasing;
    if Announced(w) {
      var x := Item(w.issued, w.buffering.value.reportedAt);
      PushedLast(Waiting(w), x, w.issued);
      assert Waiting(w) + [x] == Carried(w) + (w.backlog + [x]);
      var u := w.(issued := w.issued + 1);
      StoreConserves(u, Store(u, w.backlog + [x]), Carried(w), w.backlog + [x]);
    }
  }

  predicate CanDeliver(w: World) {
    w.replay.Some? && w.replay.value.phase.Delivering? && w.replay.value.phase.todo != []
  }

  /** The first failure to deliver stands between those kept and the others that wait. */
  lemma DeliveryAt(w: World)
    requires CanDeliver(w)
    ensures var p := w.replay.value.phase;
            Waiting(w) == p.kept + [p.todo[0]] + (p.todo[1..] + w.backlog)
  {
    var p := w.replay.value.phase;
    assert p.todo == [p.todo[0]] + p.todo[1..];
  }

  lemma DeliveryLeaves(w: World, now: Time, unavailable: bool)
    requires CanDeliver(w)
    ensures var p := w.replay.value.phase;
            Waiting(Deliver(w, now, unavailable))
            == if !TooOld(p.todo[0], now) && unavailable then p.kept + [p.todo[0]] + (p.todo[1..] + w.backlog)
               else p.kept + (p.todo[1..] + w.backlog)
  {
    var p, v := w.replay.value.phase, Deliver(w, now, unavailable);
    if !TooOld(p.todo[0], now) && unavailable {
      assert p.kept + [p.todo[0]] + p.todo[1..] + w.backlog == p.kept + [p.todo[0]] + (p.todo[1..] + w.backlog);
    } else {
      assert p.kept + p.todo[1..] + w.backlog == p.kept + (p.todo[1..] + w.backlog);
    }
  }

  lemma PartitionMoves(waiting: set<nat>, left: set<nat>, n: nat, w: World, v: World)
    requires Partition(waiting, w) && waiting == left + {n} && n !in left
    requires v.issued == w.issued && v.overflowed == w.overflowed
    requires || (v.settled == w.settled + {n} && v.expired == w.expired)
             || (v.expired == w.expired + {n} && v.settled == w.settled)
    ensures Partition(left, v)
  {
  }

  lemma DeliverConserves(w: World, now: Time, unavailable: bool)
    requires Conserved(w)
    ensures Conserved(Deliver(w, now, unavailable))
  {
    hide Numbers;
    hide Increasing;
    hide Waiting;
    hide Partition;
    if CanDeliver(w) {
      var p, v := w.replay.value.phase, Deliver(w, now, unavailable);
      var item, rest := p.todo[0], p.todo[1..] + w.backlog;
      DeliveryAt(w);
      DeliveryLeaves(w, now, unavailable);
      if !TooOld(item, now) && unavailable {
        SamePartition(Numbers(Waiting(w)), w, v);
      } else {
        Together(p.kept, [item], rest);
        SingleNumber(item);
        PartitionMoves(Numbers(Waiting(w)), Numbers(p.kept + rest), item.number, w, v);
      }
    }
  }

  lemma SamePartition(waiting: set<nat>, w: World, v: World)
    requires Partition(waiting, w)
    requires v.issued == w.issued && v.settled == w.settled && v.expired == w.expired && v.overflowed == w.overflowed
    ensures Partition(waiting, v)
  {
  }

  lemma MergeConserves(w: World)
    requires Conserved(w)
    ensures Conserved(Merge(w))
  {
    hide Numbers;
    hide Increasing;
    var v := Merge(w);
    if v != w {
      var p := w.replay.value.phase;
      assert Waiting(w) == [] + (p.kept + w.backlog);
      StoreConserves(w, Store(w, p.kept + w.backlog), [], p.kept + w.backlog);
      assert Waiting(v) == [] + v.backlog;
    }
  }

  lemma TakeConserves(w: World)
    requires Conserved(w)
    ensures Conserved(Take(w))
  {
    hide Numbers;
    hide Increasing;
    assert Waiting(Take(w)) == Waiting(w);
  }

  lemma StepConserves(w: World, e: Event)
    requires Conserved(w)
    ensures Conserved(Step(w, e))
  {
    hide Append;
    hide Take;
    hide Deliver;
    hide Merge;
    hide Increasing;
    hide Numbers;
    match e
    case BufferAppends => AppendConserves(w);
    case ReplayTakes => TakeConserves(w);
    case ReplayDelivers(now, unavailable) => DeliverConserves(w, now, unavailable);
    case ReplayMerges => MergeConserves(w);
    case _ => assert Waiting(Step(w, e)) == Waiting(w);
  }

  lemma {:induction false} RunConserves(run: seq<Event>)
    ensures Conserved(After(run))
    decreases |run|
  {
    hide Step;
    if run != [] {
      RunConserves(run[..|run| - 1]);
      hide Conserved;
      StepConserves(After(run[..|run| - 1]), run[|run| - 1]);
    }
  }

  // The promises

  /** Whenever coordination is ready, every circuit failure buffered so far was accepted by the
  coordinator, was too old to matter, or was given up because the backlog was full; none waits in
  the backlog, in a replay, or on its way to the backlog. */
  lemma ReadyMeansDelivered(run: seq<Event>, n: nat)
    requires After(run).status == Ready && n < After(run).issued
    ensures var w := After(run);
            Quiet(w) && n in w.settled + w.expired + w.overflowed
  {
    RunKeepsBarrier(run);
    RunConserves(run);
    hide After;
  }

  /** A permanent fault is never left. */
  lemma {:induction false} PermanentIsForever(run: seq<Event>, more: seq<Event>)
    requires After(run).status == PermanentFault
    ensures After(run + more).status == PermanentFault
    decreases |more|
  {
    if more == [] {
      assert run + more == run;
    } else {
      var init := more[..|more| - 1];
      PermanentIsForever(run, init);
      assert (run + more)[..|run + more| - 1] == run + init;
      RunKeepsBarrier(run + init);
      hide After;
      hide Store;
    }
  }

  // The barrier opens again

  function Then(w: World, run: seq<Event>): World
    decreases |run|
  {
    if run == [] then w else Then(Step(w, run[0]), run[1..])
  }

  lemma {:induction false} ThenBoth(w: World, a: seq<Event>, b: seq<Event>)
    ensures Then(w, a + b) == Then(Then(w, a), b)
    decreases |a|
  {
    hide Step;
    if a == [] {
      assert a + b == b;
    } else {
      assert (a + b)[0] == a[0] && (a + b)[1..] == a[1..] + b;
      ThenBoth(Step(w, a[0]), a[1..], b);
    }
  }

  lemma ThenOne(w: World, e: Event)
    ensures Then(w, [e]) == Step(w, e)
  {
    hide Step;
    assert [e][1..] == [];
    assert Then(Step(w, e), []) == Step(w, e);
  }

  /** A coordinator that answers takes every failure off the replay's hands. */
  lemma {:induction false} Drains(w: World, now: Time) returns (run: seq<Event>)
    requires w.replay.Some? && w.replay.value.phase.Delivering?
    ensures var v := Then(w, run);
            && v.replay == Some(w.replay.value.(phase := Delivering(w.replay.value.phase.kept, [])))
            && v == w.(replay := v.replay, settled := v.settled, expired := v.expired)
    decreases |w.replay.value.phase.todo|
  {
    if w.replay.value.phase.todo == [] {
      run := [];
      assert w.replay.value == w.replay.value.(phase := Delivering(w.replay.value.phase.kept, []));
    } else {
      var e := ReplayDelivers(now, false);
      var more := Drains(Step(w, e), now);
      run := [e] + more;
      ThenOne(w, e);
      ThenBoth(w, [e], more);
    }
  }

  lemma Takes(w: World, run: seq<Event>, e: Event, v: World)
    requires Then(w, run) == v
    ensures Then(w, run + [e]) == Step(v, e)
  {
    ThenBoth(w, run, [e]);
    ThenOne(v, e);
    hide Step;
  }

  predicate Idle(w: World) {
    w.status != PermanentFault && w.buffering.None? && w.replay.None? && w.recovering.None? && |w.backlog| <= BACKLOG_LIMIT
  }

  /** The four steps before the replay succeed and the replay takes the backlog. */
  lemma RecoveryReachesReplay(w: World) returns (run: seq<Event>)
    requires Idle(w)
    ensures Then(w, run) == w.(
              recovering := Some(Recovering(w.failures, REPLAY_STEP)), replay := Some(Replay(true, Begun, false)))
  {
    var r := Recovering(w.failures, 0);
    hide Then;
    run := [RecoverBegins];
    ThenOne(w, RecoverBegins);
    var v := w.(recovering := Some(r));
    for i := 0 to REPLAY_STEP
      invariant Then(w, run) == v && v == w.(recovering := Some(r.(next := i)))
    {
      Takes(w, run, RecoverAdvances, v);
      run := run + [RecoverAdvances];
      v := w.(recovering := Some(r.(next := i + 1)));
    }
    Takes(w, run, ReplayBegins(true), v);
    run := run + [ReplayBegins(true)];
  }

  /** What an undisturbed replay on behalf of a recovery comes to. */
  predicate Emptied(w: World, v: World) {
    && v.replay == Some(Replay(true, Merged, false)) && v.backlog == [] && v.buffering.None?
    && v.recovering == w.recovering && v.failures == w.failures
  }

  lemma ReplayEmpties(w: World, now: Time) returns (run: seq<Event>)
    requires w.buffering.None? && w.replay == Some(Replay(true, Begun, false))
    ensures Emptied(w, Then(w, run))
  {
    hide Then;
    var v := Step(w, ReplayTakes);
    run := [ReplayTakes];
    ThenOne(w, ReplayTakes);
    if w.backlog != [] {
      var drained := Drains(v, now);
      ThenBoth(w, run, drained);
      v := Then(v, drained);
      run := run + drained;
      Takes(w, run, ReplayMerges, v);
      run := run + [ReplayMerges];
      assert v.replay.value.phase == Delivering([], []) && [] + v.backlog == v.backlog;
    }
  }

  lemma RecoveryEnds(w: World) returns (run: seq<Event>)
    requires w.replay == Some(Replay(true, Merged, false)) && w.backlog == []
    requires w.recovering == Some(Recovering(w.failures, REPLAY_STEP))
    ensures var v := Then(w, run); v.status == Ready && v.backlog == [] && v.recovering.None?
  {
    hide Then;
    run := [ReplayEnds];
    ThenOne(w, ReplayEnds);
    var v := EndReplay(w);
    Takes(w, run, RecoverAdvances, v);
    run := run + [RecoverAdvances];
    v := Advance(v);
    Takes(w, run, RecoverFinishes, v);
    run := run + [RecoverFinishes];
  }

  /** From any idle moment, however many failures wait, an undisturbed recovery ends ready. */
  lemma RecoverySucceeds(w: World, now: Time) returns (run: seq<Event>)
    requires Idle(w)
    ensures var v := Then(w, run); v.status == Ready && v.backlog == [] && v.recovering.None?
  {
    hide Then;
    var toReplay := RecoveryReachesReplay(w);
    var v := Then(w, toReplay);
    var replay := ReplayEmpties(v, now);
    ThenBoth(w, toReplay, replay);
    var u := Then(v, replay);
    var end := RecoveryEnds(u);
    ThenBoth(w, toReplay + replay, end);
    run := toReplay + replay + end;
  }
}
