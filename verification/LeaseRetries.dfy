/** When completions are called and in which order: retries wait for their time and are then called, an
accepting coordinator empties the backlog, and what is handed over is first called in that order. */
module LeaseRetries {
  import opened ExpiryQueue
  import opened Admission
  import opened LeaseDelivery

  // 1. Which retries a tick takes

  ghost predicate Increasing(idx: seq<nat>) {
    forall i, j :: 0 <= i < j < |idx| ==> idx[i] < idx[j]
  }

  /** `part` is `all` at the places `idx`, in order. */
  ghost predicate PartAt(part: seq<Pending>, all: seq<Pending>, idx: seq<nat>) {
    Increasing(idx) && |idx| == |part| && forall k :: 0 <= k < |idx| ==> idx[k] < |all| && part[k] == all[idx[k]]
  }

  lemma PartMore(part: seq<Pending>, init: seq<Pending>, idx: seq<nat>, p: Pending)
    requires PartAt(part, init, idx)
    ensures PartAt(part, init + [p], idx) && PartAt(part + [p], init + [p], idx + [|init|])
  {
  }

  /** A tick takes exactly the retries whose time has come, in order. */
  lemma {:induction false} TakenExactly(ps: seq<Pending>, now: Time) returns (idx: seq<nat>)
    ensures PartAt(Ready(ps, now), ps, idx)
    ensures forall i: nat :: i < |ps| ==> (i in idx <==> ps[i].next <= now)
    decreases |ps|
  {
    if ps == [] {
      idx := [];
    } else {
      var init, p := ps[..|ps| - 1], ps[|ps| - 1];
      assert ps == init + [p];
      idx := TakenExactly(init, now);
      PartMore(Ready(init, now), init, idx, p);
      assert |init| !in idx;
      if p.next <= now {
        idx := idx + [|init|];
      }
      hide PartAt;
    }
  }

  /** And it leaves exactly the others, in order. */
  lemma {:induction false} KeptExactly(ps: seq<Pending>, now: Time) returns (idx: seq<nat>)
    ensures PartAt(Later(ps, now), ps, idx)
    ensures forall i: nat :: i < |ps| ==> (i in idx <==> ps[i].next > now)
    decreases |ps|
  {
    if ps == [] {
      idx := [];
    } else {
      var init, p := ps[..|ps| - 1], ps[|ps| - 1];
      assert ps == init + [p];
      idx := KeptExactly(init, now);
      PartMore(Later(init, now), init, idx, p);
      assert |init| !in idx;
      if p.next > now {
        idx := idx + [|init|];
      }
      hide PartAt;
    }
  }

  lemma {:induction false} TakenIsDue(ps: seq<Pending>, now: Time, p: Pending)
    ensures p in Ready(ps, now) <==> p in ps && p.next <= now
    ensures p in Later(ps, now) <==> p in ps && p.next > now
    decreases |ps|
  {
    if ps == [] {
    } else {
      var init, last := ps[..|ps| - 1], ps[|ps| - 1];
      assert ps == init + [last];
      TakenIsDue(init, now, p);
    }
  }

  // 2. No retry is called early

  /** Event `j` is a tick that found the retry in the backlog, its time come. */
  predicate TickedAt(cap: nat, run: seq<Event>, j: nat, p: Pending) {
    j < |run| && run[j].StartsRetry? && p.next <= run[j].now && p in After(cap, run[..j]).pending
  }

  lemma DueStep(w: World, cap: nat, e: Event, p: Pending)
    requires p in Step(w, cap, e).due
    ensures p in w.due || (e.StartsRetry? && p.next <= e.now && p in w.pending)
  {
    if e.StartsRetry? {
      TakenIsDue(w.pending, e.now, p);
    }
    hide Ready;
    hide Later;
    hide QueueRetry;
  }

  lemma TickedBefore(cap: nat, run: seq<Event>, n: nat, j: nat, p: Pending)
    requires n <= |run| && TickedAt(cap, run[..n], j, p)
    ensures TickedAt(cap, run, j, p)
  {
    hide After;
    assert run[..n][..j] == run[..j];
  }

  lemma LastIsStep(cap: nat, run: seq<Event>)
    requires run != []
    ensures After(cap, run) == Step(After(cap, run[..|run| - 1]), cap, run[|run| - 1])
  {
    hide Step;
  }

  /** Every retry about to be called was taken by a tick at or after its time. */
  lemma {:induction false} NoRetryIsEarly(cap: nat, run: seq<Event>, p: Pending) returns (j: nat)
    requires p in After(cap, run).due
    ensures TickedAt(cap, run, j, p)
    decreases |run|
  {
    assert run != [];
    hide After;
    hide Step;
    var n := |run| - 1;
    LastIsStep(cap, run);
    DueStep(After(cap, run[..n]), cap, run[n], p);
    if p in After(cap, run[..n]).due {
      j := NoRetryIsEarly(cap, run[..n], p);
      TickedBefore(cap, run, n, j, p);
    } else {
      j := n;
    }
  }

  // 3. How long a retry waits

  /** Event `j` is a call that left these items open, and set them a time: a first call ten milliseconds
  ahead, a retry twice as long ahead as before, up to five seconds. */
  predicate LeftAt(cap: nat, run: seq<Event>, j: nat, p: Pending) {
    && j < |run|
    && var w, e := After(cap, run[..j]), run[j];
    || (e.Delivers? && p.items == w.batch[Confirmed(w.batch, e.a)..] && p.backoff == 10_000_000 && p.next == e.now + p.backoff)
    || (e.Retries? && w.due != [] && p.items == w.due[0].items[Confirmed(w.due[0].items, e.a)..]
        && p.backoff == (if 2 * w.due[0].backoff > 5_000_000_000 then 5_000_000_000 else 2 * w.due[0].backoff)
        && p.next == e.now + p.backoff)
  }

  lemma PendingStep(w: World, cap: nat, e: Event, p: Pending)
    requires p in Step(w, cap, e).pending || p in Step(w, cap, e).due
    ensures || p in w.pending || p in w.due
            || (e.Delivers? && p.items == w.batch[Confirmed(w.batch, e.a)..] && p.backoff == 10_000_000 && p.next == e.now + p.backoff)
            || (e.Retries? && w.due != [] && p.items == w.due[0].items[Confirmed(w.due[0].items, e.a)..]
                && p.backoff == (if 2 * w.due[0].backoff > 5_000_000_000 then 5_000_000_000 else 2 * w.due[0].backoff)
                && p.next == e.now + p.backoff)
  {
    if e.StartsRetry? {
      TakenIsDue(w.pending, e.now, p);
    }
    hide Ready;
    hide Later;
    hide Items;
    hide Confirmed;
  }

  lemma LeftBefore(cap: nat, run: seq<Event>, n: nat, j: nat, p: Pending)
    requires n <= |run| && LeftAt(cap, run[..n], j, p)
    ensures LeftAt(cap, run, j, p)
  {
    hide After;
    assert run[..n][..j] == run[..j];
  }

  /** Every retry in the backlog is what some call left open, waiting for the time set then. */
  lemma {:induction false} RetriesWait(cap: nat, run: seq<Event>, p: Pending) returns (j: nat)
    requires p in After(cap, run).pending || p in After(cap, run).due
    ensures LeftAt(cap, run, j, p)
    decreases |run|
  {
    assert run != [];
    hide After;
    hide Step;
    hide Confirmed;
    var n := |run| - 1;
    LastIsStep(cap, run);
    PendingStep(After(cap, run[..n]), cap, run[n], p);
    if p in After(cap, run[..n]).pending || p in After(cap, run[..n]).due {
      j := RetriesWait(cap, run[..n], p);
      LeftBefore(cap, run, n, j, p);
    } else {
      j := n;
    }
  }

  // 4. An accepting coordinator

  function RetryAll(w: World, cap: nat, answers: seq<Answer>, now: Time): World {
    if answers == [] then w else RetryNext(RetryAll(w, cap, answers[..|answers| - 1], now), cap, answers[|answers| - 1], now)
  }

  ghost predicate AllAccept(answers: seq<Answer>) {
    forall i :: 0 <= i < |answers| ==> !answers[i].failed
  }

  predicate IsPrefixOf(results: seq<Id>, items: seq<Item>) {
    |results| <= |items| && forall i :: 0 <= i < |results| ==> results[i] == items[i].leaseId
  }

  /** What an answer settles: everything if the call succeeded, else the items its results are about if
  these are the first ones, and else nothing. */
  lemma ConfirmedExactly(items: seq<Item>, a: Answer)
    ensures !a.failed ==> Confirmed(items, a) == |items|
    ensures a.failed ==> Confirmed(items, a) == if IsPrefixOf(a.results, items) then |a.results| else 0
  {
  }

  /** A batch that is accepted is settled, all of it. */
  lemma AcceptedBatch(w: World, cap: nat, a: Answer, now: Time)
    requires !w.stopped && !a.failed
    ensures var v := Deliver(w, cap, a, now);
            v.batch == [] && v.pending == w.pending && v.dropped == w.dropped && v.acked == w.acked + multiset(w.batch)
  {
    assert w.batch[..|w.batch|] == w.batch;
  }

  lemma AcceptedRetry(w: World, cap: nat, a: Answer, now: Time)
    requires !w.stopped && w.due != [] && !a.failed
    ensures var v := RetryNext(w, cap, a, now);
            && v.due == w.due[1..] && v.pending == w.pending && v.dropped == w.dropped && !v.stopped && v.batch == w.batch
            && v.acked == w.acked + multiset(w.due[0].items)
  {
    var items := w.due[0].items;
    assert items[..|items|] == items;
  }

  lemma Suffixes(due: seq<Pending>, n: nat)
    requires n < |due|
    ensures due[n..] != [] && due[n..][0] == due[n] && due[n..][1..] == due[n + 1..]
    ensures Items(due[..n + 1]) == Items(due[..n]) + due[n].items
  {
    assert due[..n + 1] == due[..n] + [due[n]];
    ItemsMore(due[..n], due[n]);
  }

  lemma {:induction false} AcceptedRetries(w: World, cap: nat, answers: seq<Answer>, now: Time)
    requires !w.stopped && |answers| <= |w.due| && AllAccept(answers)
    ensures var v, n := RetryAll(w, cap, answers, now), |answers|;
            && v.due == w.due[n..] && v.pending == w.pending && v.dropped == w.dropped && !v.stopped && v.batch == w.batch
            && v.acked == w.acked + multiset(Items(w.due[..n]))
    decreases |answers|
  {
    hide RetryNext;
    if answers == [] {
      assert w.due[..0] == [] && w.due[0..] == w.due;
      assert Items([]) == [];
    } else {
      hide Items;
      var n := |answers| - 1;
      AcceptedRetries(w, cap, answers[..n], now);
      var v := RetryAll(w, cap, answers[..n], now);
      Suffixes(w.due, n);
      AcceptedRetry(v, cap, answers[n], now);
      assert multiset(Items(w.due[..n]) + w.due[n].items) == multiset(Items(w.due[..n])) + multiset(w.due[n].items);
    }
  }

  /** What one tick does, every call accepted: the retries whose time has come are settled and the others
  stay as they are. */
  lemma TickSettles(w: World, cap: nat, answers: seq<Answer>, now: Time)
    requires !w.stopped && w.batch == [] && w.due == [] && AllAccept(answers) && |answers| == |Ready(w.pending, now)|
    ensures var v := RetryAll(StartRetry(w, now), cap, answers, now);
            && v.due == [] && v.batch == [] && !v.stopped && v.dropped == w.dropped
            && v.pending == Later(w.pending, now) && v.acked == w.acked + multiset(Items(Ready(w.pending, now)))
  {
    var due := Ready(w.pending, now);
    AcceptedRetries(StartRetry(w, now), cap, answers, now);
    assert due[..|due|] == due && due[|due|..] == [];
  }

  function Accepting(ps: seq<Pending>): seq<Answer> {
    seq(|ps|, i requires 0 <= i < |ps| => Answer(|ps[i].items|, [], false))
  }

  function Tick(w: World, cap: nat, now: Time): World {
    RetryAll(StartRetry(w, now), cap, Accepting(Ready(w.pending, now)), now)
  }

  function Ticks(w: World, cap: nat, times: seq<Time>): World {
    if times == [] then w else Tick(Ticks(w, cap, times[..|times| - 1]), cap, times[|times| - 1])
  }

  predicate Idle(w: World) {
    !w.stopped && w.batch == [] && w.due == []
  }

  lemma TickLeaves(w: World, cap: nat, now: Time, p: Pending)
    requires Idle(w)
    ensures var v := Tick(w, cap, now);
            && Idle(v) && v.dropped == w.dropped && (p in v.pending <==> p in w.pending && now < p.next)
            && v.acked + multiset(Items(v.pending)) == w.acked + multiset(Items(w.pending))
  {
    TickSettles(w, cap, Accepting(Ready(w.pending, now)), now);
    TakenIsDue(w.pending, now, p);
    TickAcks(w.pending, now);
    hide Ready;
    hide Later;
    hide StartRetry;
    hide RetryAll;
    hide Items;
  }

  /** Some tick comes at or after the time of the retry. */
  predicate Served(times: seq<Time>, p: Pending) {
    exists k :: 0 <= k < |times| && p.next <= times[k]
  }

  lemma ServedMore(times: seq<Time>, p: Pending)
    requires times != []
    ensures var n := |times| - 1; Served(times, p) <==> Served(times[..n], p) || p.next <= times[n]
  {
    var n := |times| - 1;
    assert forall k :: 0 <= k < n ==> times[..n][k] == times[k];
  }

  /** The retry is in the backlog until a tick at or after its time. */
  lemma {:induction false} TicksLeave(w: World, cap: nat, times: seq<Time>, p: Pending)
    requires Idle(w)
    ensures var v := Ticks(w, cap, times);
            && Idle(v) && v.dropped == w.dropped && (p in v.pending <==> p in w.pending && !Served(times, p))
            && v.acked + multiset(Items(v.pending)) == w.acked + multiset(Items(w.pending))
    decreases |times|
  {
    if times == [] {
    } else {
      hide Idle;
      hide Tick;
      hide Items;
      var n := |times| - 1;
      ServedMore(times, p);
      hide Served;
      TicksLeave(w, cap, times[..n], p);
      TickLeaves(Ticks(w, cap, times[..n]), cap, times[n], p);
    }
  }

  lemma TickAcks(ps: seq<Pending>, now: Time)
    ensures multiset(Items(ps)) == multiset(Items(Ready(ps, now))) + multiset(Items(Later(ps, now)))
  {
    forall x: Item
      ensures multiset(Items(ps))[x] == (multiset(Items(Ready(ps, now))) + multiset(Items(Later(ps, now))))[x]
    {
      RetrySplit(ps, now, x);
    }
  }

  /** From any backlog, ticks that come at or after the time of every retry empty it once the coordinator
  accepts: each completion in it is acknowledged and none is dropped. */
  lemma BacklogEmpties(w: World, cap: nat, times: seq<Time>)
    requires Idle(w) && forall p :: p in w.pending ==> Served(times, p)
    ensures var v := Ticks(w, cap, times);
            v.pending == [] && v.dropped == w.dropped && v.acked == w.acked + multiset(Items(w.pending))
  {
    var v := Ticks(w, cap, times);
    var p := if v.pending == [] then Pending([], 0, 0) else v.pending[0];
    TicksLeave(w, cap, times, p);
    assert v.pending != [] ==> p in w.pending;
    hide Ticks;
    hide Served;
  }

  // 5. First calls are in the order of handing over

  /** The completions that found room in the channel, in order. */
  function Accepted(cap: nat, run: seq<Event>): seq<Item> {
    if run == [] then []
    else
      var n := |run| - 1;
      Accepted(cap, run[..n]) + if run[n].Sends? && |After(cap, run[..n]).channel| < cap then [run[n].item] else []
  }

  /** The completions in the order the worker first called with them. */
  function FirstCalls(cap: nat, run: seq<Event>): seq<Item> {
    if run == [] then []
    else
      var n := |run| - 1;
      FirstCalls(cap, run[..n]) + if run[n].Delivers? && !After(cap, run[..n]).stopped then After(cap, run[..n]).batch else []
  }

  /** The other steps leave batch and channel alone. */
  lemma QuietStep(w: World, cap: nat, e: Event)
    requires e.StartsRetry? || e.Retries? || e.Stops? || e.Elsewhere? || e.DrainDelivers? || e.DrainGivesUp?
    requires w.stopped ==> w.batch == []
    ensures var v := Step(w, cap, e); v.batch == w.batch && v.channel == w.channel && (v.stopped ==> v.batch == [])
  {
    hide Ready;
    hide Later;
    if e.Retries? {
      RetryLeaves(w, cap, e.a, e.now);
    }
    hide RetryNext;
  }

  lemma ReceiveStep(w: World)
    ensures Receive(w).batch + Receive(w).channel == w.batch + w.channel && Receive(w).stopped == w.stopped
    ensures w.stopped ==> Receive(w).batch == w.batch
  {
    if w.channel != [] {
      assert w.channel == [w.channel[0]] + w.channel[1..];
      assert w.batch + [w.channel[0]] + w.channel[1..] == w.batch + w.channel;
    }
  }

  lemma FirstCallStep(w: World, cap: nat, e: Event)
    requires !e.DrainTakes? && (w.stopped ==> w.batch == [])
    ensures var v := Step(w, cap, e);
            && (v.stopped ==> v.batch == [])
            && (if e.Delivers? && !w.stopped then w.batch else []) + v.batch + v.channel
               == w.batch + w.channel + (if e.Sends? && |w.channel| < cap then [e.item] else [])
  {
    hide Deliver;
    match e
    case Sends(item) => assert w.batch + (w.channel + [item]) == w.batch + w.channel + [item];
    case Receives =>
      ReceiveStep(w);
      hide Receive;
    case Delivers(a, now) =>
      if w.stopped {
        DeliverStopped(w, cap, a, now);
      } else {
        QueueLeaves(w, cap, a, now);
      }
    case _ =>
      QuietStep(w, cap, e);
      hide Step;
  }

  lemma DeliverStopped(w: World, cap: nat, a: Answer, now: Time)
    requires w.stopped
    ensures Deliver(w, cap, a, now) == w
  {
  }

  lemma QueueLeaves(w: World, cap: nat, a: Answer, now: Time)
    requires !w.stopped
    ensures var v := Deliver(w, cap, a, now); v.batch == [] && v.channel == w.channel && !v.stopped
  {
    hide Items;
    hide Confirmed;
  }

  lemma RetryLeaves(w: World, cap: nat, a: Answer, now: Time)
    ensures var v := RetryNext(w, cap, a, now); v.batch == w.batch && v.channel == w.channel && v.stopped == w.stopped
  {
    hide Items;
    hide Confirmed;
    hide Doubled;
  }

  lemma Rejoin(first: seq<Item>, called: seq<Item>, batch: seq<Item>, channel: seq<Item>,
               before: seq<Item>, waiting: seq<Item>, more: seq<Item>)
    requires called + batch + channel == before + waiting + more
    ensures (first + called) + batch + channel == first + before + waiting + more
  {
    assert (first + called) + batch + channel == first + (called + batch + channel);
    assert first + before + waiting + more == first + (before + waiting + more);
  }

  predicate NotDrained(run: seq<Event>) {
    forall i :: 0 <= i < |run| ==> !run[i].DrainTakes?
  }

  /** Until the drain begins, what the worker called first, what it has collected and what waits in the
  channel are the completions handed over, in order. */
  lemma {:induction false} FirstCallsInOrder(cap: nat, run: seq<Event>)
    requires NotDrained(run)
    ensures FirstCalls(cap, run) + After(cap, run).batch + After(cap, run).channel == Accepted(cap, run)
    ensures After(cap, run).stopped ==> After(cap, run).batch == []
    decreases |run|
  {
    if run == [] {
    } else {
      hide Step;
      var n := |run| - 1;
      var w, v, e := After(cap, run[..n]), After(cap, run), run[n];
      FirstCallsInOrder(cap, run[..n]);
      FirstCallStep(w, cap, e);
      Rejoin(FirstCalls(cap, run[..n]), if e.Delivers? && !w.stopped then w.batch else [], v.batch, v.channel,
             w.batch, w.channel, if e.Sends? && |w.channel| < cap then [e.item] else []);
    }
  }

  lemma DrainTaken(w: World, cap: nat)
    requires w.stopped && w.batch == []
    ensures var v := Step(w, cap, DrainTakes);
            && v.channel == [] && v.pending == [] && v.batch == w.channel + Items(w.pending) && v.batch[..|w.channel|] == w.channel
  {
    hide Items;
    assert (w.channel + Items(w.pending))[..|w.channel|] == w.channel;
  }

  /** The drain goes on in that order: it calls with what waits in the channel, and then with the retries. */
  lemma DrainGoesOn(cap: nat, run: seq<Event>)
    requires NotDrained(run) && After(cap, run).stopped
    ensures var w := After(cap, run);
            var v := Step(w, cap, DrainTakes);
            && v.channel == [] && v.pending == [] && v.batch == w.channel + Items(w.pending) && |w.channel| <= |v.batch|
            && FirstCalls(cap, run) + v.batch[..|w.channel|] == Accepted(cap, run)
  {
    FirstCallsInOrder(cap, run);
    hide After;
    hide Step;
    hide Items;
    hide NotDrained;
    hide FirstCalls;
    hide Accepted;
    var w := After(cap, run);
    DrainTaken(w, cap);
    Unpadded(FirstCalls(cap, run), w.channel);
  }

  lemma Unpadded(first: seq<Item>, channel: seq<Item>)
    ensures first + [] + channel == first + channel
  {
  }
}
