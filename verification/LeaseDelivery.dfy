/** How lease completions travel from request handlers to the coordinator: a bounded channel, one
worker that sends batches, bounded retries, and a drain at shutdown. Each event is a step of one
thread; senders, the worker and whoever else uses the coordinator interleave freely. The coordinator
may fail after carrying out any part of a batch, and its answer may be lost. */
module LeaseDelivery {
  import opened ExpiryQueue
  import opened Admission
  import AdmissionRuns

  const BATCH_LIMIT := 64
  const FIRST_BACKOFF := 10_000_000
  const LAST_BACKOFF := 5_000_000_000

  datatype Pending = Pending(items: seq<Item>, next: Time, backoff: int)

  /** The coordinator carried out the first `committed` items and answered. */
  datatype Answer = Answer(committed: nat, results: seq<Id>, failed: bool)

  /** `batch` and `due` are the worker's local variables; `log` is what the coordinator carried out. */
  datatype World = World(
    channel: seq<Item>, batch: seq<Item>, due: seq<Pending>, pending: seq<Pending>, stopped: bool,
    sent: multiset<Item>, acked: multiset<Item>, dropped: multiset<Item>, log: seq<AdmissionRuns.Event>)

  const Start := World([], [], [], [], false, multiset{}, multiset{}, multiset{}, [])

  // Which items an answer settles

  predicate Matches(items: seq<Item>, results: seq<Id>) {
    |results| <= |items| && forall i :: 0 <= i < |results| ==> results[i] == items[i].leaseId
  }

  function Confirmed(items: seq<Item>, a: Answer): (n: nat)
    ensures n <= |items|
  {
    if !a.failed then |items| else if Matches(items, a.results) then |a.results| else 0
  }

  /** A success means the whole batch; results reported with a failure are those of items carried out. */
  predicate Honest(items: seq<Item>, a: Answer) {
    && a.committed <= |items| && (!a.failed ==> a.committed == |items|)
    && (a.failed && Matches(items, a.results) ==> |a.results| <= a.committed)
  }

  function Executed(items: seq<Item>, a: Answer): seq<Item> {
    if a.committed <= |items| then items[..a.committed] else items
  }

  function Called(w: World, items: seq<Item>, a: Answer, now: Time): World {
    w.(acked := w.acked + multiset(items[..Confirmed(items, a)]),
       log := w.log + [AdmissionRuns.Event(AdmissionRuns.CompleteOp(Executed(items, a)), now)])
  }

  // The steps

  function Items(ps: seq<Pending>): seq<Item> {
    if ps == [] then [] else Items(ps[..|ps| - 1]) + ps[|ps| - 1].items
  }

  function Send(w: World, cap: nat, item: Item): World {
    if |w.channel| < cap then w.(channel := w.channel + [item], sent := w.sent + multiset{item})
    else w.(sent := w.sent + multiset{item}, dropped := w.dropped + multiset{item})
  }

  function Receive(w: World): World {
    if w.stopped || w.due != [] || w.channel == [] || |w.batch| >= BATCH_LIMIT then w
    else w.(channel := w.channel[1..], batch := w.batch + [w.channel[0]])
  }

  function QueueRetry(w: World, cap: nat, p: Pending): World {
    if |Items(w.pending)| + |p.items| <= cap then w.(pending := w.pending + [p])
    else w.(dropped := w.dropped + multiset(p.items))
  }

  function Deliver(w: World, cap: nat, a: Answer, now: Time): World {
    if w.stopped || w.batch == [] then w
    else
      var left := w.batch[Confirmed(w.batch, a)..];
      var called := Called(w, w.batch, a, now).(batch := []);
      if left == [] then called else QueueRetry(called, cap, Pending(left, now + FIRST_BACKOFF, FIRST_BACKOFF))
  }

  function Ready(ps: seq<Pending>, now: Time): seq<Pending> {
    if ps == [] then []
    else
      var init := Ready(ps[..|ps| - 1], now);
      if ps[|ps| - 1].next <= now then init + [ps[|ps| - 1]] else init
  }

  function Later(ps: seq<Pending>, now: Time): seq<Pending> {
    if ps == [] then []
    else
      var init := Later(ps[..|ps| - 1], now);
      if ps[|ps| - 1].next <= now then init else init + [ps[|ps| - 1]]
  }

  function StartRetry(w: World, now: Time): World {
    if w.stopped || w.batch != [] || w.due != [] then w
    else w.(due := Ready(w.pending, now), pending := Later(w.pending, now))
  }

  function Doubled(backoff: int): int {
    if 2 * backoff > LAST_BACKOFF then LAST_BACKOFF else 2 * backoff
  }

  function RetryNext(w: World, cap: nat, a: Answer, now: Time): World {
    if w.stopped || w.due == [] then w
    else
      var p := w.due[0];
      var left := p.items[Confirmed(p.items, a)..];
      var called := Called(w, p.items, a, now).(due := w.due[1..]);
      if left == [] then called
      else QueueRetry(called, cap, Pending(left, now + Doubled(p.backoff), Doubled(p.backoff)))
  }

  /** The worker leaves its loop. */
  function Stop(w: World): World {
    if w.batch == [] && w.due == [] then w.(stopped := true) else w
  }

  function DrainTake(w: World): World {
    if !w.stopped || w.batch != [] then w
    else w.(channel := [], pending := [], batch := w.channel + Items(w.pending))
  }

  function DrainDeliver(w: World, a: Answer, now: Time): World {
    if !w.stopped || w.batch == [] then w
    else Called(w, w.batch, a, now).(batch := w.batch[Confirmed(w.batch, a)..])
  }

  function DrainGiveUp(w: World): World {
    if !w.stopped then w else w.(batch := [], dropped := w.dropped + multiset(w.batch))
  }

  datatype Event =
    | Sends(item: Item) | Receives | Delivers(a: Answer, now: Time)
    | StartsRetry(now: Time) | Retries(a: Answer, now: Time)
    | Stops | DrainTakes | DrainDelivers(a: Answer, now: Time) | DrainGivesUp
    | Elsewhere(other: AdmissionRuns.Event)

  function Step(w: World, cap: nat, e: Event): World {
    match e
    case Sends(item) => Send(w, cap, item)
    case Receives => Receive(w)
    case Delivers(a, now) => Deliver(w, cap, a, now)
    case StartsRetry(now) => StartRetry(w, now)
    case Retries(a, now) => RetryNext(w, cap, a, now)
    case Stops => Stop(w)
    case DrainTakes => DrainTake(w)
    case DrainDelivers(a, now) => DrainDeliver(w, a, now)
    case DrainGivesUp => DrainGiveUp(w)
    case Elsewhere(other) => w.(log := w.log + [other])
  }

  function After(cap: nat, run: seq<Event>): World {
    if run == [] then Start else Step(After(cap, run[..|run| - 1]), cap, run[|run| - 1])
  }

  // Conservation

  function Of(s: seq<Item>, x: Item): nat {
    multiset(s)[x]
  }

  /** The copies of `x` handed over are shared out among the places a completion can be in. */
  predicate Balanced(w: World, x: Item) {
    w.sent[x] == Of(w.channel, x) + Of(w.batch, x) + Of(Items(w.due), x) + Of(Items(w.pending), x) + w.acked[x] + w.dropped[x]
  }

  ghost predicate Bounded(w: World, cap: nat) {
    && |w.channel| <= cap && |Items(w.due)| + |Items(w.pending)| <= cap
    && (!w.stopped ==> |w.batch| <= BATCH_LIMIT) && (w.stopped ==> w.due == [])
    && (w.batch != [] ==> w.due == [])
  }

  /** Each completion handed over is in exactly one place, and no place holds more than it may. */
  ghost predicate Conserved(w: World, cap: nat) {
    Bounded(w, cap) && forall x :: Balanced(w, x)
  }

  lemma OfBoth(s: seq<Item>, t: seq<Item>, x: Item)
    ensures Of(s + t, x) == Of(s, x) + Of(t, x)
  {
  }

  lemma OfSplit(s: seq<Item>, n: nat, x: Item)
    requires n <= |s|
    ensures Of(s, x) == Of(s[..n], x) + Of(s[n..], x)
    ensures multiset(s[..n])[x] == Of(s[..n], x)
  {
    assert s == s[..n] + s[n..];
  }

  lemma ItemsMore(ps: seq<Pending>, p: Pending)
    ensures Items(ps + [p]) == Items(ps) + p.items
  {
    assert (ps + [p])[..|ps|] == ps;
  }

  lemma NoItems(x: Item)
    ensures Items([]) == [] && Of([], x) == 0
  {
  }

  lemma {:induction false} ItemsFirst(ps: seq<Pending>)
    requires ps != []
    ensures Items(ps) == ps[0].items + Items(ps[1..])
    decreases |ps|
  {
    var n := |ps| - 1;
    if n == 0 {
      assert Items(ps[..0]) == [] && Items(ps[1..]) == [];
    } else {
      ItemsFirst(ps[..n]);
      assert ps[1..] == ps[..n][1..] + [ps[n]];
      ItemsMore(ps[..n][1..], ps[n]);
      assert ps[0].items + Items(ps[..n][1..]) + ps[n].items == ps[0].items + (Items(ps[..n][1..]) + ps[n].items);
    }
  }

  lemma {:induction false} RetrySplit(ps: seq<Pending>, now: Time, x: Item)
    ensures Of(Items(ps), x) == Of(Items(Ready(ps, now)), x) + Of(Items(Later(ps, now)), x)
    ensures |Items(ps)| == |Items(Ready(ps, now))| + |Items(Later(ps, now))|
    decreases |ps|
  {
    hide Of;
    if ps == [] {
      NoItems(x);
    } else {
      var init, p := ps[..|ps| - 1], ps[|ps| - 1];
      RetrySplit(init, now, x);
      ItemsMore(Ready(init, now), p);
      ItemsMore(Later(init, now), p);
      OfBoth(Items(init), p.items, x);
      OfBoth(Items(Ready(init, now)), p.items, x);
      OfBoth(Items(Later(init, now)), p.items, x);
    }
  }

  /** A retry either joins the backlog or is counted as dropped. */
  lemma QueueConserves(w: World, cap: nat, p: Pending, x: Item)
    requires |Items(w.pending)| <= cap
    ensures var v := QueueRetry(w, cap, p);
            && v == w.(pending := v.pending, dropped := v.dropped)
            && |Items(v.pending)| <= |Items(w.pending)| + |p.items| && |Items(v.pending)| <= cap
            && Of(Items(v.pending), x) + v.dropped[x] == Of(Items(w.pending), x) + w.dropped[x] + Of(p.items, x)
            && (|Items(w.pending)| + |p.items| <= cap ==> v.dropped == w.dropped)
  {
    ItemsMore(w.pending, p);
  }

  lemma CallConserves(w: World, items: seq<Item>, a: Answer, now: Time, x: Item)
    ensures Of(items, x) + w.acked[x] == Of(items[Confirmed(items, a)..], x) + Called(w, items, a, now).acked[x]
  {
    OfSplit(items, Confirmed(items, a), x);
  }

  lemma SendBalance(w: World, cap: nat, item: Item, x: Item)
    requires Balanced(w, x)
    ensures Balanced(Send(w, cap, item), x)
  {
    hide Items;
    OfBoth(w.channel, [item], x);
  }

  lemma ReceiveBalance(w: World, x: Item)
    requires Balanced(w, x)
    ensures Balanced(Receive(w), x)
  {
    hide Items;
    if w.channel != [] {
      assert w.channel[..1] == [w.channel[0]];
      OfSplit(w.channel, 1, x);
      OfBoth(w.batch, [w.channel[0]], x);
    }
    hide Of;
  }

  lemma DeliverBalance(w: World, cap: nat, a: Answer, now: Time, x: Item)
    requires Balanced(w, x) && Bounded(w, cap)
    ensures Balanced(Deliver(w, cap, a, now), x) && Bounded(Deliver(w, cap, a, now), cap)
  {
    hide Items;
    hide Of;
    hide QueueRetry;
    hide Confirmed;
    var left := w.batch[Confirmed(w.batch, a)..];
    CallConserves(w, w.batch, a, now, x);
    NoItems(x);
    var called := Called(w, w.batch, a, now).(batch := []);
    QueueConserves(called, cap, Pending(left, now + FIRST_BACKOFF, FIRST_BACKOFF), x);
  }

  lemma StartRetryBalance(w: World, cap: nat, now: Time, x: Item)
    requires Balanced(w, x) && Bounded(w, cap)
    ensures Balanced(StartRetry(w, now), x) && Bounded(StartRetry(w, now), cap)
  {
    RetrySplit(w.pending, now, x);
    NoItems(x);
    hide Items;
    hide Of;
    hide Ready;
    hide Later;
  }

  /** Retries never lose a completion: what came out of the backlog fits back in. */
  lemma RetryBalance(w: World, cap: nat, a: Answer, now: Time, x: Item)
    requires Balanced(w, x) && Bounded(w, cap)
    ensures Balanced(RetryNext(w, cap, a, now), x) && Bounded(RetryNext(w, cap, a, now), cap)
    ensures RetryNext(w, cap, a, now).dropped == w.dropped
  {
    hide Items;
    hide Of;
    hide QueueRetry;
    hide Confirmed;
    hide Doubled;
    if w.due != [] {
      var p := w.due[0];
      var left := p.items[Confirmed(p.items, a)..];
      ItemsFirst(w.due);
      OfBoth(p.items, Items(w.due[1..]), x);
      CallConserves(w, p.items, a, now, x);
      NoItems(x);
      var called := Called(w, p.items, a, now).(due := w.due[1..]);
      QueueConserves(called, cap, Pending(left, now + Doubled(p.backoff), Doubled(p.backoff)), x);
    }
  }

  lemma DrainBalance(w: World, cap: nat, a: Answer, now: Time, x: Item)
    requires Balanced(w, x) && Bounded(w, cap)
    ensures Balanced(DrainTake(w), x) && Bounded(DrainTake(w), cap)
    ensures Balanced(DrainDeliver(w, a, now), x) && Bounded(DrainDeliver(w, a, now), cap)
    ensures Balanced(DrainGiveUp(w), x) && Bounded(DrainGiveUp(w), cap)
  {
    CallConserves(w, w.batch, a, now, x);
    OfBoth(w.channel, Items(w.pending), x);
    NoItems(x);
    assert multiset(w.batch)[x] == Of(w.batch, x);
    hide Items;
    hide Of;
    hide Confirmed;
  }

  lemma StepBalance(w: World, cap: nat, e: Event, x: Item)
    requires Balanced(w, x) && Bounded(w, cap)
    ensures Balanced(Step(w, cap, e), x) && Bounded(Step(w, cap, e), cap)
  {
    hide Of;
    hide Items;
    hide Deliver;
    hide StartRetry;
    hide RetryNext;
    hide DrainTake;
    hide DrainDeliver;
    hide DrainGiveUp;
    match e
    case Sends(item) => SendBalance(w, cap, item, x);
    case Receives => ReceiveBalance(w, x);
    case Delivers(a, now) => DeliverBalance(w, cap, a, now, x);
    case StartsRetry(now) => StartRetryBalance(w, cap, now, x);
    case Retries(a, now) => RetryBalance(w, cap, a, now, x);
    case Stops =>
    case DrainTakes => DrainBalance(w, cap, Answer(0, [], true), 0, x);
    case DrainDelivers(a, now) => DrainBalance(w, cap, a, now, x);
    case DrainGivesUp => DrainBalance(w, cap, Answer(0, [], true), 0, x);
    case Elsewhere(_) =>
  }

  lemma StepConserves(w: World, cap: nat, e: Event)
    requires Conserved(w, cap)
    ensures Conserved(Step(w, cap, e), cap)
  {
    hide Step;
    hide Bounded;
    hide Balanced;
    StepBalance(w, cap, e, Item(0, None));
    forall x
      ensures Balanced(Step(w, cap, e), x)
    {
      StepBalance(w, cap, e, x);
    }
  }

  lemma {:induction false} RunConserves(cap: nat, run: seq<Event>)
    ensures Conserved(After(cap, run), cap)
    decreases |run|
  {
    hide Step;
    if run == [] {
      forall x
        ensures Balanced(Start, x)
      {
        NoItems(x);
      }
    } else {
      RunConserves(cap, run[..|run| - 1]);
      hide Conserved;
      StepConserves(After(cap, run[..|run| - 1]), cap, run[|run| - 1]);
    }
  }

  /** Once the drain is over every completion ever handed over was acknowledged or counted as dropped. */
  lemma NothingIsForgotten(cap: nat, run: seq<Event>)
    requires var w := After(cap, run); w.stopped && w.channel == [] && w.batch == [] && w.pending == []
    ensures var w := After(cap, run); w.sent == w.acked + w.dropped
  {
    RunConserves(cap, run);
    var w := After(cap, run);
    hide After;
    forall x
      ensures w.sent[x] == w.acked[x] + w.dropped[x]
    {
      NoItems(x);
      assert Balanced(w, x);
    }
  }

  // Acknowledged means carried out

  ghost predicate Reached(log: seq<AdmissionRuns.Event>, item: Item) {
    exists i :: 0 <= i < |log| && log[i].op.CompleteOp? && item in log[i].op.items
  }

  ghost predicate Sound(w: World) {
    forall item :: item in w.acked ==> Reached(w.log, item)
  }

  /** What the worker asks the coordinator in this event, if anything. */
  function Asked(w: World, e: Event): seq<Item> {
    match e
    case Delivers(_, _) => w.batch
    case Retries(_, _) => if w.due == [] then [] else w.due[0].items
    case DrainDelivers(_, _) => w.batch
    case _ => []
  }

  predicate HonestEvent(w: World, e: Event) {
    (e.Delivers? || e.Retries? || e.DrainDelivers?) ==> Honest(Asked(w, e), e.a)
  }

  lemma CallSound(w: World, items: seq<Item>, a: Answer, now: Time)
    requires Sound(w) && Honest(items, a)
    ensures Sound(Called(w, items, a, now))
  {
    var v := Called(w, items, a, now);
    forall item | item in v.acked
      ensures Reached(v.log, item)
    {
      if item in w.acked {
        var i :| 0 <= i < |w.log| && w.log[i].op.CompleteOp? && item in w.log[i].op.items;
        assert v.log[i] == w.log[i];
      } else {
        var n := Confirmed(items, a);
        assert item in items[..n];
        assert items[..n] == Executed(items, a)[..n];
        assert v.log[|w.log|].op.items == Executed(items, a);
      }
    }
  }

  lemma OthersSound(w: World, other: AdmissionRuns.Event)
    requires Sound(w)
    ensures Sound(w.(log := w.log + [other]))
  {
    var v := w.(log := w.log + [other]);
    forall item | item in v.acked
      ensures Reached(v.log, item)
    {
      var i :| 0 <= i < |w.log| && w.log[i].op.CompleteOp? && item in w.log[i].op.items;
      assert v.log[i] == w.log[i];
    }
  }

  lemma StepSound(w: World, cap: nat, e: Event)
    requires Sound(w) && HonestEvent(w, e)
    ensures Sound(Step(w, cap, e))
  {
    hide Confirmed;
    hide Executed;
    hide Reached;
    hide Items;
    hide Honest;
    if e.Delivers? || e.Retries? || e.DrainDelivers? {
      CallSound(w, Asked(w, e), e.a, e.now);
    } else if e.Elsewhere? {
      OthersSound(w, e.other);
    }
  }

  ghost predicate HonestRun(cap: nat, run: seq<Event>) {
    forall i :: 0 <= i < |run| ==> HonestEvent(After(cap, run[..i]), run[i])
  }

  /** Under an honest coordinator no completion is acknowledged that was not carried out, even when
  calls fail halfway and answers are lost. */
  lemma {:induction false} AcknowledgedMeansCarriedOut(cap: nat, run: seq<Event>)
    requires HonestRun(cap, run)
    ensures Sound(After(cap, run))
    decreases |run|
  {
    hide Step;
    hide HonestEvent;
    if run != [] {
      var init := run[..|run| - 1];
      assert forall i :: 0 <= i < |init| ==> init[..i] == run[..i];
      assert HonestRun(cap, init);
      AcknowledgedMeansCarriedOut(cap, init);
      hide Sound;
      StepSound(After(cap, init), cap, run[|run| - 1]);
    }
  }
}
