/** The circuit breaker of one backend: closed, open and half-open, with failures counted inside a
sliding window and completions tagged with the generation they were acquired in. */
module CircuitBreaker {
  import opened ExpiryQueue

  datatype State = Closed | Open | HalfOpen

  datatype Outcome = Success | Failure | Neutral

  datatype Options = Options(threshold: int, window: int, cooldown: int, maxProbes: int)

  predicate ValidOptions(o: Options) {
    o.threshold > 0 && o.window > 0 && o.cooldown > 0 && o.maxProbes > 0
  }

  datatype Machine = Machine(
    state: State, generation: nat, failures: seq<Time>, openedAt: Time, probes: int, succeeded: bool)

  const Fresh := Machine(Closed, 0, [], 0, 0, false)

  /** What a completion function remembers about its acquisition. */
  datatype Ticket = Ticket(generation: nat, probe: bool)

  // Windowed failures

  function Prune(failures: seq<Time>, cutoff: Time): (r: seq<Time>)
    ensures |r| <= |failures|
  {
    if failures == [] then []
    else
      var kept := Prune(failures[..|failures| - 1], cutoff);
      if failures[|failures| - 1] < cutoff then kept else kept + [failures[|failures| - 1]]
  }

  function Latest(failures: seq<Time>): Time
    requires failures != []
  {
    if |failures| == 1 then failures[0]
    else
      var before := Latest(failures[..|failures| - 1]);
      if failures[|failures| - 1] > before then failures[|failures| - 1] else before
  }

  /** Pruning keeps exactly the failures at or after the cutoff, each as often as it occurred. */
  lemma {:induction false} PruneMeaning(failures: seq<Time>, cutoff: Time)
    ensures forall t :: multiset(Prune(failures, cutoff))[t] == if t >= cutoff then multiset(failures)[t] else 0
    decreases |failures|
  {
    if failures != [] {
      var init, last := failures[..|failures| - 1], failures[|failures| - 1];
      PruneMeaning(init, cutoff);
      assert failures == init + [last];
    }
  }

  lemma {:induction false} LatestMeaning(failures: seq<Time>)
    requires failures != []
    ensures Latest(failures) in failures && forall t :: t in failures ==> t <= Latest(failures)
    decreases |failures|
  {
    if |failures| > 1 {
      var init, last := failures[..|failures| - 1], failures[|failures| - 1];
      LatestMeaning(init);
      assert failures == init + [last];
    }
  }

  function Recorded(m: Machine, o: Options, at: Time): Machine {
    var all := m.failures + [at];
    m.(failures := Prune(all, Latest(all) - o.window))
  }

  // Transitions

  function EnterOpen(m: Machine, at: Time): Machine {
    m.(state := Open, generation := m.generation + 1, openedAt := at, probes := 0, succeeded := false)
  }

  function EnterClosed(m: Machine): Machine {
    Machine(Closed, m.generation + 1, [], 0, 0, false)
  }

  function HalfOpenIfDue(m: Machine, o: Options, now: Time): Machine {
    if m.state != Open || now < m.openedAt + o.cooldown then m
    else m.(state := HalfOpen, generation := m.generation + 1, openedAt := 0, probes := 0, succeeded := false)
  }

  function Acquire(m: Machine, o: Options, now: Time): (Machine, Option<Ticket>) {
    var n := HalfOpenIfDue(m, o, now);
    match n.state
    case Closed => (n.(failures := Prune(n.failures, now - o.window)), Some(Ticket(n.generation, false)))
    case Open => (n, None)
    case HalfOpen =>
      if n.succeeded || n.probes >= o.maxProbes then (n, None)
      else (n.(probes := n.probes + 1), Some(Ticket(n.generation, true)))
  }

  function Observe(m: Machine, o: Options, now: Time): Machine {
    var n := HalfOpenIfDue(m, o, now);
    if n.state == Closed then n.(failures := Prune(n.failures, now - o.window)) else n
  }

  function CompleteProbe(m: Machine, o: Options, outcome: Outcome, at: Time): Machine {
    if m.state != HalfOpen then m
    else
      var n := m.(probes := if m.probes > 0 then m.probes - 1 else m.probes);
      match outcome
      case Failure => EnterOpen(Recorded(n, o, at), Latest(n.failures + [at]))
      case Success => if n.probes == 0 then EnterClosed(n) else n.(succeeded := true)
      case Neutral => if n.succeeded && n.probes == 0 then EnterClosed(n) else n
  }

  function Complete(m: Machine, o: Options, t: Ticket, outcome: Outcome, at: Time): Machine {
    if t.generation != m.generation then m
    else if t.probe then CompleteProbe(m, o, outcome, at)
    else if m.state != Closed || outcome != Failure then m
    else
      var n := Recorded(m, o, at);
      if |n.failures| >= o.threshold then EnterOpen(n, Latest(m.failures + [at])) else n
  }

  /** What the breaker's own fields always satisfy. */
  predicate Sane(m: Machine, o: Options) {
    && 0 <= m.probes <= o.maxProbes
    && (m.state == Closed ==> |m.failures| < o.threshold)
    && (m.state != HalfOpen ==> m.probes == 0 && !m.succeeded)
    && (m.succeeded ==> m.probes > 0)
  }

  lemma AcquireSane(m: Machine, o: Options, now: Time)
    requires ValidOptions(o) && Sane(m, o)
    ensures Sane(Acquire(m, o, now).0, o) && Sane(Observe(m, o, now), o)
  {
  }

  lemma CompleteSane(m: Machine, o: Options, t: Ticket, outcome: Outcome, at: Time)
    requires ValidOptions(o) && Sane(m, o)
    ensures Sane(Complete(m, o, t, outcome, at), o)
  {
  }

  /** Observing twice at one instant shows nothing new: the state reported with an acquisition is the
  state it was made in. */
  lemma AcquireThenObserve(m: Machine, o: Options, now: Time)
    requires ValidOptions(o)
    ensures Observe(Acquire(m, o, now).0, o, now) == Acquire(m, o, now).0
    ensures Acquire(m, o, now).1.Some? ==>
              && Acquire(m, o, now).1.value.generation == Acquire(m, o, now).0.generation
              && (Acquire(m, o, now).1.value.probe <==> Acquire(m, o, now).0.state == HalfOpen)
    ensures Acquire(m, o, now).1.None? ==> Acquire(m, o, now).0.state != Closed
  {
    PruneTwice(HalfOpenIfDue(m, o, now).failures, now - o.window);
  }

  lemma {:induction false} PruneTwice(failures: seq<Time>, cutoff: Time)
    ensures Prune(Prune(failures, cutoff), cutoff) == Prune(failures, cutoff)
    decreases |failures|
  {
    if failures != [] {
      var init, last := failures[..|failures| - 1], failures[|failures| - 1];
      PruneTwice(init, cutoff);
      if last >= cutoff {
        var kept := Prune(init, cutoff);
        assert (kept + [last])[..|kept|] == kept;
      }
    }
  }
}
