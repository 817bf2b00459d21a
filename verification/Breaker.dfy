/** The breaker object: its fields change in place, each method as the module CircuitBreaker says. */
module Breaker {
  import opened ExpiryQueue
  import opened CircuitBreaker

  class Breaker {
    const options: Options
    var state: State
    var generation: nat
    var failures: seq<Time>
    var openedAt: Time
    var probesInFlight: int
    var halfOpenSucceeded: bool

    function Here(): Machine
      reads this
    {
      Machine(state, generation, failures, openedAt, probesInFlight, halfOpenSucceeded)
    }

    constructor (o: Options)
      requires ValidOptions(o)
      ensures options == o && Here() == Fresh && Sane(Here(), o)
    {
      options := o;
      state, generation, failures, openedAt, probesInFlight, halfOpenSucceeded := Closed, 0, [], 0, 0, false;
    }

    method PruneFailures(now: Time)
      modifies this`failures
      ensures failures == Prune(old(failures), now - options.window)
    {
      var cutoff := now - options.window;
      var kept := [];
      for i := 0 to |failures|
        invariant failures == old(failures) && kept == Prune(failures[..i], cutoff)
      {
        assert failures[..i + 1][..i] == failures[..i];
        if failures[i] >= cutoff {
          kept := kept + [failures[i]];
        }
      }
      assert failures[..|failures|] == failures;
      failures := kept;
    }

    method RecordFailure(at: Time) returns (latest: Time)
      modifies this`failures
      ensures Here() == Recorded(old(Here()), options, at)
      ensures latest == Latest(old(failures) + [at])
    {
      failures := failures + [at];
      latest := failures[0];
      for i := 1 to |failures|
        invariant failures == old(failures) + [at] && latest == Latest(failures[..i])
      {
        assert failures[..i + 1][..i] == failures[..i];
        if failures[i] > latest {
          latest := failures[i];
        }
      }
      assert failures[..|failures|] == failures;
      PruneFailures(latest);
    }

    method TransitionOpenToHalfOpen(now: Time)
      modifies this
      ensures Here() == HalfOpenIfDue(old(Here()), options, now)
    {
      if state != Open || now < openedAt + options.cooldown {
        return;
      }
      state, generation, openedAt, probesInFlight, halfOpenSucceeded := HalfOpen, generation + 1, 0, 0, false;
    }

    method Acquire(now: Time) returns (ticket: Option<Ticket>)
      modifies this
      ensures (Here(), ticket) == CircuitBreaker.Acquire(old(Here()), options, now)
    {
      TransitionOpenToHalfOpen(now);
      if state == Closed {
        PruneFailures(now);
        return Some(Ticket(generation, false));
      }
      if state != HalfOpen {
        return None;
      }
      if halfOpenSucceeded || probesInFlight >= options.maxProbes {
        return None;
      }
      probesInFlight := probesInFlight + 1;
      return Some(Ticket(generation, true));
    }

    method Complete(ticket: Ticket, outcome: Outcome, at: Time)
      modifies this
      ensures Here() == CircuitBreaker.Complete(old(Here()), options, ticket, outcome, at)
    {
      if ticket.generation != generation {
        return;
      }
      if ticket.probe {
        CompleteProbe(outcome, at);
        return;
      }
      if state != Closed || outcome != Failure {
        return;
      }
      var since := RecordFailure(at);
      if |failures| >= options.threshold {
        EnterOpen(since);
      }
    }

    method CompleteProbe(outcome: Outcome, at: Time)
      modifies this
      ensures Here() == CircuitBreaker.CompleteProbe(old(Here()), options, outcome, at)
    {
      if state != HalfOpen {
        return;
      }
      if probesInFlight > 0 {
        probesInFlight := probesInFlight - 1;
      }
      match outcome {
        case Success =>
          halfOpenSucceeded := true;
        case Failure =>
          var since := RecordFailure(at);
          EnterOpen(since);
          return;
        case Neutral =>
      }
      if halfOpenSucceeded && probesInFlight == 0 {
        EnterClosed();
      }
    }

    method EnterOpen(at: Time)
      modifies this
      ensures Here() == CircuitBreaker.EnterOpen(old(Here()), at)
    {
      state, generation, openedAt, probesInFlight, halfOpenSucceeded := Open, generation + 1, at, 0, false;
    }

    method EnterClosed()
      modifies this
      ensures Here() == CircuitBreaker.EnterClosed(old(Here()))
    {
      state, generation, failures, openedAt, probesInFlight, halfOpenSucceeded := Closed, generation + 1, [], 0, 0, false;
    }
  }

  /** Options that are not all positive are refused. */
  method New(o: Options) returns (b: Option<Breaker>)
    ensures b.Some? <==> ValidOptions(o)
    ensures b.Some? ==> fresh(b.value) && b.value.options == o && b.value.Here() == Fresh
  {
    if o.threshold <= 0 || o.window <= 0 || o.cooldown <= 0 || o.maxProbes <= 0 {
      return None;
    }
    var made := new Breaker(o);
    return Some(made);
  }
}
