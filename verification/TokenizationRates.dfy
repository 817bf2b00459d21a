/** How fast a client can be granted tokenization calls. */
module TokenizationRates {
  import opened ExpiryQueue
  import opened Tokenization

  /** No bucket is overdrawn or dated in the future. */
  ghost predicate Dated(rates: map<int, Rate>, now: Time) {
    NeverNegative(rates) && forall c :: c in rates ==> rates[c].at <= now
  }

  lemma FlowAdds(p: Policy, a: int, b: int)
    requires ValidPolicy(p) && a >= 0 && b >= 0
    ensures Flow(p, a + b) == Flow(p, a) + Flow(p, b) && Flow(p, a) >= 0.0 && Flow(p, b) >= 0.0
  {
  }

  lemma LevelLater(rates: map<int, Rate>, p: Policy, client: int, before: Time, now: Time)
    requires ValidPolicy(p) && Dated(rates, before) && before <= now
    ensures 0.0 <= Level(rates, p, client, now) <= Burst(p)
    ensures Level(rates, p, client, now) <= Level(rates, p, client, before) + Flow(p, now - before)
  {
    FlowAdds(p, 0, now - before);
    if client in rates {
      var at := rates[client].at;
      FlowAdds(p, before - at, now - before);
      assert (before - at) + (now - before) == now - at;
      hide Flow;
    }
  }

  predicate Grants(d: Desk, p: Policy, e: Event, client: int) {
    Debits(d, p, e) && e.r.client == client
  }

  function Granted(d: Desk, p: Policy, run: seq<Event>, client: int): nat {
    if run == [] then 0
    else
      var init, e := run[..|run| - 1], run[|run| - 1];
      Granted(d, p, init, client) + if Grants(After(d, p, init), p, e, client) then 1 else 0
  }

  lemma AdmitDebits(d: Desk, p: Policy, r: Request, client: int, now: Time)
    requires ValidPolicy(p) && Dated(d.rates, now)
    ensures var (t, decision) := Admit(d, p, r, now);
            && Dated(t.rates, now)
            && Level(t.rates, p, client, now) == Level(d.rates, p, client, now)
                 - if r.operation !in d.receipts && decision.Granted? && r.client == client then 1.0 else 0.0
  {
    hide Select;
    hide ClientActive;
    hide ClientReceipts;
    LevelLater(d.rates, p, r.client, now, now);
    assert Flow(p, 0) == 0.0;
  }

  lemma StepDebits(d: Desk, p: Policy, e: Event, client: int)
    requires ValidPolicy(p) && e.AcquireAt? && Dated(d.rates, e.now)
    ensures var t := Step(d, p, e);
            && Dated(t.rates, e.now)
            && Level(t.rates, p, client, e.now) == Level(d.rates, p, client, e.now) - if Grants(d, p, e, client) then 1.0 else 0.0
  {
    hide Admit;
    hide Level;
    DropIdle(d.rates, p, e.now);
    AdmitDebits(Cleanup(d, e.now), p, e.r, client, e.now);
  }

  /** Token bucket: from any moment on a client is granted at most its burst plus what flowed back
  since, although idle buckets are dropped meanwhile, and what its bucket holds is at most the rest. */
  lemma {:induction false} RateBound(d: Desk, p: Policy, run: seq<Event>, client: int, start: Time)
    requires ValidPolicy(p) && Dated(d.rates, start) && Timed(run, start)
    ensures var t, end := After(d, p, run), Clock(run, start);
            && start <= end && Dated(t.rates, end)
            && Granted(d, p, run, client) as real + Level(t.rates, p, client, end)
                 <= Level(d.rates, p, client, start) + Flow(p, end - start)
            && Granted(d, p, run, client) as real <= Burst(p) + Flow(p, end - start)
    decreases |run|
  {
    hide Step;
    hide Grants;
    LevelLater(d.rates, p, client, start, start);
    if run != [] {
      var init, e := run[..|run| - 1], run[|run| - 1];
      var t, mid := After(d, p, init), Clock(init, start);
      assert Timed(init, start);
      RateBound(d, p, init, client, start);
      if e.AcquireAt? {
        assert run[..|init|] == init;
        ClockBehind(run, start, |init|, e.now);
        LevelLater(t.rates, p, client, mid, e.now);
        StepDebits(t, p, e, client);
        LevelLater(Step(t, p, e).rates, p, client, e.now, e.now);
        FlowAdds(p, mid - start, e.now - mid);
        assert (mid - start) + (e.now - mid) == e.now - start;
      } else {
        CompleteIsFree(t, p, e, client);
      }
      hide Level;
      hide Flow;
    }
  }

  lemma CompleteIsFree(d: Desk, p: Policy, e: Event, client: int)
    requires e.CompleteOf?
    ensures Step(d, p, e).rates == d.rates && !Grants(d, p, e, client)
  {
  }
}
