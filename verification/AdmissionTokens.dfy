/** The buckets of the local coordinator: how fast they fill, when a refused client may come again, and
that exactly the tokens reported are taken out of them. */
module AdmissionTokens {
  import opened ExpiryQueue
  import opened Admission
  import opened AdmissionRuns
  import opened AdmissionLimits
  import opened AdmissionAnswers

  // 1. How a bucket fills

  /** What a bucket that held `was` holds after some time: `size` a minute flows in, and no more fits. */
  function Filled(was: real, elapsed: int, size: int): real {
    var all := was + elapsed as real * size as real / MINUTE as real;
    if all <= size as real then all else size as real
  }

  function Size(p: RatePolicy, kind: RateKind): int {
    if kind == RPM then p.rpm else p.tpm
  }

  /** The bucket of the policy is on record and was last brought up to date at `at`. */
  predicate OnRecord(s: Ledger, client: int, kind: RateKind, p: RatePolicy, at: Time) {
    var key := (client, kind);
    && key in s.rates && s.rates[key].revision == p.revision && s.rates[key].capacity == Size(p, kind)
    && s.rates[key].at == at && s.rates[key].balance <= Size(p, kind) as real
  }

  /** An empty bucket is full after a minute. */
  lemma FullInAMinute(was: real, elapsed: int, size: int)
    requires 0.0 <= was <= size as real && elapsed >= MINUTE
    ensures Filled(was, elapsed, size) == size as real
  {
    assert elapsed as real * size as real / MINUTE as real >= MINUTE as real * size as real / MINUTE as real;
  }

  /** Left alone a bucket fills evenly and never over. */
  lemma BucketFills(s: Ledger, client: int, kind: RateKind, p: RatePolicy, at: Time, now: Time)
    requires OnRecord(s, client, kind, p, at) && at <= now
    ensures Holding(s, client, kind, p, now) == Filled(s.rates[(client, kind)].balance, now - at, Size(p, kind))
  {
    if now == at {
      assert (now - at) as real * Size(p, kind) as real / MINUTE as real == 0.0;
    }
  }

  /** A bucket nobody has used, or of another policy, is full. */
  lemma NewBucketIsFull(s: Ledger, client: int, kind: RateKind, p: RatePolicy, now: Time)
    requires var key := (client, kind);
             key !in s.rates || s.rates[key].revision != p.revision || s.rates[key].capacity != Size(p, kind)
    ensures Holding(s, client, kind, p, now) == Size(p, kind) as real
  {
  }

  // 2. When to come again

  lemma Quotients(x: real, capacity: int)
    requires capacity > 0
    ensures x / capacity as real * MINUTE as real * capacity as real / MINUTE as real == x
  {
  }

  lemma MoreTime(a: real, b: real, capacity: int)
    requires capacity > 0
    ensures a < b ==> a * capacity as real / MINUTE as real < b * capacity as real / MINUTE as real
    ensures a <= b ==> a * capacity as real / MINUTE as real <= b * capacity as real / MINUTE as real
  {
  }

  /** The time told with a refusal: until it the bucket is short of one, a nanosecond later it is not,
  unless that is further away than any duration. */
  lemma RetryIsInTime(balance: real, capacity: int, now: Time, later: Time)
    requires capacity > 0 && balance < 1.0 && now <= later
    ensures var t := RetryAt(balance, capacity, now);
            var holds := Filled(balance, later - now, capacity);
            && now <= t <= now + MAX_DURATION
            && (later < t ==> holds < 1.0)
            && (later > t && t < now + MAX_DURATION ==> holds >= 1.0)
  {
    var delay := (1.0 - balance) / capacity as real * MINUTE as real;
    Quotients(1.0 - balance, capacity);
    assert delay * capacity as real / MINUTE as real == 1.0 - balance;
    assert delay > 0.0;
    var e := (later - now) as real;
    MoreTime(e, delay, capacity);
    MoreTime(delay, e, capacity);
  }

  /** A bucket of the policy is not dated ahead of the clock nor over-full. */
  predicate Orderly(rates: Rates, client: int, kind: RateKind, p: RatePolicy, now: Time) {
    var key := (client, kind);
    key in rates && rates[key].revision == p.revision && rates[key].capacity == Size(p, kind) ==>
      rates[key].balance <= Size(p, kind) as real && rates[key].at <= now
  }

  lemma Brought(rates: Rates, client: int, kind: RateKind, p: RatePolicy, now: Time)
    requires Orderly(rates, client, kind, p, now) && Size(p, kind) > 0
    ensures var n := Normalized(rates, client, kind, p.revision, Size(p, kind), now);
            n.revision == p.revision && n.capacity == Size(p, kind) && n.at == now && n.balance <= Size(p, kind) as real
  {
  }

  /** The bucket a request was refused for, and how it stands afterwards. */
  lemma RefusedBucket(s: Ledger, r: Request, now: Time, kind: RateKind, policies: Policies)
    requires r.clientId in policies
    requires var p := policies[r.clientId]; Size(p, kind) > 0 && Orderly(s.rates, r.clientId, kind, p, now)
    requires var d := JudgeRates(s, r, now, policies).decision;
             d.Rejected? && d.reason == if kind == RPM then RPMExhausted else TPMExhausted
    ensures var v, p := JudgeRates(s, r, now, policies), policies[r.clientId];
            var key := (r.clientId, kind);
            && key in v.rates && v.rates[key].revision == p.revision && v.rates[key].capacity == Size(p, kind) && v.rates[key].at == now
            && v.rates[key].balance < 1.0 && v.rates[key].balance <= Size(p, kind) as real
            && v.decision.retryAt == Some(RetryAt(v.rates[key].balance, Size(p, kind), now))
  {
    var p := policies[r.clientId];
    Brought(s.rates, r.clientId, kind, p, now);
    var tokens := Normalize(s.rates, r.clientId, TPM, p.revision, if p.tpm > 0 then p.tpm else 0, now);
    assert Normalized(tokens, r.clientId, RPM, p.revision, p.rpm, now) == Normalized(s.rates, r.clientId, RPM, p.revision, p.rpm, now);
    hide Normalized;
    hide RetryAt;
  }

  /** A client told to come again at `t` finds its bucket short until then, and served a nanosecond
  later, if nothing else is taken out meanwhile. */
  lemma RetryIsTold(s: Ledger, r: Request, now: Time, kind: RateKind, later: Time)
    requires var p := PolicyFor(s, r); Size(p, kind) > 0 && Orderly(s.rates, r.clientId, kind, p, now) && now <= later
    requires var d := Judge(s, r, now).decision;
             d.Rejected? && d.reason == if kind == RPM then RPMExhausted else TPMExhausted
    ensures var v := Judge(s, r, now);
            && v.decision.retryAt.Some? && now <= v.decision.retryAt.value <= now + MAX_DURATION
            && var t, holds := v.decision.retryAt.value, Holding(s.(rates := v.rates), r.clientId, kind, PolicyFor(s, r), later);
            && (later < t ==> holds < 1.0) && (later > t && t < now + MAX_DURATION ==> holds >= 1.0)
  {
    var p, policies := PolicyFor(s, r), Observe(s.policies, r.clientId, RequestPolicy(r));
    PolicyForIsObserved(s, r);
    var v := Judge(s, r, now);
    RefusedIsByRates(s, r, now);
    RefusedBucket(s, r, now, kind, policies);
    var t := s.(rates := v.rates);
    BucketFills(t, r.clientId, kind, p, now, later);
    RetryIsInTime(v.rates[(r.clientId, kind)].balance, Size(p, kind), now, later);
    hide Filled;
    hide Judge;
    hide JudgeRates;
    hide Holding;
    hide RetryAt;
    hide PolicyFor;
  }

  lemma RefusedIsByRates(s: Ledger, r: Request, now: Time)
    requires var d := Judge(s, r, now).decision; d.Rejected? && (d.reason == RPMExhausted || d.reason == TPMExhausted)
    ensures Judge(s, r, now) == JudgeRates(s, r, now, Observe(s.policies, r.clientId, RequestPolicy(r)))
  {
    hide PoolLeases;
    hide LowerLeases;
    hide ClientLeases;
    hide JudgeRates;
  }

  // 3. Tokens

  function Tokens(usage: Option<Usage>): real {
    if usage.Some? && ValidUsage(usage.value) then (usage.value.input + usage.value.output) as real else 0.0
  }

  function TokenLevel(rates: Rates, client: int, p: RatePolicy, now: Time): real {
    Normalized(rates, client, TPM, p.revision, p.tpm, now).balance
  }

  /** The tokens a completion takes from the client: those reported, if it took effect. */
  function Taken(live: Ledger, item: Item, answer: CompleteResult, client: int): real {
    if answer.Done? && item.leaseId in live.receipts && live.receipts[item.leaseId].request.clientId == client
    then Tokens(item.usage) else 0.0
  }

  function TakenAll(live: Ledger, items: seq<Item>, answers: seq<CompleteResult>, client: int): real
    requires |items| == |answers|
  {
    if items == [] then 0.0
    else
      var n := |items| - 1;
      TakenAll(live, items[..n], answers[..n], client) + Taken(live, items[n], answers[n], client)
  }

  lemma SameBucket(a: Rates, b: Rates, client: int, p: RatePolicy, now: Time)
    requires (client, TPM) in a <==> (client, TPM) in b
    requires (client, TPM) in a ==> a[(client, TPM)] == b[(client, TPM)]
    ensures TokenLevel(a, client, p, now) == TokenLevel(b, client, p, now)
    ensures Orderly(a, client, TPM, p, now) <==> Orderly(b, client, TPM, p, now)
  {
  }

  lemma DatedNow(rates: Rates, client: int, p: RatePolicy, now: Time, balance: real)
    requires (client, TPM) in rates && rates[(client, TPM)] == RateState(p.revision, p.tpm, balance, now) && balance <= p.tpm as real
    ensures TokenLevel(rates, client, p, now) == balance && Orderly(rates, client, TPM, p, now)
  {
  }

  lemma ChargeTakes(s: Ledger, r: Request, usage: Option<Usage>, now: Time, client: int, p: RatePolicy)
    requires client in s.policies && s.policies[client] == p && p.tpm > 0 && Orderly(s.rates, client, TPM, p, now)
    ensures var rates := Charge(s, r, usage, now);
            && Orderly(rates, client, TPM, p, now)
            && TokenLevel(rates, client, p, now) ==
                 TokenLevel(s.rates, client, p, now) - if r.clientId == client then Tokens(usage) else 0.0
  {
    var rates := Charge(s, r, usage, now);
    if r.clientId != client || usage.None? || !ValidUsage(usage.value) {
      SameBucket(s.rates, rates, client, p, now);
    } else {
      Brought(s.rates, client, TPM, p, now);
      var n := Normalized(s.rates, client, TPM, p.revision, p.tpm, now);
      hide Normalized;
      hide TokenLevel;
      hide Orderly;
      assert TokenLevel(s.rates, client, p, now) == n.balance by { TokenLevelIs(s.rates, client, p, now); }
      DatedNow(rates, client, p, now, n.balance - Tokens(usage));
    }
  }

  lemma TokenLevelIs(rates: Rates, client: int, p: RatePolicy, now: Time)
    ensures TokenLevel(rates, client, p, now) == Normalized(rates, client, TPM, p.revision, p.tpm, now).balance
  {
  }

  lemma {:induction false} BatchTakes(s: Ledger, items: seq<Item>, now: Time, client: int, p: RatePolicy)
    requires client in s.policies && s.policies[client] == p && p.tpm > 0 && Orderly(s.rates, client, TPM, p, now)
    ensures var (t, answers) := CompleteAll(s, items, now);
            && t.policies == s.policies && Orderly(t.rates, client, TPM, p, now)
            && (forall id :: id in s.receipts <==> id in t.receipts)
            && (forall id :: id in s.receipts ==> s.receipts[id].request == t.receipts[id].request)
            && TokenLevel(t.rates, client, p, now) == TokenLevel(s.rates, client, p, now) - TakenAll(s, items, answers, client)
    decreases |items|
  {
    hide TokenLevel;
    hide Orderly;
    hide Charge;
    if items == [] {
    } else {
      var n := |items| - 1;
      BatchTakes(s, items[..n], now, client, p);
      var (before, answers) := CompleteAll(s, items[..n], now);
      assert CompleteAll(s, items, now).1[..n] == answers;
      OneTakes(before, items[n], now, client, p);
      hide CompleteOne;
      hide Tokens;
    }
  }

  lemma OneTakes(s: Ledger, item: Item, now: Time, client: int, p: RatePolicy)
    requires client in s.policies && s.policies[client] == p && p.tpm > 0 && Orderly(s.rates, client, TPM, p, now)
    ensures var (t, answer) := CompleteOne(s, item, now);
            && t.policies == s.policies && Orderly(t.rates, client, TPM, p, now)
            && (forall id :: id in s.receipts <==> id in t.receipts)
            && (forall id :: id in s.receipts ==> s.receipts[id].request == t.receipts[id].request)
            && TokenLevel(t.rates, client, p, now) == TokenLevel(s.rates, client, p, now) - Taken(s, item, answer, client)
  {
    if item.leaseId in s.receipts {
      ChargeTakes(s, s.receipts[item.leaseId].request, item.usage, now, client, p);
    }
    hide TokenLevel;
    hide Orderly;
    hide Charge;
    hide Tokens;
  }

  lemma JudgeTakesNone(s: Ledger, r: Request, now: Time, client: int, p: RatePolicy)
    requires client in s.policies && s.policies[client] == p && p.tpm > 0 && Orderly(s.rates, client, TPM, p, now)
    requires r.clientId == client ==> r.policyRevision <= p.revision
    ensures var v := Judge(s, r, now);
            && client in v.policies && v.policies[client] == p && Orderly(v.rates, client, TPM, p, now)
            && TokenLevel(v.rates, client, p, now) == TokenLevel(s.rates, client, p, now)
  {
    var policies := Observe(s.policies, r.clientId, RequestPolicy(r));
    RatesTakeNone(s, r, now, policies, client, p);
    hide JudgeRates;
    hide LimitDecision;
    hide BadPriority;
    hide TokenLevel;
    hide Orderly;
  }

  lemma RatesTakeNone(s: Ledger, r: Request, now: Time, policies: Policies, client: int, p: RatePolicy)
    requires p.tpm > 0 && Orderly(s.rates, client, TPM, p, now)
    requires r.clientId in policies && (r.clientId == client ==> policies[client] == p)
    ensures var v := JudgeRates(s, r, now, policies);
            && v.policies == policies && Orderly(v.rates, client, TPM, p, now)
            && TokenLevel(v.rates, client, p, now) == TokenLevel(s.rates, client, p, now)
  {
    var v := JudgeRates(s, r, now, policies);
    if r.clientId != client {
      SameBucket(s.rates, v.rates, client, p, now);
    } else {
      Brought(s.rates, client, TPM, p, now);
      var n := Normalized(s.rates, client, TPM, p.revision, p.tpm, now);
      assert v.rates[(client, TPM)] == n;
      TokenLevelIs(s.rates, client, p, now);
      hide Normalized;
      DatedNow(v.rates, client, p, now, n.balance);
    }
  }

  function TakenBy(s: Ledger, e: Event, client: int): real {
    if e.op.CompleteOp? then TakenAll(Expire(s, e.now), e.op.items, Complete(s, e.op.items, e.now).1, client) else 0.0
  }

  lemma AcquireTakesNone(s: Ledger, r: Request, now: Time, capacity: nat, victim: Option<Id>, client: int, p: RatePolicy)
    requires client in s.policies && s.policies[client] == p && p.tpm > 0 && Orderly(s.rates, client, TPM, p, now)
    requires PolicyStays([Event(AcquireOp(r, victim), now)], client, p)
    ensures var t := Acquire(s, r, now, capacity, victim).0;
            && client in t.policies && t.policies[client] == p && Orderly(t.rates, client, TPM, p, now)
            && TokenLevel(t.rates, client, p, now) == TokenLevel(s.rates, client, p, now)
  {
    var live, e := Expire(s, now), Event(AcquireOp(r, victim), now);
    assert live.rates == s.rates && live.policies == s.policies;
    assert [e][0] == e;
    hide Expire;
    hide TokenLevel;
    hide Orderly;
    JudgeTakesNone(Evict(live, victim), r, now, client, p);
    hide Judge;
  }

  /** An operation takes exactly the tokens reported with the completions it carries out. */
  lemma StepTakes(s: Ledger, e: Event, capacity: nat, client: int, p: RatePolicy)
    requires client in s.policies && s.policies[client] == p && p.tpm > 0 && Orderly(s.rates, client, TPM, p, e.now)
    requires PolicyStays([e], client, p)
    ensures var t := Step(s, e, capacity);
            && client in t.policies && t.policies[client] == p && Orderly(t.rates, client, TPM, p, e.now)
            && TokenLevel(t.rates, client, p, e.now) == TokenLevel(s.rates, client, p, e.now) - TakenBy(s, e, client)
  {
    var live := Expire(s, e.now);
    assert live.rates == s.rates && live.policies == s.policies;
    assert [e][0] == e;
    hide Expire;
    hide TokenLevel;
    hide Orderly;
    match e.op
    case AcquireOp(r, victim) =>
      assert e == Event(AcquireOp(r, victim), e.now);
      AcquireTakesNone(s, r, e.now, capacity, victim, client, p);
      hide Acquire;
    case RenewOp(wants) =>
      RenewKeepsReceipts(live, wants, e.now);
      hide RenewAll;
    case CompleteOp(items) =>
      BatchTakes(live, items, e.now, client, p);
      hide CompleteAll;
    case ObserveOp(_, _) =>
    case QueryOp =>
  }

  lemma LevelGrows(rates: Rates, client: int, p: RatePolicy, before: Time, now: Time)
    requires p.tpm > 0 && Orderly(rates, client, TPM, p, before) && before <= now
    ensures Orderly(rates, client, TPM, p, now)
    ensures TokenLevel(rates, client, p, now) == Filled(TokenLevel(rates, client, p, before), now - before, p.tpm)
  {
    var key := (client, TPM);
    RefillGrows(now - before, p.tpm);
    assert Refill(now - before, p.tpm) == (now - before) as real * p.tpm as real / MINUTE as real;
    if key in rates && rates[key].revision == p.revision && rates[key].capacity == p.tpm {
      var at := rates[key].at;
      RefillAdds(before - at, now - before, p.tpm);
      assert (before - at) + (now - before) == now - at;
      RefillGrows(before - at, p.tpm);
      assert Refill(0, p.tpm) == 0.0;
      hide Refill;
    }
  }

  function Later(run: seq<Event>, start: Time): Time {
    if run == [] then start else run[|run| - 1].now
  }

  /** What the bucket would hold after the run, from what flows in and what the completions take. */
  function Account(s: Ledger, run: seq<Event>, capacity: nat, client: int, p: RatePolicy, start: Time): real {
    if run == [] then TokenLevel(s.rates, client, p, start)
    else
      var n := |run| - 1;
      Filled(Account(s, run[..n], capacity, client, p, start), run[n].now - Later(run[..n], start), p.tpm)
      - TakenBy(After(s, run[..n], capacity), run[n], client)
  }

  /** Over a run the bucket is exactly the account of what flowed in and what completions took. */
  lemma {:induction false} TokensAreAccounted(s: Ledger, run: seq<Event>, capacity: nat, client: int, p: RatePolicy, start: Time)
    requires p.tpm > 0 && client in s.policies && s.policies[client] == p && Orderly(s.rates, client, TPM, p, start)
    requires Clocked(run) && (run != [] ==> start <= run[0].now) && PolicyStays(run, client, p)
    ensures var t := After(s, run, capacity);
            && client in t.policies && t.policies[client] == p && Orderly(t.rates, client, TPM, p, Later(run, start))
            && TokenLevel(t.rates, client, p, Later(run, start)) == Account(s, run, capacity, client, p, start)
    decreases |run|
  {
    hide Step;
    hide TakenBy;
    hide TokenLevel;
    hide Orderly;
    hide Filled;
    if run == [] {
    } else {
      var n := |run| - 1;
      var init, last := run[..n], run[n];
      TokensAreAccounted(s, init, capacity, client, p, start);
      var t := After(s, init, capacity);
      LevelGrows(t.rates, client, p, Later(init, start), last.now);
      StepTakes(t, last, capacity, client, p);
    }
  }
}
