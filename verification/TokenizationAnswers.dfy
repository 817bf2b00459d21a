/** What the tokenization coordinator answers, and which calls are in flight: a grant is in flight until
it is completed or runs out, and a request is refused for a limit only because of such grants. */
module TokenizationAnswers {
  import opened ExpiryQueue
  import opened Counting
  import opened Tokenization

  // 1. Completions

  /** A completion is accepted exactly when it names the lease on record; it then ends that call, and
  nothing else. */
  lemma CompletionsAnswered(d: Desk, p: Policy, l: Lease)
    requires Receipted(d)
    ensures var (c, error) := Complete(d, l);
            && (error == Some(UnknownLease) <==> l.operation !in d.receipts)
            && (error == None <==> l.operation in d.receipts && d.receipts[l.operation].decision == Granted(l))
            && (error.Some? ==> c == d)
            && (error.None? ==>
                  && l.operation !in c.active && c.receipts[l.operation].completed
                  && (forall id :: id != l.operation ==> (id in c.active <==> id in d.active))
                  && (forall id :: id in c.active ==> c.active[id] == d.active[id]) && c.rates == d.rates)
  {
  }

  lemma ClientLess(a: map<Id, Lease>, id: Id, k: int)
    ensures |ClientActive(a - {id}, k)| == |ClientActive(a, k)| - if id in a && a[id].client == k then 1 else 0
  {
    if id in a && a[id].client == k {
      assert ClientActive(a, k) == ClientActive(a - {id}, k) + {id};
    } else {
      assert ClientActive(a, k) == ClientActive(a - {id}, k);
    }
  }

  lemma BackendLess(a: map<Id, Lease>, id: Id, k: int)
    ensures Load(a - {id}, k) == Load(a, k) - if id in a && a[id].backend == k then 1 else 0
  {
    if id in a && a[id].backend == k {
      assert BackendActive(a, k) == BackendActive(a - {id}, k) + {id};
    } else {
      assert BackendActive(a, k) == BackendActive(a - {id}, k);
    }
  }

  /** Room is given back at once: to the client and to the backend of the call that ends, if it was still
  in flight, and to nobody else. */
  lemma CompletionGivesRoom(d: Desk, l: Lease, client: int, backend: int)
    requires Receipted(d) && Complete(d, l).1.None?
    ensures var c, flies := Complete(d, l).0, l.operation in d.active;
            && |ClientActive(c.active, client)| == |ClientActive(d.active, client)| - (if flies && l.client == client then 1 else 0)
            && Load(c.active, backend) == Load(d.active, backend) - (if flies && l.backend == backend then 1 else 0)
  {
    ClientLess(d.active, l.operation, client);
    BackendLess(d.active, l.operation, backend);
    hide ClientActive;
    hide Load;
  }

  // 2. What is in flight

  /** What is left of a call after an event. */
  function Next(l: Lease, p: Policy, e: Event): Option<Lease> {
    match e
    case AcquireAt(_, now) => if ValidPolicy(p) && l.expiresAt <= now then None else Some(l)
    case CompleteOf(m) => if m == l then None else Some(l)
  }

  /** The request at `i` is new and granted. */
  predicate GrantedAt(p: Policy, run: seq<Event>, i: nat, l: Lease) {
    && i < |run| && run[i].AcquireAt? && ValidPolicy(p)
    && run[i].r.operation !in Cleanup(After(Empty, p, run[..i]), run[i].now).receipts
    && Acquire(After(Empty, p, run[..i]), p, run[i].r, run[i].now).1 == Granted(l)
  }

  /** No event from `i` on to `j` ends the call. */
  predicate LastsUntil(p: Policy, run: seq<Event>, i: nat, j: nat, l: Lease)
    requires j <= |run|
  {
    forall k :: i < k < j ==> Next(l, p, run[k]).Some?
  }

  predicate Flies(p: Policy, run: seq<Event>, i: nat, l: Lease) {
    GrantedAt(p, run, i, l) && LastsUntil(p, run, i, |run|, l)
  }

  predicate Begins(d: Desk, p: Policy, e: Event, l: Lease) {
    e.AcquireAt? && ValidPolicy(p) && e.r.operation !in Cleanup(d, e.now).receipts && Acquire(d, p, e.r, e.now).1 == Granted(l)
  }

  lemma JudgedLease(d: Desk, p: Policy, r: Request, now: Time)
    requires p.rpm != 0
    ensures Judge(d, p, r, now).Granted? ==> Judge(d, p, r, now).lease.operation == r.operation
  {
    hide Select;
    hide Level;
    hide ClientActive;
  }

  lemma AcquireFlights(d: Desk, p: Policy, r: Request, now: Time, l: Lease)
    requires Receipted(d) && ValidPolicy(p) && Receipted(Cleanup(d, now))
    ensures var (c, decision) := Acquire(d, p, r, now);
            var id := l.operation;
            (id in c.active && c.active[id] == l) <==>
              (id in d.active && d.active[id] == l && l.expiresAt > now)
              || (r.operation !in Cleanup(d, now).receipts && decision == Granted(l))
  {
    var clean := Cleanup(d, now);
    assert forall id :: id in clean.active <==> id in d.active && d.active[id].expiresAt > now;
    assert forall id :: id in clean.active ==> clean.active[id] == d.active[id];
    JudgedLease(clean, p, r, now);
    hide Cleanup;
    hide Judge;
    hide Replay;
    hide ClientReceipts;
    hide Level;
  }

  /** What an event does to the call with this lease. */
  lemma FlightStep(d: Desk, p: Policy, e: Event, l: Lease)
    requires Receipted(d) && (e.AcquireAt? ==> Receipted(Cleanup(d, e.now)))
    ensures var c, id := Step(d, p, e), l.operation;
            (id in c.active && c.active[id] == l) <==>
              (id in d.active && d.active[id] == l && Next(l, p, e).Some?) || Begins(d, p, e, l)
  {
    match e
    case AcquireAt(r, now) =>
      if ValidPolicy(p) {
        AcquireFlights(d, p, r, now, l);
      }
      hide Acquire;
      hide Cleanup;
    case CompleteOf(m) =>
  }

  lemma FliesMore(p: Policy, run: seq<Event>, i: nat, l: Lease)
    requires run != []
    ensures var n := |run| - 1;
            && (i < n ==> (Flies(p, run, i, l) <==> Flies(p, run[..n], i, l) && Next(l, p, run[n]).Some?))
            && (i == n ==> (Flies(p, run, i, l) <==> Begins(After(Empty, p, run[..n]), p, run[n], l)))
            && (Flies(p, run, i, l) ==> i <= n) && (Flies(p, run[..n], i, l) ==> i < n)
  {
    hide After;
    hide Cleanup;
    hide Acquire;
    hide Next;
    var n := |run| - 1;
    if i < n {
      assert run[..n][..i] == run[..i];
      assert forall k :: 0 <= k < n ==> run[..n][k] == run[k];
      assert LastsUntil(p, run, i, |run|, l) <==> LastsUntil(p, run[..n], i, n, l) && Next(l, p, run[n]).Some?;
    }
  }

  lemma LastIsStep(p: Policy, run: seq<Event>)
    requires run != []
    ensures After(Empty, p, run) == Step(After(Empty, p, run[..|run| - 1]), p, run[|run| - 1])
  {
    hide Step;
  }

  predicate InFlight(d: Desk, l: Lease) {
    l.operation in d.active && d.active[l.operation] == l
  }

  /** A call is in flight exactly if it was granted, was not completed since, and had time left whenever
  the coordinator looked at the clock. */
  lemma {:induction false} FlightsAreTheirHistory(p: Policy, run: seq<Event>, l: Lease)
    requires ValidPolicy(p)
    ensures InFlight(After(Empty, p, run), l) <==> exists i: nat :: Flies(p, run, i, l)
    decreases |run|
  {
    if run == [] {
    } else {
      hide After;
      hide Step;
      hide Flies;
      hide Begins;
      hide Cleanup;
      hide Next;
      var n := |run| - 1;
      var d := After(Empty, p, run[..n]);
      InFlightIsBounded(p, run[..n]);
      if run[n].AcquireAt? {
        CleanupKeeps(d, p, run[n].now);
      }
      hide Receipted;
      hide Bounded;
      LastIsStep(p, run);
      FlightStep(d, p, run[n], l);
      FlightsAreTheirHistory(p, run[..n], l);
      if InFlight(After(Empty, p, run), l) {
        if Begins(d, p, run[n], l) {
          FliesMore(p, run, n, l);
        } else {
          var i: nat :| Flies(p, run[..n], i, l);
          FliesMore(p, run, i, l);
        }
      }
      if i: nat :| Flies(p, run, i, l) {
        FliesMore(p, run, i, l);
      }
    }
  }

  // 3. Why a request is refused

  /** What a lease is: it goes to the least loaded backend that has room, the lowest one among equals. */
  ghost predicate WellGranted(d: Desk, p: Policy, r: Request, now: Time, l: Lease) {
    && l == Lease(r.operation, r.replica, r.client, r.pool, l.backend, l.revision, now, now + p.timeout + 15 * SECOND)
    && Candidate(l.backend, l.revision) in r.candidates && l.backend > 0 && Load(d.active, l.backend) < p.backendMax
    && forall c :: c in r.candidates && c.backend > 0 && Load(d.active, c.backend) < p.backendMax ==>
         Load(d.active, l.backend) < Load(d.active, c.backend)
         || (Load(d.active, l.backend) == Load(d.active, c.backend) && l.backend <= c.backend)
  }

  ghost predicate SomeBackend(d: Desk, p: Policy, r: Request) {
    exists c :: c in r.candidates && c.backend > 0 && Load(d.active, c.backend) < p.backendMax
  }

  /** The answer to a new request that came in time: the client limit, the backends and the bucket are
  looked at in this order. */
  ghost predicate Justified(d: Desk, p: Policy, r: Request, now: Time, decision: Decision)
  {
    var roomy := |ClientActive(d.active, r.client)| < p.clientMax;
    && (decision == Refused(ClientLimit, None) <==> !roomy)
    && (decision == Refused(BackendLimit, None) <==> roomy && !SomeBackend(d, p, r))
    && (decision.Refused? && decision.reason == RateLimit <==>
          roomy && SomeBackend(d, p, r) && Level(d.rates, p, r.client, now) < 1.0)
    && (decision.Granted? <==> roomy && SomeBackend(d, p, r) && Level(d.rates, p, r.client, now) >= 1.0)
    && (decision.Granted? ==> WellGranted(d, p, r, now, decision.lease))
  }

  lemma SelectServes(d: Desk, p: Policy, r: Request, now: Time)
    ensures var best := Select(d.active, p, r.candidates);
            && (best.None? <==> !SomeBackend(d, p, r))
            && (best.Some? ==> WellGranted(d, p, r, now, Grant(r, p, best.value, now)))
  {
    SelectMeaning(d.active, p, r.candidates);
    hide Select;
    hide Load;
  }

  lemma JudgeJustified(d: Desk, p: Policy, r: Request, now: Time)
    requires p.rpm != 0
    ensures Justified(d, p, r, now, Judge(d, p, r, now))
  {
    SelectServes(d, p, r, now);
    hide Select;
    hide SomeBackend;
    hide WellGranted;
    hide Level;
    hide ClientActive;
  }

  /** What is said to a request on record: it conflicts, its call is over, or the same as before. */
  ghost predicate Repeats(d: Desk, r: Request, now: Time, decision: Decision)
    requires r.operation in d.receipts
  {
    var prior := d.receipts[r.operation];
    if prior.request != r then decision == Refused(Conflict, None)
    else if prior.decision.Refused? then decision == prior.decision
    else if r.operation in d.active then decision == Granted(d.active[r.operation])
    else decision == Refused(LeaseLost, None)
  }

  /** A receipt stands for a call that is in flight, completed or out of time. */
  ghost predicate Accounted(d: Desk, now: Time) {
    forall id :: id in d.receipts ==>
      var prior := d.receipts[id];
      && (prior.completed ==> prior.decision.Granted? && id !in d.active)
      && (prior.decision.Granted? && !prior.completed && id !in d.active ==> prior.decision.lease.expiresAt <= now)
  }

  lemma CleanupAccounts(d: Desk, at: Time, now: Time)
    requires Receipted(d) && Accounted(d, now) && at <= now
    ensures Accounted(Cleanup(d, at), now)
  {
  }

  lemma AdmitAccounts(d: Desk, p: Policy, r: Request, at: Time, now: Time)
    requires Receipted(d) && Accounted(d, now) && p.rpm != 0
    ensures Accounted(Admit(d, p, r, at).0, now)
  {
    JudgedLease(d, p, r, at);
    hide Judge;
    hide Replay;
    hide Level;
    hide ClientReceipts;
  }

  lemma StepAccounts(d: Desk, p: Policy, e: Event, now: Time)
    requires Receipted(d) && Bounded(d, p) && Accounted(d, now) && (e.AcquireAt? ==> e.now <= now)
    ensures Accounted(Step(d, p, e), now)
  {
    match e
    case AcquireAt(r, at) =>
      if ValidPolicy(p) {
        CleanupAccounts(d, at, now);
        CleanupKeeps(d, p, at);
        AdmitAccounts(Cleanup(d, at), p, r, at, now);
      }
      hide Cleanup;
      hide Admit;
    case CompleteOf(l) =>
  }

  /** No event of the run is later than `now`. */
  predicate Until(run: seq<Event>, now: Time) {
    forall k :: 0 <= k < |run| && run[k].AcquireAt? ==> run[k].now <= now
  }

  lemma {:induction false} RunAccounts(p: Policy, run: seq<Event>, now: Time)
    requires ValidPolicy(p) && Until(run, now)
    ensures Accounted(After(Empty, p, run), now)
    decreases |run|
  {
    if run == [] {
    } else {
      hide Step;
      hide After;
      hide Accounted;
      var n := |run| - 1;
      LastIsStep(p, run);
      InFlightIsBounded(p, run[..n]);
      RunAccounts(p, run[..n], now);
      hide Receipted;
      hide Bounded;
      StepAccounts(After(Empty, p, run[..n]), p, run[n], now);
    }
  }

  lemma ReplayRepeats(d: Desk, p: Policy, r: Request, now: Time)
    requires Receipted(d) && Accounted(d, now) && Lapsed(d, now) == {} && r.operation in d.receipts
    ensures Repeats(d, r, now, Replay(d, r, now))
  {
    assert r.operation in d.active ==> r.operation !in Lapsed(d, now);
  }

  /** The operation is named, and began neither a call's lifetime ago nor too far ahead of the clock. */
  predicate InTime(r: Request, p: Policy, now: Time) {
    && r.operation != 0 && r.replica != 0 && r.client > 0 && r.pool > 0
    && now - DAY < r.startedAt <= now + 5 * MINUTE && now - (p.timeout + 15 * SECOND) < r.startedAt
  }

  /** After any run no event of which is later than now, every request is answered as it should be. */
  lemma AnsweredExactly(p: Policy, run: seq<Event>, r: Request, now: Time)
    requires Until(run, now)
    ensures var d, decision := Cleanup(After(Empty, p, run), now), Acquire(After(Empty, p, run), p, r, now).1;
            if !ValidPolicy(p) then decision == Refused(Unavailable, None)
            else if r.operation in d.receipts then Repeats(d, r, now, decision)
            else if !InTime(r, p, now) then decision == Refused(StaleOperation, None)
            else if |ClientReceipts(d.receipts, r.client)| >= 65_536 then decision == Refused(Unavailable, None)
            else Justified(d, p, r, now, decision)
  {
    hide After;
    if ValidPolicy(p) {
      var before := After(Empty, p, run);
      var d := Cleanup(before, now);
      InFlightIsBounded(p, run);
      RunAccounts(p, run, now);
      CleanupKeeps(before, p, now);
      CleanupAccounts(before, now, now);
      assert Lapsed(d, now) == {};
      hide Cleanup;
      if r.operation in d.receipts {
        ReplayRepeats(d, p, r, now);
      }
      JudgeJustified(d, p, r, now);
      hide Repeats;
      hide Replay;
      hide Justified;
      hide Judge;
      hide ClientReceipts;
    }
  }

  /** The calls in flight with these operations. */
  function Leases(active: map<Id, Lease>, ids: set<Id>): set<Lease> {
    set id | id in ids && id in active :: active[id]
  }

  lemma {:induction false} AsManyLeases(active: map<Id, Lease>, ids: set<Id>)
    requires forall id :: id in ids ==> id in active && active[id].operation == id
    ensures |Leases(active, ids)| == |ids|
    decreases |ids|
  {
    if ids == {} {
      assert Leases(active, ids) == {};
    } else {
      var id := Element(ids);
      var rest := ids - {id};
      AsManyLeases(active, rest);
      forall l
        ensures l in Leases(active, ids) <==> l in Leases(active, rest) + {active[id]}
      {
      }
      assert Leases(active, ids) == Leases(active, rest) + {active[id]};
      assert active[id] !in Leases(active, rest);
    }
  }

  /** These calls were granted in the run, not completed, and have time left. */
  ghost predicate StillFlying(p: Policy, run: seq<Event>, held: set<Lease>, now: Time) {
    forall l :: l in held ==> l.expiresAt > now && exists i: nat :: Flies(p, run, i, l)
  }

  lemma HeldFly(p: Policy, run: seq<Event>, now: Time, ids: set<Id>) returns (held: set<Lease>)
    requires ValidPolicy(p) && forall id :: id in ids ==> id in Cleanup(After(Empty, p, run), now).active
    ensures held == Leases(Cleanup(After(Empty, p, run), now).active, ids)
    ensures |held| == |ids| && StillFlying(p, run, held, now)
  {
    var before := After(Empty, p, run);
    var d := Cleanup(before, now);
    InFlightIsBounded(p, run);
    CleanupKeeps(before, p, now);
    hide After;
    hide Flies;
    held := Leases(d.active, ids);
    AsManyLeases(d.active, ids);
    forall l | l in held
      ensures l.expiresAt > now && exists i: nat :: Flies(p, run, i, l)
    {
      assert InFlight(before, l);
      FlightsAreTheirHistory(p, run, l);
    }
  }

  /** A client refused for its own limit has that many calls in flight: granted in the run, not completed
  and with time left. */
  lemma ClientRefusalIsEarned(p: Policy, run: seq<Event>, r: Request, now: Time) returns (held: set<Lease>)
    requires ValidPolicy(p) && Until(run, now) && r.operation !in Cleanup(After(Empty, p, run), now).receipts
    requires Acquire(After(Empty, p, run), p, r, now).1 == Refused(ClientLimit, None)
    ensures |held| >= p.clientMax && StillFlying(p, run, held, now) && forall l :: l in held ==> l.client == r.client
  {
    AnsweredExactly(p, run, r, now);
    hide Acquire;
    held := HeldFly(p, run, now, ClientActive(Cleanup(After(Empty, p, run), now).active, r.client));
    hide Cleanup;
    hide StillFlying;
    hide After;
  }

  /** One refused for want of a backend finds every candidate at its limit in the same way. */
  lemma BackendRefusalIsEarned(p: Policy, run: seq<Event>, r: Request, now: Time, c: Candidate) returns (held: set<Lease>)
    requires ValidPolicy(p) && Until(run, now) && r.operation !in Cleanup(After(Empty, p, run), now).receipts
    requires Acquire(After(Empty, p, run), p, r, now).1 == Refused(BackendLimit, None) && c in r.candidates && c.backend > 0
    ensures |held| >= p.backendMax && StillFlying(p, run, held, now) && forall l :: l in held ==> l.backend == c.backend
  {
    AnsweredExactly(p, run, r, now);
    hide Acquire;
    held := HeldFly(p, run, now, BackendActive(Cleanup(After(Empty, p, run), now).active, c.backend));
    hide Cleanup;
    hide StillFlying;
    hide After;
  }

  // 4. The bucket

  /** What a bucket holds some time after it held `was`: the policy's requests a minute flow in, and no
  more fit than ten of them, or than a minute brings if that is fewer. */
  function Accrued(rpm: int, elapsed: int): real { elapsed as real * rpm as real / MINUTE as real }

  function Filled(p: Policy, was: real, elapsed: int): real {
    var most := if p.rpm < 10 then p.rpm as real else 10.0;
    var all := was + Accrued(p.rpm, elapsed);
    if all <= most then all else most
  }

  lemma BucketFills(rates: map<int, Rate>, p: Policy, client: int, now: Time)
    requires client in rates && rates[client].at <= now
    ensures Level(rates, p, client, now) == Filled(p, rates[client].balance, now - rates[client].at)
  {
    if now == rates[client].at {
      assert 0 as real * p.rpm as real / MINUTE as real == 0.0;
    }
  }

  lemma NewBucketIsFull(rates: map<int, Rate>, p: Policy, client: int, now: Time)
    requires client !in rates
    ensures Level(rates, p, client, now) == if p.rpm < 10 then p.rpm as real else 10.0
  {
  }

  lemma MoreTime(a: real, b: real, rpm: real)
    requires rpm > 0.0
    ensures a < b ==> a * rpm / MINUTE as real < b * rpm / MINUTE as real
    ensures a <= b ==> a * rpm / MINUTE as real <= b * rpm / MINUTE as real
  {
    if a < b {
      assert a * rpm < b * rpm;
    }
  }

  /** After the delay exactly what is missing has flowed in. */
  lemma DelayFills(missing: real, rpm: real)
    requires rpm > 0.0 && missing > 0.0
    ensures var delay := missing * MINUTE as real / rpm;
            delay > 0.0 && delay * rpm / MINUTE as real == missing
  {
    var delay := missing * MINUTE as real / rpm;
    assert delay * rpm == missing * MINUTE as real;
  }

  lemma AccruedInTime(missing: real, rpm: int, elapsed: int)
    requires rpm > 0 && missing > 0.0
    ensures var delay := missing * MINUTE as real / rpm as real;
            && delay > 0.0
            && (elapsed as real < delay ==> Accrued(rpm, elapsed) < missing)
            && (elapsed as real >= delay ==> Accrued(rpm, elapsed) >= missing)
  {
    var delay := missing * MINUTE as real / rpm as real;
    DelayFills(missing, rpm as real);
    MoreTime(elapsed as real, delay, rpm as real);
    MoreTime(delay, elapsed as real, rpm as real);
  }

  /** A client told to come again finds its bucket short until then and served a nanosecond later. */
  lemma RetryIsInTime(p: Policy, level: real, now: Time, later: Time)
    requires p.rpm > 0 && level < 1.0 && now <= later
    ensures var t := RetryAt(p, level, now);
            now <= t && (later < t ==> Filled(p, level, later - now) < 1.0) && (later > t ==> Filled(p, level, later - now) >= 1.0)
  {
    AccruedInTime(1.0 - level, p.rpm, later - now);
    hide Accrued;
  }

  lemma AccruedOn(rpm: int, a: int, b: int)
    requires rpm > 0 && a >= 0 && b >= 0
    ensures Accrued(rpm, a + b) == Accrued(rpm, a) + Accrued(rpm, b) && Accrued(rpm, b) >= 0.0
  {
    var x, y, r := a as real, b as real, rpm as real;
    assert (a + b) as real == x + y;
    assert (x + y) * r == x * r + y * r;
    assert y * r >= 0.0;
  }

  lemma FilledOn(p: Policy, was: real, a: int, b: int)
    requires p.rpm > 0 && a >= 0 && b >= 0
    ensures Filled(p, Filled(p, was, a), b) == Filled(p, was, a + b)
  {
    AccruedOn(p.rpm, a, b);
    hide Accrued;
  }

  /** The time told with a refusal for the rate is when the bucket has one request again. */
  lemma RetryIsTold(d: Desk, p: Policy, r: Request, now: Time, later: Time)
    requires p.rpm > 0 && now <= later && (r.client in d.rates ==> d.rates[r.client].at <= now)
    requires Judge(d, p, r, now).Refused? && Judge(d, p, r, now).reason == RateLimit
    ensures var t := Judge(d, p, r, now).retryAt;
            && t.Some? && now <= t.value
            && (later < t.value ==> Level(d.rates, p, r.client, later) < 1.0)
            && (later > t.value ==> Level(d.rates, p, r.client, later) >= 1.0)
  {
    var level := Level(d.rates, p, r.client, now);
    assert level < 1.0 && Judge(d, p, r, now).retryAt == Some(RetryAt(p, level, now)) && r.client in d.rates by {
      hide Select;
      hide ClientActive;
    }
    var rate := d.rates[r.client];
    BucketFills(d.rates, p, r.client, now);
    BucketFills(d.rates, p, r.client, later);
    FilledOn(p, rate.balance, now - rate.at, later - now);
    assert (now - rate.at) + (later - now) == later - rate.at;
    RetryIsInTime(p, level, now, later);
    hide Filled;
    hide Level;
    hide RetryAt;
    hide Judge;
  }
}
