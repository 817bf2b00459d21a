/** Local admission of tokenization calls, on values: one receipt per operation, the leases in flight
and a request bucket per client. */
module Tokenization {
  import opened ExpiryQueue
  import opened Counting

  const SECOND := 1_000_000_000
  const MINUTE := 60 * SECOND
  const DAY := 24 * 60 * MINUTE
  const RECEIPTS_PER_CLIENT := 65_536

  datatype Policy = Policy(clientMax: int, backendMax: int, rpm: int, timeout: int)

  predicate ValidPolicy(p: Policy) {
    && 1 <= p.clientMax <= 10_000 && 1 <= p.backendMax <= 10_000
    && 1 <= p.rpm <= 10_000_000 && 0 < p.timeout <= 5 * MINUTE
  }

  function Ttl(p: Policy): int {
    p.timeout + 15 * SECOND
  }

  function Burst(p: Policy): real {
    if p.rpm < 10 then p.rpm as real else 10.0
  }

  datatype Candidate = Candidate(backend: int, revision: int)

  /** `Id` 0 is the nil identifier. */
  datatype Request = Request(
    operation: Id, replica: Id, requestId: string, startedAt: Time, configuration: int, apiKey: int,
    client: int, pool: int, poolRevision: int, candidates: seq<Candidate>)

  datatype Lease = Lease(
    operation: Id, replica: Id, client: int, pool: int, backend: int, revision: int, acquiredAt: Time, expiresAt: Time)

  datatype Reason = ClientLimit | BackendLimit | RateLimit | Unavailable | StaleOperation | Conflict | LeaseLost

  datatype Decision = Granted(lease: Lease) | Refused(reason: Reason, retryAt: Option<Time>)

  datatype Receipt = Receipt(request: Request, decision: Decision, retainUntil: Time, completed: bool)

  datatype Rate = Rate(balance: real, at: Time)

  datatype Desk = Desk(receipts: map<Id, Receipt>, active: map<Id, Lease>, rates: map<int, Rate>)

  const Empty := Desk(map[], map[], map[])

  // What is in flight

  function ClientActive(active: map<Id, Lease>, client: int): set<Id> {
    set id | id in active && active[id].client == client
  }

  function BackendActive(active: map<Id, Lease>, backend: int): set<Id> {
    set id | id in active && active[id].backend == backend
  }

  function ClientReceipts(receipts: map<Id, Receipt>, client: int): set<Id> {
    set id | id in receipts && receipts[id].request.client == client
  }

  // Housekeeping

  function Lapsed(d: Desk, now: Time): set<Id> {
    set id | id in d.active && d.active[id].expiresAt <= now
  }

  function Outlived(d: Desk, now: Time): set<Id> {
    set id | id in d.receipts && d.receipts[id].retainUntil <= now
  }

  function Idle(rates: map<int, Rate>, now: Time): set<int> {
    set c | c in rates && now - rates[c].at >= DAY
  }

  function Tidy(d: Desk, now: Time): Desk {
    Desk(d.receipts - Outlived(d, now), d.active - Lapsed(d, now), d.rates)
  }

  function Cleanup(d: Desk, now: Time): Desk {
    Tidy(d, now).(rates := d.rates - Idle(d.rates, now))
  }

  // Choosing a backend

  function Load(active: map<Id, Lease>, backend: int): nat {
    |BackendActive(active, backend)|
  }

  predicate Eligible(active: map<Id, Lease>, p: Policy, c: Candidate) {
    c.backend > 0 && Load(active, c.backend) < p.backendMax
  }

  predicate Preferred(active: map<Id, Lease>, c: Candidate, than: Candidate) {
    || Load(active, c.backend) < Load(active, than.backend)
    || (Load(active, c.backend) == Load(active, than.backend) && c.backend < than.backend)
  }

  function Select(active: map<Id, Lease>, p: Policy, candidates: seq<Candidate>): Option<Candidate> {
    if candidates == [] then None
    else
      var best, c := Select(active, p, candidates[..|candidates| - 1]), candidates[|candidates| - 1];
      if Eligible(active, p, c) && (best.None? || Preferred(active, c, best.value)) then Some(c) else best
  }

  /** The choice is an eligible candidate than which none is preferred; there is none only if no
  candidate is eligible. */
  lemma {:induction false} SelectMeaning(active: map<Id, Lease>, p: Policy, candidates: seq<Candidate>)
    ensures var best := Select(active, p, candidates);
            && (best.None? <==> forall c :: c in candidates ==> !Eligible(active, p, c))
            && (best.Some? ==>
                  && best.value in candidates && Eligible(active, p, best.value)
                  && forall c :: c in candidates && Eligible(active, p, c) ==> !Preferred(active, c, best.value))
    decreases |candidates|
  {
    if candidates != [] {
      var init, last := candidates[..|candidates| - 1], candidates[|candidates| - 1];
      SelectMeaning(active, p, init);
      assert candidates == init + [last];
      hide Load;
    }
  }

  // The request bucket

  function Flow(p: Policy, elapsed: int): real {
    if elapsed > 0 then elapsed as real * p.rpm as real / MINUTE as real else 0.0
  }

  function Least(a: real, b: real): real {
    if b < a then b else a
  }

  /** The client's balance at `now`: a client without a bucket has a full one. */
  function Level(rates: map<int, Rate>, p: Policy, client: int, now: Time): real {
    if client in rates then Least(Burst(p), rates[client].balance + Flow(p, now - rates[client].at)) else Burst(p)
  }

  function RetryAt(p: Policy, level: real, now: Time): Time
    requires p.rpm != 0
  {
    now + ((1.0 - level) * MINUTE as real / p.rpm as real).Floor
  }

  // Operations

  predicate ValidAt(r: Request, now: Time) {
    r.operation != 0 && r.replica != 0 && r.client > 0 && r.pool > 0 && now - DAY < r.startedAt <= now + 5 * MINUTE
  }

  predicate Timely(r: Request, p: Policy, now: Time) {
    ValidAt(r, now) && r.startedAt > now - Ttl(p)
  }

  function Later(a: Time, b: Time): Time {
    if a > b then a else b
  }

  function Replay(d: Desk, r: Request, now: Time): Decision
    requires r.operation in d.receipts
  {
    var prior := d.receipts[r.operation];
    if prior.request != r then Refused(Conflict, None)
    else if prior.completed || (prior.decision.Granted? && prior.decision.lease.expiresAt <= now) then Refused(LeaseLost, None)
    else prior.decision
  }

  function Grant(r: Request, p: Policy, c: Candidate, now: Time): Lease {
    Lease(r.operation, r.replica, r.client, r.pool, c.backend, c.revision, now, now + Ttl(p))
  }

  function Judge(d: Desk, p: Policy, r: Request, now: Time): Decision
    requires p.rpm != 0
  {
    if |ClientActive(d.active, r.client)| >= p.clientMax then Refused(ClientLimit, None)
    else
      match Select(d.active, p, r.candidates)
      case None => Refused(BackendLimit, None)
      case Some(c) =>
        var level := Level(d.rates, p, r.client, now);
        if level < 1.0 then Refused(RateLimit, Some(RetryAt(p, level, now))) else Granted(Grant(r, p, c, now))
  }

  function File(d: Desk, p: Policy, r: Request, now: Time, decision: Decision): Desk {
    var receipts := d.receipts[r.operation := Receipt(r, decision, Later(now, r.startedAt) + Ttl(p), false)];
    match decision
    case Refused(_, _) => d.(receipts := receipts)
    case Granted(l) =>
      Desk(receipts, d.active[r.operation := l],
           d.rates[r.client := Rate(Level(d.rates, p, r.client, now) - 1.0, now)])
  }

  function Admit(d: Desk, p: Policy, r: Request, now: Time): (Desk, Decision)
    requires p.rpm != 0
  {
    if r.operation in d.receipts then (d, Replay(d, r, now))
    else if !Timely(r, p, now) then (d, Refused(StaleOperation, None))
    else if |ClientReceipts(d.receipts, r.client)| >= RECEIPTS_PER_CLIENT then (d, Refused(Unavailable, None))
    else (File(d, p, r, now, Judge(d, p, r, now)), Judge(d, p, r, now))
  }

  function Acquire(d: Desk, p: Policy, r: Request, now: Time): (Desk, Decision) {
    if !ValidPolicy(p) then (d, Refused(Unavailable, None)) else Admit(Cleanup(d, now), p, r, now)
  }

  datatype Error = UnknownLease | IdentityMismatch

  function Complete(d: Desk, l: Lease): (Desk, Option<Error>) {
    if l.operation !in d.receipts then (d, Some(UnknownLease))
    else if d.receipts[l.operation].decision != Granted(l) then (d, Some(IdentityMismatch))
    else
      (d.(receipts := d.receipts[l.operation := d.receipts[l.operation].(completed := true)],
          active := d.active - {l.operation}), None)
  }

  // Runs

  datatype Event = AcquireAt(r: Request, now: Time) | CompleteOf(l: Lease)

  function Step(d: Desk, p: Policy, e: Event): Desk {
    match e
    case AcquireAt(r, now) => Acquire(d, p, r, now).0
    case CompleteOf(l) => Complete(d, l).0
  }

  function After(d: Desk, p: Policy, run: seq<Event>): Desk {
    if run == [] then d else Step(After(d, p, run[..|run| - 1]), p, run[|run| - 1])
  }

  /** A lease in flight is the one on its operation's receipt, which outlives it. */
  ghost predicate Receipted(d: Desk) {
    && (forall id :: id in d.receipts && d.receipts[id].decision.Granted? ==>
          && d.receipts[id].decision.lease.operation == id
          && d.receipts[id].decision.lease.expiresAt <= d.receipts[id].retainUntil)
    && (forall id :: id in d.active ==>
          id in d.receipts && d.receipts[id].decision == Granted(d.active[id]) && !d.receipts[id].completed)
  }

  ghost predicate Bounded(d: Desk, p: Policy) {
    && (forall c :: |ClientActive(d.active, c)| <= p.clientMax)
    && (forall b :: Load(d.active, b) <= p.backendMax)
  }

  lemma FewerActive(a: map<Id, Lease>, b: map<Id, Lease>, p: Policy)
    requires forall id :: id in b ==> id in a && a[id] == b[id]
    ensures forall c :: |ClientActive(b, c)| <= |ClientActive(a, c)|
    ensures forall k :: Load(b, k) <= Load(a, k)
  {
    forall c
      ensures |ClientActive(b, c)| <= |ClientActive(a, c)|
    {
      forall id | id in ClientActive(b, c)
        ensures id in ClientActive(a, c)
      {
      }
      SmallerSet(ClientActive(b, c), ClientActive(a, c));
    }
    forall k
      ensures Load(b, k) <= Load(a, k)
    {
      forall id | id in BackendActive(b, k)
        ensures id in BackendActive(a, k)
      {
      }
      SmallerSet(BackendActive(b, k), BackendActive(a, k));
    }
  }

  lemma ClientMore(a: map<Id, Lease>, id: Id, l: Lease, c: int)
    requires id !in a
    ensures |ClientActive(a[id := l], c)| == |ClientActive(a, c)| + if c == l.client then 1 else 0
  {
    assert ClientActive(a[id := l], c) == ClientActive(a, c) + if c == l.client then {id} else {};
  }

  lemma BackendMore(a: map<Id, Lease>, id: Id, l: Lease, k: int)
    requires id !in a
    ensures Load(a[id := l], k) == Load(a, k) + if k == l.backend then 1 else 0
  {
    assert BackendActive(a[id := l], k) == BackendActive(a, k) + if k == l.backend then {id} else {};
  }

  lemma GrantIsBounded(d: Desk, c: Desk, p: Policy, id: Id, l: Lease)
    requires Bounded(d, p) && id !in d.active && c.active == d.active[id := l]
    requires |ClientActive(d.active, l.client)| < p.clientMax && Load(d.active, l.backend) < p.backendMax
    ensures Bounded(c, p)
  {
    hide ClientActive;
    hide Load;
    forall k
      ensures |ClientActive(c.active, k)| <= p.clientMax
    {
      ClientMore(d.active, id, l, k);
    }
    forall k
      ensures Load(c.active, k) <= p.backendMax
    {
      BackendMore(d.active, id, l, k);
    }
  }

  lemma CleanupKeeps(d: Desk, p: Policy, now: Time)
    requires Receipted(d) && Bounded(d, p)
    ensures Receipted(Cleanup(d, now)) && Bounded(Cleanup(d, now), p)
  {
    FewerActive(d.active, Cleanup(d, now).active, p);
  }

  lemma AdmitKeeps(d: Desk, p: Policy, r: Request, now: Time)
    requires ValidPolicy(p) && Receipted(d) && Bounded(d, p)
    ensures Receipted(Admit(d, p, r, now).0) && Bounded(Admit(d, p, r, now).0, p)
  {
    hide Level;
    hide ClientActive;
    hide Load;
    hide ClientReceipts;
    var c := Admit(d, p, r, now).0;
    var judged := Judge(d, p, r, now);
    SelectMeaning(d.active, p, r.candidates);
    hide Select;
    if c.active == d.active {
      assert Bounded(c, p);
    } else {
      hide Bounded;
      GrantIsBounded(d, c, p, r.operation, judged.lease);
    }
  }

  lemma StepKeeps(d: Desk, p: Policy, e: Event)
    requires Receipted(d) && Bounded(d, p)
    ensures Receipted(Step(d, p, e)) && Bounded(Step(d, p, e), p)
  {
    hide Bounded;
    match e
    case AcquireAt(r, now) =>
      if ValidPolicy(p) {
        CleanupKeeps(d, p, now);
        AdmitKeeps(Cleanup(d, now), p, r, now);
      }
      hide Cleanup;
      hide Admit;
    case CompleteOf(l) =>
      CompleteKeeps(d, p, l);
  }

  lemma CompleteKeeps(d: Desk, p: Policy, l: Lease)
    requires Receipted(d) && Bounded(d, p)
    ensures Receipted(Complete(d, l).0) && Bounded(Complete(d, l).0, p)
  {
    FewerActive(d.active, Complete(d, l).0.active, p);
  }

  /** At every moment the leases in flight respect both limits of the policy. */
  lemma {:induction false} InFlightIsBounded(p: Policy, run: seq<Event>)
    requires ValidPolicy(p)
    ensures Receipted(After(Empty, p, run)) && Bounded(After(Empty, p, run), p)
    decreases |run|
  {
    hide Step;
    if run == [] {
      assert forall c :: ClientActive(map[], c) == {};
      assert forall k :: BackendActive(map[], k) == {};
    } else {
      InFlightIsBounded(p, run[..|run| - 1]);
      hide Bounded;
      StepKeeps(After(Empty, p, run[..|run| - 1]), p, run[|run| - 1]);
    }
  }

  // At most once

  /** Event `e` takes one request out of the client's bucket. */
  predicate Debits(d: Desk, p: Policy, e: Event) {
    e.AcquireAt? && e.r.operation !in Cleanup(d, e.now).receipts && Acquire(d, p, e.r, e.now).1.Granted?
  }

  /** The receipt of `r` is kept for as long as a repetition would be listened to. */
  predicate Remembered(d: Desk, p: Policy, r: Request, now: Time) {
    || (r.operation in d.receipts && d.receipts[r.operation].retainUntil >= r.startedAt + Ttl(p)
        && d.receipts[r.operation].request == r)
    || now >= r.startedAt + Ttl(p)
  }

  lemma StepRemembers(d: Desk, p: Policy, r: Request, e: Event, before: Time)
    requires Remembered(d, p, r, before) && (e.AcquireAt? ==> before <= e.now)
    ensures Remembered(Step(d, p, e), p, r, if e.AcquireAt? then e.now else before)
  {
    hide Level;
    hide Select;
    hide ClientActive;
    hide ClientReceipts;
  }

  lemma DebitRemembered(d: Desk, p: Policy, e: Event)
    requires Debits(d, p, e)
    ensures Remembered(Step(d, p, e), p, e.r, e.now)
  {
    hide Level;
    hide Select;
    hide ClientActive;
    hide ClientReceipts;
  }

  lemma RememberedIsNotDebited(d: Desk, p: Policy, e: Event, before: Time)
    requires e.AcquireAt? && Remembered(d, p, e.r, before) && before <= e.now
    ensures !Debits(d, p, e)
  {
    hide Level;
    hide Select;
    hide ClientActive;
    hide ClientReceipts;
  }

  /** The latest reading of the clock in the run, starting from `start`. */
  function Clock(run: seq<Event>, start: Time): Time {
    if run == [] then start
    else if run[|run| - 1].AcquireAt? then run[|run| - 1].now
    else Clock(run[..|run| - 1], start)
  }

  predicate Clocked(run: seq<Event>) {
    forall i, j :: 0 <= i < j < |run| && run[i].AcquireAt? && run[j].AcquireAt? ==> run[i].now <= run[j].now
  }

  lemma {:induction false} ClockNotAhead(run: seq<Event>, i: nat, j: nat, k: nat)
    requires Clocked(run) && i < j <= k < |run| && run[i].AcquireAt? && run[k].AcquireAt?
    ensures Clock(run[..j], 0) <= run[k].now
    decreases j
  {
    assert run[..j][..j - 1] == run[..j - 1];
    if !run[j - 1].AcquireAt? {
      ClockNotAhead(run, i, j - 1, k);
    }
  }

  lemma AfterNext(d: Desk, p: Policy, run: seq<Event>, j: nat)
    requires 0 < j <= |run|
    ensures After(d, p, run[..j]) == Step(After(d, p, run[..j - 1]), p, run[j - 1])
    ensures Clock(run[..j], 0) == if run[j - 1].AcquireAt? then run[j - 1].now else Clock(run[..j - 1], 0)
  {
    hide Step;
    assert run[..j][..j - 1] == run[..j - 1];
  }

  lemma {:induction false} RemembersUntil(d: Desk, p: Policy, run: seq<Event>, i: nat, j: nat)
    requires Clocked(run) && i < j <= |run| && Debits(After(d, p, run[..i]), p, run[i])
    ensures Remembered(After(d, p, run[..j]), p, run[i].r, Clock(run[..j], 0))
    decreases j
  {
    hide Debits;
    hide Remembered;
    hide Step;
    hide After;
    hide Clock;
    assert run[i].AcquireAt? by {
      DebitIsAcquire(After(d, p, run[..i]), p, run[i]);
    }
    AfterNext(d, p, run, j);
    if j == i + 1 {
      DebitRemembered(After(d, p, run[..i]), p, run[i]);
    } else {
      RemembersUntil(d, p, run, i, j - 1);
      if run[j - 1].AcquireAt? {
        ClockNotAhead(run, i, j - 1, j - 1);
      }
      StepRemembers(After(d, p, run[..j - 1]), p, run[i].r, run[j - 1], Clock(run[..j - 1], 0));
    }
  }

  lemma DebitIsAcquire(d: Desk, p: Policy, e: Event)
    requires Debits(d, p, e)
    ensures e.AcquireAt?
  {
  }

  /** In a run whose clock never goes back no request is granted, nor its client charged, twice: a
  deleted receipt cannot bring its operation back to life. */
  lemma DebitedAtMostOnce(d: Desk, p: Policy, run: seq<Event>, i: nat, j: nat)
    requires Clocked(run) && i < j < |run|
    requires Debits(After(d, p, run[..i]), p, run[i]) && Debits(After(d, p, run[..j]), p, run[j])
    ensures run[i].r != run[j].r
  {
    DebitIsAcquire(After(d, p, run[..i]), p, run[i]);
    hide Debits;
    hide Step;
    hide After;
    hide Remembered;
    hide Clock;
    if run[i].r == run[j].r {
      RemembersUntil(d, p, run, i, j);
      ClockNotAhead(run, i, j, j);
      RememberedIsNotDebited(After(d, p, run[..j]), p, run[j], Clock(run[..j], 0));
      assert false;
    }
  }

  // Idle buckets

  /** Nobody can tell the two apart from `now` on. */
  ghost predicate SameRates(a: map<int, Rate>, b: map<int, Rate>, p: Policy, now: Time) {
    forall c, t :: t >= now ==> Level(a, p, c, t) == Level(b, p, c, t)
  }

  lemma FullByThen(p: Policy, rate: Rate, now: Time)
    requires ValidPolicy(p) && now - rate.at >= DAY && rate.balance >= 0.0
    ensures Least(Burst(p), rate.balance + Flow(p, now - rate.at)) == Burst(p)
  {
    var elapsed, rpm := (now - rate.at) as real, p.rpm as real;
    assert elapsed * rpm >= DAY as real * 1.0 by {
      assert elapsed * rpm >= elapsed * 1.0;
    }
  }

  ghost predicate NeverNegative(rates: map<int, Rate>) {
    forall c :: c in rates ==> rates[c].balance >= 0.0
  }

  lemma DropIdle(rates: map<int, Rate>, p: Policy, now: Time)
    requires ValidPolicy(p) && NeverNegative(rates)
    ensures SameRates(rates, rates - Idle(rates, now), p, now)
  {
    forall c, t | t >= now
      ensures Level(rates, p, c, t) == Level(rates - Idle(rates, now), p, c, t)
    {
      if c in Idle(rates, now) {
        FullByThen(p, rates[c], t);
      }
    }
  }

  /** The coordinator as it would be without the third loop of its cleanup. */
  function AcquireForever(d: Desk, p: Policy, r: Request, now: Time): (Desk, Decision) {
    if !ValidPolicy(p) then (d, Refused(Unavailable, None)) else Admit(Tidy(d, now), p, r, now)
  }

  function StepForever(d: Desk, p: Policy, e: Event): Desk {
    match e
    case AcquireAt(r, now) => AcquireForever(d, p, r, now).0
    case CompleteOf(l) => Complete(d, l).0
  }

  function AfterForever(d: Desk, p: Policy, run: seq<Event>): Desk {
    if run == [] then d else StepForever(AfterForever(d, p, run[..|run| - 1]), p, run[|run| - 1])
  }

  ghost predicate Alike(a: Desk, b: Desk, p: Policy, now: Time) {
    && a.receipts == b.receipts && a.active == b.active && SameRates(a.rates, b.rates, p, now)
    && NeverNegative(a.rates) && NeverNegative(b.rates)
  }

  lemma CleanupAlike(a: Desk, b: Desk, p: Policy, before: Time, now: Time)
    requires ValidPolicy(p) && Alike(a, b, p, before) && before <= now
    ensures Alike(Cleanup(a, now), Tidy(b, now), p, now)
  {
    hide Level;
    DropIdle(a.rates, p, now);
  }

  lemma AdmitAlike(a: Desk, b: Desk, p: Policy, r: Request, now: Time)
    requires ValidPolicy(p) && Alike(a, b, p, now)
    ensures Admit(a, p, r, now).1 == Admit(b, p, r, now).1
    ensures Alike(Admit(a, p, r, now).0, Admit(b, p, r, now).0, p, now)
  {
    assert Level(a.rates, p, r.client, now) == Level(b.rates, p, r.client, now);
    assert Judge(a, p, r, now) == Judge(b, p, r, now);
    var charged := Rate(Level(a.rates, p, r.client, now) - 1.0, now);
    SameCharge(a.rates, b.rates, p, r.client, charged, now);
    hide SameRates;
    hide Select;
    hide Level;
    hide ClientActive;
    hide ClientReceipts;
  }

  lemma SameCharge(a: map<int, Rate>, b: map<int, Rate>, p: Policy, client: int, charged: Rate, now: Time)
    requires SameRates(a, b, p, now)
    ensures SameRates(a[client := charged], b[client := charged], p, now)
  {
    var x, y := a[client := charged], b[client := charged];
    forall c, t | t >= now
      ensures Level(x, p, c, t) == Level(y, p, c, t)
    {
      if c != client {
        assert Level(a, p, c, t) == Level(b, p, c, t);
      }
    }
  }

  lemma AcquireAlike(a: Desk, b: Desk, p: Policy, r: Request, before: Time, now: Time)
    requires ValidPolicy(p) && Alike(a, b, p, before) && before <= now
    ensures Acquire(a, p, r, now).1 == AcquireForever(b, p, r, now).1
    ensures Alike(Acquire(a, p, r, now).0, AcquireForever(b, p, r, now).0, p, now)
  {
    hide Alike;
    hide Admit;
    hide Cleanup;
    hide Tidy;
    CleanupAlike(a, b, p, before, now);
    AdmitAlike(Cleanup(a, now), Tidy(b, now), p, r, now);
  }

  predicate Timed(run: seq<Event>, start: Time) {
    Clocked(run) && forall i :: 0 <= i < |run| && run[i].AcquireAt? ==> start <= run[i].now
  }

  lemma {:induction false} ClockBehind(run: seq<Event>, start: Time, i: nat, now: Time)
    requires i <= |run| && start <= now && forall k :: 0 <= k < i && run[k].AcquireAt? ==> run[k].now <= now
    ensures Clock(run[..i], start) <= now
    decreases i
  {
    if i > 0 {
      assert run[..i][..i - 1] == run[..i - 1];
      ClockBehind(run, start, i - 1, now);
    }
  }

  /** Forgetting the buckets of clients idle for a day changes no decision of any run: after the same
  events the two coordinators agree on everything but the bucket table, and answer alike. */
  lemma {:induction false} IdleBucketsAreInvisible(p: Policy, run: seq<Event>, start: Time, r: Request, now: Time)
    requires ValidPolicy(p) && Timed(run, start) && Clock(run, start) <= now
    ensures Alike(After(Empty, p, run), AfterForever(Empty, p, run), p, Clock(run, start))
    ensures Acquire(After(Empty, p, run), p, r, now).1 == AcquireForever(AfterForever(Empty, p, run), p, r, now).1
    decreases |run|
  {
    if run != [] {
      var init, e := run[..|run| - 1], run[|run| - 1];
      assert Timed(init, start);
      assert run[..|init|] == init;
      var a, b := After(Empty, p, init), AfterForever(Empty, p, init);
      if e.AcquireAt? {
        ClockBehind(run, start, |init|, e.now);
        IdleBucketsAreInvisible(p, init, start, r, e.now);
        AcquireAlike(a, b, p, e.r, Clock(init, start), e.now);
        hide Acquire;
        hide AcquireForever;
        hide Alike;
      } else {
        IdleBucketsAreInvisible(p, init, start, r, now);
        hide SameRates;
        hide Acquire;
        hide AcquireForever;
      }
    }
    AcquireAlike(After(Empty, p, run), AfterForever(Empty, p, run), p, r, Clock(run, start), now);
    hide After;
    hide AfterForever;
    hide Acquire;
    hide AcquireForever;
    hide Alike;
  }
}
