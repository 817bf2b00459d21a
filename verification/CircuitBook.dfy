/** What the local circuit coordinator does, on values: which circuit serves each backend, the
attempts made through it and the breakers themselves. A breaker is known by a serial number that is
never used again, so an attempt keeps hold of the very breaker it was acquired from. */
module CircuitBook {
  import opened ExpiryQueue
  import opened CircuitBreaker
  import opened Counting

  const RECEIPT_RETENTION := 24 * 3_600_000_000_000
  const FUTURE_TOLERANCE := 5 * 60_000_000_000

  datatype Backend = Backend(id: int, revision: int, enabled: bool, draining: bool)

  datatype Circuit = Circuit(identity: Backend, serial: nat)

  datatype Request = Request(attemptId: Id, startedAt: Time, replica: int, backend: Backend, probeTtl: int)

  datatype Permit = Permit(id: Id, backend: Backend, generation: int, replica: int, expiresAt: Time, ttl: int)

  datatype Completion = Completion(attemptId: Id, backend: Backend, generation: int, outcome: Outcome, reportedAt: Time)

  /** `retainUntil` is set once the attempt is terminal. */
  datatype Attempt = Attempt(
    request: Request, permit: Option<Permit>, serial: nat, ticket: Ticket,
    completion: Option<Completion>, retainUntil: Option<Time>)

  datatype Book = Book(circuits: map<int, Circuit>, machines: map<nat, Machine>, attempts: map<Id, Attempt>, next: nat)

  const Empty := Book(map[], map[], map[], 0)

  datatype Reason =
    | IdempotencyConflict | LeaseLost | CoordinationUnavailable | StaleBackend | StaleOperation
    | CircuitOpen | ProbeCapacityExhausted

  datatype Snapshot = Snapshot(
    backend: Backend, state: State, generation: int, failureCount: int, retryAt: Option<Time>, probes: int, available: bool)

  datatype Decision = Decision(snapshot: Option<Snapshot>, permit: Option<Permit>, reason: Option<Reason>)

  function Later(a: Time, b: Time): Time {
    if b > a then b else a
  }

  function Boundary(now: Time, acquired: Time): Time {
    Later(now, acquired) + RECEIPT_RETENTION
  }

  function BoundaryOf(now: Time, acquired: Time, reported: Time): Time {
    Later(Later(now, acquired), reported) + RECEIPT_RETENTION
  }

  predicate Timely(at: Time, now: Time) {
    now - RECEIPT_RETENTION < at <= now + FUTURE_TOLERANCE
  }

  // Expiry

  predicate Due(a: Attempt, now: Time) {
    a.retainUntil.None? && a.permit.Some? && a.permit.value.expiresAt <= now
  }

  predicate Overdue(a: Attempt, now: Time) {
    a.retainUntil.Some? && a.retainUntil.value <= now
  }

  function Probe(m: Machine): Ticket {
    Ticket(m.generation, true)
  }

  /** Reports `outcome` to the breaker the attempt came from and begins the attempt's retention. */
  function Settle(b: Book, o: Options, id: Id, outcome: Outcome, at: Time, until: Time): Book
    requires id in b.attempts && b.attempts[id].serial in b.machines
  {
    var a := b.attempts[id];
    b.(machines := b.machines[a.serial := Complete(b.machines[a.serial], o, a.ticket, outcome, at)],
       attempts := b.attempts[id := a.(retainUntil := Some(until))])
  }

  function Lapsed(a: Attempt, now: Time): Attempt
    requires a.permit.Some?
  {
    a.(retainUntil := Some(BoundaryOf(now, a.request.startedAt, a.permit.value.expiresAt)))
  }

  /** When the overdue permits of the present generation of breaker `s` ran out. */
  ghost function Lapses(b: Book, s: nat, now: Time): set<Time>
    requires s in b.machines
  {
    set id | id in b.attempts && Due(b.attempts[id], now) && b.attempts[id].serial == s
             && b.attempts[id].ticket == Probe(b.machines[s]) :: b.attempts[id].permit.value.expiresAt
  }

  /** Overdue permits become failures. A breaker hears of the earliest one of its generation: the
  failure ends the generation, so it would not listen to the others. */
  ghost function ExpirePermits(b: Book, o: Options, now: Time): Book {
    b.(machines := map s | s in b.machines ::
         if Lapses(b, s, now) == {} then b.machines[s]
         else Complete(b.machines[s], o, Probe(b.machines[s]), Failure, Least(Lapses(b, s, now))),
       attempts := map id | id in b.attempts ::
         if Due(b.attempts[id], now) then Lapsed(b.attempts[id], now) else b.attempts[id])
  }

  function Without(b: Book, gone: set<Id>): Book {
    b.(attempts := b.attempts - gone)
  }

  ghost function Forgotten(b: Book, now: Time): set<Id> {
    set id | id in b.attempts && Overdue(b.attempts[id], now)
  }

  ghost function Forget(b: Book, now: Time): Book {
    Without(b, Forgotten(b, now))
  }

  ghost function Expire(b: Book, o: Options, now: Time): Book {
    Forget(ExpirePermits(b, o, now), now)
  }

  // Snapshots

  function SnapshotOf(identity: Backend, m: Machine, o: Options): Snapshot {
    Snapshot(identity, m.state, m.generation, |m.failures|,
             if m.state == Open then Some(m.openedAt + o.cooldown) else None, m.probes,
             m.state == Closed || (m.state == HalfOpen && !m.succeeded && m.probes < o.maxProbes))
  }

  function Observed(b: Book, o: Options, id: int, at: Time): Book {
    if id in b.circuits && b.circuits[id].serial in b.machines then
      b.(machines := b.machines[b.circuits[id].serial := Observe(b.machines[b.circuits[id].serial], o, at)])
    else b
  }

  function Seen(b: Book, o: Options, id: int): Snapshot {
    if id in b.circuits && b.circuits[id].serial in b.machines then
      SnapshotOf(b.circuits[id].identity, b.machines[b.circuits[id].serial], o)
    else Snapshot(Backend(id, 0, false, false), Open, 0, 0, None, 0, false)
  }

  // Acquisition

  ghost predicate Victim(b: Book, capacity: nat, victim: Option<Id>) {
    match victim
    case None => |b.attempts| < capacity || forall id :: id in b.attempts ==> b.attempts[id].retainUntil.None?
    case Some(v) =>
      && |b.attempts| >= capacity
      && v in b.attempts && b.attempts[v].retainUntil.Some?
      && forall id :: id in b.attempts && b.attempts[id].retainUntil.Some? ==>
           b.attempts[v].retainUntil.value <= b.attempts[id].retainUntil.value
  }

  function Evict(b: Book, victim: Option<Id>): Book {
    match victim
    case None => b
    case Some(v) => Without(b, {v})
  }

  function Replay(b: Book, o: Options, r: Request, now: Time): (Book, Decision)
    requires r.attemptId in b.attempts
  {
    var a := b.attempts[r.attemptId];
    if a.request != r then (b, Decision(None, None, Some(IdempotencyConflict)))
    else
      var seen := Observed(b, o, r.backend.id, now);
      if a.retainUntil.Some? then (seen, Decision(Some(Seen(seen, o, r.backend.id)), None, Some(LeaseLost)))
      else (seen, Decision(Some(Seen(seen, o, r.backend.id)), a.permit, None))
  }

  predicate Serves(b: Book, backend: Backend) {
    && backend.id in b.circuits && b.circuits[backend.id].identity == backend
    && b.circuits[backend.id].serial in b.machines && backend.enabled && !backend.draining
  }

  function NewAttempt(r: Request, serial: nat, t: Ticket, probing: bool, now: Time): Attempt {
    var permit := Permit(r.attemptId, r.backend, t.generation, r.replica, now + r.probeTtl, r.probeTtl);
    Attempt(r, if probing then Some(permit) else None, serial, t, None, None)
  }

  /** Asks the breaker that serves the backend. */
  function Ask(b: Book, o: Options, r: Request, now: Time): (Book, Decision)
    requires Serves(b, r.backend)
  {
    var s := b.circuits[r.backend.id].serial;
    var (m, ticket) := Acquire(b.machines[s], o, now);
    var asked := b.(machines := b.machines[s := Observe(m, o, now)]);
    var snapshot := Seen(asked, o, r.backend.id);
    match ticket
    case None =>
      (asked, Decision(Some(snapshot), None,
                       Some(if snapshot.state == HalfOpen then ProbeCapacityExhausted else CircuitOpen)))
    case Some(t) =>
      var a := NewAttempt(r, s, t, snapshot.state == HalfOpen, now);
      (asked.(attempts := b.attempts[r.attemptId := a]), Decision(Some(snapshot), a.permit, None))
  }

  ghost function AcquireAttempt(b: Book, o: Options, r: Request, now: Time, capacity: nat, victim: Option<Id>): (Book, Decision) {
    var live := Expire(b, o, now);
    if r.attemptId in live.attempts then Replay(live, o, r, now)
    else if |live.attempts| >= capacity && victim.None? then
      var seen := Observed(live, o, r.backend.id, now);
      (seen, Decision(Some(Seen(seen, o, r.backend.id)), None, Some(CoordinationUnavailable)))
    else
      var room := Evict(live, victim);
      if !Serves(room, r.backend) then (room, Decision(None, None, Some(StaleBackend)))
      else if !Timely(r.startedAt, now) then (room, Decision(None, None, Some(StaleOperation)))
      else Ask(room, o, r, now)
  }

  // Completion

  /** The attempt's completion is on record; only its first one reaches the breaker. */
  function Record(b: Book, o: Options, c: Completion, now: Time): Book
    requires c.attemptId in b.attempts && b.attempts[c.attemptId].serial in b.machines
  {
    var a := b.attempts[c.attemptId];
    var until := BoundaryOf(now, a.request.startedAt, c.reportedAt);
    var settled :=
      if a.retainUntil.Some? then b.(attempts := b.attempts[c.attemptId := a.(retainUntil := Some(until))])
      else Settle(b, o, c.attemptId, c.outcome, c.reportedAt, until);
    settled.(attempts := settled.attempts[c.attemptId := settled.attempts[c.attemptId].(completion := Some(c))])
  }

  function Judged(b: Book, o: Options, c: Completion, now: Time): (Book, Option<Reason>) {
    var id := c.attemptId;
    if id in b.attempts && b.attempts[id].completion.Some? then
      (b, if b.attempts[id].completion.value != c then Some(IdempotencyConflict) else None)
    else if !Timely(c.reportedAt, now) then (b, Some(StaleOperation))
    else if id !in b.attempts then (b, None)
    else if b.attempts[id].request.backend != c.backend || b.attempts[id].ticket.generation != c.generation then
      (b, Some(IdempotencyConflict))
    else if b.attempts[id].serial !in b.machines then (b, None)
    else (Record(b, o, c, now), None)
  }

  ghost function CompleteAttempt(b: Book, o: Options, c: Completion, now: Time): (Book, Snapshot, Option<Reason>) {
    var (judged, reason) := Judged(Expire(b, o, now), o, c, now);
    var seen := Observed(judged, o, c.backend.id, now);
    (seen, Seen(seen, o, c.backend.id), reason)
  }

  // Renewal

  datatype Renewal = Renewed(id: Id, expiresAt: Time, ttl: int) | Lost(known: Option<Id>)

  predicate Renewable(b: Book, p: Permit) {
    && p.id in b.attempts && b.attempts[p.id].retainUntil.None? && b.attempts[p.id].permit.Some?
    && b.attempts[p.id].permit.value.generation == p.generation
  }

  function RenewTtl(b: Book, p: Permit): int
    requires Renewable(b, p)
  {
    var own := b.attempts[p.id].request.probeTtl;
    if own > 0 then own else p.ttl
  }

  function RenewOne(b: Book, p: Permit, now: Time): (Book, Renewal) {
    if !Renewable(b, p) then (b, Lost(None))
    else if RenewTtl(b, p) <= 0 then (b, Lost(Some(p.id)))
    else
      var a := b.attempts[p.id];
      var ttl := RenewTtl(b, p);
      (b.(attempts := b.attempts[p.id := a.(permit := Some(a.permit.value.(expiresAt := now + ttl)))]),
       Renewed(p.id, now + ttl, ttl))
  }

  function RenewAll(b: Book, probes: seq<Permit>, now: Time): (Book, seq<Renewal>) {
    if probes == [] then (b, [])
    else
      var (before, results) := RenewAll(b, probes[..|probes| - 1], now);
      var (after, last) := RenewOne(before, probes[|probes| - 1], now);
      (after, results + [last])
  }

  // Reconciliation

  function Abandoned(a: Attempt, ids: set<int>, now: Time): Attempt {
    if a.request.backend.id in ids && a.retainUntil.None? then a.(retainUntil := Some(Boundary(now, a.request.startedAt)))
    else a
  }

  /** Attempts still open on these backends are abandoned: their outcome will no longer count. */
  function Invalidated(attempts: map<Id, Attempt>, ids: set<int>, now: Time): map<Id, Attempt> {
    map x | x in attempts :: Abandoned(attempts[x], ids, now)
  }

  /** Takes these backends out of service. */
  function Retire(b: Book, ids: set<int>, now: Time): Book {
    b.(circuits := b.circuits - ids, attempts := Invalidated(b.attempts, ids, now))
  }

  function Install(b: Book, value: Backend): Book {
    b.(circuits := b.circuits[value.id := Circuit(value, b.next)],
       machines := b.machines[b.next := Fresh],
       next := b.next + 1)
  }

  function ReconcileOne(b: Book, value: Backend, now: Time): Book {
    if !value.enabled || value.draining then Retire(b, {value.id}, now)
    else if value.id in b.circuits && b.circuits[value.id].identity == value then b
    else Install(Retire(b, {value.id}, now), value)
  }

  function Reconciled(b: Book, values: seq<Backend>, now: Time): Book {
    if values == [] then b
    else ReconcileOne(Reconciled(b, values[..|values| - 1], now), values[|values| - 1], now)
  }

  function Ids(values: seq<Backend>): set<int> {
    set v | v in values :: v.id
  }

  /** How many leading values come before the first repeated backend. */
  function Leading(values: seq<Backend>): (n: nat)
    ensures n <= |values|
  {
    if values == [] then 0
    else
      var n := Leading(values[..|values| - 1]);
      if n < |values| - 1 || values[|values| - 1].id in Ids(values[..|values| - 1]) then n else |values|
  }

  /** A repeated backend is an error, found after the values before it took effect. */
  ghost function ReconcileAll(b: Book, o: Options, values: seq<Backend>, now: Time): (Book, bool) {
    var taken := values[..Leading(values)];
    var r := Reconciled(Expire(b, o, now), taken, now);
    if |taken| < |values| then (r, false) else (Retire(r, r.circuits.Keys - Ids(values), now), true)
  }
}
