/** Admission over tables shared by all replicas. A transaction holds the scope locks of the pool and
client it decides about, so it is one step on the tables, at the one moment it reads the clock. */
module PgAdmission {
  import opened ExpiryQueue
  import opened Admission

  datatype ClientRow = ClientRow(revision: int, enabled: bool, limit: int, rpm: int, tpm: int, priority: Priority)
  datatype KeyRow = KeyRow(client: int, expiresAt: Option<Time>)
  datatype PoolRow = PoolRow(enabled: bool, limit: int, reserve: int)

  /** The configuration tables; a revoked key is not in `keys`. */
  datatype Config = Config(revision: int, clients: map<int, ClientRow>, keys: map<int, KeyRow>, pools: map<int, PoolRow>)

  datatype Verdict = Granted | Denied(reason: Reason, retryAt: Option<Time>, scope: Scope)

  datatype OperationRow = OperationRow(
    request: Request, verdict: Verdict, completion: Option<Completion>, expiredAt: Option<Time>, retainUntil: Option<Time>)

  datatype LeaseRow = LeaseRow(
    clientId: int, poolId: int, requestId: string, replicaId: Id, expiresAt: Time, priority: Priority)

  datatype RateRow = RateRow(revision: int, balance: real, at: Time)

  type Operations = map<Id, OperationRow>
  type Leases = map<Id, LeaseRow>
  type RateRows = map<(int, RateKind), RateRow>

  datatype Tables = Tables(operations: Operations, leases: Leases, rates: RateRows)

  const Blank := Tables(map[], map[], map[])

  function Later(a: Time, b: Time): Time {
    if a >= b then a else b
  }

  function RetainUntil(r: Request, now: Time): Time {
    Later(r.startedAt, now) + RETENTION
  }

  // Live leases

  function Live(leases: Leases, now: Time): Leases {
    map id | id in leases && leases[id].expiresAt > now :: leases[id]
  }

  function InPool(leases: Leases, pool: int): set<Id> {
    set id | id in leases && leases[id].poolId == pool
  }

  function LowerInPool(leases: Leases, pool: int): set<Id> {
    set id | id in leases && leases[id].poolId == pool && leases[id].priority in {Normal, Background}
  }

  function OfClient(leases: Leases, client: int): set<Id> {
    set id | id in leases && leases[id].clientId == client
  }

  // Rates

  function SeedOne(rates: RateRows, client: int, kind: RateKind, revision: int, capacity: int): RateRows {
    if capacity > 0 && (client, kind) !in rates then rates[(client, kind) := RateRow(revision, capacity as real, 0)] else rates
  }

  /** The database's own policy seeds the buckets, never the request's. */
  function Seed(rates: RateRows, c: Config, client: int): RateRows {
    if client !in c.clients then rates
    else
      var row := c.clients[client];
      SeedOne(SeedOne(rates, client, RPM, row.revision, row.rpm), client, TPM, row.revision, row.tpm)
  }

  function NormalizeRow(row: RateRow, revision: int, capacity: int, now: Time): RateRow {
    var balance :=
      if row.revision != revision then capacity as real
      else if now > row.at then
        var refilled := row.balance + Refill(now - row.at, capacity);
        if refilled > capacity as real then capacity as real else refilled
      else row.balance;
    RateRow(revision, balance, now)
  }

  function NormalizeRate(rates: RateRows, client: int, kind: RateKind, revision: int, capacity: int, now: Time): RateRow {
    if (client, kind) in rates then NormalizeRow(rates[(client, kind)], revision, capacity, now)
    else RateRow(revision, capacity as real, now)
  }

  // Acquire

  predicate Configured(c: Config, r: Request) {
    r.clientId in c.clients && r.apiKeyId in c.keys && r.poolId in c.pools
  }

  predicate UpToDate(c: Config, r: Request, now: Time)
    requires Configured(c, r)
  {
    var client, key, pool := c.clients[r.clientId], c.keys[r.apiKeyId], c.pools[r.poolId];
    && c.revision == r.configurationRevision && key.client == r.clientId && client.enabled && pool.enabled
    && client.revision == r.policyRevision && client.limit == r.configuredLimit
    && pool.limit == r.poolLimit && pool.reserve == r.poolReserve
    && (r.priority == Unset || r.priority == client.priority) && (pool.reserve > 0 ==> KnownClass(r.priority))
    && client.rpm == r.rpm && client.tpm == r.tpm
    && (key.expiresAt.Some? ==> key.expiresAt.value > now)
  }

  function Deny(reason: Reason): Verdict {
    Denied(reason, None, NoScope)
  }

  /** The checks before the rates, on the live leases. */
  function Limits(live: Leases, c: Config, r: Request, now: Time): Option<Verdict> {
    if !Configured(c, r) || !UpToDate(c, r, now) then Some(Deny(StaleConfiguration))
    else
      var client, pool := c.clients[r.clientId], c.pools[r.poolId];
      if r.effectiveLimit <= 0 || r.effectiveLimit > client.limit then Some(Denied(ConcurrencyExhausted, None, ClientScope))
      else if Stale(r.startedAt, now) then Some(Deny(StaleOperation))
      else if pool.limit > 0 && |InPool(live, r.poolId)| >= pool.limit then Some(Denied(ConcurrencyExhausted, None, PoolScope))
      else if pool.reserve > 0 && Lower(client.priority) && |LowerInPool(live, r.poolId)| >= pool.limit - pool.reserve then
        Some(Deny(PoolPriorityReserve))
      else if |OfClient(live, r.clientId)| >= r.effectiveLimit then Some(Denied(ConcurrencyExhausted, None, ClientScope))
      else None
  }

  function Stored(rates: RateRows, client: int, kind: RateKind, row: RateRow): RateRows {
    rates[(client, kind) := row]
  }

  /** Tokens are only checked, one request is debited. */
  function ChargeRates(rates: RateRows, client: int, policy: ClientRow, now: Time): (RateRows, Verdict) {
    var tpm := NormalizeRate(rates, client, TPM, policy.revision, policy.tpm, now);
    var tokens := if policy.tpm > 0 then Stored(rates, client, TPM, tpm) else rates;
    if policy.tpm > 0 && tpm.balance < 1.0 then (tokens, Denied(TPMExhausted, Some(RetryAt(tpm.balance, policy.tpm, now)), NoScope))
    else
      var rpm := NormalizeRate(tokens, client, RPM, policy.revision, policy.rpm, now);
      if policy.rpm <= 0 then (tokens, Granted)
      else if rpm.balance < 1.0 then
        (Stored(tokens, client, RPM, rpm), Denied(RPMExhausted, Some(RetryAt(rpm.balance, policy.rpm, now)), NoScope))
      else (Stored(tokens, client, RPM, rpm.(balance := rpm.balance - 1.0)), Granted)
  }

  function Decide(live: Leases, rates: RateRows, c: Config, r: Request, now: Time): (RateRows, Verdict) {
    var seeded := Seed(rates, c, r.clientId);
    match Limits(live, c, r, now)
    case Some(v) => (seeded, v)
    case None => if r.clientId in c.clients then ChargeRates(seeded, r.clientId, c.clients[r.clientId], now) else (seeded, Granted)
  }

  function NewRow(r: Request, c: Config, now: Time): LeaseRow {
    LeaseRow(r.clientId, r.poolId, r.requestId, r.replicaId, now + r.ttl,
             if r.clientId in c.clients then c.clients[r.clientId].priority else r.priority)
  }

  function LeaseOf(id: Id, row: LeaseRow, ttl: int): Lease {
    Lease(id, row.clientId, row.poolId, row.requestId, row.replicaId, row.expiresAt, ttl)
  }

  function File(t: Tables, c: Config, r: Request, now: Time): (Tables, Decision) {
    var (rates, verdict) := Decide(Live(t.leases, now), t.rates, c, r, now);
    match verdict
    case Granted =>
      var row := NewRow(r, c, now);
      (Tables(t.operations[r.leaseId := OperationRow(r, Granted, None, None, None)], t.leases[r.leaseId := row], rates),
       Admitted(LeaseOf(r.leaseId, row, r.ttl)))
    case Denied(reason, retryAt, scope) =>
      (Tables(t.operations[r.leaseId := OperationRow(r, verdict, None, None, Some(RetainUntil(r, now)))], t.leases, rates),
       Rejected(reason, retryAt, scope))
  }

  function Forfeited(row: OperationRow, now: Time): OperationRow {
    row.(expiredAt := Some(now), retainUntil := Some(RetainUntil(row.request, now)))
  }

  /** An operation on record is answered from the record. */
  function Resolve(t: Tables, r: Request, now: Time): (Tables, Decision)
    requires r.leaseId in t.operations
  {
    var row := t.operations[r.leaseId];
    if row.request != r then (t, Refuse(IdempotencyConflict))
    else if row.verdict.Denied? then (t, Rejected(row.verdict.reason, row.verdict.retryAt, row.verdict.scope))
    else if row.completion.Some? || row.expiredAt.Some? then (t, Refuse(LeaseLost))
    else if r.leaseId !in Live(t.leases, now) then
      (t.(operations := t.operations[r.leaseId := Forfeited(row, now)]), Refuse(LeaseLost))
    else (t, Admitted(LeaseOf(r.leaseId, t.leases[r.leaseId], r.ttl)))
  }

  function AcquireTx(t: Tables, c: Config, r: Request, now: Time): (Tables, Decision) {
    if r.leaseId in t.operations then Resolve(t, r, now) else File(t, c, r, now)
  }

  // Expiry, by a renewal or by the cleanup

  function Ended(leases: Leases, ids: set<Id>, now: Time): set<Id> {
    set id | id in leases && id in ids && leases[id].expiresAt <= now
  }

  /** Deletes the expired leases among these and marks their operations, unless completed. */
  function ExpireTx(t: Tables, ids: set<Id>, now: Time): Tables {
    var ended := Ended(t.leases, ids, now);
    t.(leases := t.leases - ended,
       operations := map id | id in t.operations ::
         var row := t.operations[id];
         if id in ended && row.completion.None? then
           row.(expiredAt := if row.expiredAt.Some? then row.expiredAt else Some(now), retainUntil := Some(RetainUntil(row.request, now)))
         else row)
  }

  function Purged(t: Tables, ids: set<Id>, now: Time): set<Id> {
    set id | id in t.operations && id in ids && id !in t.leases
             && t.operations[id].retainUntil.Some? && t.operations[id].retainUntil.value <= now
  }

  function CleanupReceipts(t: Tables, ids: set<Id>, now: Time): Tables {
    t.(operations := t.operations - Purged(t, ids, now))
  }

  // Renew

  predicate StillHolds(live: Leases, want: Lease) {
    && want.leaseId in live && want.ttl > 0
    && live[want.leaseId].clientId == want.clientId && live[want.leaseId].poolId == want.poolId
    && live[want.leaseId].requestId == want.requestId && live[want.leaseId].replicaId == want.replicaId
  }

  function RenewResultOf(live: Leases, want: Lease, now: Time): RenewResult {
    if StillHolds(live, want) then Renewed(LeaseOf(want.leaseId, live[want.leaseId].(expiresAt := now + want.ttl), want.ttl))
    else RenewResult.Lost(want)
  }

  function RenewResults(live: Leases, wants: seq<Lease>, now: Time): seq<RenewResult> {
    seq(|wants|, i requires 0 <= i < |wants| => RenewResultOf(live, wants[i], now))
  }

  /** The longest of the times these renewals ask for. */
  function Longest(live: Leases, wants: seq<Lease>, id: Id): int {
    if wants == [] then 0
    else
      var before, want := Longest(live, wants[..|wants| - 1], id), wants[|wants| - 1];
      if want.leaseId == id && StillHolds(live, want) && want.ttl > before then want.ttl else before
  }

  function Prolonged(leases: Leases, live: Leases, wants: seq<Lease>, now: Time): Leases {
    map id | id in leases ::
      if id in live && Longest(live, wants, id) > 0 then leases[id].(expiresAt := now + Longest(live, wants, id)) else leases[id]
  }

  function Wanted(wants: seq<Lease>): set<Id> {
    set i | 0 <= i < |wants| :: wants[i].leaseId
  }

  function RenewTx(t: Tables, wants: seq<Lease>, now: Time): (Tables, seq<RenewResult>) {
    var live := Live(t.leases, now);
    (ExpireTx(t.(leases := Prolonged(t.leases, live, wants, now)), Wanted(wants), now), RenewResults(live, wants, now))
  }

  // Complete

  function ChargeTokens(rates: RateRows, c: Config, client: int, usage: Option<Usage>, now: Time): RateRows {
    if usage.None? || !ValidUsage(usage.value) || client !in c.clients || c.clients[client].tpm <= 0 then rates
    else
      var policy := c.clients[client];
      var seeded := SeedOne(rates, client, TPM, policy.revision, policy.tpm);
      var row := NormalizeRate(seeded, client, TPM, policy.revision, policy.tpm, now);
      Stored(seeded, client, TPM, row.(balance := row.balance - (usage.value.input + usage.value.output) as real))
  }

  function CompleteTx(t: Tables, c: Config, item: Item, now: Time): (Tables, CompleteResult) {
    if item.leaseId !in t.operations then (t, UnknownOperation)
    else
      var row := t.operations[item.leaseId];
      if row.verdict.Denied? then (t, NeverAdmitted)
      else if row.completion.Some? then (t, AlreadyCompleted(row.completion.value))
      else
        var result := if item.leaseId in Live(t.leases, now) then Released else CompletedLost;
        (Tables(t.operations[item.leaseId := row.(completion := Some(result), retainUntil := Some(RetainUntil(row.request, now)))],
                t.leases - {item.leaseId},
                ChargeTokens(t.rates, c, row.request.clientId, item.usage, now)),
         Done(result))
  }

  // Runs

  datatype Op =
    | AcquireOp(r: Request)
    | RenewOp(wants: seq<Lease>)
    | CompleteOp(item: Item)
    | CleanupExpiredOp(ids: set<Id>)
    | CleanupReceiptsOp(ids: set<Id>)

  /** Each transaction sees the configuration of its moment. */
  datatype Event = Event(op: Op, c: Config, now: Time)

  datatype Answer = Decided(d: Decision) | RenewedAll(results: seq<RenewResult>) | CompletedOne(result: CompleteResult) | Silent

  function Step(t: Tables, e: Event): (Tables, Answer) {
    match e.op
    case AcquireOp(r) => var (s, d) := AcquireTx(t, e.c, r, e.now); (s, Decided(d))
    case RenewOp(wants) => var (s, results) := RenewTx(t, wants, e.now); (s, RenewedAll(results))
    case CompleteOp(item) => var (s, result) := CompleteTx(t, e.c, item, e.now); (s, CompletedOne(result))
    case CleanupExpiredOp(ids) => (ExpireTx(t, ids, e.now), Silent)
    case CleanupReceiptsOp(ids) => (CleanupReceipts(t, ids, e.now), Silent)
  }

  function After(run: seq<Event>): Tables {
    if run == [] then Blank else Step(After(run[..|run| - 1]), run[|run| - 1]).0
  }

  predicate Clocked(run: seq<Event>) {
    forall i, j :: 0 <= i < j < |run| ==> run[i].now <= run[j].now
  }
}
