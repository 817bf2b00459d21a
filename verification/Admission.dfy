/** Admission leases as a ledger: what the coordinator decides, stated on the sets of live leases
and retained receipts alone. There are no counters and no deadline queues here; the coordinator
class is proved to decide exactly like this. */
module Admission {
  import opened ExpiryQueue

  const SECOND: int := 1_000_000_000
  const MINUTE: int := 60 * SECOND
  const RETENTION: int := 24 * 60 * MINUTE
  const CLOCK_SKEW: int := 5 * MINUTE
  const MAX_DURATION: int := 0x7FFF_FFFF_FFFF_FFFF

  datatype Priority = Critical | High | Normal | Background | Unset | Unknown

  predicate KnownClass(p: Priority) {
    p != Unset && p != Unknown
  }

  /** Classes that may not use a pool's high-priority reserve. */
  predicate Lower(p: Priority) {
    p != High && p != Critical
  }

  datatype Request = Request(
    leaseId: Id, startedAt: Time, requestId: string, replicaId: Id, configurationRevision: int, apiKeyId: int,
    clientId: int, poolId: int, policyRevision: int, effectiveLimit: int, configuredLimit: int,
    poolLimit: int, poolReserve: int, priority: Priority, rpm: int, tpm: int, ttl: int)

  datatype Lease = Lease(leaseId: Id, clientId: int, poolId: int, requestId: string, replicaId: Id, expiresAt: Time, ttl: int)

  datatype Reason =
    | ConcurrencyExhausted | PoolPriorityReserve | RPMExhausted | TPMExhausted | StaleConfiguration
    | CoordinationUnavailable | LeaseLost | StaleOperation | IdempotencyConflict

  datatype Scope = NoScope | ClientScope | PoolScope

  datatype Decision = Admitted(lease: Lease) | Rejected(reason: Reason, retryAt: Option<Time>, scope: Scope)

  datatype Completion = Released | CompletedLost

  datatype Receipt = Receipt(
    request: Request, decision: Decision, completion: Option<Completion>, expired: bool, retainUntil: Option<Time>)

  datatype RateKind = RPM | TPM

  datatype RateState = RateState(revision: int, capacity: int, balance: real, at: Time)

  datatype RatePolicy = RatePolicy(revision: int, rpm: int, tpm: int)

  type Rates = map<(int, RateKind), RateState>
  type Policies = map<int, RatePolicy>

  datatype Ledger = Ledger(receipts: map<Id, Receipt>, leases: map<Id, Lease>, rates: Rates, policies: Policies)

  const Empty := Ledger(map[], map[], map[], map[])

  // Counting live leases

  function ClientLeases(s: Ledger, client: int): set<Id> {
    set id | id in s.leases && s.leases[id].clientId == client
  }

  function PoolLeases(s: Ledger, pool: int): set<Id> {
    set id | id in s.leases && s.leases[id].poolId == pool
  }

  function LowerLeases(s: Ledger, pool: int): set<Id> {
    set id | id in s.leases && s.leases[id].poolId == pool && id in s.receipts && Lower(s.receipts[id].request.priority)
  }

  /** An admitted operation that has neither completed nor lost its lease. */
  predicate Active(r: Receipt) {
    r.decision.Admitted? && r.completion.None? && !r.expired && r.retainUntil.None?
  }

  /** A live lease belongs to an active receipt of the same identity. */
  ghost predicate Backed(s: Ledger) {
    forall id :: id in s.leases ==>
      && id in s.receipts && Active(s.receipts[id]) && s.leases[id].leaseId == id
      && s.leases[id].clientId == s.receipts[id].request.clientId
      && s.leases[id].poolId == s.receipts[id].request.poolId
  }

  // Expiry and retention

  function Boundary(started: Time, terminal: Time): Time {
    (if started > terminal then started else terminal) + RETENTION
  }

  function DueLeases(s: Ledger, now: Time): set<Id> {
    set id | id in s.leases && s.leases[id].expiresAt <= now
  }

  function LostReceipt(r: Receipt, now: Time): Receipt {
    r.(expired := true, retainUntil := Some(Boundary(r.request.startedAt, now)))
  }

  function MarkLost(s: Ledger, ids: set<Id>, now: Time): Ledger {
    s.(leases := s.leases - ids,
       receipts := map id | id in s.receipts ::
         if id in ids && s.receipts[id].completion.None? then LostReceipt(s.receipts[id], now) else s.receipts[id])
  }

  function Overdue(s: Ledger, now: Time): set<Id> {
    set id | id in s.receipts && s.receipts[id].retainUntil.Some? && s.receipts[id].retainUntil.value <= now
  }

  function Forget(s: Ledger, ids: set<Id>): Ledger {
    s.(receipts := s.receipts - ids)
  }

  function Expire(s: Ledger, now: Time): Ledger {
    var lost := MarkLost(s, DueLeases(s, now), now);
    Forget(lost, Overdue(lost, now))
  }

  // Token buckets

  function Refill(elapsed: int, capacity: int): real {
    elapsed as real * capacity as real / MINUTE as real
  }

  function Normalized(rates: Rates, client: int, kind: RateKind, revision: int, capacity: int, now: Time): RateState {
    var full := RateState(revision, capacity, capacity as real, now);
    if (client, kind) !in rates then full
    else
      var s := rates[(client, kind)];
      if s.revision != revision || s.capacity != capacity then full
      else if now - s.at <= 0 then s
      else
        var refilled := s.balance + Refill(now - s.at, capacity);
        s.(balance := if refilled > capacity as real then capacity as real else refilled, at := now)
  }

  function Normalize(rates: Rates, client: int, kind: RateKind, revision: int, capacity: int, now: Time): Rates {
    rates[(client, kind) := Normalized(rates, client, kind, revision, capacity, now)]
  }

  function Observe(policies: Policies, client: int, candidate: RatePolicy): Policies {
    if client !in policies || candidate.revision > policies[client].revision then policies[client := candidate]
    else policies
  }

  function RetryAt(balance: real, capacity: int, now: Time): Time
    requires capacity > 0
  {
    var delay := (1.0 - balance) / capacity as real * MINUTE as real;
    if delay >= MAX_DURATION as real then now + MAX_DURATION else now + delay.Floor
  }

  // Acquire

  predicate Stale(started: Time, now: Time) {
    started > now + CLOCK_SKEW || started <= now - RETENTION
  }

  predicate BadPriority(r: Request) {
    || r.poolReserve < 0
    || (r.poolReserve > 0 && (r.poolLimit <= 0 || r.poolReserve > r.poolLimit || !KnownClass(r.priority)))
    || (r.priority != Unset && !KnownClass(r.priority))
  }

  function RequestPolicy(r: Request): RatePolicy {
    RatePolicy(r.policyRevision, r.rpm, r.tpm)
  }

  function Refuse(reason: Reason): Decision {
    Rejected(reason, None, NoScope)
  }

  /** The concurrency limits, in the order the coordinator checks them. */
  function LimitDecision(s: Ledger, r: Request): Option<Decision> {
    if r.effectiveLimit <= 0 || r.effectiveLimit > r.configuredLimit then
      Some(Rejected(ConcurrencyExhausted, None, ClientScope))
    else if r.poolLimit > 0 && |PoolLeases(s, r.poolId)| >= r.poolLimit then
      Some(Rejected(ConcurrencyExhausted, None, PoolScope))
    else if r.poolReserve > 0 && Lower(r.priority) && |LowerLeases(s, r.poolId)| >= r.poolLimit - r.poolReserve then
      Some(Refuse(PoolPriorityReserve))
    else if |ClientLeases(s, r.clientId)| >= r.effectiveLimit then
      Some(Rejected(ConcurrencyExhausted, None, ClientScope))
    else None
  }

  datatype Verdict = Verdict(decision: Decision, rates: Rates, policies: Policies)

  function NewLease(r: Request, now: Time): Lease {
    Lease(r.leaseId, r.clientId, r.poolId, r.requestId, r.replicaId, now + r.ttl, r.ttl)
  }

  /** The rate limits: tokens are only checked, one request is debited. */
  function JudgeRates(s: Ledger, r: Request, now: Time, policies: Policies): Verdict
    requires r.clientId in policies
  {
    var p := policies[r.clientId];
    var tokens := Normalize(s.rates, r.clientId, TPM, p.revision, if p.tpm > 0 then p.tpm else 0, now);
    var tpm := tokens[(r.clientId, TPM)].balance;
    if p.tpm > 0 && tpm < 1.0 then Verdict(Rejected(TPMExhausted, Some(RetryAt(tpm, p.tpm, now)), NoScope), tokens, policies)
    else
      var both := Normalize(tokens, r.clientId, RPM, p.revision, if p.rpm > 0 then p.rpm else 0, now);
      var state := both[(r.clientId, RPM)];
      if p.rpm <= 0 then Verdict(Admitted(NewLease(r, now)), both, policies)
      else if state.balance < 1.0 then
        Verdict(Rejected(RPMExhausted, Some(RetryAt(state.balance, p.rpm, now)), NoScope), both, policies)
      else
        Verdict(Admitted(NewLease(r, now)), both[(r.clientId, RPM) := state.(balance := state.balance - 1.0)], policies)
  }

  /** The decision on a request that has no receipt yet, among the live leases of `s`. */
  function Judge(s: Ledger, r: Request, now: Time): Verdict {
    if Stale(r.startedAt, now) then Verdict(Refuse(StaleOperation), s.rates, s.policies)
    else if BadPriority(r) then Verdict(Refuse(StaleConfiguration), s.rates, s.policies)
    else
      var policies := Observe(s.policies, r.clientId, RequestPolicy(r));
      match LimitDecision(s, r)
      case Some(d) => Verdict(d, s.rates, policies)
      case None => JudgeRates(s, r, now, policies)
  }

  /** What a retained receipt answers. */
  function Replay(s: Ledger, r: Request, now: Time): Decision
    requires r.leaseId in s.receipts
  {
    var kept := s.receipts[r.leaseId];
    if kept.request != r then Refuse(IdempotencyConflict)
    else if kept.completion.Some? || kept.expired then Refuse(LeaseLost)
    else if kept.decision.Admitted? then
      if r.leaseId in s.leases && s.leases[r.leaseId].expiresAt > now then Admitted(s.leases[r.leaseId])
      else Refuse(LeaseLost)
    else kept.decision
  }

  function Record(s: Ledger, r: Request, now: Time, v: Verdict): Ledger {
    var retain := if v.decision.Admitted? then None else Some(Boundary(r.startedAt, now));
    Ledger(
      s.receipts[r.leaseId := Receipt(r, v.decision, None, false, retain)],
      if v.decision.Admitted? then s.leases[r.leaseId := v.decision.lease] else s.leases,
      v.rates, v.policies)
  }

  /** Which receipt, if any, makes room for a new one: a terminal one nearest the end of its retention. */
  ghost predicate Victim(s: Ledger, capacity: nat, victim: Option<Id>) {
    match victim
    case None => |s.receipts| < capacity || forall id :: id in s.receipts ==> s.receipts[id].retainUntil.None?
    case Some(v) =>
      && |s.receipts| >= capacity
      && v in s.receipts && s.receipts[v].retainUntil.Some?
      && forall id :: id in s.receipts && s.receipts[id].retainUntil.Some? ==>
           s.receipts[v].retainUntil.value <= s.receipts[id].retainUntil.value
  }

  function Evict(s: Ledger, victim: Option<Id>): Ledger {
    match victim
    case None => s
    case Some(v) => Forget(s, {v})
  }

  function Acquire(s: Ledger, r: Request, now: Time, capacity: nat, victim: Option<Id>): (Ledger, Decision) {
    var live := Expire(s, now);
    if r.leaseId in live.receipts then (live, Replay(live, r, now))
    else if |live.receipts| >= capacity && victim.None? then (live, Refuse(CoordinationUnavailable))
    else
      var room := Evict(live, victim);
      var v := Judge(room, r, now);
      (Record(room, r, now, v), v.decision)
  }

  // Renew

  datatype RenewResult = Renewed(lease: Lease) | Lost(lease: Lease)

  predicate Holds(s: Ledger, want: Lease, now: Time) {
    && want.leaseId in s.leases
    && s.leases[want.leaseId].clientId == want.clientId && s.leases[want.leaseId].poolId == want.poolId
    && s.leases[want.leaseId].expiresAt > now
  }

  function RenewOne(s: Ledger, want: Lease, now: Time): (Ledger, RenewResult) {
    if !Holds(s, want, now) then (s.(leases := s.leases - {want.leaseId}), Lost(want))
    else
      var got := s.leases[want.leaseId];
      var ttl := if got.ttl > 0 then got.ttl else want.ttl;
      if ttl <= 0 then (s, Lost(want))
      else
        var renewed := got.(expiresAt := now + ttl);
        (s.(leases := s.leases[want.leaseId := renewed]), Renewed(renewed))
  }

  function RenewAll(s: Ledger, wants: seq<Lease>, now: Time): (r: (Ledger, seq<RenewResult>))
    ensures |r.1| == |wants|
  {
    if wants == [] then (s, [])
    else
      var (before, results) := RenewAll(s, wants[..|wants| - 1], now);
      var (after, result) := RenewOne(before, wants[|wants| - 1], now);
      (after, results + [result])
  }

  function Renew(s: Ledger, wants: seq<Lease>, now: Time): (Ledger, seq<RenewResult>) {
    RenewAll(Expire(s, now), wants, now)
  }

  // Complete

  datatype Usage = Usage(input: int, output: int, cacheRead: int)

  predicate ValidUsage(u: Usage) {
    u.input >= 0 && u.output >= 0 && 0 <= u.cacheRead <= u.input
  }

  datatype Item = Item(leaseId: Id, usage: Option<Usage>)

  datatype CompleteResult =
    | UnknownOperation
    | NeverAdmitted
    | AlreadyCompleted(original: Completion)
    | Done(completion: Completion)

  function ChargePolicy(s: Ledger, r: Request): RatePolicy {
    if r.clientId in s.policies then s.policies[r.clientId] else RequestPolicy(r)
  }

  function Charge(s: Ledger, r: Request, usage: Option<Usage>, now: Time): Rates {
    if usage.None? || !ValidUsage(usage.value) then s.rates
    else
      var p := ChargePolicy(s, r);
      var rates := Normalize(s.rates, r.clientId, TPM, p.revision, p.tpm, now);
      if p.tpm <= 0 then rates
      else
        var state := rates[(r.clientId, TPM)];
        rates[(r.clientId, TPM) := state.(balance := state.balance - (usage.value.input + usage.value.output) as real)]
  }

  function CompleteOne(s: Ledger, item: Item, now: Time): (Ledger, CompleteResult) {
    if item.leaseId !in s.receipts then (s, UnknownOperation)
    else
      var kept := s.receipts[item.leaseId];
      if !kept.decision.Admitted? then (s, NeverAdmitted)
      else if kept.completion.Some? then (s, AlreadyCompleted(kept.completion.value))
      else
        var live :=
          && item.leaseId in s.leases
          && s.leases[item.leaseId].clientId == kept.request.clientId && s.leases[item.leaseId].poolId == kept.request.poolId
          && s.leases[item.leaseId].expiresAt > now;
        var result := if live then Released else CompletedLost;
        var closed := kept.(completion := Some(result), retainUntil := Some(Boundary(kept.request.startedAt, now)));
        (Ledger(s.receipts[item.leaseId := closed], s.leases - {item.leaseId}, Charge(s, kept.request, item.usage, now), s.policies),
         Done(result))
  }

  function CompleteAll(s: Ledger, items: seq<Item>, now: Time): (r: (Ledger, seq<CompleteResult>))
    ensures |r.1| == |items|
  {
    if items == [] then (s, [])
    else
      var (before, results) := CompleteAll(s, items[..|items| - 1], now);
      var (after, result) := CompleteOne(before, items[|items| - 1], now);
      (after, results + [result])
  }

  function Complete(s: Ledger, items: seq<Item>, now: Time): (Ledger, seq<CompleteResult>) {
    CompleteAll(Expire(s, now), items, now)
  }

  // What every operation keeps

  lemma MarkLostKeepsBacked(s: Ledger, ids: set<Id>, now: Time)
    requires Backed(s)
    ensures Backed(MarkLost(s, ids, now))
  {
  }

  lemma ForgetKeepsBacked(s: Ledger, ids: set<Id>)
    requires Backed(s) && forall id :: id in ids && id in s.receipts ==> s.receipts[id].retainUntil.Some?
    ensures Backed(Forget(s, ids))
  {
  }

  lemma ExpireKeepsBacked(s: Ledger, now: Time)
    requires Backed(s)
    ensures Backed(Expire(s, now)) && DueLeases(Expire(s, now), now) == {}
  {
    var lost := MarkLost(s, DueLeases(s, now), now);
    MarkLostKeepsBacked(s, DueLeases(s, now), now);
    ForgetKeepsBacked(lost, Overdue(lost, now));
  }
}
