/** What the shared tables answer, and which leases they hold: an admission is given exactly when nothing
stands against it, whichever replica asks, and a lease runs from it to its end. */
module PgAdmissionAnswers {
  import opened ExpiryQueue
  import opened Admission
  import opened Counting
  import opened PgAdmission
  import opened PgAdmissionRuns
  import AdmissionTokens

  // 1. The limit of a client

  lemma FewerOfClient(a: Leases, b: Leases, client: int)
    requires forall id :: id in b ==> id in a && b[id].clientId == a[id].clientId
    ensures |OfClient(b, client)| <= |OfClient(a, client)|
  {
    forall id | id in OfClient(b, client)
      ensures id in OfClient(a, client)
    {
    }
    SmallerSet(OfClient(b, client), OfClient(a, client));
  }

  lemma OneMoreOfClient(a: Leases, id: Id, row: LeaseRow, client: int)
    ensures |OfClient(a[id := row], client)| <= |OfClient(a, client)| + if row.clientId == client then 1 else 0
  {
    var b, more := OfClient(a[id := row], client), if row.clientId == client then {id} else {};
    forall x | x in b
      ensures x in OfClient(a, client) + more
    {
    }
    SmallerSet(b, OfClient(a, client) + more);
  }

  predicate Modest(e: Event, client: int, limit: int) {
    e.op.AcquireOp? && e.op.r.clientId == client ==> e.op.r.effectiveLimit <= limit
  }

  lemma GrantHasRoom(t: Tables, c: Config, r: Request, now: Time)
    requires File(t, c, r, now).1.Admitted?
    ensures |OfClient(Live(t.leases, now), r.clientId)| < r.effectiveLimit
  {
    hide ChargeRates;
    hide Seed;
    hide InPool;
    hide LowerInPool;
    hide OfClient;
    hide Live;
  }

  lemma FiledLeases(t: Tables, c: Config, r: Request, now: Time)
    ensures File(t, c, r, now).0.leases ==
              if File(t, c, r, now).1.Admitted? then t.leases[r.leaseId := NewRow(r, c, now)] else t.leases
  {
    hide Decide;
    hide NewRow;
    hide Live;
  }

  lemma AcquireOfClient(t: Tables, e: Event, client: int, limit: int)
    requires e.op.AcquireOp? && Modest(e, client, limit) && |OfClient(Live(t.leases, e.now), client)| <= limit
    ensures |OfClient(Live(Step(t, e).0.leases, e.now), client)| <= limit
  {
    var r, live := e.op.r, Live(t.leases, e.now);
    if r.leaseId in t.operations {
      assert Step(t, e).0.leases == t.leases;
    } else {
      FiledLeases(t, e.c, r, e.now);
      if File(t, e.c, r, e.now).1.Admitted? {
        var row := NewRow(r, e.c, e.now);
        GrantHasRoom(t, e.c, r, e.now);
        LiveAdd(t.leases, r.leaseId, row, e.now);
        OneMoreOfClient(live, r.leaseId, row, client);
        FewerOfClient(live, live - {r.leaseId}, client);
      }
    }
    hide File;
    hide Live;
    hide OfClient;
    hide Resolve;
  }

  lemma StepOfClient(t: Tables, e: Event, client: int, limit: int)
    requires Modest(e, client, limit) && |OfClient(Live(t.leases, e.now), client)| <= limit
    ensures |OfClient(Live(Step(t, e).0.leases, e.now), client)| <= limit
  {
    if e.op.AcquireOp? {
      AcquireOfClient(t, e, client, limit);
    } else {
      SameOwners(t, e);
      FewerOfClient(Live(t.leases, e.now), Live(Step(t, e).0.leases, e.now), client);
    }
    hide Step;
    hide OfClient;
    hide Live;
  }

  lemma SameOwners(t: Tables, e: Event)
    requires !e.op.AcquireOp?
    ensures var a, b := Live(t.leases, e.now), Live(Step(t, e).0.leases, e.now);
            forall id :: id in b ==> id in a && b[id].clientId == a[id].clientId
  {
    hide AcquireTx;
    hide ChargeTokens;
    if e.op.RenewOp? {
      ProlongedLive(t.leases, e.op.wants, e.now);
    }
    hide Longest;
  }

  /** At every moment a client holds at most as many live leases as the largest limit its requests were
  made with, however many replicas it comes through. */
  lemma {:induction false} ClientLimitHolds(run: seq<Event>, client: int, limit: nat, now: Time)
    requires Clocked(run) && (run != [] ==> run[|run| - 1].now <= now)
    requires forall i :: 0 <= i < |run| ==> Modest(run[i], client, limit)
    ensures |OfClient(Live(After(run).leases, now), client)| <= limit
    decreases |run|
  {
    hide Step;
    if run == [] {
      assert OfClient(Live(map[], now), client) == {};
    } else {
      var init, e := run[..|run| - 1], run[|run| - 1];
      ClientLimitHolds(init, client, limit, e.now);
      StepOfClient(After(init), e, client, limit);
      LiveLater(After(run).leases, e.now, now);
      FewerOfClient(Live(After(run).leases, e.now), Live(After(run).leases, now), client);
      hide OfClient;
    }
  }

  // 2. Why a request is refused

  predicate InTime(r: Request, now: Time) {
    now - RETENTION < r.startedAt <= now + CLOCK_SKEW
  }

  /** The request was made with the configuration of this moment, and its key is still good. */
  predicate Current(c: Config, r: Request, now: Time) {
    && c.revision == r.configurationRevision
    && r.clientId in c.clients && r.apiKeyId in c.keys && r.poolId in c.pools
    && var client, key, pool := c.clients[r.clientId], c.keys[r.apiKeyId], c.pools[r.poolId];
    && key.client == r.clientId && (key.expiresAt.None? || now < key.expiresAt.value)
    && client.enabled && client.revision == r.policyRevision && client.limit == r.configuredLimit
    && client.rpm == r.rpm && client.tpm == r.tpm && (r.priority == Unset || r.priority == client.priority)
    && pool.enabled && pool.limit == r.poolLimit && pool.reserve == r.poolReserve
    && (pool.reserve > 0 ==> r.priority != Unset && r.priority != Unknown)
  }

  predicate PoolHasRoom(live: Leases, r: Request) {
    r.poolLimit > 0 ==> |InPool(live, r.poolId)| < r.poolLimit
  }

  predicate ReserveHasRoom(live: Leases, c: Config, r: Request)
    requires r.clientId in c.clients
  {
    r.poolReserve > 0 && c.clients[r.clientId].priority !in {High, Critical} ==>
      |LowerInPool(live, r.poolId)| < r.poolLimit - r.poolReserve
  }

  /** What the bucket of the client's policy holds. */
  function Holding(rates: RateRows, client: int, kind: RateKind, p: ClientRow, now: Time): real {
    NormalizeRate(rates, client, kind, p.revision, if kind == RPM then p.rpm else p.tpm, now).balance
  }

  predicate TokensLeft(rates: RateRows, c: Config, r: Request, now: Time)
    requires r.clientId in c.clients
  {
    c.clients[r.clientId].tpm > 0 ==> Holding(rates, r.clientId, TPM, c.clients[r.clientId], now) >= 1.0
  }

  predicate RequestsLeft(rates: RateRows, c: Config, r: Request, now: Time)
    requires r.clientId in c.clients
  {
    c.clients[r.clientId].rpm > 0 ==> Holding(rates, r.clientId, RPM, c.clients[r.clientId], now) >= 1.0
  }

  /** Each answer stands for its own reason, and everything asked before that is in order. */
  ghost predicate Justified(t: Tables, c: Config, r: Request, now: Time, d: Decision) {
    var live := Live(t.leases, now);
    && (d == Refuse(StaleConfiguration) <==> !Current(c, r, now))
    && (Current(c, r, now) ==>
          var seeded := Seed(t.rates, c, r.clientId);
          && var ranged := 0 < r.effectiveLimit <= r.configuredLimit;
          && (d == Refuse(StaleOperation) <==> ranged && !InTime(r, now))
          && var timely := ranged && InTime(r, now);
          && (d == Rejected(ConcurrencyExhausted, None, PoolScope) <==> timely && !PoolHasRoom(live, r))
          && var pooled := timely && PoolHasRoom(live, r);
          && (d == Refuse(PoolPriorityReserve) <==> pooled && !ReserveHasRoom(live, c, r))
          && var reserved := pooled && ReserveHasRoom(live, c, r);
          && var free := |OfClient(live, r.clientId)| < r.effectiveLimit;
          && (d == Rejected(ConcurrencyExhausted, None, ClientScope) <==> !ranged || (reserved && !free))
          && var roomy := reserved && free;
          && ((d.Rejected? && d.reason == TPMExhausted) <==> roomy && !TokensLeft(seeded, c, r, now))
          && ((d.Rejected? && d.reason == RPMExhausted) <==>
                roomy && TokensLeft(seeded, c, r, now) && !RequestsLeft(seeded, c, r, now))
          && (d.Admitted? <==> roomy && TokensLeft(seeded, c, r, now) && RequestsLeft(seeded, c, r, now))
          && (d.Admitted? ==>
                d.lease == Lease(r.leaseId, r.clientId, r.poolId, r.requestId, r.replicaId, now + r.ttl, r.ttl)))
  }

  lemma CurrentIsUpToDate(c: Config, r: Request, now: Time)
    ensures Current(c, r, now) <==> Configured(c, r) && UpToDate(c, r, now)
  {
  }

  lemma LimitsJustified(live: Leases, c: Config, r: Request, now: Time)
    requires Current(c, r, now)
    ensures var v := Limits(live, c, r, now);
            && var ranged := 0 < r.effectiveLimit <= r.configuredLimit;
            && (v == Some(Deny(StaleOperation)) <==> ranged && !InTime(r, now))
            && var timely := ranged && InTime(r, now);
            && (v == Some(Denied(ConcurrencyExhausted, None, PoolScope)) <==> timely && !PoolHasRoom(live, r))
            && var pooled := timely && PoolHasRoom(live, r);
            && (v == Some(Deny(PoolPriorityReserve)) <==> pooled && !ReserveHasRoom(live, c, r))
            && var reserved := pooled && ReserveHasRoom(live, c, r);
            && var free := |OfClient(live, r.clientId)| < r.effectiveLimit;
            && (v == Some(Denied(ConcurrencyExhausted, None, ClientScope)) <==> !ranged || (reserved && !free))
            && (v == None <==> reserved && free)
            && (v.Some? ==> v.value.Denied? && v.value.reason != StaleConfiguration && v.value.retryAt.None?
                            && v.value.reason != TPMExhausted && v.value.reason != RPMExhausted)
  {
    CurrentIsUpToDate(c, r, now);
    hide InPool;
    hide LowerInPool;
    hide OfClient;
  }

  lemma RatesJustified(rates: RateRows, c: Config, r: Request, now: Time)
    requires r.clientId in c.clients
    ensures var v := ChargeRates(rates, r.clientId, c.clients[r.clientId], now).1;
            && ((v.Denied? && v.reason == TPMExhausted) <==> !TokensLeft(rates, c, r, now))
            && ((v.Denied? && v.reason == RPMExhausted) <==> TokensLeft(rates, c, r, now) && !RequestsLeft(rates, c, r, now))
            && (v.Granted? <==> TokensLeft(rates, c, r, now) && RequestsLeft(rates, c, r, now))
            && (v.Denied? ==> v.reason == TPMExhausted || v.reason == RPMExhausted)
  {
    var p := c.clients[r.clientId];
    var tokens := Stored(rates, r.clientId, TPM, NormalizeRate(rates, r.clientId, TPM, p.revision, p.tpm, now));
    assert NormalizeRate(tokens, r.clientId, RPM, p.revision, p.rpm, now) == NormalizeRate(rates, r.clientId, RPM, p.revision, p.rpm, now);
    hide NormalizeRow;
    hide RetryAt;
  }

  lemma FileJustified(t: Tables, c: Config, r: Request, now: Time)
    ensures Justified(t, c, r, now, File(t, c, r, now).1)
  {
    CurrentIsUpToDate(c, r, now);
    if Current(c, r, now) {
      LimitsJustified(Live(t.leases, now), c, r, now);
      RatesJustified(Seed(t.rates, c, r.clientId), c, r, now);
      hide Limits;
    }
    hide Current;
    hide InTime;
    hide PoolHasRoom;
    hide ReserveHasRoom;
    hide TokensLeft;
    hide RequestsLeft;
    hide ChargeRates;
    hide Seed;
    hide Live;
    hide OfClient;
  }

  // 3. Requests made again

  /** A lease in the table belongs to an operation that was granted and not completed. */
  ghost predicate Backed(t: Tables) {
    && (forall id :: id in t.leases ==>
          id in t.operations && t.operations[id].verdict.Granted? && t.operations[id].completion.None?
          && t.leases[id].clientId == t.operations[id].request.clientId && t.leases[id].poolId == t.operations[id].request.poolId)
    && (forall id :: id in t.operations ==>
          && (t.operations[id].completion.Some? || t.operations[id].expiredAt.Some? ==> t.operations[id].verdict.Granted?)
          && (t.operations[id].retainUntil.Some? <==>
                t.operations[id].verdict.Denied? || t.operations[id].completion.Some? || t.operations[id].expiredAt.Some?))
  }

  lemma AcquireBacked(t: Tables, c: Config, r: Request, now: Time)
    requires Backed(t)
    ensures Backed(AcquireTx(t, c, r, now).0)
  {
    if r.leaseId !in t.operations {
      FileBacked(t, c, r, now);
      hide File;
    } else {
      hide Live;
    }
  }

  lemma FileBacked(t: Tables, c: Config, r: Request, now: Time)
    requires Backed(t) && r.leaseId !in t.operations
    ensures Backed(File(t, c, r, now).0)
  {
    hide Decide;
    hide Live;
  }

  lemma ExpireBacked(t: Tables, ids: set<Id>, now: Time)
    requires Backed(t)
    ensures Backed(ExpireTx(t, ids, now))
  {
  }

  lemma RenewBacked(t: Tables, wants: seq<Lease>, now: Time)
    requires Backed(t)
    ensures Backed(RenewTx(t, wants, now).0)
  {
    hide Longest;
    hide Live;
    var p := t.(leases := Prolonged(t.leases, Live(t.leases, now), wants, now));
    assert Backed(p);
    ExpireBacked(p, Wanted(wants), now);
    hide ExpireTx;
    hide Backed;
  }

  lemma StepBacked(t: Tables, e: Event)
    requires Backed(t)
    ensures Backed(Step(t, e).0)
  {
    match e.op
    case AcquireOp(r) => AcquireBacked(t, e.c, r, e.now);
    case RenewOp(wants) => RenewBacked(t, wants, e.now);
    case CompleteOp(item) => hide ChargeTokens; hide Live;
    case CleanupExpiredOp(ids) => ExpireBacked(t, ids, e.now);
    case CleanupReceiptsOp(ids) =>
    hide AcquireTx;
    hide RenewTx;
    hide ExpireTx;
  }

  lemma {:induction false} RunBacked(run: seq<Event>)
    ensures Backed(After(run))
    decreases |run|
  {
    if run == [] {
    } else {
      RunBacked(run[..|run| - 1]);
      hide Step;
      hide Backed;
      StepBacked(After(run[..|run| - 1]), run[|run| - 1]);
    }
  }

  /** What is answered to a request on record: a lease that runs is given again as it is, a refusal is
  repeated, and an admission whose lease is over is lost. */
  ghost predicate Repeated(t: Tables, r: Request, now: Time, d: Decision)
    requires r.leaseId in t.operations
  {
    var kept, live := t.operations[r.leaseId], Live(t.leases, now);
    if kept.request != r then d == Refuse(IdempotencyConflict)
    else if kept.verdict.Denied? then d == Rejected(kept.verdict.reason, kept.verdict.retryAt, kept.verdict.scope)
    else if r.leaseId in live && kept.expiredAt.None? then
      var row := live[r.leaseId];
      d == Admitted(Lease(r.leaseId, row.clientId, row.poolId, row.requestId, row.replicaId, row.expiresAt, r.ttl))
    else d == Refuse(LeaseLost)
  }

  /** After any run of any replicas: a request on record is answered from the record, a new one exactly as
  the configuration, the live leases and the rates demand. */
  lemma AnsweredExactly(run: seq<Event>, c: Config, r: Request, now: Time)
    ensures var t := After(run);
            var d := AcquireTx(t, c, r, now).1;
            if r.leaseId in t.operations then Repeated(t, r, now, d) else Justified(t, c, r, now, d)
  {
    var t := After(run);
    RunBacked(run);
    hide After;
    FileJustified(t, c, r, now);
    hide Justified;
    hide File;
  }

  // 4. The life of a lease

  /** The renewal names the lease as it is on record, and asks for some time. */
  predicate Names(want: Lease, id: Id, row: LeaseRow) {
    && want.leaseId == id && want.ttl > 0 && want.clientId == row.clientId && want.poolId == row.poolId
    && want.requestId == row.requestId && want.replicaId == row.replicaId
  }

  /** The longest time asked for by those of the renewals that name the lease. */
  function LongestAsked(wants: seq<Lease>, id: Id, row: LeaseRow): int {
    if wants == [] then 0
    else
      var before, want := LongestAsked(wants[..|wants| - 1], id, row), wants[|wants| - 1];
      if Names(want, id, row) && want.ttl > before then want.ttl else before
  }

  lemma {:induction false} LongestMeaning(wants: seq<Lease>, id: Id, row: LeaseRow)
    ensures var n := LongestAsked(wants, id, row);
            && 0 <= n
            && (forall k :: 0 <= k < |wants| && Names(wants[k], id, row) ==> wants[k].ttl <= n)
            && (n > 0 ==> exists k :: 0 <= k < |wants| && Names(wants[k], id, row) && wants[k].ttl == n)
    decreases |wants|
  {
    if wants == [] {
    } else {
      var init := wants[..|wants| - 1];
      assert forall k :: 0 <= k < |init| ==> init[k] == wants[k];
      LongestMeaning(init, id, row);
    }
  }

  lemma {:induction false} LongestIsAsked(live: Leases, wants: seq<Lease>, id: Id)
    requires id in live
    ensures Longest(live, wants, id) == LongestAsked(wants, id, live[id])
    decreases |wants|
  {
    if wants == [] {
    } else {
      LongestIsAsked(live, wants[..|wants| - 1], id);
    }
  }

  /** What an event leaves of a lease. */
  function Next(id: Id, row: LeaseRow, e: Event): Option<LeaseRow> {
    if row.expiresAt <= e.now || (e.op.CompleteOp? && e.op.item.leaseId == id) then None
    else if !e.op.RenewOp? || LongestAsked(e.op.wants, id, row) == 0 then Some(row)
    else Some(row.(expiresAt := e.now + LongestAsked(e.op.wants, id, row)))
  }

  /** The lease a request is given: its class is that of the client in the configuration. */
  function RowFor(r: Request, c: Config, now: Time): LeaseRow
    requires r.clientId in c.clients
  {
    LeaseRow(r.clientId, r.poolId, r.requestId, r.replicaId, now + r.ttl, c.clients[r.clientId].priority)
  }

  predicate Creates(t: Tables, e: Event, id: Id) {
    e.op.AcquireOp? && e.op.r.leaseId == id && Admits(t, e, e.op.r) && e.op.r.clientId in e.c.clients
  }

  lemma AdmittedIsCurrent(t: Tables, e: Event)
    requires e.op.AcquireOp? && Admits(t, e, e.op.r)
    ensures e.op.r.clientId in e.c.clients
  {
    FileJustified(t, e.c, e.op.r, e.now);
    hide File;
    hide Live;
  }

  lemma AcquireOnLeases(t: Tables, e: Event, id: Id)
    requires Backed(t) && e.op.AcquireOp?
    ensures var u := Step(t, e).0;
            && (id in t.leases ==> id in u.leases && u.leases[id] == t.leases[id])
            && (Creates(t, e, id) ==> id in u.leases && u.leases[id] == RowFor(e.op.r, e.c, e.now))
            && (id in u.leases ==> id in t.leases || Creates(t, e, id))
  {
    var r := e.op.r;
    if r.leaseId !in t.operations {
      FiledLeases(t, e.c, r, e.now);
      if Admits(t, e, r) {
        AdmittedIsCurrent(t, e);
      }
    }
    hide File;
    hide Live;
  }

  lemma RenewOnLeases(t: Tables, e: Event, id: Id)
    requires e.op.RenewOp?
    ensures var u := Step(t, e).0;
            && (id in t.leases && Next(id, t.leases[id], e).Some? ==> id in u.leases && u.leases[id] == Next(id, t.leases[id], e).value)
            && (id in Live(u.leases, e.now) ==> id in t.leases && Next(id, t.leases[id], e).Some?)
  {
    var live := Live(t.leases, e.now);
    if id in live {
      LongestIsAsked(live, e.op.wants, id);
      LongestMeaning(e.op.wants, id, t.leases[id]);
    }
    hide Longest;
    hide LongestAsked;
  }

  /** What an event does to each lease, whatever else it is about. */
  lemma StepOnLeases(t: Tables, e: Event, id: Id)
    requires Backed(t)
    ensures var u := Step(t, e).0;
            && (id in t.leases && Next(id, t.leases[id], e).Some? ==> id in u.leases && u.leases[id] == Next(id, t.leases[id], e).value)
            && (Creates(t, e, id) ==> id in u.leases && u.leases[id] == RowFor(e.op.r, e.c, e.now))
            && (id in Live(u.leases, e.now) ==> (id in t.leases && Next(id, t.leases[id], e).Some?) || Creates(t, e, id))
  {
    match e.op
    case AcquireOp(r) => AcquireOnLeases(t, e, id);
    case RenewOp(wants) => RenewOnLeases(t, e, id);
    case CompleteOp(item) => hide ChargeTokens;
    case CleanupExpiredOp(ids) =>
    case CleanupReceiptsOp(ids) =>
    hide AcquireTx;
    hide RenewTx;
    hide LongestAsked;
    hide Admits;
    hide RowFor;
  }

  /** What `j` events leave of the lease created by the request at `i`. */
  function Leased(run: seq<Event>, i: nat, j: nat): Option<LeaseRow>
    requires i < j <= |run| && run[i].op.AcquireOp? && run[i].op.r.clientId in run[i].c.clients
  {
    if j == i + 1 then Some(RowFor(run[i].op.r, run[i].c, run[i].now))
    else
      match Leased(run, i, j - 1)
      case None => None
      case Some(row) => Next(run[i].op.r.leaseId, row, run[j - 1])
  }

  /** The lease created by the admission at `i` is not over with the last event. */
  predicate Running(run: seq<Event>, i: nat, id: Id) {
    && i < |run| && run[i].op.AcquireOp? && run[i].op.r.leaseId == id && run[i].op.r.clientId in run[i].c.clients
    && Creates(After(run[..i]), run[i], id) && Leased(run, i, |run|).Some?
  }

  lemma {:induction false} LeasedPrefix(run: seq<Event>, i: nat, j: nat, n: nat)
    requires i < j <= n <= |run| && run[i].op.AcquireOp? && run[i].op.r.clientId in run[i].c.clients
    ensures Leased(run[..n], i, j) == Leased(run, i, j)
    decreases j
  {
    if j == i + 1 {
    } else {
      hide Next;
      LeasedPrefix(run, i, j - 1, n);
    }
  }

  lemma RunningNext(run: seq<Event>, i: nat, id: Id)
    requires run != [] && i < |run| - 1
    ensures var init, last := run[..|run| - 1], run[|run| - 1];
            && (Running(run, i, id) ==> Running(init, i, id))
            && (Running(init, i, id) ==>
                  Leased(run, i, |run|) == Next(id, Leased(init, i, |init|).value, last)
                  && (Running(run, i, id) <==> Leased(run, i, |run|).Some?))
  {
    hide After;
    hide Creates;
    hide Next;
    var init := run[..|run| - 1];
    assert init[..i] == run[..i];
    if run[i].op.AcquireOp? && run[i].op.r.clientId in run[i].c.clients {
      LeasedPrefix(run, i, |init|, |init|);
    }
  }

  lemma StepOfRun(run: seq<Event>, id: Id)
    requires run != []
    ensures var t, u, e := After(run[..|run| - 1]), After(run), run[|run| - 1];
            && (id in t.leases && Next(id, t.leases[id], e).Some? ==> id in u.leases && u.leases[id] == Next(id, t.leases[id], e).value)
            && (Creates(t, e, id) ==> id in u.leases && u.leases[id] == RowFor(e.op.r, e.c, e.now))
            && (id in Live(u.leases, e.now) ==> (id in t.leases && Next(id, t.leases[id], e).Some?) || Creates(t, e, id))
  {
    RunBacked(run[..|run| - 1]);
    hide Backed;
    hide Step;
    hide Creates;
    hide Next;
    hide Live;
    StepOnLeases(After(run[..|run| - 1]), run[|run| - 1], id);
  }

  /** A lease that runs is in the table as the last event left it. */
  predicate Kept(run: seq<Event>, i: nat, id: Id) {
    Running(run, i, id) ==> id in After(run).leases && Leased(run, i, |run|) == Some(After(run).leases[id])
  }

  lemma {:induction false} EachIsKept(run: seq<Event>, i: nat, id: Id)
    ensures Kept(run, i, id)
    decreases |run|
  {
    hide After;
    hide Creates;
    hide Next;
    if Running(run, i, id) {
      var n := |run| - 1;
      StepOfRun(run, id);
      if i == n {
        assert run[..i] == run[..n];
      } else {
        EachIsKept(run[..n], i, id);
        RunningNext(run, i, id);
      }
    }
  }

  lemma NoLeaseAtFirst(run: seq<Event>, id: Id)
    requires id in After(run).leases
    ensures run != []
  {
  }

  lemma CreatedByAcquiring(t: Tables, e: Event, id: Id)
    requires Creates(t, e, id)
    ensures e.op.AcquireOp? && e.op.r.leaseId == id && e.op.r.clientId in e.c.clients
  {
  }

  lemma LiveMeans(leases: Leases, now: Time, id: Id)
    ensures id in Live(leases, now) <==> id in leases && leases[id].expiresAt > now
  {
  }

  lemma NextMeans(id: Id, row: LeaseRow, e: Event)
    requires Next(id, row, e).Some?
    ensures row.expiresAt > e.now
  {
  }

  lemma {:induction false} EachRuns(run: seq<Event>, id: Id) returns (i: nat)
    requires Clocked(run) && run != [] && id in Live(After(run).leases, run[|run| - 1].now)
    ensures Running(run, i, id)
    decreases |run|
  {
    hide After;
    hide Creates;
    hide Next;
    hide Live;
    var n := |run| - 1;
    var t, e := After(run[..n]), run[n];
    StepOfRun(run, id);
    if id in t.leases && Next(id, t.leases[id], e).Some? {
      NoLeaseAtFirst(run[..n], id);
      NextMeans(id, t.leases[id], e);
      LiveMeans(t.leases, run[n - 1].now, id);
      i := EachRuns(run[..n], id);
      EachIsKept(run[..n], i, id);
      RunningNext(run, i, id);
    } else {
      i := n;
      CreatedByAcquiring(t, e, id);
    }
  }

  predicate RunsAt(run: seq<Event>, i: nat, id: Id, now: Time) {
    Running(run, i, id) && Leased(run, i, |run|).value.expiresAt > now
  }

  /** At every moment the live leases are those that run and have time left, and they are as the events
  left them. */
  lemma LeasesAreTheirHistory(run: seq<Event>, id: Id, now: Time)
    requires Clocked(run) && (run != [] ==> run[|run| - 1].now <= now)
    ensures var live := Live(After(run).leases, now);
            && (id in live <==> exists i: nat :: RunsAt(run, i, id, now))
            && (forall i: nat :: RunsAt(run, i, id, now) ==> Leased(run, i, |run|) == Some(live[id]))
  {
    hide Clocked;
    hide After;
    hide Live;
    hide Creates;
    hide Kept;
    var live := Live(After(run).leases, now);
    LiveMeans(After(run).leases, now, id);
    if id in live {
      NoLeaseAtFirst(run, id);
      LiveMeans(After(run).leases, run[|run| - 1].now, id);
      var i := EachRuns(run, id);
      EachIsKept(run, i, id);
      KeptMeans(run, i, id, now);
      assert RunsAt(run, i, id, now);
    }
    forall i: nat | RunsAt(run, i, id, now)
      ensures id in live && Leased(run, i, |run|) == Some(live[id])
    {
      EachIsKept(run, i, id);
      KeptMeans(run, i, id, now);
    }
  }

  lemma KeptMeans(run: seq<Event>, i: nat, id: Id, now: Time)
    requires Kept(run, i, id) && Running(run, i, id)
    ensures id in After(run).leases && Leased(run, i, |run|) == Some(After(run).leases[id])
    ensures After(run).leases[id].expiresAt > now ==> id in Live(After(run).leases, now) && Live(After(run).leases, now)[id] == After(run).leases[id]
  {
    hide After;
  }

  // 5. Completions

  /** What a completion is answered, from the record of its operation. */
  ghost predicate Concludes(t: Tables, id: Id, now: Time, answer: CompleteResult) {
    if id !in t.operations then answer == UnknownOperation
    else if t.operations[id].verdict.Denied? then answer == NeverAdmitted
    else if t.operations[id].completion.Some? then answer == AlreadyCompleted(t.operations[id].completion.value)
    else answer == Done(if id in t.leases && t.leases[id].expiresAt > now then Released else CompletedLost)
  }

  /** A completion is answered with the truth, and the first one ends the lease and is on record. */
  lemma CompletionsAnswered(t: Tables, c: Config, item: Item, now: Time)
    ensures var (u, answer) := CompleteTx(t, c, item, now);
            && Concludes(t, item.leaseId, now, answer)
            && (answer.Done? ==>
                  && item.leaseId !in u.leases && item.leaseId in u.operations
                  && u.operations[item.leaseId].completion == Some(answer.completion)
                  && (forall id :: id != item.leaseId ==> (id in u.leases <==> id in t.leases))
                  && (forall id :: id in u.leases ==> u.leases[id] == t.leases[id]))
            && (!answer.Done? ==> u == t)
  {
    hide ChargeTokens;
  }

  /** Event `m` completed the operation, with this result. */
  predicate Answered(run: seq<Event>, m: nat, id: Id, result: Completion) {
    && m < |run| && run[m].op.CompleteOp? && run[m].op.item.leaseId == id
    && CompleteTx(After(run[..m]), run[m].c, run[m].op.item, run[m].now).1 == Done(result)
  }

  lemma CompletionStep(t: Tables, e: Event, id: Id, result: Completion)
    requires id in Step(t, e).0.operations && Step(t, e).0.operations[id].completion == Some(result)
    ensures || (id in t.operations && t.operations[id].completion == Some(result))
            || (e.op.CompleteOp? && e.op.item.leaseId == id && CompleteTx(t, e.c, e.op.item, e.now).1 == Done(result))
  {
    if e.op.AcquireOp? {
      AcquireCompletes(t, e.c, e.op.r, e.now, id);
      hide AcquireTx;
    } else {
      hide AcquireTx;
      hide ChargeTokens;
      hide Longest;
    }
  }

  lemma AcquireCompletes(t: Tables, c: Config, r: Request, now: Time, id: Id)
    ensures var u := AcquireTx(t, c, r, now).0;
            id in u.operations && u.operations[id].completion.Some? ==>
              id in t.operations && u.operations[id].completion == t.operations[id].completion
  {
    hide Decide;
    hide Live;
    hide NewRow;
  }

  lemma LastIsStep(run: seq<Event>)
    requires run != []
    ensures After(run) == Step(After(run[..|run| - 1]), run[|run| - 1]).0
  {
    hide Step;
  }

  /** What is on record of a completion, and answered ever after, is what was answered when it took effect. */
  lemma {:induction false} CompletionsAreRemembered(run: seq<Event>, id: Id, result: Completion) returns (m: nat)
    requires id in After(run).operations && After(run).operations[id].completion == Some(result)
    ensures Answered(run, m, id, result)
    decreases |run|
  {
    assert run != [];
    hide After;
    hide Step;
    hide CompleteTx;
    var n := |run| - 1;
    LastIsStep(run);
    CompletionStep(After(run[..n]), run[n], id, result);
    if id in After(run[..n]).operations && After(run[..n]).operations[id].completion == Some(result) {
      m := CompletionsAreRemembered(run[..n], id, result);
      assert run[..n][..m] == run[..m];
    } else {
      m := n;
    }
  }

  /** Event `m` was the first request under its identifier and was answered like this. */
  predicate Decided(run: seq<Event>, m: nat, r: Request, d: Decision) {
    && m < |run| && run[m].op == AcquireOp(r) && r.leaseId !in After(run[..m]).operations
    && AcquireTx(After(run[..m]), run[m].c, r, run[m].now).1 == d
  }

  /** The record tells the decision. */
  predicate Records(row: OperationRow, d: Decision) {
    match row.verdict
    case Granted => d.Admitted?
    case Denied(reason, retryAt, scope) => d == Rejected(reason, retryAt, scope)
  }

  lemma FileRecords(t: Tables, c: Config, r: Request, now: Time)
    ensures var (u, d) := File(t, c, r, now);
            && r.leaseId in u.operations && u.operations[r.leaseId].request == r && Records(u.operations[r.leaseId], d)
            && (forall id :: id != r.leaseId ==> (id in u.operations <==> id in t.operations))
            && (forall id :: id != r.leaseId && id in u.operations ==> u.operations[id] == t.operations[id])
  {
    hide Decide;
    hide Live;
    hide NewRow;
  }

  predicate SameVerdict(t: Tables, u: Tables, id: Id) {
    id in t.operations && id in u.operations
    && u.operations[id].request == t.operations[id].request && u.operations[id].verdict == t.operations[id].verdict
  }

  lemma RecordStep(t: Tables, e: Event, id: Id)
    requires id in Step(t, e).0.operations
    ensures var u := Step(t, e).0;
            || SameVerdict(t, u, id)
            || (e.op.AcquireOp? && e.op.r.leaseId == id && id !in t.operations && u.operations[id].request == e.op.r
                && Records(u.operations[id], AcquireTx(t, e.c, e.op.r, e.now).1))
  {
    match e.op
    case AcquireOp(r) =>
      if r.leaseId !in t.operations {
        FileRecords(t, e.c, r, e.now);
      }
      hide File;
      hide Live;
      hide Records;
    case RenewOp(wants) => hide Longest;
    case CompleteOp(item) => hide ChargeTokens;
    case CleanupExpiredOp(ids) =>
    case CleanupReceiptsOp(ids) =>
  }

  /** What is on record of a request, and repeated ever after, is what was decided when it was new. */
  lemma {:induction false} DecisionsAreRemembered(run: seq<Event>, id: Id) returns (m: nat, d: Decision)
    requires id in After(run).operations
    ensures var row := After(run).operations[id];
            row.request.leaseId == id && Decided(run, m, row.request, d) && Records(row, d)
    decreases |run|
  {
    assert run != [];
    hide After;
    hide Step;
    hide AcquireTx;
    hide Records;
    var n := |run| - 1;
    LastIsStep(run);
    RecordStep(After(run[..n]), run[n], id);
    if SameVerdict(After(run[..n]), After(run), id) {
      m, d := DecisionsAreRemembered(run[..n], id);
      assert run[..n][..m] == run[..m];
      RecordsVerdict(After(run[..n]).operations[id], After(run).operations[id], d);
    } else {
      m, d := n, AcquireTx(After(run[..n]), run[n].c, run[n].op.r, run[n].now).1;
    }
  }

  lemma RecordsVerdict(a: OperationRow, b: OperationRow, d: Decision)
    requires Records(a, d) && a.verdict == b.verdict
    ensures Records(b, d)
  {
  }

  // 6. The buckets

  function Size(p: ClientRow, kind: RateKind): int {
    if kind == RPM then p.rpm else p.tpm
  }

  /** Left alone a bucket fills evenly and never over. */
  lemma BucketFills(rates: RateRows, client: int, kind: RateKind, p: ClientRow, now: Time)
    requires var key := (client, kind);
             key in rates && rates[key].revision == p.revision && rates[key].at <= now && rates[key].balance <= Size(p, kind) as real
    ensures var row := rates[(client, kind)];
            Holding(rates, client, kind, p, now) == AdmissionTokens.Filled(row.balance, now - row.at, Size(p, kind))
  {
    if rates[(client, kind)].at == now {
      assert 0 as real * Size(p, kind) as real / MINUTE as real == 0.0;
    }
  }

  /** A bucket nobody has used, or of another policy, is full. */
  lemma NewBucketIsFull(rates: RateRows, client: int, kind: RateKind, p: ClientRow, now: Time)
    requires (client, kind) !in rates || rates[(client, kind)].revision != p.revision
    ensures Holding(rates, client, kind, p, now) == Size(p, kind) as real
  {
  }

  /** A bucket of the policy is not dated ahead of the clock nor over-full. */
  predicate Orderly(rates: RateRows, client: int, kind: RateKind, p: ClientRow, now: Time) {
    var key := (client, kind);
    key in rates && rates[key].revision == p.revision ==> rates[key].balance <= Size(p, kind) as real && rates[key].at <= now
  }

  lemma ExhaustedBucket(rates: RateRows, client: int, p: ClientRow, now: Time, kind: RateKind)
    requires Size(p, kind) > 0 && Orderly(rates, client, kind, p, now)
    requires var v := ChargeRates(rates, client, p, now).1; v.Denied? && v.reason == if kind == RPM then RPMExhausted else TPMExhausted
    ensures var (after, v) := ChargeRates(rates, client, p, now);
            var key := (client, kind);
            && key in after && after[key].revision == p.revision && after[key].at == now
            && after[key].balance < 1.0 && after[key].balance <= Size(p, kind) as real
            && v.retryAt == Some(RetryAt(after[key].balance, Size(p, kind), now))
  {
    var n := NormalizeRate(rates, client, kind, p.revision, Size(p, kind), now);
    assert n.revision == p.revision && n.at == now && n.balance <= Size(p, kind) as real;
    var tokens := Stored(rates, client, TPM, NormalizeRate(rates, client, TPM, p.revision, p.tpm, now));
    assert NormalizeRate(tokens, client, RPM, p.revision, p.rpm, now) == NormalizeRate(rates, client, RPM, p.revision, p.rpm, now);
    hide NormalizeRow;
    hide RetryAt;
  }

  /** The time told with a refusal for a rate is when the bucket has one again, if nothing else is taken
  out of it meanwhile. */
  lemma RetryIsTold(rates: RateRows, client: int, p: ClientRow, now: Time, kind: RateKind, later: Time)
    requires Size(p, kind) > 0 && Orderly(rates, client, kind, p, now) && now <= later
    requires var v := ChargeRates(rates, client, p, now).1; v.Denied? && v.reason == if kind == RPM then RPMExhausted else TPMExhausted
    ensures var (after, v) := ChargeRates(rates, client, p, now);
            && v.retryAt.Some? && now <= v.retryAt.value <= now + MAX_DURATION
            && var t, holds := v.retryAt.value, Holding(after, client, kind, p, later);
            && (later < t ==> holds < 1.0) && (later > t && t < now + MAX_DURATION ==> holds >= 1.0)
  {
    ExhaustedBucket(rates, client, p, now, kind);
    var after := ChargeRates(rates, client, p, now).0;
    hide ChargeRates;
    BucketFills(after, client, kind, p, later);
    AdmissionTokens.RetryIsInTime(after[(client, kind)].balance, Size(p, kind), now, later);
    hide AdmissionTokens.Filled;
    hide Holding;
    hide RetryAt;
  }

  // 7. How long a record is kept

  /** A day from its end, or from its beginning if that is told to be later. */
  predicate KeptFor(row: OperationRow, now: Time) {
    row.retainUntil == Some((if row.request.startedAt > now then row.request.startedAt else now) + RETENTION)
  }

  /** The cleanup takes out the record: it was asked to, its time is over and no lease is left. */
  predicate TakenOut(t: Tables, e: Event, id: Id)
    requires id in t.operations
  {
    && e.op.CleanupReceiptsOp? && id in e.op.ids && id !in t.leases
    && t.operations[id].retainUntil.Some? && t.operations[id].retainUntil.value <= e.now
  }

  lemma AcquireKeeps(t: Tables, c: Config, r: Request, now: Time, id: Id)
    requires id in t.operations
    ensures var u := AcquireTx(t, c, r, now).0;
            && id in u.operations && u.operations[id].request == t.operations[id].request
            && (u.operations[id].retainUntil == t.operations[id].retainUntil || KeptFor(u.operations[id], now))
  {
    if r.leaseId !in t.operations {
      FileRecords(t, c, r, now);
      hide File;
    }
    hide Live;
  }

  /** A record stays until a cleanup takes it out after its time, and is given its time when its operation
  ends. */
  lemma RecordsAreKept(t: Tables, e: Event, id: Id)
    requires id in t.operations
    ensures var u := Step(t, e).0;
            && (id in u.operations <==> !TakenOut(t, e, id))
            && (id in u.operations ==>
                  && u.operations[id].request == t.operations[id].request
                  && (u.operations[id].retainUntil == t.operations[id].retainUntil || KeptFor(u.operations[id], e.now)))
  {
    match e.op
    case AcquireOp(r) =>
      AcquireKeeps(t, e.c, r, e.now, id);
      hide AcquireTx;
    case RenewOp(wants) => hide Longest;
    case CompleteOp(item) => hide ChargeTokens; hide Live;
    case CleanupExpiredOp(ids) =>
    case CleanupReceiptsOp(ids) =>
  }

  // 8. No operation is left hanging

  /** An operation on record was refused, is completed, is marked expired, or has its lease. */
  ghost predicate Accounted(t: Tables) {
    forall id :: id in t.operations ==>
      || t.operations[id].verdict.Denied? || t.operations[id].completion.Some? || t.operations[id].expiredAt.Some?
      || id in t.leases
  }

  lemma FileAccounted(t: Tables, c: Config, r: Request, now: Time)
    requires Accounted(t)
    ensures Accounted(File(t, c, r, now).0)
  {
    hide Decide;
    hide Live;
  }

  lemma StepAccounted(t: Tables, e: Event)
    requires Accounted(t)
    ensures Accounted(Step(t, e).0)
  {
    match e.op
    case AcquireOp(r) =>
      FileAccounted(t, e.c, r, e.now);
      hide File;
      hide Live;
    case RenewOp(wants) => hide Longest; hide Live;
    case CompleteOp(item) => hide ChargeTokens; hide Live;
    case CleanupExpiredOp(ids) =>
    case CleanupReceiptsOp(ids) =>
  }

  lemma {:induction false} RunAccounted(run: seq<Event>)
    ensures Accounted(After(run))
    decreases |run|
  {
    if run == [] {
    } else {
      RunAccounted(run[..|run| - 1]);
      LastIsStep(run);
      hide Step;
      hide After;
      hide Accounted;
      StepAccounted(After(run[..|run| - 1]), run[|run| - 1]);
    }
  }

  /** After any run a record either has its lease or the time it is kept until: a cleanup of the leases and
  one of the records take out everything that is over. */
  lemma NothingHangs(run: seq<Event>, id: Id)
    requires id in After(run).operations
    ensures id in After(run).leases || After(run).operations[id].retainUntil.Some?
  {
    RunAccounted(run);
    RunBacked(run);
    hide After;
  }

  /** An operation is marked with the first time it was found expired. */
  lemma FirstMarkStays(t: Tables, e: Event, id: Id)
    requires id in t.operations && id in Step(t, e).0.operations
    ensures var before, mark := t.operations[id].expiredAt, Step(t, e).0.operations[id].expiredAt;
            if before.Some? then mark == before else mark.None? || mark == Some(e.now)
  {
    match e.op
    case AcquireOp(r) =>
      if r.leaseId !in t.operations {
        FileRecords(t, e.c, r, e.now);
        hide File;
      }
      hide Live;
    case RenewOp(wants) => hide Longest; hide Live;
    case CompleteOp(item) => hide ChargeTokens; hide Live;
    case CleanupExpiredOp(ids) =>
    case CleanupReceiptsOp(ids) =>
  }
}
