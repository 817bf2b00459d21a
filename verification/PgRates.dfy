/** What the shared rate table allows: one request is taken for an admission, the reported tokens for a
completion, and nothing else, however many replicas share the table. */
module PgRates {
  import opened ExpiryQueue
  import opened Admission
  import opened PgAdmission

  function Capacity(p: ClientRow, kind: RateKind): int {
    if kind == RPM then p.rpm else p.tpm
  }

  /** What the bucket holds at `now`, refilled and capped; a bucket without a row is full. */
  function Level(rates: RateRows, client: int, kind: RateKind, p: ClientRow, now: Time): real {
    NormalizeRate(rates, client, kind, p.revision, Capacity(p, kind), now).balance
  }

  /** A row of the present policy is not over-full, not dated in the future, and requests are not overdrawn. */
  predicate Sane(rates: RateRows, client: int, kind: RateKind, p: ClientRow, now: Time) {
    (client, kind) in rates && rates[(client, kind)].revision == p.revision ==>
      && rates[(client, kind)].balance <= Capacity(p, kind) as real && rates[(client, kind)].at <= now
      && (kind == RPM ==> 0.0 <= rates[(client, kind)].balance)
  }

  lemma RefillAdds(a: int, b: int, capacity: int)
    requires a >= 0 && b >= 0 && capacity >= 0
    ensures Refill(a + b, capacity) == Refill(a, capacity) + Refill(b, capacity)
    ensures Refill(a, capacity) >= 0.0 && Refill(b, capacity) >= 0.0
  {
  }

  lemma LevelLater(rates: RateRows, client: int, kind: RateKind, p: ClientRow, before: Time, now: Time)
    requires Capacity(p, kind) > 0 && Sane(rates, client, kind, p, before) && before <= now
    ensures Sane(rates, client, kind, p, now)
    ensures Level(rates, client, kind, p, now) <= Level(rates, client, kind, p, before) + Refill(now - before, Capacity(p, kind))
    ensures Level(rates, client, kind, p, now) <= Capacity(p, kind) as real
    ensures kind == RPM ==> 0.0 <= Level(rates, client, kind, p, now)
  {
    var key, capacity := (client, kind), Capacity(p, kind);
    RefillAdds(0, now - before, capacity);
    if key in rates && rates[key].revision == p.revision {
      var at := rates[key].at;
      RefillAdds(before - at, now - before, capacity);
      assert (before - at) + (now - before) == now - at;
      hide Refill;
    }
  }

  /** Only the bucket's own row matters. */
  lemma OtherRows(a: RateRows, b: RateRows, client: int, kind: RateKind, p: ClientRow, now: Time)
    requires (client, kind) in a <==> (client, kind) in b
    requires (client, kind) in a ==> a[(client, kind)] == b[(client, kind)]
    ensures Level(a, client, kind, p, now) == Level(b, client, kind, p, now)
    ensures Sane(a, client, kind, p, now) <==> Sane(b, client, kind, p, now)
  {
  }

  /** Seeding with the client's own policy adds nothing to a bucket. */
  lemma SeedIsFull(rates: RateRows, client: int, kind: RateKind, p: ClientRow, now: Time)
    requires Capacity(p, kind) > 0 && 0 <= now && Sane(rates, client, kind, p, now)
    ensures var seeded := SeedOne(rates, client, kind, p.revision, Capacity(p, kind));
            Level(seeded, client, kind, p, now) == Level(rates, client, kind, p, now) && Sane(seeded, client, kind, p, now)
  {
    RefillAdds(0, now, Capacity(p, kind));
  }

  /** Writing back what was computed leaves the bucket at that level. */
  lemma StoredLevel(rates: RateRows, client: int, kind: RateKind, p: ClientRow, now: Time, balance: real)
    requires balance <= Capacity(p, kind) as real && (kind == RPM ==> 0.0 <= balance)
    ensures var stored := Stored(rates, client, kind, RateRow(p.revision, balance, now));
            Level(stored, client, kind, p, now) == balance && Sane(stored, client, kind, p, now)
  {
  }

  lemma SeedLevel(rates: RateRows, c: Config, seeds: int, client: int, kind: RateKind, p: ClientRow, now: Time)
    requires client in c.clients && c.clients[client] == p
    requires Capacity(p, kind) > 0 && 0 <= now && Sane(rates, client, kind, p, now)
    ensures var seeded := Seed(rates, c, seeds);
            Level(seeded, client, kind, p, now) == Level(rates, client, kind, p, now) && Sane(seeded, client, kind, p, now)
  {
    if seeds == client {
      var first := SeedOne(rates, client, RPM, p.revision, p.rpm);
      var both := SeedOne(first, client, TPM, p.revision, p.tpm);
      if kind == RPM {
        SeedIsFull(rates, client, RPM, p, now);
        OtherRows(first, both, client, kind, p, now);
      } else {
        OtherRows(rates, first, client, kind, p, now);
        SeedIsFull(first, client, TPM, p, now);
      }
    } else {
      OtherRows(rates, Seed(rates, c, seeds), client, kind, p, now);
    }
    hide Level;
    hide Sane;
  }

  lemma ChargeLevel(rates: RateRows, charged: int, client: int, kind: RateKind, q: ClientRow, p: ClientRow, now: Time)
    requires charged == client ==> q == p
    requires Capacity(p, kind) > 0 && Sane(rates, client, kind, p, now)
    ensures var (t, verdict) := ChargeRates(rates, charged, q, now);
            && Sane(t, client, kind, p, now)
            && Level(t, client, kind, p, now) == Level(rates, client, kind, p, now)
                 - if charged == client && kind == RPM && verdict.Granted? then 1.0 else 0.0
  {
    var (t, verdict) := ChargeRates(rates, charged, q, now);
    LevelLater(rates, client, kind, p, now, now);
    if charged != client {
      OtherRows(rates, t, client, kind, p, now);
    } else {
      var tpm := NormalizeRate(rates, client, TPM, p.revision, p.tpm, now);
      var tokens := if p.tpm > 0 then Stored(rates, client, TPM, tpm) else rates;
      if kind == TPM {
        StoredLevel(rates, client, TPM, p, now, tpm.balance);
        OtherRows(tokens, t, client, TPM, p, now);
      } else {
        OtherRows(rates, tokens, client, RPM, p, now);
        var level := Level(rates, client, RPM, p, now);
        StoredLevel(tokens, client, RPM, p, now, level);
        if level >= 1.0 {
          StoredLevel(tokens, client, RPM, p, now, level - 1.0);
        }
      }
      hide Level;
      hide Sane;
    }
  }

  lemma TokensLevel(rates: RateRows, c: Config, charged: int, usage: Option<Usage>, client: int, kind: RateKind, p: ClientRow, now: Time)
    requires client in c.clients && c.clients[client] == p
    requires Capacity(p, kind) > 0 && 0 <= now && Sane(rates, client, kind, p, now)
    ensures var t := ChargeTokens(rates, c, charged, usage, now);
            && Sane(t, client, kind, p, now)
            && Level(t, client, kind, p, now) == Level(rates, client, kind, p, now)
                 - if charged == client && kind == TPM then Tokens(usage) else 0.0
  {
    if usage.Some? && ValidUsage(usage.value) && charged in c.clients && c.clients[charged].tpm > 0 {
      if charged == client && kind == TPM {
        var seeded := SeedOne(rates, client, TPM, p.revision, p.tpm);
        SeedIsFull(rates, client, TPM, p, now);
        LevelLater(seeded, client, TPM, p, now, now);
        StoredLevel(seeded, client, TPM, p, now, Level(seeded, client, TPM, p, now) - Tokens(usage));
        hide SeedOne;
      } else {
        OtherRows(rates, ChargeTokens(rates, c, charged, usage, now), client, kind, p, now);
      }
      hide Sane;
    }
  }

  // Runs

  function Tokens(usage: Option<Usage>): real {
    if usage.Some? && ValidUsage(usage.value) then (usage.value.input + usage.value.output) as real else 0.0
  }

  /** What event `e` takes out of the client's bucket. */
  function Spent(t: Tables, e: Event, client: int, kind: RateKind): real {
    match e.op
    case AcquireOp(r) =>
      if kind == RPM && r.clientId == client && r.leaseId !in t.operations && AcquireTx(t, e.c, r, e.now).1.Admitted? then 1.0 else 0.0
    case CompleteOp(item) =>
      if kind == TPM && CompleteTx(t, e.c, item, e.now).1.Done? && t.operations[item.leaseId].request.clientId == client then
        Tokens(item.usage)
      else 0.0
    case _ => 0.0
  }

  lemma AcquireSpends(t: Tables, e: Event, client: int, kind: RateKind, p: ClientRow)
    requires e.op.AcquireOp? && client in e.c.clients && e.c.clients[client] == p
    requires Capacity(p, kind) > 0 && 0 <= e.now && Sane(t.rates, client, kind, p, e.now)
    ensures var s := Step(t, e).0;
            && Sane(s.rates, client, kind, p, e.now)
            && Level(s.rates, client, kind, p, e.now) == Level(t.rates, client, kind, p, e.now) - Spent(t, e, client, kind)
  {
    var r := e.op.r;
    hide Level;
    hide Sane;
    hide Limits;
    hide Seed;
    if r.leaseId !in t.operations {
      SeedLevel(t.rates, e.c, r.clientId, client, kind, p, e.now);
      if r.clientId in e.c.clients {
        ChargeLevel(Seed(t.rates, e.c, r.clientId), r.clientId, client, kind, e.c.clients[r.clientId], p, e.now);
      }
    }
    hide ChargeRates;
  }

  /** A transaction takes exactly what it should from each bucket of a client whose policy stands. */
  lemma StepSpends(t: Tables, e: Event, client: int, kind: RateKind, p: ClientRow)
    requires client in e.c.clients && e.c.clients[client] == p
    requires Capacity(p, kind) > 0 && 0 <= e.now && Sane(t.rates, client, kind, p, e.now)
    ensures var s := Step(t, e).0;
            && Sane(s.rates, client, kind, p, e.now)
            && Level(s.rates, client, kind, p, e.now) == Level(t.rates, client, kind, p, e.now) - Spent(t, e, client, kind)
  {
    hide Level;
    hide Sane;
    match e.op
    case AcquireOp(r) => AcquireSpends(t, e, client, kind, p);
    case CompleteOp(item) =>
      if item.leaseId in t.operations {
        TokensLevel(t.rates, e.c, t.operations[item.leaseId].request.clientId, item.usage, client, kind, p, e.now);
      }
      hide ChargeTokens;
    case _ =>
  }

  function Then(t: Tables, run: seq<Event>): Tables {
    if run == [] then t else Step(Then(t, run[..|run| - 1]), run[|run| - 1]).0
  }

  function SpentIn(t: Tables, run: seq<Event>, client: int, kind: RateKind): real {
    if run == [] then 0.0
    else
      var init, e := run[..|run| - 1], run[|run| - 1];
      SpentIn(t, init, client, kind) + Spent(Then(t, init), e, client, kind)
  }

  function End(run: seq<Event>, start: Time): Time {
    if run == [] then start else run[|run| - 1].now
  }

  /** Token buckets over all replicas: from any moment on, while a client's policy stands, what is taken
  out of a bucket is at most what was in it and what flowed back, and the rest is what it holds. So
  requests are admitted at most as often as the capacity and the refill allow. */
  lemma {:induction false} RateBound(t: Tables, run: seq<Event>, client: int, kind: RateKind, p: ClientRow, start: Time)
    requires Capacity(p, kind) > 0 && 0 <= start && Sane(t.rates, client, kind, p, start)
    requires Clocked(run) && (run != [] ==> start <= run[0].now)
    requires forall i :: 0 <= i < |run| ==> client in run[i].c.clients && run[i].c.clients[client] == p
    ensures var s, end := Then(t, run), End(run, start);
            && start <= end && Sane(s.rates, client, kind, p, end)
            && SpentIn(t, run, client, kind) + Level(s.rates, client, kind, p, end)
                 <= Level(t.rates, client, kind, p, start) + Refill(end - start, Capacity(p, kind))
            && (kind == RPM ==> SpentIn(t, run, client, kind) <= p.rpm as real + Refill(end - start, p.rpm))
    decreases |run|
  {
    hide Step;
    hide Spent;
    LevelLater(t.rates, client, kind, p, start, start);
    if run != [] {
      var init, e := run[..|run| - 1], run[|run| - 1];
      RateBound(t, init, client, kind, p, start);
      var s, mid := Then(t, init), End(init, start);
      LevelLater(s.rates, client, kind, p, mid, e.now);
      StepSpends(s, e, client, kind, p);
      LevelLater(Step(s, e).0.rates, client, kind, p, e.now, e.now);
      RefillAdds(mid - start, e.now - mid, Capacity(p, kind));
      assert (mid - start) + (e.now - mid) == e.now - start;
      hide Level;
      hide Sane;
      hide Refill;
    }
  }
}
