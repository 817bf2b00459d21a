/** The circuit coordinator over whole runs: who is heard, how often, and by which breaker. */
module CircuitProperties {
  import opened ExpiryQueue
  import opened CircuitBreaker
  import opened CircuitBook
  import opened Counting
  import opened CircuitRuns

  datatype Op =
    | AcquireOp(r: Request, victim: Option<Id>)
    | CompleteOp(c: Completion)
    | RenewOp(probes: seq<Permit>)
    | ReconcileOp(values: seq<Backend>)
    | SnapshotOp(backend: int)
    | StatusOp

  datatype Event = Event(op: Op, now: Time)

  datatype Setup = Setup(o: Options, capacity: nat)

  /** Only a new attempt needs room, and what it evicts is what the coordinator would evict. */
  ghost predicate Lawful(b: Book, u: Setup, e: Event) {
    e.op.AcquireOp? && e.op.r.attemptId !in Expire(b, u.o, e.now).attempts ==>
      Victim(Expire(b, u.o, e.now), u.capacity, e.op.victim)
  }

  ghost function Step(b: Book, u: Setup, e: Event): Book {
    match e.op
    case AcquireOp(r, victim) => AcquireAttempt(b, u.o, r, e.now, u.capacity, victim).0
    case CompleteOp(c) => CompleteAttempt(b, u.o, c, e.now).0
    case RenewOp(probes) => RenewAll(Expire(b, u.o, e.now), probes, e.now).0
    case ReconcileOp(values) => ReconcileAll(b, u.o, values, e.now).0
    case SnapshotOp(id) => Observed(Expire(b, u.o, e.now), u.o, id, e.now)
    case StatusOp => Expire(b, u.o, e.now)
  }

  ghost function After(b: Book, u: Setup, run: seq<Event>): Book {
    if run == [] then b else Step(After(b, u, run[..|run| - 1]), u, run[|run| - 1])
  }

  ghost predicate LawfulRun(b: Book, u: Setup, run: seq<Event>) {
    forall i :: 0 <= i < |run| ==> Lawful(After(b, u, run[..i]), u, run[i])
  }

  lemma StepKeepsInv(b: Book, u: Setup, e: Event)
    requires Inv(b, u.o) && Lawful(b, u, e)
    ensures Inv(Step(b, u, e), u.o)
  {
    hide Inv;
    hide Expire;
    hide AcquireAttempt;
    hide CompleteAttempt;
    hide ReconcileAll;
    hide RenewAll;
    hide Observed;
    ExpireKeepsInv(b, u.o, e.now);
    match e.op
    case AcquireOp(r, victim) => AcquireKeepsInv(b, u.o, r, e.now, u.capacity, victim);
    case CompleteOp(c) => CompleteKeepsInv(b, u.o, c, e.now);
    case RenewOp(probes) => RenewKeepsInv(Expire(b, u.o, e.now), u.o, probes, e.now);
    case ReconcileOp(values) => ReconcileKeepsInv(b, u.o, values, e.now);
    case SnapshotOp(id) => ObserveKeepsInv(Expire(b, u.o, e.now), u.o, id, e.now);
    case StatusOp =>
  }

  lemma {:induction false} RunKeepsInv(b: Book, u: Setup, run: seq<Event>)
    requires Inv(b, u.o) && LawfulRun(b, u, run)
    ensures Inv(After(b, u, run), u.o)
    decreases |run|
  {
    hide Inv;
    hide Step;
    hide Lawful;
    if run != [] {
      var init := run[..|run| - 1];
      assert forall i :: 0 <= i < |init| ==> init[..i] == run[..i];
      assert LawfulRun(b, u, init);
      RunKeepsInv(b, u, init);
      StepKeepsInv(After(b, u, init), u, run[|run| - 1]);
    }
  }

  lemma EmptyInv(o: Options)
    requires ValidOptions(o)
    ensures Inv(Empty, o)
  {
  }

  /** Whatever happened, no backend has more open probes of the present generation than it may have,
  and the breaker's count of them is exact. */
  lemma ProbesAreBounded(u: Setup, run: seq<Event>, k: int)
    requires ValidOptions(u.o) && LawfulRun(Empty, u, run) && k in After(Empty, u, run).circuits
    ensures var b := After(Empty, u, run);
            var s := b.circuits[k].serial;
            s in b.machines && |Live(b, s)| == b.machines[s].probes <= u.o.maxProbes
  {
    EmptyInv(u.o);
    RunKeepsInv(Empty, u, run);
    hide After;
    assert Probing(After(Empty, u, run), u.o, k);
  }

  lemma LapsedProbeReopens(b: Book, o: Options, k: int, id: Id, now: Time)
    requires Inv(b, o) && k in b.circuits && id in Live(b, b.circuits[k].serial)
    ensures b.attempts[id].permit.Some? && b.attempts[id].request.backend == b.circuits[k].identity
    ensures b.attempts[id].permit.value.expiresAt <= now ==>
              var s := b.circuits[k].serial;
              s in Expire(b, o, now).machines && Expire(b, o, now).machines[s].state == Open
  {
    assert Filed(b, id) && Current(b, id);
    var s := b.circuits[k].serial;
    if b.attempts[id].permit.value.expiresAt <= now {
      assert b.attempts[id].permit.value.expiresAt in Lapses(b, s, now);
      hide Lapses;
    }
  }

  /** A half-open circuit either lets the next caller probe, or an open attempt still holds a permit
  on this very circuit; once such a permit runs out the next call of any kind reopens the circuit. */
  lemma HalfOpenMovesOn(u: Setup, run: seq<Event>, k: int, now: Time)
    requires ValidOptions(u.o) && LawfulRun(Empty, u, run) && k in After(Empty, u, run).circuits
    requires var b := After(Empty, u, run);
             b.circuits[k].serial in b.machines && b.machines[b.circuits[k].serial].state == HalfOpen
    ensures var b := After(Empty, u, run);
            var s := b.circuits[k].serial;
            var m := b.machines[s];
            && (Acquire(m, u.o, now).1 == Some(Probe(m)) || exists id :: id in Live(b, s))
            && (forall id :: id in Live(b, s) ==>
                  && b.attempts[id].permit.Some? && b.attempts[id].request.backend == b.circuits[k].identity
                  && (b.attempts[id].permit.value.expiresAt <= now ==>
                        s in Expire(b, u.o, now).machines && Expire(b, u.o, now).machines[s].state == Open))
  {
    EmptyInv(u.o);
    RunKeepsInv(Empty, u, run);
    var b := After(Empty, u, run);
    hide After;
    hide Expire;
    assert Probing(b, u.o, k);
    if Live(b, b.circuits[k].serial) != {} {
      var some := Element(Live(b, b.circuits[k].serial));
    }
    forall id | id in Live(b, b.circuits[k].serial)
      ensures b.attempts[id].permit.Some? && b.attempts[id].request.backend == b.circuits[k].identity
      ensures b.attempts[id].permit.value.expiresAt <= now ==>
                var s := b.circuits[k].serial;
                s in Expire(b, u.o, now).machines && Expire(b, u.o, now).machines[s].state == Open
    {
      LapsedProbeReopens(b, u.o, k, id, now);
    }
    hide Inv;
    hide Live;
  }

  // Outcomes reach only the breaker they belong to

  /** A completion of an attempt that is over changes no breaker beyond what looking at it does. */
  lemma LateOutcomesAreIgnored(b: Book, o: Options, c: Completion, now: Time)
    requires var live := Expire(b, o, now);
             c.attemptId !in live.attempts || live.attempts[c.attemptId].retainUntil.Some?
    ensures CompleteAttempt(b, o, c, now).0.machines == Observed(Expire(b, o, now), o, c.backend.id, now).machines
  {
    hide Expire;
    hide Observe;
  }

  /** A completion moves a breaker only if its attempt is still open, was acquired from that breaker
  in the generation reported, and that breaker serves the reported backend now. */
  lemma OutcomesReachOwnBreaker(b: Book, o: Options, c: Completion, now: Time, s: nat)
    requires Inv(b, o) && s in b.machines && Judged(b, o, c, now).0.machines[s] != b.machines[s]
    ensures var id := c.attemptId;
            && id in b.attempts && b.attempts[id].retainUntil.None? && b.attempts[id].completion.None?
            && b.attempts[id].request.backend == c.backend && b.attempts[id].ticket.generation == c.generation
            && b.attempts[id].serial == s && c.backend.id in b.circuits && b.circuits[c.backend.id] == Circuit(c.backend, s)
  {
    hide Complete;
    hide Counted;
    hide Wired;
    if c.attemptId in b.attempts {
      assert Filed(b, c.attemptId) && Current(b, c.attemptId);
    }
  }

  lemma PrefixLawful(b: Book, u: Setup, run: seq<Event>, i: nat)
    requires LawfulRun(b, u, run) && i <= |run|
    ensures LawfulRun(b, u, run[..i])
  {
    hide Lawful;
    hide After;
    assert forall k :: 0 <= k < i ==> run[..i][..k] == run[..k];
  }

  /** Attempt `id` on record was made through breaker `s`, and what was on record before was not. */
  predicate MadeSince(before: Book, b: Book, id: Id, s: nat) {
    id in b.attempts && b.attempts[id].serial == s && (id in before.attempts ==> before.attempts[id].serial != s)
  }

  /** The attempt's permit on breaker `s` runs out by `now`. */
  predicate RunsOut(b: Book, id: Id, s: nat, now: Time) {
    id in b.attempts && b.attempts[id].serial == s && Due(b.attempts[id], now)
  }

  /** What moves the breaker when permits run out is a permit on that breaker. */
  lemma LapsesAreOwn(b: Book, o: Options, now: Time, s: nat) returns (id: Id)
    requires s in b.machines && Expire(b, o, now).machines[s] != b.machines[s]
    ensures id in b.attempts && b.attempts[id].serial == s && Due(b.attempts[id], now)
  {
    hide Complete;
    var at := Element(Lapses(b, s, now));
    id :| id in b.attempts && Due(b.attempts[id], now) && b.attempts[id].serial == s
       && b.attempts[id].ticket == Probe(b.machines[s]) && b.attempts[id].permit.value.expiresAt == at;
  }

  ghost predicate Untried(b: Book, s: nat) {
    forall id :: id in b.attempts ==> b.attempts[id].serial != s
  }

  lemma NotYetInstalled(b: Book, o: Options, s: nat)
    requires Inv(b, o) && s !in b.machines
    ensures Untried(b, s)
  {
    forall id | id in b.attempts
      ensures b.attempts[id].serial != s
    {
      assert Filed(b, id);
    }
  }

  lemma ReportsOfNewAttempts(before: Book, b: Book, o: Options, c: Completion, now: Time, s: nat)
    requires Inv(b, o) && s in b.machines && Untried(before, s)
    ensures Judged(b, o, c, now).0.machines[s] != b.machines[s] ==> MadeSince(before, b, c.attemptId, s)
  {
    hide Inv;
    if Judged(b, o, c, now).0.machines[s] != b.machines[s] {
      OutcomesReachOwnBreaker(b, o, c, now, s);
    }
    hide Judged;
  }

  lemma LapsesOfNewAttempts(before: Book, b: Book, o: Options, now: Time, s: nat)
    requires s in b.machines && Untried(before, s)
    ensures forall id :: RunsOut(b, id, s, now) ==> MadeSince(before, b, id, s)
    ensures Expire(b, o, now).machines[s] != b.machines[s] ==> exists id :: RunsOut(b, id, s, now)
  {
    if Expire(b, o, now).machines[s] != b.machines[s] {
      var id := LapsesAreOwn(b, o, now, s);
      assert RunsOut(b, id, s, now);
    }
  }

  /** Over every run: a breaker installed after some moment is never moved by an attempt made before it,
  be it reported or run out, although generations start again with every breaker. */
  lemma OldAttemptsNeverReachNewBreakers(u: Setup, run: seq<Event>, i: nat, s: nat, c: Completion, now: Time)
    requires ValidOptions(u.o) && LawfulRun(Empty, u, run) && i <= |run|
    requires s in After(Empty, u, run).machines && s !in After(Empty, u, run[..i]).machines
    ensures var before, b := After(Empty, u, run[..i]), After(Empty, u, run);
            var live := Expire(b, u.o, now);
            && s in live.machines
            && (live.machines[s] != b.machines[s] ==> exists id :: RunsOut(b, id, s, now))
            && (forall id :: RunsOut(b, id, s, now) ==> MadeSince(before, b, id, s))
            && (Judged(live, u.o, c, now).0.machines[s] != live.machines[s] ==> MadeSince(before, live, c.attemptId, s))
  {
    hide After;
    hide Inv;
    hide MadeSince;
    hide RunsOut;
    hide Judged;
    hide Untried;
    EmptyInv(u.o);
    PrefixLawful(Empty, u, run, i);
    RunKeepsInv(Empty, u, run);
    RunKeepsInv(Empty, u, run[..i]);
    var before, b := After(Empty, u, run[..i]), After(Empty, u, run);
    NotYetInstalled(before, u.o, s);
    LapsesOfNewAttempts(before, b, u.o, now, s);
    ExpireKeepsInv(b, u.o, now);
    ReportsOfNewAttempts(before, Expire(b, u.o, now), u.o, c, now, s);
  }

  /** When a backend's identity changes, the breaker that replaces the old one is new, and no attempt
  made before will be heard by anybody. */
  lemma ReplacementStartsAfresh(b: Book, o: Options, value: Backend, now: Time, id: Id)
    requires Inv(b, o) && value.enabled && !value.draining
    requires !(value.id in b.circuits && b.circuits[value.id].identity == value)
    requires id in b.attempts && b.attempts[id].request.backend.id == value.id
    ensures var c := ReconcileOne(b, value, now);
            && value.id in c.circuits && c.circuits[value.id].identity == value
            && c.circuits[value.id].serial in c.machines && c.machines[c.circuits[value.id].serial] == Fresh
            && c.circuits[value.id].serial !in b.machines
            && id in c.attempts && c.attempts[id].retainUntil.Some? && c.attempts[id].serial != c.circuits[value.id].serial
  {
    assert Filed(b, id);
  }

  // Reconciliation as a whole

  lemma {:induction false} LeadingDistinct(values: seq<Backend>)
    ensures Leading(values) == |values| <==> forall i, j :: 0 <= i < j < |values| ==> values[i].id != values[j].id
    decreases |values|
  {
    if values != [] {
      var init, last := values[..|values| - 1], values[|values| - 1];
      LeadingDistinct(init);
      if Leading(values) == |values| {
        forall i, j | 0 <= i < j < |values|
          ensures values[i].id != values[j].id
        {
          if j < |init| {
            assert init[i].id != init[j].id;
          } else {
            assert init[i] in init && init[i].id in Ids(init);
          }
        }
      } else if Leading(init) == |init| {
        var v :| v in init && v.id == last.id;
        var i :| 0 <= i < |init| && init[i] == v;
        assert values[i].id == values[|values| - 1].id;
      } else {
        var i, j :| 0 <= i < j < |init| && init[i].id == init[j].id;
        assert values[i].id == values[j].id;
      }
    }
  }

  predicate Wanted(v: Backend) {
    v.enabled && !v.draining
  }

  /** What reconciling these distinct values does to backend `k`. */
  ghost predicate Outcome(b: Book, c: Book, v: Backend) {
    if !Wanted(v) then v.id !in c.circuits
    else
      && v.id in c.circuits && c.circuits[v.id].identity == v && c.circuits[v.id].serial in c.machines
      && (if v.id in b.circuits && b.circuits[v.id].identity == v
          then c.circuits[v.id] == b.circuits[v.id] && b.circuits[v.id].serial in b.machines
               && c.machines[c.circuits[v.id].serial] == b.machines[b.circuits[v.id].serial]
          else c.circuits[v.id].serial !in b.machines && c.machines[c.circuits[v.id].serial] == Fresh)
  }

  ghost predicate Grown(b: Book, c: Book) {
    && b.next <= c.next
    && (forall s :: s in b.machines ==> s in c.machines && c.machines[s] == b.machines[s])
    && (forall s :: s in c.machines && s !in b.machines ==> s >= b.next)
  }

  lemma OneOutcome(b: Book, mid: Book, o: Options, v: Backend, now: Time)
    requires Inv(mid, o) && Wired(b) && Grown(b, mid)
    requires v.id in mid.circuits <==> v.id in b.circuits
    requires v.id in b.circuits ==> mid.circuits[v.id] == b.circuits[v.id]
    ensures Grown(b, ReconcileOne(mid, v, now)) && Outcome(b, ReconcileOne(mid, v, now), v)
  {
    hide Invalidated;
    hide Kept;
    hide Counted;
  }

  lemma OtherBackend(b: Book, o: Options, v: Backend, now: Time, k: int)
    requires Inv(b, o) && k != v.id
    ensures var c := ReconcileOne(b, v, now);
            && (k in c.circuits <==> k in b.circuits) && (k in b.circuits ==> c.circuits[k] == b.circuits[k])
            && Grown(b, c)
  {
    hide Invalidated;
    hide Kept;
    hide Counted;
  }

  /** After reconciling distinct values each of them has its outcome and the other backends are as before. */
  lemma {:induction false} ReconciledOutcome(b: Book, o: Options, values: seq<Backend>, now: Time)
    requires Inv(b, o) && forall i, j :: 0 <= i < j < |values| ==> values[i].id != values[j].id
    ensures var c := Reconciled(b, values, now);
            && Grown(b, c)
            && (forall i :: 0 <= i < |values| ==> Outcome(b, c, values[i]))
            && (forall k :: k !in Ids(values) ==>
                  (k in c.circuits <==> k in b.circuits) && (k in b.circuits ==> c.circuits[k] == b.circuits[k]))
    decreases |values|
  {
    hide ReconcileOne;
    if values != [] {
      var init, v := values[..|values| - 1], values[|values| - 1];
      ReconciledOutcome(b, o, init, now);
      ReconciledKeepsInv(b, o, init, now);
      var mid := Reconciled(b, init, now);
      var c := Reconciled(b, values, now);
      NotListed(init, v.id);
      OneOutcome(b, mid, o, v, now);
      forall i | 0 <= i < |init|
        ensures Outcome(b, c, values[i])
      {
        assert values[i] == init[i];
        assert Outcome(b, mid, init[i]);
        OtherBackend(mid, o, v, now, values[i].id);
      }
      forall k | k !in Ids(values)
        ensures (k in c.circuits <==> k in b.circuits) && (k in b.circuits ==> c.circuits[k] == b.circuits[k])
      {
        IdsPrefix(values, k);
        OtherBackend(mid, o, v, now, k);
      }
      hide Outcome;
      hide Inv;
      hide Reconciled;
      hide Grown;
    }
  }

  lemma NotListed(values: seq<Backend>, k: int)
    requires forall i :: 0 <= i < |values| ==> values[i].id != k
    ensures k !in Ids(values)
  {
    forall v | v in values
      ensures v.id != k
    {
      var i :| 0 <= i < |values| && values[i] == v;
    }
  }

  lemma IdsPrefix(values: seq<Backend>, k: int)
    requires values != [] && k !in Ids(values)
    ensures k !in Ids(values[..|values| - 1]) && k != values[|values| - 1].id
  {
    var v := values[|values| - 1];
    assert v in values && v.id in Ids(values);
    forall w | w in values[..|values| - 1]
      ensures w.id != k
    {
      assert w in values && w.id in Ids(values);
    }
  }

  lemma RetireKeepsOutcome(b: Book, r: Book, ids: set<int>, v: Backend, now: Time)
    requires Outcome(b, r, v) && v.id !in ids
    ensures Outcome(b, Retire(r, ids, now), v)
  {
    hide Invalidated;
  }

  lemma RetireKeepsListed(r: Book, listed: set<int>, k: int, now: Time)
    requires k in Retire(r, r.circuits.Keys - listed, now).circuits
    ensures k in listed
  {
    hide Invalidated;
  }

  /** A successful reconciliation leaves exactly the enabled, non-draining backends of the list in
  service: an unchanged one keeps its breaker and all it remembers, any other gets a new one. */
  lemma ReconcileIsExact(b: Book, o: Options, values: seq<Backend>, now: Time)
    requires Inv(b, o) && ReconcileAll(b, o, values, now).1
    ensures var live, c := Expire(b, o, now), ReconcileAll(b, o, values, now).0;
            && (forall i :: 0 <= i < |values| ==> Outcome(live, c, values[i]))
            && (forall k :: k in c.circuits ==> c.circuits[k].identity in values)
  {
    ExpireKeepsInv(b, o, now);
    var live := Expire(b, o, now);
    hide Expire;
    LeadingDistinct(values);
    assert values[..Leading(values)] == values;
    ReconciledOutcome(live, o, values, now);
    ReconciledKeepsInv(live, o, values, now);
    var r := Reconciled(live, values, now);
    hide Reconciled;
    hide Inv;
    hide Retire;
    var unlisted := r.circuits.Keys - Ids(values);
    var c := Retire(r, unlisted, now);
    forall i | 0 <= i < |values|
      ensures Outcome(live, c, values[i])
    {
      assert Outcome(live, r, values[i]);
      Listed(values, i);
      RetireKeepsOutcome(live, r, unlisted, values[i], now);
    }
    forall k | k in c.circuits
      ensures c.circuits[k].identity in values
    {
      RetireKeepsListed(r, Ids(values), k, now);
      var v :| v in values && v.id == k;
      var i :| 0 <= i < |values| && values[i] == v;
      OutcomeServes(live, c, values[i]);
    }
    hide Outcome;
    hide Leading;
  }

  lemma Listed(values: seq<Backend>, i: nat)
    requires i < |values|
    ensures values[i] in values && values[i].id in Ids(values)
  {
  }

  lemma OutcomeServes(b: Book, c: Book, v: Backend)
    requires Outcome(b, c, v) && v.id in c.circuits
    ensures c.circuits[v.id].identity == v
  {
  }

  /** It fails exactly when a backend is listed twice. */
  lemma ReconcileFailsOnDuplicates(b: Book, o: Options, values: seq<Backend>, now: Time)
    ensures ReconcileAll(b, o, values, now).1 <==> forall i, j :: 0 <= i < j < |values| ==> values[i].id != values[j].id
  {
    LeadingDistinct(values);
  }
}
