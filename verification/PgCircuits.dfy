/** The circuit tables shared by all replicas. A transaction locks what it touches, so it is one step
on the tables. `Reconcile` is the transaction for one backend, `Refresh` the bulk transaction that
serves many backends with four statements. */
module PgCircuits {
  import opened ExpiryQueue
  import opened CircuitBreaker
  import opened Counting
  import CircuitBook

  const RETENTION := 24 * 3_600_000_000_000

  datatype CircuitRow = CircuitRow(
    state: State, revision: int, generation: int, openedAt: Option<Time>, succeeded: bool, updatedAt: Time)

  datatype ProbeOutcome = Expired | Superseded | Reported(outcome: Outcome)

  datatype ProbeRow = ProbeRow(
    backend: int, revision: int, generation: int, startedAt: Time, expiresAt: Time,
    outcome: Option<ProbeOutcome>, processedAt: Option<Time>, retainUntil: Option<Time>,
    request: CircuitBook.Request, reportedAt: Option<Time>)

  datatype FailureRow = FailureRow(backend: int, revision: int, at: Time)

  type Probes = map<Id, ProbeRow>
  type Failures = map<Id, FailureRow>

  datatype Tables = Tables(circuits: map<int, CircuitRow>, probes: Probes, failures: Failures)

  function Later(a: Time, b: Time): Time {
    if a >= b then a else b
  }

  // What the statements select

  predicate Unresolved(p: ProbeRow, b: int, c: CircuitRow) {
    p.backend == b && p.revision == c.revision && p.generation == c.generation && p.outcome.None?
  }

  ghost function Overdue(probes: Probes, b: int, c: CircuitRow, now: Time): set<Id> {
    set p | p in probes && Unresolved(probes[p], b, c) && probes[p].expiresAt <= now
  }

  /** The order of the rows: by deadline, then by identifier. */
  predicate Before(probes: Probes, p: Id, q: Id)
    requires p in probes && q in probes
  {
    probes[p].expiresAt < probes[q].expiresAt || (probes[p].expiresAt == probes[q].expiresAt && p <= q)
  }

  ghost predicate First(probes: Probes, ids: set<Id>, p: Id)
    requires ids <= probes.Keys
  {
    p in ids && forall q :: q in ids ==> Before(probes, p, q)
  }

  lemma FirstExists(probes: Probes, ids: set<Id>) returns (p: Id)
    requires ids <= probes.Keys && ids != {}
    ensures First(probes, ids, p)
  {
    var some := Element(ids);
    var times := set q | q in ids :: probes[q].expiresAt;
    assert probes[some].expiresAt in times;
    var earliest := Least(times);
    var tied := set q | q in ids && probes[q].expiresAt == earliest;
    var found :| found in ids && probes[found].expiresAt == earliest;
    assert found in tied;
    p := Least(tied);
    forall q | q in ids
      ensures Before(probes, p, q)
    {
      assert probes[q].expiresAt in times;
      if probes[q].expiresAt == earliest {
        assert q in tied;
      }
    }
  }

  ghost function FirstOf(probes: Probes, ids: set<Id>): (p: Id)
    requires ids <= probes.Keys && ids != {}
    ensures First(probes, ids, p)
  {
    assert exists q :: First(probes, ids, q) by {
      var q := FirstExists(probes, ids);
      assert First(probes, ids, q);
    }
    var p :| First(probes, ids, p);
    p
  }

  ghost function Times(failures: Failures, b: int, revision: int): set<Time> {
    set f | f in failures && failures[f].backend == b && failures[f].revision == revision :: failures[f].at
  }

  /** The latest of the times, if there are any. */
  ghost function Newest(times: set<Time>): Option<Time> {
    if times == {} then None
    else
      var negated := set t | t in times :: -t;
      assert negated != {} by {
        var some := Element(times);
        assert -some in negated;
      }
      Some(-Least(negated))
  }

  // One backend

  function Resolved(p: ProbeRow, first: bool, now: Time): ProbeRow {
    p.(outcome := Some(if first then Expired else Superseded), processedAt := Some(now),
       retainUntil := Some(Later(now, p.startedAt) + RETENTION))
  }

  function ResolveProbes(probes: Probes, b: int, c: CircuitRow, first: Id, now: Time): Probes {
    map p | p in probes :: if Unresolved(probes[p], b, c) then Resolved(probes[p], p == first, now) else probes[p]
  }

  function InsertFailure(failures: Failures, id: Id, row: FailureRow): Failures {
    if id in failures then failures else failures[id := row]
  }

  predicate Stale(f: FailureRow, b: int, revision: int, latest: Time, window: int) {
    f.backend == b && f.revision == revision && f.at < latest - window
  }

  function PruneFailures(failures: Failures, b: int, revision: int, latest: Time, window: int): Failures {
    map f | f in failures && !Stale(failures[f], b, revision, latest, window) :: failures[f]
  }

  function Opened(c: CircuitRow, at: Option<Time>, now: Time): CircuitRow {
    c.(state := Open, generation := c.generation + 1, openedAt := at, succeeded := false, updatedAt := now)
  }

  function HalfOpened(c: CircuitRow, now: Time): CircuitRow {
    c.(state := HalfOpen, generation := c.generation + 1, openedAt := None, succeeded := false, updatedAt := now)
  }

  predicate CooledDown(c: CircuitRow, o: Options, now: Time) {
    c.state == Open && c.openedAt.Some? && c.openedAt.value + o.cooldown <= now
  }

  /** The oldest overdue probe becomes a failure, the others are superseded and the circuit opens. With
  no failure on record at the end the transaction fails and nothing changes. */
  ghost function Trip(d: Tables, o: Options, b: int, now: Time): Tables
    requires b in d.circuits && Overdue(d.probes, b, d.circuits[b], now) != {}
  {
    var c := d.circuits[b];
    var first := FirstOf(d.probes, Overdue(d.probes, b, c, now));
    var failures := InsertFailure(d.failures, first, FailureRow(b, c.revision, d.probes[first].expiresAt));
    match Newest(Times(failures, b, c.revision))
    case None => d
    case Some(latest) =>
      Tables(d.circuits[b := Opened(c, Some(latest), now)],
             ResolveProbes(d.probes, b, c, first, now),
             PruneFailures(failures, b, c.revision, latest, o.window))
  }

  predicate HasExpired(d: Tables, b: int, now: Time) {
    b in d.circuits && d.circuits[b].state == HalfOpen
    && exists p :: p in d.probes && Unresolved(d.probes[p], b, d.circuits[b]) && d.probes[p].expiresAt <= now
  }

  /** A backend without a circuit is an error that changes nothing. */
  ghost function Reconcile(d: Tables, o: Options, b: int, now: Time): Tables {
    if b !in d.circuits then d
    else if HasExpired(d, b, now) then
      assert Overdue(d.probes, b, d.circuits[b], now) != {} by { SomeOverdue(d, b, now); }
      Trip(d, o, b, now)
    else if CooledDown(d.circuits[b], o, now) then d.(circuits := d.circuits[b := HalfOpened(d.circuits[b], now)])
    else d
  }

  lemma SomeOverdue(d: Tables, b: int, now: Time)
    requires HasExpired(d, b, now)
    ensures Overdue(d.probes, b, d.circuits[b], now) != {}
  {
    var p :| p in d.probes && Unresolved(d.probes[p], b, d.circuits[b]) && d.probes[p].expiresAt <= now;
    assert p in Overdue(d.probes, b, d.circuits[b], now);
  }

  ghost function ReconcileEach(d: Tables, o: Options, ids: seq<int>, now: Time): Tables {
    if ids == [] then d else Reconcile(ReconcileEach(d, o, ids[..|ids| - 1], now), o, ids[|ids| - 1], now)
  }

  // All at once

  /** The rows of the expired-probe query: one per half-open backend with an overdue probe. */
  ghost function ExpiredRows(d: Tables, ids: set<int>, now: Time): map<int, Id> {
    map b | b in ids && HasExpired(d, b, now) ::
      assert Overdue(d.probes, b, d.circuits[b], now) != {} by { SomeOverdue(d, b, now); }
      FirstOf(d.probes, Overdue(d.probes, b, d.circuits[b], now))
  }

  ghost function ResolveAll(d: Tables, expired: map<int, Id>, now: Time): Probes {
    map p | p in d.probes ::
      var row := d.probes[p];
      if row.backend in expired && row.backend in d.circuits && Unresolved(row, row.backend, d.circuits[row.backend])
      then Resolved(row, p == expired[row.backend], now) else row
  }

  predicate IsExpired(d: Tables, expired: map<int, Id>, p: Id) {
    p in d.probes && d.probes[p].backend in expired && d.probes[p].backend in d.circuits && expired[d.probes[p].backend] == p
  }

  ghost function InsertAll(d: Tables, expired: map<int, Id>): Failures {
    map f | f in d.failures.Keys + d.probes.Keys && (f in d.failures || IsExpired(d, expired, f)) ::
      if f in d.failures then d.failures[f]
      else FailureRow(d.probes[f].backend, d.circuits[d.probes[f].backend].revision, d.probes[f].expiresAt)
  }

  /** Drops the failures outside the window of their backend and revision, whatever the revision. */
  ghost function PruneAll(failures: Failures, backends: set<int>, window: int): Failures {
    map f | f in failures
            && !(failures[f].backend in backends
                 && Outside(failures[f].at, Newest(Times(failures, failures[f].backend, failures[f].revision)), window)) ::
      failures[f]
  }

  predicate Outside(at: Time, latest: Option<Time>, window: int) {
    latest.Some? && at < latest.value - window
  }

  ghost function UpdateAll(
    d: Tables, o: Options, ids: set<int>, expired: set<int>, failures: Failures, now: Time): map<int, CircuitRow>
  {
    map b | b in d.circuits ::
      var c := d.circuits[b];
      if b in expired then Opened(c, Newest(Times(failures, b, c.revision)), now)
      else if b in ids && CooledDown(c, o, now) then HalfOpened(c, now)
      else c
  }

  ghost function Refresh(d: Tables, o: Options, ids: set<int>, now: Time): Tables {
    var expired := ExpiredRows(d, ids, now);
    var failures := PruneAll(InsertAll(d, expired), expired.Keys, o.window);
    Tables(UpdateAll(d, o, ids, expired.Keys, failures, now), ResolveAll(d, expired, now), failures)
  }

  // Every row belongs to one backend

  ghost predicate AgreeOn(x: Tables, y: Tables, b: int) {
    && (b in x.circuits <==> b in y.circuits) && (b in x.circuits ==> x.circuits[b] == y.circuits[b])
    && (forall p :: p in x.probes && x.probes[p].backend == b ==> p in y.probes && y.probes[p] == x.probes[p])
    && (forall p :: p in y.probes && y.probes[p].backend == b ==> p in x.probes && y.probes[p] == x.probes[p])
    && (forall f :: f in x.failures && x.failures[f].backend == b ==> f in y.failures && y.failures[f] == x.failures[f])
    && (forall f :: f in y.failures && y.failures[f].backend == b ==> f in x.failures && y.failures[f] == x.failures[f])
  }

  lemma AgreeEverywhere(x: Tables, y: Tables)
    requires forall b :: AgreeOn(x, y, b)
    ensures x == y
  {
    forall b
      ensures (b in x.circuits <==> b in y.circuits) && (b in x.circuits ==> x.circuits[b] == y.circuits[b])
    {
      assert AgreeOn(x, y, b);
    }
    forall p
      ensures (p in x.probes <==> p in y.probes) && (p in x.probes ==> x.probes[p] == y.probes[p])
    {
      if p in x.probes {
        assert AgreeOn(x, y, x.probes[p].backend);
      }
      if p in y.probes {
        assert AgreeOn(x, y, y.probes[p].backend);
      }
    }
    forall f
      ensures (f in x.failures <==> f in y.failures) && (f in x.failures ==> x.failures[f] == y.failures[f])
    {
      if f in x.failures {
        assert AgreeOn(x, y, x.failures[f].backend);
      }
      if f in y.failures {
        assert AgreeOn(x, y, y.failures[f].backend);
      }
    }
    assert x.circuits == y.circuits && x.probes == y.probes && x.failures == y.failures;
  }

  /** A failure recorded under a probe's identifier is that probe's own. */
  ghost predicate Unshared(d: Tables) {
    forall p :: p in d.probes && p in d.failures ==> d.failures[p].backend == d.probes[p].backend
  }

  /** Active failures carry the revision their circuit has now. */
  ghost predicate Current(d: Tables) {
    forall f :: f in d.failures && d.failures[f].backend in d.circuits ==>
      d.failures[f].revision == d.circuits[d.failures[f].backend].revision
  }

  // Reconciling one backend sees and changes only that backend's rows

  lemma FirstIsUnique(probes: Probes, ids: set<Id>, p: Id, q: Id)
    requires ids <= probes.Keys && First(probes, ids, p) && First(probes, ids, q)
    ensures p == q
  {
    assert Before(probes, p, q) && Before(probes, q, p);
  }

  lemma SameFirst(x: Tables, y: Tables, b: int, now: Time)
    requires AgreeOn(x, y, b) && b in x.circuits && HasExpired(x, b, now)
    ensures HasExpired(y, b, now)
    ensures var ids := Overdue(x.probes, b, x.circuits[b], now);
            && ids == Overdue(y.probes, b, y.circuits[b], now) != {}
            && FirstOf(x.probes, ids) == FirstOf(y.probes, ids)
  {
    SomeOverdue(x, b, now);
    var ids := Overdue(x.probes, b, x.circuits[b], now);
    forall p
      ensures p in ids <==> p in Overdue(y.probes, b, y.circuits[b], now)
    {
    }
    assert ids == Overdue(y.probes, b, y.circuits[b], now);
    var q := Element(ids);
    assert q in y.probes && Unresolved(y.probes[q], b, y.circuits[b]) && y.probes[q].expiresAt <= now;
    var p := FirstOf(x.probes, ids);
    assert First(y.probes, ids, p);
    FirstIsUnique(y.probes, ids, p, FirstOf(y.probes, ids));
  }

  lemma SameTimes(x: Failures, y: Failures, b: int, revision: int)
    requires forall f :: f in x && x[f].backend == b ==> f in y && y[f] == x[f]
    requires forall f :: f in y && y[f].backend == b ==> f in x && y[f] == x[f]
    ensures Times(x, b, revision) == Times(y, b, revision)
  {
    forall t
      ensures t in Times(x, b, revision) <==> t in Times(y, b, revision)
    {
      if t in Times(x, b, revision) {
        var f :| f in x && x[f].backend == b && x[f].revision == revision && x[f].at == t;
        assert f in y;
      }
      if t in Times(y, b, revision) {
        var f :| f in y && y[f].backend == b && y[f].revision == revision && y[f].at == t;
        assert f in x;
      }
    }
  }

  ghost predicate SameFailures(x: Failures, y: Failures, b: int) {
    && (forall f :: f in x && x[f].backend == b ==> f in y && y[f] == x[f])
    && (forall f :: f in y && y[f].backend == b ==> f in x && y[f] == x[f])
  }

  lemma SameInsert(x: Tables, y: Tables, b: int, p: Id, row: FailureRow)
    requires AgreeOn(x, y, b) && Unshared(x) && Unshared(y) && p in x.probes && x.probes[p].backend == b && row.backend == b
    ensures SameFailures(InsertFailure(x.failures, p, row), InsertFailure(y.failures, p, row), b)
  {
    assert p in y.probes && y.probes[p] == x.probes[p];
    assert p in x.failures <==> p in y.failures;
  }

  lemma SamePrune(x: Failures, y: Failures, b: int, revision: int, latest: Time, window: int)
    requires SameFailures(x, y, b)
    ensures SameFailures(PruneFailures(x, b, revision, latest, window), PruneFailures(y, b, revision, latest, window), b)
  {
  }

  lemma SameTrip(x: Tables, y: Tables, o: Options, b: int, now: Time)
    requires AgreeOn(x, y, b) && Unshared(x) && Unshared(y) && b in x.circuits && b in y.circuits
    requires Overdue(x.probes, b, x.circuits[b], now) != {} && Overdue(y.probes, b, y.circuits[b], now) != {}
    requires HasExpired(x, b, now)
    ensures AgreeOn(Trip(x, o, b, now), Trip(y, o, b, now), b)
  {
    SameFirst(x, y, b, now);
    var c := x.circuits[b];
    var first := FirstOf(x.probes, Overdue(x.probes, b, c, now));
    var row := FailureRow(b, c.revision, x.probes[first].expiresAt);
    hide Overdue;
    SameInsert(x, y, b, first, row);
    var fx, fy := InsertFailure(x.failures, first, row), InsertFailure(y.failures, first, row);
    hide InsertFailure;
    SameTimes(fx, fy, b, c.revision);
    hide Times;
    hide Newest;
    var latest := Newest(Times(fx, b, c.revision));
    if latest.Some? {
      SamePrune(fx, fy, b, c.revision, latest.value, o.window);
      hide PruneFailures;
    }
  }

  lemma SameReconcile(x: Tables, y: Tables, o: Options, b: int, now: Time)
    requires AgreeOn(x, y, b) && Unshared(x) && Unshared(y)
    ensures AgreeOn(Reconcile(x, o, b, now), Reconcile(y, o, b, now), b)
  {
    hide Trip;
    if HasExpired(x, b, now) {
      SameFirst(x, y, b, now);
      SameTrip(x, y, o, b, now);
    } else if HasExpired(y, b, now) {
      AgreeBack(x, y, b);
      SameFirst(y, x, b, now);
      assert false;
    }
    hide HasExpired;
  }

  lemma AgreeBack(x: Tables, y: Tables, b: int)
    requires AgreeOn(x, y, b)
    ensures AgreeOn(y, x, b)
  {
  }

  lemma AgreeThrough(x: Tables, y: Tables, z: Tables, b: int)
    requires AgreeOn(x, y, b) && AgreeOn(y, z, b)
    ensures AgreeOn(x, z, b)
  {
  }

  lemma OthersUntouched(d: Tables, o: Options, b: int, now: Time, k: int)
    requires k != b && Unshared(d)
    ensures AgreeOn(d, Reconcile(d, o, b, now), k)
  {
    hide Newest;
    hide Times;
    hide Overdue;
  }

  lemma ReconcileKeepsUnshared(d: Tables, o: Options, b: int, now: Time)
    requires Unshared(d)
    ensures Unshared(Reconcile(d, o, b, now))
  {
    hide Newest;
    hide Times;
  }

  /** Backend by backend: those in the list end as if reconciled alone, the others stay. */
  lemma {:induction false} EachIsLocal(d: Tables, o: Options, ids: seq<int>, now: Time, b: int)
    requires Unshared(d) && forall i, j :: 0 <= i < j < |ids| ==> ids[i] != ids[j]
    ensures Unshared(ReconcileEach(d, o, ids, now))
    ensures AgreeOn(if b in ids then Reconcile(d, o, b, now) else d, ReconcileEach(d, o, ids, now), b)
    decreases |ids|
  {
    hide Reconcile;
    hide AgreeOn;
    if ids == [] {
      AgreeSelf(d, b);
    } else {
      var init, k := ids[..|ids| - 1], ids[|ids| - 1];
      EachIsLocal(d, o, init, now, b);
      var x := ReconcileEach(d, o, init, now);
      hide Unshared;
      ReconcileKeepsUnshared(x, o, k, now);
      assert ids == init + [k];
      if k == b {
        assert b !in init;
        SameReconcile(d, x, o, b, now);
      } else {
        OthersUntouched(x, o, k, now, b);
        AgreeThrough(if b in ids then Reconcile(d, o, b, now) else d, x, Reconcile(x, o, k, now), b);
      }
    }
  }

  lemma AgreeSelf(d: Tables, b: int)
    ensures AgreeOn(d, d, b)
  {
  }

  // The bulk transaction, row by row

  ghost predicate Sound(d: Tables, o: Options) {
    ValidOptions(o) && Unshared(d) && Current(d)
  }

  lemma ExpiredMeaning(d: Tables, ids: set<int>, now: Time, b: int)
    requires b in ExpiredRows(d, ids, now)
    ensures HasExpired(d, b, now) && b in ids && Overdue(d.probes, b, d.circuits[b], now) != {}
    ensures var p := ExpiredRows(d, ids, now)[b];
            && p == FirstOf(d.probes, Overdue(d.probes, b, d.circuits[b], now))
            && p in d.probes && d.probes[p].backend == b && IsExpired(d, ExpiredRows(d, ids, now), p)
  {
    SomeOverdue(d, b, now);
  }

  lemma InsertedOwn(d: Tables, ids: set<int>, now: Time, b: int)
    requires Unshared(d) && b in ExpiredRows(d, ids, now)
    ensures b in d.circuits && ExpiredRows(d, ids, now)[b] in d.probes
    ensures var p := ExpiredRows(d, ids, now)[b];
            SameFailures(InsertFailure(d.failures, p, FailureRow(b, d.circuits[b].revision, d.probes[p].expiresAt)),
                         InsertAll(d, ExpiredRows(d, ids, now)), b)
  {
    ExpiredMeaning(d, ids, now, b);
    hide ExpiredRows;
    hide HasExpired;
  }

  lemma InsertedOther(d: Tables, ids: set<int>, now: Time, b: int)
    requires b !in ExpiredRows(d, ids, now)
    ensures SameFailures(d.failures, InsertAll(d, ExpiredRows(d, ids, now)), b)
  {
    hide ExpiredRows;
  }

  lemma NewestMeaning(times: set<Time>)
    ensures match Newest(times) case None => times == {} case Some(t) => t in times && forall u :: u in times ==> u <= t
  {
    if times != {} {
      var negated := set t | t in times :: -t;
      var some := Element(times);
      assert -some in negated;
      forall u | u in times
        ensures u <= -Least(negated)
      {
        assert -u in negated;
      }
    }
  }

  lemma NewestIs(times: set<Time>, t: Time)
    requires t in times && forall u :: u in times ==> u <= t
    ensures Newest(times) == Some(t)
  {
    NewestMeaning(times);
  }

  /** All failures of the backend carry one revision. */
  ghost predicate OneRevision(failures: Failures, b: int, revision: int) {
    forall f :: f in failures && failures[f].backend == b ==> failures[f].revision == revision
  }

  lemma InsertedRevision(d: Tables, ids: set<int>, now: Time, b: int)
    requires Current(d) && b in d.circuits
    ensures OneRevision(InsertAll(d, ExpiredRows(d, ids, now)), b, d.circuits[b].revision)
  {
    hide ExpiredRows;
  }

  lemma PruneOwn(failures: Failures, backends: set<int>, b: int, revision: int, latest: Time, window: int)
    requires b in backends && OneRevision(failures, b, revision) && Newest(Times(failures, b, revision)) == Some(latest)
    ensures SameFailures(PruneFailures(failures, b, revision, latest, window), PruneAll(failures, backends, window), b)
  {
    hide Newest;
    hide Times;
  }

  lemma PruneOther(failures: Failures, backends: set<int>, b: int, window: int)
    requires b !in backends
    ensures SameFailures(failures, PruneAll(failures, backends, window), b)
  {
    hide Newest;
    hide Times;
  }

  lemma PrunedNewest(failures: Failures, b: int, revision: int, latest: Time, window: int)
    requires window >= 0 && Newest(Times(failures, b, revision)) == Some(latest)
    ensures Newest(Times(PruneFailures(failures, b, revision, latest, window), b, revision)) == Some(latest)
  {
    var pruned := PruneFailures(failures, b, revision, latest, window);
    NewestMeaning(Times(failures, b, revision));
    hide Newest;
    var f :| f in failures && failures[f].backend == b && failures[f].revision == revision && failures[f].at == latest;
    assert f in pruned;
    forall u | u in Times(pruned, b, revision)
      ensures u <= latest
    {
      var g :| g in pruned && pruned[g].backend == b && pruned[g].revision == revision && pruned[g].at == u;
      assert failures[g].at == u;
      assert u in Times(failures, b, revision);
    }
    NewestIs(Times(pruned, b, revision), latest);
  }

  lemma TwoSteps(x: Failures, y: Failures, z: Failures, b: int)
    requires SameFailures(x, y, b) && SameFailures(y, z, b)
    ensures SameFailures(x, z, b)
  {
  }

  /** The failures and the opening time of an expired backend. */
  lemma TrippedFailures(d: Tables, o: Options, ids: set<int>, now: Time, b: int) returns (latest: Time)
    requires Sound(d, o) && b in ExpiredRows(d, ids, now)
    ensures b in d.circuits && ExpiredRows(d, ids, now)[b] in d.probes
    ensures var c, p := d.circuits[b], ExpiredRows(d, ids, now)[b];
            var one := InsertFailure(d.failures, p, FailureRow(b, c.revision, d.probes[p].expiresAt));
            && Newest(Times(one, b, c.revision)) == Some(latest)
            && SameFailures(PruneFailures(one, b, c.revision, latest, o.window), Refresh(d, o, ids, now).failures, b)
            && Newest(Times(Refresh(d, o, ids, now).failures, b, c.revision)) == Some(latest)
  {
    ExpiredMeaning(d, ids, now, b);
    InsertedOwn(d, ids, now, b);
    InsertedRevision(d, ids, now, b);
    var expired := ExpiredRows(d, ids, now);
    hide ExpiredRows;
    hide HasExpired;
    var c, p := d.circuits[b], expired[b];
    var row := FailureRow(b, c.revision, d.probes[p].expiresAt);
    var one := InsertFailure(d.failures, p, row);
    var all := InsertAll(d, expired);
    assert p in one && one[p].backend == b && one[p].revision == c.revision;
    assert one[p].at in Times(one, b, c.revision);
    NewestMeaning(Times(one, b, c.revision));
    latest := Newest(Times(one, b, c.revision)).value;
    hide InsertFailure;
    hide InsertAll;
    SameTimes(one, all, b, c.revision);
    hide Newest;
    hide Times;
    PruneOwn(all, expired.Keys, b, c.revision, latest, o.window);
    SamePrune(one, all, b, c.revision, latest, o.window);
    PrunedNewest(one, b, c.revision, latest, o.window);
    var pruned, allPruned := PruneFailures(one, b, c.revision, latest, o.window), PruneAll(all, expired.Keys, o.window);
    hide PruneFailures;
    hide PruneAll;
    TwoSteps(pruned, PruneFailures(all, b, c.revision, latest, o.window), allPruned, b);
    SameTimes(pruned, allPruned, b, c.revision);
  }

  lemma TrippedProbes(d: Tables, ids: set<int>, now: Time, b: int)
    requires b in ExpiredRows(d, ids, now) && b in d.circuits
    ensures var expired := ExpiredRows(d, ids, now);
            var one, all := ResolveProbes(d.probes, b, d.circuits[b], expired[b], now), ResolveAll(d, expired, now);
            && one.Keys == all.Keys == d.probes.Keys
            && (forall p :: p in d.probes && d.probes[p].backend == b ==> one[p] == all[p])
            && (forall p :: p in d.probes ==> one[p].backend == d.probes[p].backend == all[p].backend)
  {
    hide ExpiredRows;
  }

  lemma RefreshTrips(d: Tables, o: Options, ids: set<int>, now: Time, b: int)
    requires Sound(d, o) && b in ExpiredRows(d, ids, now)
    ensures AgreeOn(Reconcile(d, o, b, now), Refresh(d, o, ids, now), b)
  {
    ExpiredMeaning(d, ids, now, b);
    var latest := TrippedFailures(d, o, ids, now, b);
    TrippedProbes(d, ids, now, b);
    hide ExpiredRows;
    hide InsertAll;
    hide InsertFailure;
    hide PruneAll;
    hide PruneFailures;
    hide Newest;
    hide Times;
    hide ResolveAll;
    hide ResolveProbes;
    hide Overdue;
  }

  lemma ProbesElsewhere(d: Tables, expired: map<int, Id>, now: Time, b: int)
    requires b !in expired
    ensures forall p :: p in d.probes && d.probes[p].backend == b ==> ResolveAll(d, expired, now)[p] == d.probes[p]
    ensures ResolveAll(d, expired, now).Keys == d.probes.Keys
    ensures forall p :: p in d.probes ==> ResolveAll(d, expired, now)[p].backend == d.probes[p].backend
  {
  }

  lemma AloneElsewhere(d: Tables, o: Options, b: int, now: Time)
    requires !HasExpired(d, b, now)
    ensures var alone := Reconcile(d, o, b, now);
            && alone.probes == d.probes && alone.failures == d.failures && alone.circuits.Keys == d.circuits.Keys
            && (b in d.circuits ==>
                  alone.circuits[b] == if CooledDown(d.circuits[b], o, now) then HalfOpened(d.circuits[b], now) else d.circuits[b])
  {
    hide HasExpired;
    hide Trip;
  }

  lemma CircuitElsewhere(d: Tables, o: Options, ids: set<int>, expired: set<int>, failures: Failures, now: Time, b: int)
    requires b !in expired
    ensures var all := UpdateAll(d, o, ids, expired, failures, now);
            && all.Keys == d.circuits.Keys
            && (b in d.circuits ==>
                  all[b] == if b in ids && CooledDown(d.circuits[b], o, now) then HalfOpened(d.circuits[b], now) else d.circuits[b])
  {
    hide Newest;
    hide Times;
  }

  lemma Assemble(x: Tables, y: Tables, b: int)
    requires (b in x.circuits <==> b in y.circuits) && (b in x.circuits ==> x.circuits[b] == y.circuits[b])
    requires x.probes.Keys == y.probes.Keys
    requires forall p :: p in x.probes && x.probes[p].backend == b ==> y.probes[p] == x.probes[p]
    requires forall p :: p in y.probes ==> y.probes[p].backend == x.probes[p].backend
    requires SameFailures(x.failures, y.failures, b)
    ensures AgreeOn(x, y, b)
  {
  }

  lemma RefreshElsewhere(d: Tables, o: Options, ids: set<int>, now: Time, b: int)
    requires b !in ExpiredRows(d, ids, now)
    ensures AgreeOn(if b in ids then Reconcile(d, o, b, now) else d, Refresh(d, o, ids, now), b)
  {
    var expired := ExpiredRows(d, ids, now);
    assert b in ids ==> !HasExpired(d, b, now);
    InsertedOther(d, ids, now, b);
    hide ExpiredRows;
    hide HasExpired;
    hide InsertAll;
    hide PruneAll;
    hide UpdateAll;
    hide ResolveAll;
    hide Reconcile;
    hide AgreeOn;
    hide SameFailures;
    ProbesElsewhere(d, expired, now, b);
    PruneOther(InsertAll(d, expired), expired.Keys, b, o.window);
    var bulk := Refresh(d, o, ids, now);
    TwoSteps(d.failures, InsertAll(d, expired), bulk.failures, b);
    CircuitElsewhere(d, o, ids, expired.Keys, bulk.failures, now, b);
    if b in ids {
      AloneElsewhere(d, o, b, now);
    }
    Assemble(if b in ids then Reconcile(d, o, b, now) else d, bulk, b);
  }

  /** The bulk refresh leaves the tables exactly as reconciling each backend in turn does, in whatever
  order, provided active failures carry the revision of their circuit and no failure is on record
  under the identifier of another backend's probe. */
  lemma RefreshRefinesReconcile(d: Tables, o: Options, ids: seq<int>, now: Time)
    requires Sound(d, o) && forall i, j :: 0 <= i < j < |ids| ==> ids[i] != ids[j]
    ensures Refresh(d, o, (set b | b in ids), now) == ReconcileEach(d, o, ids, now)
  {
    var all := set b | b in ids;
    var bulk, each := Refresh(d, o, all, now), ReconcileEach(d, o, ids, now);
    hide Refresh;
    hide ReconcileEach;
    hide Reconcile;
    hide AgreeOn;
    forall b
      ensures AgreeOn(bulk, each, b)
    {
      EachIsLocal(d, o, ids, now, b);
      var alone := if b in ids then Reconcile(d, o, b, now) else d;
      if b in ExpiredRows(d, all, now) {
        ExpiredMeaning(d, all, now, b);
        RefreshTrips(d, o, all, now, b);
      } else {
        RefreshElsewhere(d, o, all, now, b);
      }
      AgreeBack(alone, bulk, b);
      AgreeThrough(bulk, alone, each, b);
    }
    AgreeEverywhere(bulk, each);
  }

  /** The two conditions hold again afterwards. */
  lemma ReconcileKeepsSound(d: Tables, o: Options, b: int, now: Time)
    requires Sound(d, o)
    ensures Sound(Reconcile(d, o, b, now), o)
  {
    ReconcileKeepsUnshared(d, o, b, now);
    hide Newest;
    hide Times;
  }

  lemma {:induction false} EachKeepsSound(d: Tables, o: Options, ids: seq<int>, now: Time)
    requires Sound(d, o)
    ensures Sound(ReconcileEach(d, o, ids, now), o)
    decreases |ids|
  {
    hide Sound;
    hide Reconcile;
    if ids != [] {
      EachKeepsSound(d, o, ids[..|ids| - 1], now);
      ReconcileKeepsSound(ReconcileEach(d, o, ids[..|ids| - 1], now), o, ids[|ids| - 1], now);
    }
  }

  // Neither condition can be dropped

  const Eager := Options(1, 10, 1, 1)

  const Asked := CircuitBook.Request(10, 0, 1, CircuitBook.Backend(1, 1, true, false), 100)
  const Reopened := CircuitRow(HalfOpen, 2, 5, None, false, 0)
  const Earlier := Tables(
    map[1 := Reopened], map[10 := ProbeRow(1, 2, 5, 0, 100, None, None, None, Asked, None)],
    map[20 := FailureRow(1, 1, 0), 21 := FailureRow(1, 1, 1000)])

  lemma EarlierKept()
    ensures HasExpired(Earlier, 1, 200) && 20 in Reconcile(Earlier, Eager, 1, 200).failures
  {
    assert Unresolved(Earlier.probes[10], 1, Reopened);
    hide Newest;
    hide Times;
    hide FirstOf;
  }

  lemma EarlierPruned()
    requires HasExpired(Earlier, 1, 200)
    ensures 20 !in Refresh(Earlier, Eager, {1}, 200).failures
  {
    var expired := ExpiredRows(Earlier, {1}, 200);
    assert 1 in expired;
    hide ExpiredRows;
    hide HasExpired;
    var all := InsertAll(Earlier, expired);
    assert all[21] == FailureRow(1, 1, 1000) && all[20] == FailureRow(1, 1, 0);
    hide InsertAll;
    assert all[21].at in Times(all, 1, 1);
    NewestMeaning(Times(all, 1, 1));
    hide Newest;
    hide Times;
  }

  /** With failures of an earlier revision on record the bulk form prunes rows the simple form keeps. */
  lemma StaleRevisionsDiffer()
    ensures Unshared(Earlier) && Refresh(Earlier, Eager, {1}, 200) != Reconcile(Earlier, Eager, 1, 200)
  {
    EarlierKept();
    EarlierPruned();
    hide Refresh;
    hide Reconcile;
  }

  /** With a failure on record under another backend's name the simple form fails where the bulk form
  opens the circuit. */
  lemma SharedIdentifiersDiffer()
    ensures exists d :: Current(d) && Refresh(d, Eager, {1}, 200) != Reconcile(d, Eager, 1, 200)
  {
    var c := CircuitRow(HalfOpen, 1, 1, None, false, 0);
    var p := ProbeRow(1, 1, 1, 0, 100, None, None, None, Asked, None);
    var d := Tables(map[1 := c], map[10 := p], map[10 := FailureRow(2, 7, 50)]);
    assert Current(d);
    assert HasExpired(d, 1, 200) by {
      assert Unresolved(d.probes[10], 1, c);
    }
    assert Times(d.failures, 1, 1) == {};
    assert Reconcile(d, Eager, 1, 200) == d by {
      SomeOverdue(d, 1, 200);
      assert FirstOf(d.probes, Overdue(d.probes, 1, c, 200)) == 10;
    }
    assert 1 in ExpiredRows(d, {1}, 200);
    hide ExpiredRows;
    hide Newest;
    hide Times;
    hide Reconcile;
    assert Refresh(d, Eager, {1}, 200).circuits[1].state == Open;
  }
}
