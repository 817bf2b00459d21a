/** The transactions of all replicas on the circuit tables, and of the configuration where it touches
them. Each locks the rows it reads, so it is one step; one that fails is rolled back and changes nothing. */
module PgCircuitSteps {
  import opened ExpiryQueue
  import opened CircuitBreaker
  import opened PgCircuits
  import CircuitBook

  type Backend = CircuitBook.Backend
  type Request = CircuitBook.Request
  type Completion = CircuitBook.Completion
  type Permit = CircuitBook.Permit

  datatype Receipt = Receipt(revision: int, generation: int, reportedAt: Time, retainUntil: Time)

  /** `backends` is the configuration, `receipts` what was processed of failures in closed circuits. */
  datatype Store = Store(d: Tables, backends: map<int, Backend>, receipts: map<Id, Receipt>)

  const Blank := Store(Tables(map[], map[], map[]), map[], map[])

  datatype Answer =
    | Granted | Permitted(generation: int, expiresAt: Time) | Refused(reason: CircuitBook.Reason) | Done | Failed

  // Failures

  /** Records a failure and forgets those outside the window of the newest; fails with none on record. */
  ghost function Record(failures: Failures, id: Id, b: int, revision: int, at: Time, window: int): Option<(Failures, Time)> {
    var all := InsertFailure(failures, id, FailureRow(b, revision, at));
    match Newest(Times(all, b, revision))
    case None => None
    case Some(latest) => Some((PruneFailures(all, b, revision, latest, window), latest))
  }

  function DropFailures(failures: Failures, b: int): Failures {
    map f | f in failures && failures[f].backend != b :: failures[f]
  }

  function CountOf(failures: Failures, b: int, revision: int): nat {
    |set f | f in failures && failures[f].backend == b && failures[f].revision == revision|
  }

  // Overdue probes, at the start of every transaction

  ghost predicate LapseFails(d: Tables, o: Options, b: int, now: Time) {
    HasExpired(d, b, now)
    && assert Overdue(d.probes, b, d.circuits[b], now) != {} by { SomeOverdue(d, b, now); }
       var first := FirstOf(d.probes, Overdue(d.probes, b, d.circuits[b], now));
       Record(d.failures, first, b, d.circuits[b].revision, d.probes[first].expiresAt, o.window).None?
  }

  ghost function Lapse(d: Tables, o: Options, b: int, now: Time): (t: Tables)
    ensures t.circuits.Keys == d.circuits.Keys
  {
    if !HasExpired(d, b, now) then d
    else
      assert Overdue(d.probes, b, d.circuits[b], now) != {} by { SomeOverdue(d, b, now); }
      Trip(d, o, b, now)
  }

  // Acquisition

  function Outstanding(probes: Probes, b: int, c: CircuitRow): set<Id> {
    set p | p in probes && Unresolved(probes[p], b, c)
  }

  function InFlight(probes: Probes, b: int, c: CircuitRow, now: Time): set<Id> {
    set p | p in probes && Unresolved(probes[p], b, c) && probes[p].expiresAt > now
  }

  function Replay(d: Tables, r: Request, now: Time): Answer
    requires r.attemptId in d.probes && r.backend.id in d.circuits
  {
    var p, c := d.probes[r.attemptId], d.circuits[r.backend.id];
    if p.request != r then Refused(CircuitBook.IdempotencyConflict)
    else if p.outcome.Some? || p.revision != r.backend.revision || p.generation != c.generation || p.expiresAt <= now then
      Refused(CircuitBook.LeaseLost)
    else Permitted(p.generation, p.expiresAt)
  }

  function NewProbe(r: Request, generation: int, now: Time): ProbeRow {
    ProbeRow(r.backend.id, r.backend.revision, generation, r.startedAt, now + r.probeTtl, None, None, None, r, None)
  }

  predicate Serves(c: CircuitRow, known: Backend, asked: Backend) {
    c.revision == known.revision == asked.revision && known.enabled && !known.draining
  }

  /** An open circuit whose cooldown is not over. */
  predicate Cooling(c: CircuitRow, o: Options, now: Time) {
    c.state == Open && c.openedAt.Some? && now < c.openedAt.value + o.cooldown
  }

  function Probe(d: Tables, o: Options, r: Request, now: Time): (Tables, Answer)
    requires r.backend.id in d.circuits
  {
    var b := r.backend.id;
    var c := d.circuits[b];
    var h := if c.state == Open then HalfOpened(c, now) else c;
    var inFlight := if c.state == Open then 0 else |InFlight(d.probes, b, c, now)|;
    var t := d.(circuits := d.circuits[b := h]);
    if h.succeeded || inFlight >= o.maxProbes then (t, Refused(CircuitBook.ProbeCapacityExhausted))
    else
      (t.(probes := t.probes[r.attemptId := NewProbe(r, h.generation, now)]), Permitted(h.generation, now + r.probeTtl))
  }

  function Admit(d: Tables, o: Options, known: Backend, r: Request, now: Time): (Tables, Answer)
    requires r.backend.id in d.circuits
  {
    var c := d.circuits[r.backend.id];
    if !Serves(c, known, r.backend) then (d, Refused(CircuitBook.StaleBackend))
    else if !CircuitBook.Timely(r.startedAt, now) then (d, Refused(CircuitBook.StaleOperation))
    else if c.state == Closed then (d, Granted)
    else if Cooling(c, o, now) then (d, Refused(CircuitBook.CircuitOpen))
    else Probe(d, o, r, now)
  }

  ghost function AcquireTx(s: Store, o: Options, r: Request, now: Time): (Store, Answer) {
    var b := r.backend.id;
    if b !in s.d.circuits || b !in s.backends then (s, Refused(CircuitBook.StaleBackend))
    else if LapseFails(s.d, o, b, now) then (s, Failed)
    else
      var d := Lapse(s.d, o, b, now);
      if r.attemptId in d.probes then (s.(d := d), Replay(d, r, now))
      else
        var (t, answer) := Admit(d, o, s.backends[b], r, now);
        (s.(d := t), answer)
  }

  // Completion

  function NotAfter(a: Time, b: Time): Time {
    if a > b then b else a
  }

  function WithReport(p: ProbeRow, cm: Completion, now: Time): ProbeRow {
    p.(outcome := Some(Reported(cm.outcome)), processedAt := Some(now), reportedAt := Some(cm.reportedAt),
       retainUntil := Some(CircuitBook.BoundaryOf(now, p.startedAt, cm.reportedAt)))
  }

  /** The other open probes of the generation are superseded. */
  function Terminalized(probes: Probes, b: int, generation: int, cause: Id, now: Time): Probes {
    map p | p in probes ::
      if probes[p].backend == b && probes[p].generation == generation && p != cause && probes[p].outcome.None?
      then Resolved(probes[p], false, now) else probes[p]
  }

  function ClosedRow(c: CircuitRow, now: Time): CircuitRow {
    c.(state := Closed, generation := c.generation + 1, openedAt := None, succeeded := false, updatedAt := now)
  }

  /** After a success the circuit closes once no probe of its generation is open. */
  function CloseIfDone(d: Tables, b: int, now: Time): Tables
    requires b in d.circuits
  {
    var c := d.circuits[b];
    if c.succeeded && Outstanding(d.probes, b, c) == {} then
      d.(circuits := d.circuits[b := ClosedRow(c, now)], failures := DropFailures(d.failures, b))
    else d
  }

  /** A probe of the present generation of a half-open circuit ends; nothing if the failure cannot be recorded. */
  ghost function EndProbe(d: Tables, o: Options, cm: Completion, now: Time): Option<Tables>
    requires cm.backend.id in d.circuits
  {
    var b := cm.backend.id;
    var c := d.circuits[b];
    match cm.outcome
    case Failure =>
      (match Record(d.failures, cm.attemptId, b, c.revision, NotAfter(cm.reportedAt, now), o.window)
       case None => None
       case Some(recorded) =>
         Some(Tables(d.circuits[b := Opened(c, Some(recorded.1), now)],
                     Terminalized(d.probes, b, cm.generation, cm.attemptId, now), recorded.0)))
    case Success => Some(CloseIfDone(d.(circuits := d.circuits[b := c.(succeeded := true, updatedAt := now)]), b, now))
    case Neutral => Some(CloseIfDone(d, b, now))
  }

  predicate Contradicts(p: ProbeRow, cm: Completion) {
    && p.outcome.Some? && p.outcome.value.Reported? && p.reportedAt.Some?
    && (p.reportedAt.value != cm.reportedAt || p.outcome.value.outcome != cm.outcome)
  }

  ghost function ConcludeProbe(d: Tables, o: Options, cm: Completion, now: Time): Option<(Tables, Answer)>
    requires cm.attemptId in d.probes && cm.backend.id in d.circuits
  {
    var p, c := d.probes[cm.attemptId], d.circuits[cm.backend.id];
    if p.revision != cm.backend.revision || p.generation != cm.generation then None
    else if p.outcome.Some? then if Contradicts(p, cm) then None else Some((d, Done))
    else if !CircuitBook.Timely(cm.reportedAt, now) then None
    else
      var t := d.(probes := d.probes[cm.attemptId := WithReport(p, cm, now)]);
      if c.generation != cm.generation || c.revision != cm.backend.revision || c.state != HalfOpen then Some((t, Done))
      else match EndProbe(t, o, cm, now) case None => None case Some(u) => Some((u, Done))
  }

  predicate Applies(c: CircuitRow, o: Options, cm: Completion, now: Time) {
    && c.state == Closed && c.revision == cm.backend.revision && c.generation == cm.generation
    && NotAfter(cm.reportedAt, now) >= now - o.window
  }

  ghost function ApplyFailure(d: Tables, o: Options, cm: Completion, now: Time): Option<Tables>
    requires cm.backend.id in d.circuits
  {
    var b := cm.backend.id;
    var c := d.circuits[b];
    if !Applies(c, o, cm, now) then Some(d)
    else
      match Record(d.failures, cm.attemptId, b, c.revision, NotAfter(cm.reportedAt, now), o.window)
      case None => None
      case Some(recorded) =>
        var t := d.(failures := recorded.0);
        if CountOf(recorded.0, b, c.revision) >= o.threshold
        then Some(t.(circuits := t.circuits[b := Opened(c, Some(recorded.1), now)])) else Some(t)
  }

  ghost function CompleteTx(s: Store, o: Options, cm: Completion, now: Time): (Store, Answer) {
    var b := cm.backend.id;
    if b !in s.d.circuits || LapseFails(s.d, o, b, now) then (s, Failed)
    else
      var d := Lapse(s.d, o, b, now);
      if cm.attemptId in d.probes then
        match ConcludeProbe(d, o, cm, now) case None => (s, Failed) case Some(r) => (s.(d := r.0), r.1)
      else if cm.outcome == Failure && cm.attemptId in s.receipts then
        var kept := s.receipts[cm.attemptId];
        if kept.revision != cm.backend.revision || kept.generation != cm.generation || kept.reportedAt != cm.reportedAt
        then (s, Failed) else (s.(d := d), Done)
      else if !CircuitBook.Timely(cm.reportedAt, now) then (s, Failed)
      else if cm.outcome != Failure then (s.(d := d), Done)
      else
        match ApplyFailure(d, o, cm, now)
        case None => (s, Failed)
        case Some(t) =>
          (s.(d := t, receipts := s.receipts[cm.attemptId :=
             Receipt(cm.backend.revision, cm.generation, cm.reportedAt, Later(now, cm.reportedAt) + RETENTION)]), Done)
  }

  // Renewal

  predicate StillHeld(probes: Probes, p: Permit, now: Time) {
    && p.ttl > 0 && p.id in probes && probes[p.id].backend == p.backend.id && probes[p.id].revision == p.backend.revision
    && probes[p.id].generation == p.generation && probes[p.id].request.replica == p.replica
    && probes[p.id].outcome.None? && probes[p.id].expiresAt > now
  }

  function RenewAll(probes: Probes, permits: seq<Permit>, now: Time): Probes {
    if permits == [] then probes
    else
      var before, p := RenewAll(probes, permits[..|permits| - 1], now), permits[|permits| - 1];
      if StillHeld(before, p, now) then before[p.id := before[p.id].(expiresAt := now + p.ttl)] else before
  }

  ghost function LapseEach(d: Tables, o: Options, ids: seq<int>, now: Time): Option<Tables> {
    if ids == [] then Some(d)
    else
      match LapseEach(d, o, ids[..|ids| - 1], now)
      case None => None
      case Some(t) =>
        var b := ids[|ids| - 1];
        if b !in t.circuits || LapseFails(t, o, b, now) then None else Some(Lapse(t, o, b, now))
  }

  ghost function RenewTx(s: Store, o: Options, ids: seq<int>, permits: seq<Permit>, now: Time): Store {
    match LapseEach(s.d, o, ids, now)
    case None => s
    case Some(t) => s.(d := t.(probes := RenewAll(t.probes, permits, now)))
  }

  // Identities

  function SupersedeAll(probes: Probes, b: int, now: Time): Probes {
    map p | p in probes :: if probes[p].backend == b && probes[p].outcome.None? then Resolved(probes[p], false, now) else probes[p]
  }

  /** The circuit of another revision starts closed, without failures, its probes superseded. */
  function Reset(d: Tables, b: int, revision: int, now: Time): Tables {
    Tables(if b in d.circuits then d.circuits[b := ClosedRow(d.circuits[b], now).(revision := revision)] else d.circuits,
           SupersedeAll(d.probes, b, now), DropFailures(d.failures, b))
  }

  function Identify(d: Tables, known: Backend, b: int, now: Time): Tables {
    var t :=
      if b !in d.circuits then d.(circuits := d.circuits[b := CircuitRow(Closed, known.revision, 0, None, false, now)])
      else if d.circuits[b].revision != known.revision then Reset(d, b, known.revision, now)
      else d;
    if known.enabled && !known.draining then t else t.(probes := SupersedeAll(t.probes, b, now))
  }

  function IdentifyAll(s: Store, ids: seq<int>, now: Time): Store {
    if ids == [] then s
    else
      var before, b := IdentifyAll(s, ids[..|ids| - 1], now), ids[|ids| - 1];
      if b !in before.backends then before else before.(d := Identify(before.d, before.backends[b], b, now))
  }

  /** The configuration creates a backend under a new identifier, with its circuit. */
  function CreateTx(s: Store, b: int, enabled: bool, draining: bool, now: Time): Store {
    if b in s.backends || b in s.d.circuits then s
    else
      s.(backends := s.backends[b := CircuitBook.Backend(b, 1, enabled, draining)],
         d := s.d.(circuits := s.d.circuits[b := CircuitRow(Closed, 1, 0, None, false, now)]))
  }

  /** The configuration changes or, without a new identity, deletes a backend. */
  function ChangeTx(s: Store, b: int, change: Option<(bool, bool)>, now: Time): Store {
    if b !in s.backends then s
    else
      var revision := s.backends[b].revision + 1;
      s.(backends := match change
                     case None => s.backends - {b}
                     case Some(flags) => s.backends[b := CircuitBook.Backend(b, revision, flags.0, flags.1)],
         d := Reset(s.d, b, revision, now))
  }

  // Cleanup

  predicate Forgettable(p: ProbeRow, now: Time) {
    p.outcome.Some? && p.retainUntil.Some? && p.retainUntil.value <= now
  }

  function CleanupTx(s: Store, probes: set<Id>, receipts: set<Id>, now: Time): Store {
    s.(d := s.d.(probes := map p | p in s.d.probes && !(p in probes && Forgettable(s.d.probes[p], now)) :: s.d.probes[p]),
       receipts := map a | a in s.receipts && !(a in receipts && s.receipts[a].retainUntil <= now) :: s.receipts[a])
  }

  // Runs

  datatype Op =
    | Acquires(r: Request)
    | Completes(cm: Completion)
    | Renews(ids: seq<int>, permits: seq<Permit>)
    | Reconciles(b: int)
    | Refreshes(ids: seq<int>)
    | Identifies(ids: seq<int>)
    | Creates(b: int, enabled: bool, draining: bool)
    | Changes(b: int, change: Option<(bool, bool)>)
    | Cleans(probes: set<Id>, receipts: set<Id>)

  datatype Event = Event(op: Op, now: Time)

  ghost function Step(s: Store, o: Options, e: Event): Store {
    match e.op
    case Acquires(r) => AcquireTx(s, o, r, e.now).0
    case Completes(cm) => CompleteTx(s, o, cm, e.now).0
    case Renews(ids, permits) => RenewTx(s, o, ids, permits, e.now)
    case Reconciles(b) => s.(d := Reconcile(s.d, o, b, e.now))
    case Refreshes(ids) => s.(d := Refresh(s.d, o, (set b | b in ids), e.now))
    case Identifies(ids) => IdentifyAll(s, ids, e.now)
    case Creates(b, enabled, draining) => CreateTx(s, b, enabled, draining, e.now)
    case Changes(b, change) => ChangeTx(s, b, change, e.now)
    case Cleans(probes, receipts) => CleanupTx(s, probes, receipts, e.now)
  }

  ghost function After(o: Options, run: seq<Event>): Store {
    if run == [] then Blank else Step(After(o, run[..|run| - 1]), o, run[|run| - 1])
  }
}
