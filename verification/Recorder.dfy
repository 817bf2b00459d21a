/** The analytics recorder: a request reserves a slot before its response is generated, so that the
record of its completion can later be queued without waiting. Each event is what one goroutine does
between two synchronisations; goroutines interleave freely. */
module Recorder {
  import opened ExpiryQueue
  import opened Counting

  /** A reservation is known by its serial number, as the source knows it by its address. */
  type Serial = nat
  type Record = int

  /** Whether reservations are taken, whether the queue is closed, whether the writer has stopped. */
  datatype Gate = Gate(accepting: bool, eventsClosed: bool, done: bool)

  /** Callers that took a permit: about to register, or to give it back. */
  datatype Callers = Callers(entering: map<nat, Id>, leaving: set<nat>)

  /** The reservations: held, about to give their permit back, to queue their record, to end. */
  datatype Life = Life(
    reserved: map<Id, Serial>, pending: map<Serial, Record>, returning: set<Serial>,
    completing: map<Serial, Record>, finishing: set<Serial>, lifecycles: int, next: Serial)

  /** `holding`: the writer has yet to release the permit of what it dequeued. */
  datatype Pipe = Pipe(queue: seq<Record>, holding: bool, batch: seq<Record>, flushed: seq<Record>, enqueued: seq<Record>)

  /** `permits` is the number of tokens in the permits channel. */
  datatype World = World(gate: Gate, callers: Callers, life: Life, pipe: Pipe, permits: int)

  const Start := World(Gate(true, false, false), Callers(map[], {}), Life(map[], map[], {}, map[], {}, 0, 0),
                       Pipe([], false, [], [], []), 0)

  // Reservations

  predicate Owns(f: Life, request: Id, serial: Serial) {
    request in f.reserved && f.reserved[request] == serial
  }

  function Enrolled(f: Life, request: Id): Life {
    f.(reserved := f.reserved[request := f.next], lifecycles := f.lifecycles + 1, next := f.next + 1)
  }

  function Stage(f: Life, request: Id, serial: Serial, record: Record): Life {
    if Owns(f, request, serial) then f.(pending := f.pending[serial := record]) else f
  }

  function Release(f: Life, request: Id, serial: Serial): Life {
    if !Owns(f, request, serial) then f
    else f.(reserved := f.reserved - {request}, pending := f.pending - {serial}, returning := f.returning + {serial})
  }

  function Complete(f: Life, request: Id, serial: Serial): Life {
    if !Owns(f, request, serial) then f.(pending := f.pending - {serial})
    else if serial in f.pending then
      f.(reserved := f.reserved - {request}, pending := f.pending - {serial},
         completing := f.completing[serial := f.pending[serial]])
    else f.(reserved := f.reserved - {request}, returning := f.returning + {serial})
  }

  function Returned(f: Life, serial: Serial): Life {
    f.(returning := f.returning - {serial}, finishing := f.finishing + {serial})
  }

  function Sent(f: Life, serial: Serial): Life {
    f.(completing := f.completing - {serial}, finishing := f.finishing + {serial})
  }

  function Finished(f: Life, serial: Serial): Life {
    f.(finishing := f.finishing - {serial}, lifecycles := f.lifecycles - 1)
  }

  // The writer

  function Push(p: Pipe, record: Record): Pipe {
    p.(queue := p.queue + [record], enqueued := p.enqueued + [record])
  }

  function Pull(p: Pipe): Pipe
    requires p.queue != []
  {
    p.(queue := p.queue[1..], batch := p.batch + [p.queue[0]], holding := true)
  }

  function Flushed(p: Pipe): Pipe {
    p.(flushed := p.flushed + p.batch, batch := [])
  }

  // Steps

  datatype Event =
    | TakesPermit(caller: nat, request: Id) | Registers(caller: nat, cancelled: bool) | Leaves(caller: nat)
    | Stages(request: Id, serial: Serial, record: Record) | Releases(request: Id, serial: Serial)
    | Completes(request: Id, serial: Serial)
    | ReturnsPermit(serial: Serial) | Enqueues(serial: Serial) | Finishes(serial: Serial)
    | ClosesIntake | ClosesEvents | Dequeues | WriterReturnsPermit | Flushes | WriterEnds

  datatype Limits = Limits(capacity: nat, batchSize: nat)

  function CallerStep(w: World, l: Limits, e: Event): World
    requires e.TakesPermit? || e.Registers? || e.Leaves?
  {
    var c := w.callers;
    match e
    case TakesPermit(caller, request) =>
      if caller in c.entering || caller in c.leaving || w.permits >= l.capacity then w
      else w.(permits := w.permits + 1, callers := c.(entering := c.entering[caller := request]))
    case Registers(caller, cancelled) =>
      if caller !in c.entering then w
      else if !w.gate.accepting || c.entering[caller] in w.life.reserved || cancelled then
        w.(callers := Callers(c.entering - {caller}, c.leaving + {caller}))
      else w.(callers := c.(entering := c.entering - {caller}), life := Enrolled(w.life, c.entering[caller]))
    case Leaves(caller) =>
      if caller !in c.leaving then w
      else w.(permits := w.permits - 1, callers := c.(leaving := c.leaving - {caller}))
  }

  function LifeStep(w: World, e: Event): World
    requires e.Stages? || e.Releases? || e.Completes? || e.ReturnsPermit? || e.Enqueues? || e.Finishes?
  {
    var f := w.life;
    match e
    case Stages(request, serial, record) => w.(life := Stage(f, request, serial, record))
    case Releases(request, serial) => w.(life := Release(f, request, serial))
    case Completes(request, serial) => w.(life := Complete(f, request, serial))
    case ReturnsPermit(serial) =>
      if serial in f.returning then w.(permits := w.permits - 1, life := Returned(f, serial)) else w
    case Enqueues(serial) =>
      if serial in f.completing then w.(pipe := Push(w.pipe, f.completing[serial]), life := Sent(f, serial)) else w
    case Finishes(serial) => if serial in f.finishing then w.(life := Finished(f, serial)) else w
  }

  function WriterStep(w: World, l: Limits, e: Event): World
    requires e.ClosesIntake? || e.ClosesEvents? || e.Dequeues? || e.WriterReturnsPermit? || e.Flushes? || e.WriterEnds?
  {
    var g, p := w.gate, w.pipe;
    match e
    case ClosesIntake => w.(gate := g.(accepting := false))
    case ClosesEvents => if g.accepting || w.life.lifecycles != 0 then w else w.(gate := g.(eventsClosed := true))
    case Dequeues => if g.done || p.holding || p.queue == [] || |p.batch| >= l.batchSize then w else w.(pipe := Pull(p))
    case WriterReturnsPermit => if p.holding then w.(permits := w.permits - 1, pipe := p.(holding := false)) else w
    case Flushes => if g.done || p.holding then w else w.(pipe := Flushed(p))
    case WriterEnds =>
      if g.done || p.holding || !g.eventsClosed || p.queue != [] then w
      else w.(pipe := Flushed(p), gate := g.(done := true))
  }

  function Step(w: World, l: Limits, e: Event): World {
    if e.TakesPermit? || e.Registers? || e.Leaves? then CallerStep(w, l, e)
    else if e.Stages? || e.Releases? || e.Completes? || e.ReturnsPermit? || e.Enqueues? || e.Finishes? then LifeStep(w, e)
    else WriterStep(w, l, e)
  }

  function After(l: Limits, run: seq<Event>): World {
    if run == [] then Start else Step(After(l, run[..|run| - 1]), l, run[|run| - 1])
  }

  // What every run keeps

  function Waiting(c: Callers): nat {
    |c.entering| + |c.leaving|
  }

  /** Lifecycles that still own their permit. */
  function Owners(f: Life): nat {
    |f.reserved| + |f.returning| + |f.completing|
  }

  function Tokens(p: Pipe): nat {
    |p.queue| + if p.holding then 1 else 0
  }

  /** Each token stands for exactly one holder, each lifecycle counted is in exactly one stage. */
  predicate Accounted(w: World, l: Limits) {
    && w.permits == Waiting(w.callers) + Owners(w.life) + Tokens(w.pipe) <= l.capacity
    && w.life.lifecycles == Owners(w.life) + |w.life.finishing|
    && |w.pipe.batch| <= l.batchSize
  }

  /** Serial numbers are not used twice. */
  ghost predicate Unique(reserved: map<Id, Serial>, next: Serial) {
    && (forall r :: r in reserved ==> reserved[r] < next)
    && (forall r, q :: r in reserved && q in reserved && reserved[r] == reserved[q] ==> r == q)
  }

  /** A reservation is in one stage only. */
  ghost predicate Apart(reserved: map<Id, Serial>, returning: set<Serial>, completing: set<Serial>, finishing: set<Serial>, next: Serial) {
    && (forall r :: r in reserved ==> reserved[r] !in returning && reserved[r] !in completing && reserved[r] !in finishing)
    && (forall s :: s in returning ==> s !in completing && s !in finishing && s < next)
    && (forall s :: s in completing ==> s !in finishing && s < next)
    && (forall s :: s in finishing ==> s < next)
  }

  ghost predicate Staged(f: Life) {
    Unique(f.reserved, f.next) && Apart(f.reserved, f.returning, f.completing.Keys, f.finishing, f.next)
  }

  ghost predicate Separate(c: Callers) {
    forall x :: x in c.entering ==> x !in c.leaving
  }

  predicate Ordered(g: Gate, lifecycles: int, p: Pipe) {
    && p.enqueued == p.flushed + p.batch + p.queue
    && (g.eventsClosed ==> !g.accepting && lifecycles == 0)
    && (g.done ==> g.eventsClosed && p.queue == [] && p.batch == [] && !p.holding)
  }

  ghost predicate Inv(w: World, l: Limits) {
    Accounted(w, l) && Staged(w.life) && Separate(w.callers) && Ordered(w.gate, w.life.lifecycles, w.pipe)
  }

  // Sizes

  lemma MapSizes<K, V>(m: map<K, V>, k: K, v: V)
    ensures k in m ==> |m - {k}| == |m| - 1
    ensures k !in m ==> |m[k := v]| == |m| + 1
  {
    if k in m {
      KeyRemoved(m, k);
    } else {
      KeyAdded(m, k, v);
    }
  }

  // Reservations

  lemma UniqueMore(reserved: map<Id, Serial>, request: Id, next: Serial)
    requires Unique(reserved, next)
    ensures Unique(reserved[request := next], next + 1)
  {
  }

  lemma UniqueLess(reserved: map<Id, Serial>, request: Id, next: Serial)
    requires Unique(reserved, next)
    ensures Unique(reserved - {request}, next)
  {
  }

  lemma ApartMore(
    reserved: map<Id, Serial>, returning: set<Serial>, completing: set<Serial>, finishing: set<Serial>, next: Serial, request: Id)
    requires Apart(reserved, returning, completing, finishing, next)
    ensures Apart(reserved[request := next], returning, completing, finishing, next + 1)
  {
  }

  lemma EndApart(
    reserved: map<Id, Serial>, returning: set<Serial>, completing: set<Serial>, finishing: set<Serial>, next: Serial, request: Id)
    requires Unique(reserved, next) && Apart(reserved, returning, completing, finishing, next) && request in reserved
    ensures Apart(reserved - {request}, returning + {reserved[request]}, completing, finishing, next)
    ensures Apart(reserved - {request}, returning, completing + {reserved[request]}, finishing, next)
  {
  }

  lemma EnrolledStaged(f: Life, request: Id)
    requires Staged(f) && request !in f.reserved
    ensures Staged(Enrolled(f, request)) && Owners(Enrolled(f, request)) == Owners(f) + 1
  {
    hide Unique;
    hide Apart;
    UniqueMore(f.reserved, request, f.next);
    ApartMore(f.reserved, f.returning, f.completing.Keys, f.finishing, f.next, request);
    MapSizes(f.reserved, request, f.next);
  }

  /** A reservation that ends was in no later stage. */
  lemma EndingStaged(f: Life, request: Id, serial: Serial)
    requires Staged(f) && Owns(f, request, serial)
    ensures serial !in f.returning && serial !in f.completing && |f.reserved - {request}| == |f.reserved| - 1
    ensures Unique(f.reserved - {request}, f.next)
    ensures Apart(f.reserved - {request}, f.returning + {serial}, f.completing.Keys, f.finishing, f.next)
    ensures Apart(f.reserved - {request}, f.returning, f.completing.Keys + {serial}, f.finishing, f.next)
  {
    assert serial !in f.returning && serial !in f.completing;
    hide Unique;
    UniqueLess(f.reserved, request, f.next);
    EndApart(f.reserved, f.returning, f.completing.Keys, f.finishing, f.next, request);
    hide Apart;
    MapSizes(f.reserved, request, serial);
  }

  lemma ReleaseStaged(f: Life, request: Id, serial: Serial)
    requires Staged(f)
    ensures Staged(Release(f, request, serial)) && Owners(Release(f, request, serial)) == Owners(f)
  {
    hide Unique;
    hide Apart;
    if Owns(f, request, serial) {
      EndingStaged(f, request, serial);
    }
  }

  lemma CompletingMore(completing: map<Serial, Record>, serial: Serial, record: Record)
    requires serial !in completing
    ensures completing[serial := record].Keys == completing.Keys + {serial}
    ensures |completing[serial := record]| == |completing| + 1
  {
    MapSizes(completing, serial, record);
  }

  /** A reservation with a record completes, one without it is released. */
  lemma RecordedStaged(f: Life, request: Id, serial: Serial)
    requires Staged(f) && Owns(f, request, serial) && serial in f.pending
    ensures Staged(Complete(f, request, serial)) && Owners(Complete(f, request, serial)) == Owners(f)
  {
    EndingStaged(f, request, serial);
    hide Unique;
    hide Apart;
    var completing := f.completing[serial := f.pending[serial]];
    CompletingMore(f.completing, serial, f.pending[serial]);
    var g := f.(reserved := f.reserved - {request}, pending := f.pending - {serial}, completing := completing);
    assert Complete(f, request, serial) == g;
  }

  lemma UnrecordedStaged(f: Life, request: Id, serial: Serial)
    requires Staged(f) && Owns(f, request, serial) && serial !in f.pending
    ensures Staged(Complete(f, request, serial)) && Owners(Complete(f, request, serial)) == Owners(f)
  {
    EndingStaged(f, request, serial);
    hide Unique;
    hide Apart;
  }

  lemma CompleteStaged(f: Life, request: Id, serial: Serial)
    requires Staged(f)
    ensures Staged(Complete(f, request, serial)) && Owners(Complete(f, request, serial)) == Owners(f)
  {
    hide Unique;
    hide Apart;
    if Owns(f, request, serial) {
      hide Staged;
      hide Owners;
      hide Complete;
      if serial in f.pending {
        RecordedStaged(f, request, serial);
      } else {
        UnrecordedStaged(f, request, serial);
      }
    }
  }

  lemma StageStaged(f: Life, request: Id, serial: Serial, record: Record)
    requires Staged(f)
    ensures Staged(Stage(f, request, serial, record)) && Owners(Stage(f, request, serial, record)) == Owners(f)
  {
    hide Unique;
    hide Apart;
  }

  lemma ReturnedStaged(f: Life, serial: Serial)
    requires Staged(f) && serial in f.returning
    ensures Staged(Returned(f, serial)) && Owners(Returned(f, serial)) == Owners(f) - 1
    ensures |Returned(f, serial).finishing| == |f.finishing| + 1
  {
    hide Unique;
  }

  lemma SentStaged(f: Life, serial: Serial)
    requires Staged(f) && serial in f.completing
    ensures Staged(Sent(f, serial)) && Owners(Sent(f, serial)) == Owners(f) - 1
    ensures |Sent(f, serial).finishing| == |f.finishing| + 1
  {
    hide Unique;
    MapSizes(f.completing, serial, 0);
  }

  lemma FinishedStaged(f: Life, serial: Serial)
    requires Staged(f) && serial in f.finishing
    ensures Staged(Finished(f, serial)) && Owners(Finished(f, serial)) == Owners(f)
    ensures |Finished(f, serial).finishing| == |f.finishing| - 1
  {
    hide Unique;
  }

  // Steps

  lemma RegisterKeeps(w: World, l: Limits, caller: nat, cancelled: bool)
    requires Inv(w, l)
    ensures Inv(CallerStep(w, l, Registers(caller, cancelled)), l)
  {
    var c := w.callers;
    if caller in c.entering {
      if c.entering[caller] !in w.life.reserved {
        EnrolledStaged(w.life, c.entering[caller]);
      }
      hide Owners;
      hide Staged;
      MapSizes(c.entering, caller, 0);
      assert |c.leaving + {caller}| == |c.leaving| + 1;
    }
  }

  lemma CallerKeeps(w: World, l: Limits, e: Event)
    requires Inv(w, l) && (e.TakesPermit? || e.Registers? || e.Leaves?)
    ensures Inv(CallerStep(w, l, e), l)
  {
    hide Owners;
    hide Staged;
    match e
    case TakesPermit(caller, request) => MapSizes(w.callers.entering, caller, request);
    case Registers(caller, cancelled) => RegisterKeeps(w, l, caller, cancelled);
    case Leaves(caller) =>
  }

  /** A change of the reservations that moves nobody's permit keeps everything else. */
  lemma LifeReplaced(w: World, l: Limits, f: Life)
    requires Inv(w, l) && Staged(f)
    requires Owners(f) == Owners(w.life) && f.finishing == w.life.finishing && f.lifecycles == w.life.lifecycles
    ensures Inv(w.(life := f), l)
  {
    hide Staged;
    hide Owners;
    hide Ordered;
    hide Separate;
  }

  lemma EndKeeps(w: World, l: Limits, e: Event)
    requires Inv(w, l) && (e.Stages? || e.Releases? || e.Completes?)
    ensures Inv(LifeStep(w, e), l)
  {
    assert Staged(w.life);
    hide Inv;
    hide Staged;
    hide Owners;
    match e
    case Stages(request, serial, record) =>
      StageStaged(w.life, request, serial, record);
      LifeReplaced(w, l, Stage(w.life, request, serial, record));
      hide Stage;
    case Releases(request, serial) =>
      ReleaseStaged(w.life, request, serial);
      LifeReplaced(w, l, Release(w.life, request, serial));
      hide Release;
    case Completes(request, serial) =>
      CompleteStaged(w.life, request, serial);
      LifeReplaced(w, l, Complete(w.life, request, serial));
      hide Complete;
  }

  lemma HandOverKeeps(w: World, l: Limits, serial: Serial)
    requires Inv(w, l)
    ensures Inv(LifeStep(w, ReturnsPermit(serial)), l) && Inv(LifeStep(w, Finishes(serial)), l)
  {
    hide Owners;
    hide Staged;
    if serial in w.life.returning {
      ReturnedStaged(w.life, serial);
    }
    if serial in w.life.finishing {
      FinishedStaged(w.life, serial);
    }
  }

  lemma EnqueueKeeps(w: World, l: Limits, serial: Serial)
    requires Inv(w, l)
    ensures Inv(LifeStep(w, Enqueues(serial)), l)
  {
    if serial in w.life.completing {
      assert |w.life.completing| > 0;
      assert Owners(w.life) > 0;
      hide Owners;
      hide Staged;
      SentStaged(w.life, serial);
    }
  }

  lemma LifeKeeps(w: World, l: Limits, e: Event)
    requires Inv(w, l) && (e.Stages? || e.Releases? || e.Completes? || e.ReturnsPermit? || e.Enqueues? || e.Finishes?)
    ensures Inv(LifeStep(w, e), l)
  {
    hide Inv;
    hide LifeStep;
    if e.Stages? || e.Releases? || e.Completes? {
      EndKeeps(w, l, e);
    } else if e.Enqueues? {
      EnqueueKeeps(w, l, e.serial);
    } else {
      HandOverKeeps(w, l, e.serial);
    }
  }

  lemma WriterKeeps(w: World, l: Limits, e: Event)
    requires Inv(w, l)
    requires e.ClosesIntake? || e.ClosesEvents? || e.Dequeues? || e.WriterReturnsPermit? || e.Flushes? || e.WriterEnds?
    ensures Inv(WriterStep(w, l, e), l)
  {
    hide Staged;
    hide Owners;
    if w.pipe.queue != [] {
      assert w.pipe.queue == [w.pipe.queue[0]] + w.pipe.queue[1..];
    }
  }

  lemma {:induction false} RunKeepsInv(l: Limits, run: seq<Event>)
    ensures Inv(After(l, run), l)
    decreases |run|
  {
    if run != [] {
      var w, e := After(l, run[..|run| - 1]), run[|run| - 1];
      RunKeepsInv(l, run[..|run| - 1]);
      hide Inv;
      hide CallerStep;
      hide LifeStep;
      hide WriterStep;
      if e.TakesPermit? || e.Registers? || e.Leaves? {
        CallerKeeps(w, l, e);
      } else if e.Stages? || e.Releases? || e.Completes? || e.ReturnsPermit? || e.Enqueues? || e.Finishes? {
        LifeKeeps(w, l, e);
      } else {
        WriterKeeps(w, l, e);
      }
    }
  }

  // The promises

  /** A record whose request reserved a slot always finds room in the queue, which is not closed. */
  lemma QueueingNeverWaits(l: Limits, run: seq<Event>, serial: Serial)
    requires serial in After(l, run).life.completing
    ensures |After(l, run).pipe.queue| < l.capacity && !After(l, run).gate.eventsClosed
  {
    RunKeepsInv(l, run);
    var w := After(l, run);
    hide After;
    assert |w.life.completing| > 0;
  }

  /** Whoever gives a permit back finds one in the channel. */
  lemma ReleasingNeverWaits(l: Limits, run: seq<Event>, caller: nat, serial: Serial)
    requires var w := After(l, run); caller in w.callers.leaving || serial in w.life.returning || w.pipe.holding
    ensures After(l, run).permits > 0
  {
    RunKeepsInv(l, run);
    var w := After(l, run);
    hide After;
    if caller in w.callers.leaving {
      assert |w.callers.leaving| > 0;
    }
    if serial in w.life.returning {
      assert |w.life.returning| > 0;
    }
  }

  /** The store is given every queued record once and in the order of queueing, and when the writer is
  done no record is left anywhere and no slot is taken for good. */
  lemma NothingIsLost(l: Limits, run: seq<Event>)
    ensures var w := After(l, run);
            && w.pipe.enqueued == w.pipe.flushed + w.pipe.batch + w.pipe.queue
            && (w.gate.done ==>
                  && w.pipe.flushed == w.pipe.enqueued && w.life.completing == map[] && w.life.reserved == map[]
                  && w.permits == |w.callers.entering| + |w.callers.leaving|)
  {
    RunKeepsInv(l, run);
    var w := After(l, run);
    hide After;
    if w.gate.done {
      assert |w.life.completing| == 0 && |w.life.reserved| == 0;
      assert w.pipe.flushed + [] + [] == w.pipe.flushed;
    }
  }

  // A reservation ends once

  predicate Over(f: Life, request: Id, serial: Serial) {
    serial < f.next && !Owns(f, request, serial)
  }

  lemma StepStaysOver(w: World, l: Limits, e: Event, request: Id, serial: Serial)
    requires Over(w.life, request, serial)
    ensures Over(Step(w, l, e).life, request, serial)
  {
  }

  lemma {:induction false} StaysOver(l: Limits, run: seq<Event>, i: nat, j: nat, request: Id, serial: Serial)
    requires i <= j <= |run| && Over(After(l, run[..i]).life, request, serial)
    ensures Over(After(l, run[..j]).life, request, serial)
    decreases j
  {
    hide Step;
    hide Over;
    if i < j {
      StaysOver(l, run, i, j - 1, request, serial);
      assert run[..j][..j - 1] == run[..j - 1];
      StepStaysOver(After(l, run[..j - 1]), l, run[j - 1], request, serial);
    }
  }

  predicate Ends(w: World, e: Event, request: Id, serial: Serial) {
    (e == Releases(request, serial) || e == Completes(request, serial)) && Owns(w.life, request, serial)
  }

  lemma EndIsOver(w: World, l: Limits, e: Event, request: Id, serial: Serial)
    requires Staged(w.life) && Ends(w, e, request, serial)
    ensures Over(Step(w, l, e).life, request, serial)
  {
  }

  /** Of all the releases and completions of a reservation at most one takes effect, so its slot is
  given back once and its record queued at most once. */
  lemma EndsAtMostOnce(l: Limits, run: seq<Event>, i: nat, j: nat, request: Id, serial: Serial)
    requires i < j < |run| && Ends(After(l, run[..i]), run[i], request, serial)
    ensures !Ends(After(l, run[..j]), run[j], request, serial)
  {
    hide Step;
    RunKeepsInv(l, run[..i]);
    assert run[..i + 1][..i] == run[..i];
    EndIsOver(After(l, run[..i]), l, run[i], request, serial);
    StaysOver(l, run, i + 1, j, request, serial);
  }
}
