/** Which reservations are held and which records are queued, told by the events: a reservation is held
from its registration to its own release or completion, and its completion queues the record that was
staged last. */
module RecorderHistory {
  import opened ExpiryQueue
  import opened Recorder

  // 1. Reservations

  /** The event registers a reservation for the request, under the next serial number. */
  predicate Enters(w: World, e: Event, request: Id) {
    && e.Registers? && e.caller in w.callers.entering && w.callers.entering[e.caller] == request
    && w.gate.accepting && request !in w.life.reserved && !e.cancelled
  }

  /** The event is the release or the completion of this reservation. */
  predicate Closes(e: Event, request: Id, serial: Serial) {
    (e.Releases? || e.Completes?) && e.request == request && e.serial == serial
  }

  lemma OwnsStep(w: World, l: Limits, e: Event, request: Id, serial: Serial)
    ensures Owns(Step(w, l, e).life, request, serial) <==>
              (Owns(w.life, request, serial) && !Closes(e, request, serial)) || (Enters(w, e, request) && serial == w.life.next)
  {
  }

  /** The reservation was registered at `i`, and neither released nor completed since. */
  predicate HeldSince(l: Limits, run: seq<Event>, i: nat, request: Id, serial: Serial) {
    && i < |run| && Enters(After(l, run[..i]), run[i], request) && serial == After(l, run[..i]).life.next
    && forall k :: i < k < |run| ==> !Closes(run[k], request, serial)
  }

  lemma LastIsStep(l: Limits, run: seq<Event>)
    requires run != []
    ensures After(l, run) == Step(After(l, run[..|run| - 1]), l, run[|run| - 1])
  {
    hide Step;
  }

  lemma HeldMore(l: Limits, run: seq<Event>, i: nat, request: Id, serial: Serial)
    requires run != []
    ensures var n := |run| - 1;
            && (i < n ==> (HeldSince(l, run, i, request, serial) <==>
                             HeldSince(l, run[..n], i, request, serial) && !Closes(run[n], request, serial)))
            && (i == n ==> (HeldSince(l, run, i, request, serial) <==>
                              Enters(After(l, run[..n]), run[n], request) && serial == After(l, run[..n]).life.next))
            && (HeldSince(l, run, i, request, serial) ==> i <= n) && (HeldSince(l, run[..n], i, request, serial) ==> i < n)
  {
    hide After;
    hide Enters;
    hide Closes;
    var n := |run| - 1;
    if i < n {
      assert run[..n][..i] == run[..i];
      assert forall k :: 0 <= k < n ==> run[..n][k] == run[k];
    }
  }

  /** A reservation is held exactly if it was registered and neither released nor completed since. */
  lemma {:induction false} ReservationsAreTheirHistory(l: Limits, run: seq<Event>, request: Id, serial: Serial)
    ensures Owns(After(l, run).life, request, serial) <==> exists i: nat :: HeldSince(l, run, i, request, serial)
    decreases |run|
  {
    if run == [] {
    } else {
      hide After;
      hide Step;
      hide Enters;
      hide Closes;
      hide Owns;
      hide HeldSince;
      var n := |run| - 1;
      var w := After(l, run[..n]);
      LastIsStep(l, run);
      OwnsStep(w, l, run[n], request, serial);
      ReservationsAreTheirHistory(l, run[..n], request, serial);
      if Owns(After(l, run).life, request, serial) {
        if Enters(w, run[n], request) && serial == w.life.next {
          HeldMore(l, run, n, request, serial);
        } else {
          var i: nat :| HeldSince(l, run[..n], i, request, serial);
          HeldMore(l, run, i, request, serial);
        }
      }
      if i: nat :| HeldSince(l, run, i, request, serial) {
        HeldMore(l, run, i, request, serial);
      }
    }
  }

  // 2. Records

  /** The record last staged for the reservation while it was held, if it is held still. */
  function StagedLast(l: Limits, run: seq<Event>, serial: Serial): Option<Record> {
    if run == [] then None
    else
      var n := |run| - 1;
      var e, f := run[n], After(l, run[..n]).life;
      if e.Stages? && e.serial == serial && Owns(f, e.request, serial) then Some(e.record)
      else if e.Completes? && e.serial == serial then None
      else if e.Releases? && e.serial == serial && Owns(f, e.request, serial) then None
      else StagedLast(l, run[..n], serial)
  }

  lemma PendingStep(w: World, l: Limits, e: Event, serial: Serial)
    ensures var f, g := w.life, Step(w, l, e).life;
            if e.Stages? && e.serial == serial && Owns(f, e.request, serial)
            then serial in g.pending && g.pending[serial] == e.record
            else if (e.Completes? && e.serial == serial) || (e.Releases? && e.serial == serial && Owns(f, e.request, serial))
            then serial !in g.pending
            else (serial in g.pending <==> serial in f.pending) && (serial in g.pending ==> g.pending[serial] == f.pending[serial])
  {
  }

  lemma {:induction false} PendingIsStaged(l: Limits, run: seq<Event>, serial: Serial)
    ensures var f := After(l, run).life;
            StagedLast(l, run, serial) == if serial in f.pending then Some(f.pending[serial]) else None
    decreases |run|
  {
    if run == [] {
    } else {
      hide Step;
      hide Owns;
      PendingIsStaged(l, run[..|run| - 1], serial);
      PendingStep(After(l, run[..|run| - 1]), l, run[|run| - 1], serial);
    }
  }

  /** The record of the reservation is on its way to the queue. */
  predicate OnItsWay(w: World, serial: Serial, record: Record) {
    serial in w.life.completing && w.life.completing[serial] == record
  }

  /** Event `i` puts the record last in the queue. */
  predicate QueuedAt(l: Limits, run: seq<Event>, i: nat, serial: Serial, record: Record) {
    && i < |run| && run[i] == Enqueues(serial)
    && After(l, run[..i + 1]).pipe.enqueued == After(l, run[..i]).pipe.enqueued + [record]
  }

  lemma CompletionStep(w: World, l: Limits, e: Event, record: Record)
    requires e.Completes? && Owns(w.life, e.request, e.serial) && e.serial in w.life.pending && w.life.pending[e.serial] == record
    ensures OnItsWay(Step(w, l, e), e.serial, record)
  {
  }

  lemma OnItsWayStep(w: World, l: Limits, e: Event, serial: Serial, record: Record)
    requires OnItsWay(w, serial, record) && Inv(w, l)
    ensures if e == Enqueues(serial) then Step(w, l, e).pipe.enqueued == w.pipe.enqueued + [record]
            else OnItsWay(Step(w, l, e), serial, record)
  {
    hide Owners;
    hide Accounted;
  }

  /** A completion of a held reservation queues the record staged last, sooner or later and once: until
  then it is on its way. */
  lemma {:induction false} CompletionsAreQueued(l: Limits, run: seq<Event>, j: nat, record: Record)
    requires j < |run| && run[j].Completes? && Owns(After(l, run[..j]).life, run[j].request, run[j].serial)
    requires StagedLast(l, run[..j], run[j].serial) == Some(record)
    ensures OnItsWay(After(l, run), run[j].serial, record) || exists i: nat :: j < i && QueuedAt(l, run, i, run[j].serial, record)
    decreases |run|
  {
    hide After;
    hide Step;
    hide Owns;
    hide OnItsWay;
    hide QueuedAt;
    var n := |run| - 1;
    var serial := run[j].serial;
    LastIsStep(l, run);
    if j == n {
      PendingIsStaged(l, run[..j], serial);
      CompletionStep(After(l, run[..j]), l, run[j], record);
    } else {
      assert run[..n][..j] == run[..j];
      CompletionsAreQueued(l, run[..n], j, record);
      if i: nat :| j < i && QueuedAt(l, run[..n], i, serial, record) {
        QueuedBefore(l, run, i, serial, record);
      } else {
        RunKeepsInv(l, run[..n]);
        hide Inv;
        OnItsWayStep(After(l, run[..n]), l, run[n], serial, record);
        if run[n] == Enqueues(serial) {
          QueuedNow(l, run, serial, record);
        }
      }
    }
  }

  lemma QueuedBefore(l: Limits, run: seq<Event>, i: nat, serial: Serial, record: Record)
    requires run != [] && QueuedAt(l, run[..|run| - 1], i, serial, record)
    ensures QueuedAt(l, run, i, serial, record)
  {
    hide After;
    var n := |run| - 1;
    assert run[..n][..i + 1] == run[..i + 1] && run[..n][..i] == run[..i];
  }

  lemma QueuedNow(l: Limits, run: seq<Event>, serial: Serial, record: Record)
    requires run != [] && run[|run| - 1] == Enqueues(serial)
    requires After(l, run).pipe.enqueued == After(l, run[..|run| - 1]).pipe.enqueued + [record]
    ensures QueuedAt(l, run, |run| - 1, serial, record)
  {
    hide After;
    assert run[..|run|] == run;
  }

  lemma {:induction false} QueuedStays(l: Limits, run: seq<Event>, i: nat, serial: Serial, record: Record)
    requires QueuedAt(l, run, i, serial, record)
    ensures record in After(l, run).pipe.enqueued
    decreases |run|
  {
    hide After;
    hide Step;
    var n := |run| - 1;
    assert run[..|run|] == run;
    LastIsStep(l, run);
    if i < n {
      assert run[..n][..i + 1] == run[..i + 1] && run[..n][..i] == run[..i];
      QueuedStays(l, run[..n], i, serial, record);
      EnqueuedGrows(After(l, run[..n]), l, run[n]);
    }
  }

  lemma EnqueuedGrows(w: World, l: Limits, e: Event)
    ensures w.pipe.enqueued <= Step(w, l, e).pipe.enqueued
  {
  }

  /** Once the writer is done, the record of every completed reservation was written. */
  lemma CompletionsAreWritten(l: Limits, run: seq<Event>, j: nat, record: Record)
    requires j < |run| && run[j].Completes? && Owns(After(l, run[..j]).life, run[j].request, run[j].serial)
    requires StagedLast(l, run[..j], run[j].serial) == Some(record) && After(l, run).gate.done
    ensures record in After(l, run).pipe.flushed
  {
    CompletionsAreQueued(l, run, j, record);
    NothingIsLost(l, run);
    assert !OnItsWay(After(l, run), run[j].serial, record);
    hide After;
    hide QueuedAt;
    var i: nat :| QueuedAt(l, run, i, run[j].serial, record);
    QueuedStays(l, run, i, run[j].serial, record);
  }

  // 4. Nobody waits for longer than there is work

  /** After any run a caller that asks gets its permit exactly if fewer are out than there are. */
  lemma PermitExactlyIfRoom(l: Limits, run: seq<Event>, caller: nat, request: Id)
    requires caller !in After(l, run).callers.entering && caller !in After(l, run).callers.leaving
    ensures var w := After(l, run);
            caller in Step(w, l, TakesPermit(caller, request)).callers.entering <==>
              Waiting(w.callers) + Owners(w.life) + Tokens(w.pipe) < l.capacity
  {
    RunKeepsInv(l, run);
    hide After;
    hide Waiting;
    hide Owners;
    hide Tokens;
  }

  predicate ByWriter(e: Event) {
    e.WriterReturnsPermit? || e.Flushes? || e.Dequeues?
  }

  lemma OneMoreStep(l: Limits, run: seq<Event>, e: Event)
    ensures After(l, run + [e]) == Step(After(l, run), l, e)
  {
    assert (run + [e])[..|run|] == run;
    LastIsStep(l, run + [e]);
    hide After;
    hide Step;
  }

  /** The writer returns its permit and flushes what it has. */
  lemma WriterFlushes(l: Limits, run: seq<Event>)
    requires !After(l, run).gate.done
    ensures var w, n := After(l, run), After(l, run + [WriterReturnsPermit, Flushes]);
            && n.pipe == Pipe(w.pipe.queue, false, [], w.pipe.flushed + w.pipe.batch, w.pipe.enqueued) && n.gate == w.gate
  {
    OneMoreStep(l, run, WriterReturnsPermit);
    OneMoreStep(l, run + [WriterReturnsPermit], Flushes);
    assert run + [WriterReturnsPermit] + [Flushes] == run + [WriterReturnsPermit, Flushes];
    hide After;
  }

  ghost predicate WritesAll(l: Limits, run: seq<Event>, more: seq<Event>) {
    && (forall k :: 0 <= k < |more| ==> ByWriter(more[k]))
    && var w, n := After(l, run).pipe, After(l, run + more).pipe;
       n.queue == [] && n.enqueued == w.enqueued && n.flushed == w.enqueued
  }

  /** From any moment before it is done the writer alone can write out all that was queued. */
  lemma {:induction false} WriterCatchesUp(l: Limits, run: seq<Event>) returns (more: seq<Event>)
    requires l.batchSize > 0 && !After(l, run).gate.done
    ensures WritesAll(l, run, more)
    decreases |After(l, run).pipe.queue|
  {
    var flush := [WriterReturnsPermit, Flushes];
    WriterFlushes(l, run);
    NothingIsLost(l, run + flush);
    var w, n := After(l, run), After(l, run + flush);
    hide After;
    if w.pipe.queue == [] {
      more := flush;
      assert n.pipe.flushed + [] + [] == n.pipe.flushed;
    } else {
      OneMoreStep(l, run + flush, Dequeues);
      assert Step(n, l, Dequeues).pipe.queue == w.pipe.queue[1..];
      var rest := WriterCatchesUp(l, run + flush + [Dequeues]);
      more := flush + [Dequeues] + rest;
      assert run + flush + [Dequeues] + rest == run + more;
    }
  }
}
