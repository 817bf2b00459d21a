/** One breaker over every run of acquisitions, observations and completions, each completion taking
effect at most once. The world remembers who acquired what and how it ended, so that the breaker's
few fields can be compared with what really happened. */
module BreakerRuns {
  import opened ExpiryQueue
  import opened CircuitBreaker

  datatype Ending = Ending(ticket: Ticket, outcome: Outcome, at: Time)

  datatype World = World(m: Machine, pending: map<nat, Ticket>, ended: map<nat, Ending>, next: nat)

  const Start := World(Fresh, map[], map[], 0)

  datatype Event =
    | AcquireAt(now: Time)
    | ObserveAt(now: Time)
    | CompleteAs(id: nat, outcome: Outcome, at: Time)

  function Completed(w: World, o: Options, id: nat, outcome: Outcome, at: Time): World
    requires id in w.pending
  {
    var t := w.pending[id];
    World(Complete(w.m, o, t, outcome, at), w.pending - {id}, w.ended[id := Ending(t, outcome, at)], w.next)
  }

  function Step(w: World, o: Options, e: Event): World {
    match e
    case AcquireAt(now) =>
      var (m, ticket) := Acquire(w.m, o, now);
      if ticket.None? then w.(m := m)
      else w.(m := m, pending := w.pending[w.next := ticket.value], next := w.next + 1)
    case ObserveAt(now) => w.(m := Observe(w.m, o, now))
    case CompleteAs(id, outcome, at) => if id in w.pending then Completed(w, o, id, outcome, at) else w
  }

  function After(o: Options, run: seq<Event>): World {
    if run == [] then Start else Step(After(o, run[..|run| - 1]), o, run[|run| - 1])
  }

  function Probe(m: Machine): Ticket {
    Ticket(m.generation, true)
  }

  function Outstanding(w: World): set<nat> {
    set id | id in w.pending && w.pending[id] == Probe(w.m)
  }

  predicate Belongs(t: Ticket, m: Machine) {
    t.generation <= m.generation && (t.generation == m.generation ==> m.state != Open && (t.probe <==> m.state == HalfOpen))
  }

  ghost predicate Known(w: World) {
    && (forall id :: id in w.pending ==> id < w.next && Belongs(w.pending[id], w.m))
    && (forall id :: id in w.ended ==> id < w.next && id !in w.pending && Belongs(w.ended[id].ticket, w.m))
  }

  /** The half-open fields tell exactly what the probes of this generation have shown. */
  ghost predicate ProbesTold(w: World) {
    && w.m.probes == |Outstanding(w)|
    && (w.m.state == HalfOpen ==>
          && (forall id :: id in w.ended && w.ended[id].ticket == Probe(w.m) ==> w.ended[id].outcome != Failure)
          && (w.m.succeeded <==> exists id :: id in w.ended && w.ended[id].ticket == Probe(w.m) && w.ended[id].outcome == Success))
  }

  ghost predicate Inv(w: World, o: Options) {
    Sane(w.m, o) && Known(w) && ProbesTold(w)
  }

  // Preservation

  lemma SameGenerationProbes(w: World, m: Machine)
    requires m.generation == w.m.generation
    ensures Outstanding(w.(m := m)) == Outstanding(w)
  {
  }

  lemma NewGenerationProbes(w: World, m: Machine)
    requires Known(w) && m.generation > w.m.generation
    ensures Outstanding(w.(m := m)) == {}
  {
  }

  lemma HalfOpening(w: World, o: Options, now: Time)
    requires ValidOptions(o) && Inv(w, o)
    ensures Inv(w.(m := HalfOpenIfDue(w.m, o, now)), o)
  {
    var m := HalfOpenIfDue(w.m, o, now);
    if m != w.m {
      NewGenerationProbes(w, m);
      assert forall id :: id in w.ended ==> w.ended[id].ticket != Probe(m);
    } else {
      assert w.(m := m) == w;
    }
  }

  lemma Pruned(w: World, o: Options, cutoff: Time)
    requires Inv(w, o) && w.m.state == Closed
    ensures Inv(w.(m := w.m.(failures := Prune(w.m.failures, cutoff))), o)
  {
    var m := w.m.(failures := Prune(w.m.failures, cutoff));
    SameGenerationProbes(w, m);
    hide Outstanding;
  }

  lemma Granted(w: World, o: Options, t: Ticket)
    requires Inv(w, o) && Belongs(t, w.m) && t.generation == w.m.generation
    requires t.probe ==> !w.m.succeeded && w.m.probes < o.maxProbes
    ensures var m := if t.probe then w.m.(probes := w.m.probes + 1) else w.m;
            Inv(w.(m := m, pending := w.pending[w.next := t], next := w.next + 1), o)
  {
    var m := if t.probe then w.m.(probes := w.m.probes + 1) else w.m;
    var v := w.(m := m, pending := w.pending[w.next := t], next := w.next + 1);
    if t.probe {
      assert Outstanding(v) == Outstanding(w) + {w.next};
      assert w.next !in Outstanding(w);
    } else {
      forall x
        ensures x in Outstanding(v) <==> x in Outstanding(w)
      {
      }
      assert Outstanding(v) == Outstanding(w);
    }
    hide Outstanding;
  }

  lemma AcquireKeepsInv(w: World, o: Options, now: Time)
    requires ValidOptions(o) && Inv(w, o)
    ensures Inv(Step(w, o, AcquireAt(now)), o) && Inv(Step(w, o, ObserveAt(now)), o)
  {
    hide Inv;
    HalfOpening(w, o, now);
    var h := w.(m := HalfOpenIfDue(w.m, o, now));
    hide HalfOpenIfDue;
    hide Prune;
    if h.m.state == Closed {
      Pruned(h, o, now - o.window);
      var p := h.(m := h.m.(failures := Prune(h.m.failures, now - o.window)));
      Granted(p, o, Ticket(h.m.generation, false));
    } else if h.m.state == HalfOpen && !h.m.succeeded && h.m.probes < o.maxProbes {
      Granted(h, o, Probe(h.m));
    }
  }

  lemma CompletionKnown(w: World, o: Options, id: nat, outcome: Outcome, at: Time)
    requires ValidOptions(o) && Inv(w, o) && id in w.pending
    ensures Known(Completed(w, o, id, outcome, at))
  {
    hide ProbesTold;
    hide Prune;
    hide Latest;
  }

  lemma FewerOutstanding(w: World, o: Options, id: nat, outcome: Outcome, at: Time)
    requires id in w.pending && Complete(w.m, o, w.pending[id], outcome, at).generation == w.m.generation
    ensures Outstanding(Completed(w, o, id, outcome, at)) == Outstanding(w) - {id}
    ensures w.pending[id] == Probe(w.m) <==> id in Outstanding(w)
  {
    hide Complete;
    var v := Completed(w, o, id, outcome, at);
    forall x
      ensures x in Outstanding(v) <==> x in Outstanding(w) - {id}
    {
    }
  }

  lemma CompletionSameGeneration(w: World, o: Options, id: nat, outcome: Outcome, at: Time)
    requires ValidOptions(o) && Inv(w, o) && id in w.pending
    requires Complete(w.m, o, w.pending[id], outcome, at).generation == w.m.generation
    ensures ProbesTold(Completed(w, o, id, outcome, at))
  {
    hide Prune;
    hide Latest;
    hide Outstanding;
    var v := Completed(w, o, id, outcome, at);
    FewerOutstanding(w, o, id, outcome, at);
    if w.pending[id] != Probe(w.m) {
      assert Outstanding(v) == Outstanding(w);
    }
    assert v.ended[id].outcome == outcome;
    assert forall i :: i in w.ended ==> i in v.ended && v.ended[i] == w.ended[i];
  }

  lemma CompletionProbes(w: World, o: Options, id: nat, outcome: Outcome, at: Time)
    requires ValidOptions(o) && Inv(w, o) && id in w.pending
    ensures ProbesTold(Completed(w, o, id, outcome, at))
  {
    hide Prune;
    hide Latest;
    var v := Completed(w, o, id, outcome, at);
    if v.m.generation > w.m.generation {
      NewGenerationProbes(w, v.m);
      assert Outstanding(v) == {};
      assert forall i :: i in v.ended ==> v.ended[i].ticket != Probe(v.m);
    } else {
      CompletionSameGeneration(w, o, id, outcome, at);
    }
    hide Outstanding;
  }

  lemma StepKeepsInv(w: World, o: Options, e: Event)
    requires ValidOptions(o) && Inv(w, o)
    ensures Inv(Step(w, o, e), o)
  {
    match e
    case AcquireAt(now) => AcquireKeepsInv(w, o, now);
    case ObserveAt(now) => AcquireKeepsInv(w, o, now);
    case CompleteAs(id, outcome, at) =>
      if id in w.pending {
        CompleteSane(w.m, o, w.pending[id], outcome, at);
        CompletionKnown(w, o, id, outcome, at);
        CompletionProbes(w, o, id, outcome, at);
        hide Complete;
      }
      hide Known;
      hide ProbesTold;
    }

  /** In every run the breaker's fields tell the truth about the attempts made through it. */
  lemma {:induction false} RunKeepsInv(o: Options, run: seq<Event>)
    requires ValidOptions(o)
    ensures Inv(After(o, run), o)
    decreases |run|
  {
    if run == [] {
      assert Outstanding(Start) == {};
    } else {
      RunKeepsInv(o, run[..|run| - 1]);
      StepKeepsInv(After(o, run[..|run| - 1]), o, run[|run| - 1]);
      hide Inv;
      hide Step;
    }
  }

  // What the invariant means

  /** A half-open circuit is never stuck: a probe is still out, or the next acquisition is one. */
  lemma HalfOpenIsNeverStuck(o: Options, run: seq<Event>, now: Time)
    requires ValidOptions(o) && After(o, run).m.state == HalfOpen
    ensures var w := After(o, run);
            && |Outstanding(w)| <= o.maxProbes
            && (Outstanding(w) != {} || Acquire(w.m, o, now).1 == Some(Probe(w.m)))
  {
    RunKeepsInv(o, run);
  }

  /** The circuit closes only when no probe of the generation is still out, one of them succeeded
  and none failed. */
  lemma ClosesOnlyWhenResolved(o: Options, run: seq<Event>, e: Event)
    requires ValidOptions(o) && After(o, run).m.state == HalfOpen && Step(After(o, run), o, e).m.state == Closed
    ensures var w, v := After(o, run), Step(After(o, run), o, e);
            && (forall id :: id in v.pending ==> v.pending[id] != Probe(w.m))
            && (forall id :: id in v.ended && v.ended[id].ticket == Probe(w.m) ==> v.ended[id].outcome != Failure)
            && (exists id :: id in v.ended && v.ended[id].ticket == Probe(w.m) && v.ended[id].outcome == Success)
  {
    RunKeepsInv(o, run);
    var w, v := After(o, run), Step(After(o, run), o, e);
    hide After;
    ClosingStep(w, o, e);
    hide Step;
    LastOne(Outstanding(w), e.id);
    forall id | id in v.pending
      ensures v.pending[id] != Probe(w.m)
    {
      assert id in w.pending && v.pending[id] == w.pending[id] && id !in Outstanding(w);
    }
    var last := if e.outcome == Success then e.id else EarlierSuccess(w);
    assert last in v.ended && v.ended[last].ticket == Probe(w.m) && v.ended[last].outcome == Success;
  }

  ghost function EarlierSuccess(w: World): nat {
    if exists id :: id in w.ended && w.ended[id].ticket == Probe(w.m) && w.ended[id].outcome == Success then
      var id :| id in w.ended && w.ended[id].ticket == Probe(w.m) && w.ended[id].outcome == Success; id
    else 0
  }

  lemma LastOne(s: set<nat>, x: nat)
    requires |s| == 1 && x in s
    ensures s == {x}
  {
    var rest := s - {x};
    assert s == rest + {x};
    assert |rest| == 0;
  }

  /** The only step that closes a half-open circuit ends its last probe, which did not fail. */
  lemma ClosingStep(w: World, o: Options, e: Event)
    requires ValidOptions(o) && Inv(w, o) && w.m.state == HalfOpen && Step(w, o, e).m.state == Closed
    ensures e.CompleteAs? && e.id in Outstanding(w) && |Outstanding(w)| == 1 && e.outcome != Failure
    ensures e.outcome == Success || w.m.succeeded
    ensures var v := Step(w, o, e); v.pending == w.pending - {e.id} && v.ended == w.ended[e.id := Ending(Probe(w.m), e.outcome, e.at)]
  {
    hide Prune;
    hide Latest;
    assert e.CompleteAs? && e.id in w.pending && w.pending[e.id] == Probe(w.m);
    assert e.id in Outstanding(w);
    hide Outstanding;
  }

  // The closed circuit opens on a burst

  ghost predicate Distinct(ids: seq<nat>) {
    forall i, j :: 0 <= i < j < |ids| ==> ids[i] != ids[j]
  }

  /** The recorded failures are those of these attempts, all different. */
  ghost predicate Named(ended: map<nat, Ending>, ids: seq<nat>, failures: seq<Time>) {
    |ids| == |failures| && Distinct(ids) && forall i :: 0 <= i < |ids| ==> ids[i] in ended && ended[ids[i]].at == failures[i]
  }

  ghost predicate Blamed(w: World, ids: seq<nat>, g: nat) {
    forall id :: id in ids ==> id in w.ended && w.ended[id].ticket == Ticket(g, false) && w.ended[id].outcome == Failure
  }

  lemma {:induction false} PruneNames(ended: map<nat, Ending>, ids: seq<nat>, failures: seq<Time>, cutoff: Time)
    returns (kept: seq<nat>)
    requires Named(ended, ids, failures)
    ensures Named(ended, kept, Prune(failures, cutoff)) && forall id :: id in kept ==> id in ids
    decreases |ids|
  {
    kept := [];
    if failures != [] {
      var n := |failures| - 1;
      kept := PruneNames(ended, ids[..n], failures[..n], cutoff);
      if failures[n] >= cutoff {
        assert ids[n] !in ids[..n];
        kept := kept + [ids[n]];
      }
    }
  }

  lemma {:induction false} PruneBounds(failures: seq<Time>, cutoff: Time)
    ensures forall t :: t in Prune(failures, cutoff) ==> cutoff <= t && t in failures
    decreases |failures|
  {
    if failures != [] {
      PruneBounds(failures[..|failures| - 1], cutoff);
    }
  }

  function Ids(s: seq<nat>): set<nat> {
    set id | id in s
  }

  lemma {:induction false} DistinctSize(s: seq<nat>)
    requires Distinct(s)
    ensures |Ids(s)| == |s|
    decreases |s|
  {
    if s == [] {
      assert Ids(s) == {};
    } else {
      var init, last := s[..|s| - 1], s[|s| - 1];
      DistinctSize(init);
      assert s == init + [last];
      assert Ids(s) == Ids(init) + {last};
      assert last !in Ids(init);
    }
  }

  /** With one more failure the attempts to blame are one more. */
  lemma BlameOne(w: World, v: World, ids: seq<nat>, id: nat, at: Time, g: nat)
    requires Named(w.ended, ids, w.m.failures) && Blamed(w, ids, g)
    requires id !in w.ended && v.ended == w.ended[id := Ending(Ticket(g, false), Failure, at)]
    ensures Named(v.ended, ids + [id], w.m.failures + [at]) && Blamed(v, ids + [id], g)
  {
  }

  /** Other steps that leave the circuit closed only forget failures. */
  lemma BlameStays(w: World, v: World, ids: seq<nat>, g: nat, cutoff: Time) returns (kept: seq<nat>)
    requires Named(w.ended, ids, w.m.failures) && Blamed(w, ids, g)
    requires forall id :: id in w.ended ==> id in v.ended && v.ended[id] == w.ended[id]
    ensures Named(v.ended, kept, Prune(w.m.failures, cutoff)) && Blamed(v, kept, g)
    ensures Named(v.ended, ids, w.m.failures) && Blamed(v, ids, g)
  {
    kept := PruneNames(w.ended, ids, w.m.failures, cutoff);
  }

  lemma BlameStep(w: World, o: Options, e: Event, ids: seq<nat>) returns (next: seq<nat>)
    requires ValidOptions(o) && Inv(w, o) && Step(w, o, e).m.state == Closed
    requires w.m.state == Closed ==> Named(w.ended, ids, w.m.failures) && Blamed(w, ids, w.m.generation)
    ensures var v := Step(w, o, e); Named(v.ended, next, v.m.failures) && Blamed(v, next, v.m.generation)
  {
    hide Prune;
    hide Latest;
    hide Named;
    hide Blamed;
    var v := Step(w, o, e);
    var g := w.m.generation;
    if w.m.state != Closed {
      next := [];
      assert v.m.failures == [];
      assert Named(v.ended, next, v.m.failures) && Blamed(v, next, v.m.generation) by {
        NothingNamed(v);
      }
    } else if e.CompleteAs? && v.m != w.m {
      BlameOne(w, v, ids, e.id, e.at, g);
      var all := w.m.failures + [e.at];
      next := BlameStays(v.(m := w.m.(failures := all)), v, ids + [e.id], g, Latest(all) - o.window) by {
        BlamedAlone(v, v.(m := w.m.(failures := all)), ids + [e.id], g);
      }
    } else {
      var cutoff := if e.CompleteAs? then 0 else e.now - o.window;
      next := BlameStays(w, v, ids, g, cutoff);
      if e.CompleteAs? {
        next := ids;
      }
    }
  }

  lemma NothingNamed(v: World)
    ensures Named(v.ended, [], []) && Blamed(v, [], v.m.generation)
  {
  }

  lemma BlamedAlone(v: World, u: World, ids: seq<nat>, g: nat)
    requires Blamed(v, ids, g) && u.ended == v.ended
    ensures Blamed(u, ids, g)
  {
  }

  /** Each failure a closed circuit holds against its backend is that of a different attempt, acquired
  in the present generation. */
  lemma {:induction false} FailuresAreReal(o: Options, run: seq<Event>) returns (ids: seq<nat>)
    requires ValidOptions(o)
    ensures var w := After(o, run);
            w.m.state == Closed ==> Named(w.ended, ids, w.m.failures) && Blamed(w, ids, w.m.generation)
    decreases |run|
  {
    hide Step;
    hide Inv;
    hide Named;
    hide Blamed;
    ids := [];
    if run == [] {
      NothingNamed(Start);
    } else {
      var init := run[..|run| - 1];
      ids := FailuresAreReal(o, init);
      RunKeepsInv(o, init);
      if After(o, run).m.state == Closed {
        ids := BlameStep(After(o, init), o, run[|run| - 1], ids);
      }
    }
  }

  lemma OpeningStep(w: World, o: Options, e: Event)
    requires ValidOptions(o) && Inv(w, o) && w.m.state == Closed && Step(w, o, e).m.state == Open
    ensures e.CompleteAs? && e.id !in w.ended
    ensures Step(w, o, e).ended == w.ended[e.id := Ending(Ticket(w.m.generation, false), Failure, e.at)]
    ensures var all := w.m.failures + [e.at]; |Prune(all, Latest(all) - o.window)| >= o.threshold
  {
    hide Prune;
    hide Latest;
    hide ProbesTold;
  }

  lemma WindowNames(ended: map<nat, Ending>, ids: seq<nat>, all: seq<Time>, window: int) returns (burst: set<nat>, from: Time)
    requires all != [] && Named(ended, ids, all)
    ensures |burst| == |Prune(all, Latest(all) - window)|
    ensures forall id :: id in burst ==> id in ids && id in ended && from <= ended[id].at <= from + window
  {
    from := Latest(all) - window;
    var kept := PruneNames(ended, ids, all, from);
    PruneBounds(all, from);
    LatestMeaning(all);
    DistinctSize(kept);
    hide Latest;
    hide Prune;
    burst := Ids(kept);
    forall id | id in burst
      ensures from <= ended[id].at <= from + window
    {
      var i :| 0 <= i < |kept| && kept[i] == id;
      assert Prune(all, from)[i] in Prune(all, from);
    }
  }

  /** A closed circuit opens only on at least `threshold` failures of different attempts, all acquired
  in the generation that ends and all inside one window. */
  lemma OpensOnlyOnBurst(o: Options, run: seq<Event>, e: Event) returns (burst: set<nat>, from: Time)
    requires ValidOptions(o) && After(o, run).m.state == Closed && Step(After(o, run), o, e).m.state == Open
    ensures |burst| >= o.threshold
    ensures var w, v := After(o, run), Step(After(o, run), o, e);
            forall id :: id in burst ==>
              && id in v.ended && v.ended[id].ticket == Ticket(w.m.generation, false) && v.ended[id].outcome == Failure
              && from <= v.ended[id].at <= from + o.window
  {
    hide Prune;
    hide Latest;
    hide Step;
    hide Inv;
    hide Named;
    var ids := FailuresAreReal(o, run);
    RunKeepsInv(o, run);
    var w, v := After(o, run), Step(After(o, run), o, e);
    hide After;
    OpeningStep(w, o, e);
    BlameOne(w, v, ids, e.id, e.at, w.m.generation);
    burst, from := WindowNames(v.ended, ids + [e.id], w.m.failures + [e.at], o.window);
  }
}
