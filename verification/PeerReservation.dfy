/** A completion reservation shared by several observers: staging, completion and rollback may be
called from different goroutines, and any observer may panic. Each event is a stretch of code under
the reservation's lock, or one call into an observer. */
module PeerReservation {
  import opened ExpiryQueue

  datatype PeerState = Pending | Completing | Completed | RolledBack

  /** The goroutine that completes the peers: which peer it is at, and whether it is between peers,
  inside the peer's callback, or back from it. */
  datatype Stage = Between | Calling | Returned
  datatype Completer = Completer(index: nat, stage: Stage)

  datatype World = World(
    states: seq<PeerState>, stageStarted: bool, staging: bool, staged: bool, finished: bool,
    completer: Option<Completer>,
    todo: seq<nat>,          // rollbacks taken and not yet invoked
    returned: set<nat>,      // peers whose completion returned normally
    rolledBack: seq<nat>)    // rollbacks invoked, in order

  function Fresh(n: nat): World {
    World(seq(n, _ => Pending), false, false, false, false, None, [], {}, [])
  }

  predicate Open(s: PeerState) {
    s == Pending || s == Completing
  }

  /** The peers at or after `start` that are still open, the last one first. */
  function Actions(states: seq<PeerState>, start: nat): seq<nat>
    decreases |states|
  {
    if |states| <= start then []
    else
      var last, rest := |states| - 1, Actions(states[..|states| - 1], start);
      if Open(states[last]) then [last] + rest else rest
  }

  function Abandoned(states: seq<PeerState>, start: nat): seq<PeerState> {
    seq(|states|, i requires 0 <= i < |states| => if i >= start && Open(states[i]) then RolledBack else states[i])
  }

  function TakeRollbacks(w: World, start: nat): World {
    w.(states := Abandoned(w.states, start), todo := w.todo + Actions(w.states, start))
  }

  datatype Event =
    | StageBegins | StageEnds(ok: bool)
    | CompleteBegins | CompleteNext | PeerReturns | PeerPanics | CompleteMarks
    | RollbackBegins | RollbackInvokes

  function Step(w: World, e: Event): World {
    match e
    case StageBegins => if w.stageStarted || w.finished then w else w.(stageStarted := true, staging := true)
    case StageEnds(ok) => if w.staging then w.(staging := false, staged := ok) else w
    case CompleteBegins =>
      if w.finished || w.staging || (w.stageStarted && !w.staged) then w
      else w.(finished := true, completer := Some(Completer(0, Between)))
    case CompleteNext => if w.completer.Some? && w.completer.value.stage == Between then Next(w, w.completer.value.index) else w
    case PeerReturns =>
      if w.completer.Some? && w.completer.value.stage == Calling then
        w.(returned := w.returned + {w.completer.value.index}, completer := Some(w.completer.value.(stage := Returned)))
      else w
    case PeerPanics =>
      if w.completer.Some? && w.completer.value.stage == Calling then
        TakeRollbacks(w, w.completer.value.index).(completer := None)
      else w
    case CompleteMarks => if w.completer.Some? && w.completer.value.stage == Returned then Mark(w, w.completer.value.index) else w
    case RollbackBegins => if w.finished then w else TakeRollbacks(w, 0).(finished := true)
    case RollbackInvokes => if w.todo == [] then w else w.(todo := w.todo[1..], rolledBack := w.rolledBack + [w.todo[0]])
  }

  function Next(w: World, i: nat): World {
    if i >= |w.states| then w.(completer := None)
    else if w.states[i] != Pending then w.(completer := Some(Completer(i + 1, Between)))
    else w.(states := w.states[i := Completing], completer := Some(Completer(i, Calling)))
  }

  function Mark(w: World, i: nat): World {
    w.(states := if i < |w.states| && w.states[i] == Completing then w.states[i := Completed] else w.states,
       completer := Some(Completer(i + 1, Between)))
  }

  function After(n: nat, run: seq<Event>): World {
    if run == [] then Fresh(n) else Step(After(n, run[..|run| - 1]), run[|run| - 1])
  }

  // What every run keeps

  function Descending(n: nat, cut: nat): seq<nat> {
    if n <= cut then [] else [n - 1] + Descending(n - 1, cut)
  }

  /** The first `cut` peers completed and the others are in state `s`. */
  predicate Split(states: seq<PeerState>, cut: nat, s: PeerState) {
    cut <= |states| && forall i :: 0 <= i < |states| ==> states[i] == if i < cut then Completed else s
  }

  ghost predicate Below(returned: set<nat>, cut: nat) {
    forall i: nat :: i in returned <==> i < cut
  }

  predicate Untouched(w: World) {
    w.completer.None? && Split(w.states, 0, Pending) && w.returned == {} && w.todo == [] && w.rolledBack == []
  }

  ghost predicate Running(w: World) {
    w.completer.Some? && w.todo == [] && w.rolledBack == []
    && var c := w.completer.value;
       && c.index <= |w.states| && (c.stage != Between ==> c.index < |w.states|)
       && (forall i :: 0 <= i < |w.states| ==>
             w.states[i] == if i < c.index then Completed else if i == c.index && c.stage != Between then Completing else Pending)
       && Below(w.returned, if c.stage == Returned then c.index + 1 else c.index)
  }

  ghost predicate Resolved(w: World, cut: nat) {
    && w.completer.None? && Split(w.states, cut, RolledBack) && Below(w.returned, cut)
    && w.rolledBack + w.todo == Descending(|w.states|, cut)
  }

  ghost predicate Inv(w: World) {
    if !w.finished then Untouched(w) else Running(w) || exists cut: nat :: Resolved(w, cut)
  }

  lemma {:induction false} ActionsOfTail(states: seq<PeerState>, start: nat)
    requires forall i :: start <= i < |states| ==> Open(states[i])
    ensures Actions(states, start) == Descending(|states|, start)
    decreases |states|
  {
    if |states| > start {
      ActionsOfTail(states[..|states| - 1], start);
    }
  }

  lemma {:induction false} DescendingAt(n: nat, cut: nat, i: nat)
    requires cut <= n && i < n - cut
    ensures |Descending(n, cut)| == n - cut && Descending(n, cut)[i] == n - 1 - i
    decreases n
  {
    if n > cut + 1 {
      DescendingAt(n - 1, cut, if i > 0 then i - 1 else 0);
    }
  }

  lemma StepKeepsSize(w: World, e: Event)
    ensures |Step(w, e).states| == |w.states|
  {
  }

  lemma RollbackResolves(w: World)
    requires !w.finished && Untouched(w)
    ensures Resolved(Step(w, RollbackBegins), 0)
  {
    ActionsOfTail(w.states, 0);
  }

  lemma PanicResolves(w: World)
    requires Running(w) && w.completer.value.stage == Calling
    ensures Resolved(Step(w, PeerPanics), w.completer.value.index)
  {
    ActionsOfTail(w.states, w.completer.value.index);
  }

  lemma EndResolves(w: World)
    requires Running(w) && w.completer.value == Completer(|w.states|, Between)
    ensures Resolved(Step(w, CompleteNext), |w.states|)
  {
  }

  lemma RunningStep(w: World, e: Event)
    requires w.finished && Running(w)
    ensures Inv(Step(w, e)) && Step(w, e).finished
  {
    if e.PeerPanics? && w.completer.value.stage == Calling {
      PanicResolves(w);
    } else if e.CompleteNext? && w.completer.value == Completer(|w.states|, Between) {
      EndResolves(w);
    } else {
      assert Running(Step(w, e));
    }
  }

  lemma ResolvedStep(w: World, e: Event, cut: nat)
    requires w.finished && Resolved(w, cut)
    ensures Resolved(Step(w, e), cut) && Step(w, e).finished
  {
    if e.RollbackInvokes? && w.todo != [] {
      assert w.todo == [w.todo[0]] + w.todo[1..];
      assert w.rolledBack + [w.todo[0]] + w.todo[1..] == w.rolledBack + w.todo;
    }
  }

  lemma StepKeepsInv(w: World, e: Event)
    requires Inv(w)
    ensures Inv(Step(w, e)) && (w.finished ==> Step(w, e).finished)
  {
    if !w.finished {
      if e.RollbackBegins? {
        RollbackResolves(w);
      } else if e.CompleteBegins? && Step(w, e).finished {
        assert Running(Step(w, e));
      }
    } else if Running(w) {
      RunningStep(w, e);
    } else {
      var cut: nat :| Resolved(w, cut);
      ResolvedStep(w, e, cut);
    }
  }

  lemma {:induction false} RunKeepsInv(n: nat, run: seq<Event>)
    ensures Inv(After(n, run)) && |After(n, run).states| == n
    decreases |run|
  {
    hide Step;
    if run != [] {
      RunKeepsInv(n, run[..|run| - 1]);
      StepKeepsInv(After(n, run[..|run| - 1]), run[|run| - 1]);
      StepKeepsSize(After(n, run[..|run| - 1]), run[|run| - 1]);
    }
  }

  // The promises

  /** However stage, complete and rollback interleave and whatever panics: peers are rolled back in
  reverse order, each at most once, and none whose completion returned normally. */
  lemma RollbacksAreOrderly(n: nat, run: seq<Event>)
    ensures var w := After(n, run);
            && (forall i, j :: 0 <= i < j < |w.rolledBack| ==> w.rolledBack[i] > w.rolledBack[j])
            && (forall i :: 0 <= i < |w.rolledBack| ==> w.rolledBack[i] < n && w.rolledBack[i] !in w.returned)
  {
    RunKeepsInv(n, run);
    var w := After(n, run);
    hide After;
    if w.finished && !Running(w) {
      var cut: nat :| Resolved(w, cut);
      forall i | 0 <= i < |w.rolledBack|
        ensures w.rolledBack[i] == n - 1 - i && cut <= w.rolledBack[i] < n
      {
        assert (w.rolledBack + w.todo)[i] == w.rolledBack[i];
        DescendingSize(n, cut);
        DescendingAt(n, cut, i);
      }
    }
  }

  lemma {:induction false} DescendingSize(n: nat, cut: nat)
    ensures cut <= n ==> |Descending(n, cut)| == n - cut
    decreases n
  {
    if n > cut {
      DescendingSize(n - 1, cut);
    }
  }

  /** Once completion or rollback has won and run its course, every peer either completed or was
  rolled back, never both. */
  lemma EveryPeerIsResolved(n: nat, run: seq<Event>, i: nat)
    requires var w := After(n, run); w.finished && w.completer.None? && w.todo == [] && i < n
    ensures var w := After(n, run);
            && (i in w.returned <==> i !in w.rolledBack)
            && |w.states| == n && w.states[i] == if i in w.returned then Completed else RolledBack
  {
    RunKeepsInv(n, run);
    var w := After(n, run);
    hide After;
    var cut: nat :| Resolved(w, cut);
    assert w.rolledBack == Descending(n, cut);
    DescendingSize(n, cut);
    if i < cut {
      forall k | 0 <= k < |w.rolledBack|
        ensures w.rolledBack[k] != i
      {
        DescendingAt(n, cut, k);
      }
    } else {
      DescendingAt(n, cut, n - 1 - i);
      assert w.rolledBack[n - 1 - i] == i;
    }
  }

  predicate Begins(e: Event) {
    e == CompleteBegins || e == RollbackBegins
  }

  lemma BeginningFinishes(w: World, e: Event)
    ensures w.finished ==> Step(w, e).finished && (Begins(e) ==> Step(w, e) == w)
    ensures Begins(e) && Step(w, e) != w ==> Step(w, e).finished
  {
  }

  lemma {:induction false} FinishedStays(n: nat, run: seq<Event>, i: nat, j: nat)
    requires i <= j <= |run| && After(n, run[..i]).finished
    ensures After(n, run[..j]).finished
    decreases j
  {
    hide Step;
    if i == j {
    } else {
      FinishedStays(n, run, i, j - 1);
      assert run[..j][..j - 1] == run[..j - 1];
      BeginningFinishes(After(n, run[..j - 1]), run[j - 1]);
    }
  }

  /** Only one of completion and rollback ever takes effect: once either has begun, beginning either of
  them again changes nothing for the rest of the run. */
  lemma FirstWins(n: nat, run: seq<Event>, i: nat, j: nat)
    requires i < j < |run| && Begins(run[i]) && Begins(run[j]) && After(n, run[..i + 1]) != After(n, run[..i])
    ensures After(n, run[..j + 1]) == After(n, run[..j])
  {
    hide Step;
    assert run[..i + 1][..i] == run[..i];
    BeginningFinishes(After(n, run[..i]), run[i]);
    FinishedStays(n, run, i + 1, j);
    assert run[..j + 1][..j] == run[..j];
    BeginningFinishes(After(n, run[..j]), run[j]);
  }

  // Completion follows staging

  /** Staging began at `s`, for the first time. */
  predicate Begun(run: seq<Event>, s: nat) {
    s < |run| && run[s] == StageBegins && forall i :: 0 <= i < s ==> run[i] != StageBegins
  }

  /** The staging that began at `s` ended at `t`. */
  predicate Ended(run: seq<Event>, s: nat, t: nat) {
    s < t < |run| && run[t].StageEnds? && forall i :: s < i < t ==> !run[i].StageEnds?
  }

  predicate InStaging(run: seq<Event>, s: nat) {
    forall i :: s < i < |run| ==> !run[i].StageEnds?
  }

  lemma StagingStep(w: World, e: Event)
    requires !Step(w, e).finished
    ensures !w.finished
    ensures var n := Step(w, e);
            && (n.stageStarted <==> w.stageStarted || e == StageBegins)
            && (n.staging <==> (w.staging && !e.StageEnds?) || (e == StageBegins && !w.stageStarted))
            && n.staged == if w.staging && e.StageEnds? then e.ok else w.staged
  {
  }

  lemma {:induction false} StagingIsItsHistory(n: nat, run: seq<Event>) returns (s: nat, t: nat)
    requires !After(n, run).finished
    ensures var w := After(n, run);
            && (w.stageStarted <==> Begun(run, s))
            && (!w.stageStarted ==> StageBegins !in run && !w.staging)
            && (w.staging ==> w.stageStarted && InStaging(run, s))
            && (w.stageStarted && !w.staging ==> Ended(run, s, t) && w.staged == run[t].ok)
    decreases |run|
  {
    s, t := 0, 0;
    if run != [] {
      var k := |run| - 1;
      var w, e := After(n, run[..k]), run[k];
      StagingStep(w, e);
      s, t := StagingIsItsHistory(n, run[..k]);
      hide After;
      hide Step;
      assert run == run[..k] + [e];
      if !w.stageStarted && e == StageBegins {
        s := k;
      } else if w.staging && e.StageEnds? {
        t := k;
      }
    }
  }

  lemma OneEnd(run: seq<Event>, s: nat, b: nat)
    requires Ended(run, s, b)
    ensures !InStaging(run, s) && forall t: nat :: Ended(run, s, t) ==> t == b
  {
  }

  /** Nothing was staged, or the staging ended well. */
  ghost predicate MayComplete(run: seq<Event>) {
    StageBegins !in run || exists s: nat, t: nat :: Begun(run, s) && Ended(run, s, t) && run[t].ok
  }

  /** While neither has begun, a completion takes effect exactly if nothing was ever staged or the staging
  is over and no observer panicked in it. */
  lemma CompletionFollowsStaging(n: nat, run: seq<Event>)
    requires !After(n, run).finished
    ensures Step(After(n, run), CompleteBegins).finished <==> MayComplete(run)
  {
    var s, t := StagingIsItsHistory(n, run);
    var w := After(n, run);
    hide After;
    if w.stageStarted {
      assert run[s] in run;
      forall a: nat, b: nat | Begun(run, a) && Ended(run, a, b)
        ensures a == s && !w.staging && b == t
      {
        assert a == s;
        OneEnd(run, s, b);
      }
    }
  }

  // The loops

  class Reservation {
    const peers: array<PeerState>

    constructor (n: nat)
      ensures fresh(peers) && peers[..] == Fresh(n).states
    {
      peers := new PeerState[n](_ => Pending);
      new;
      assert peers[..] == Fresh(n).states;
    }

    /** Takes the rollbacks of the peers still open from `start` on, the last one first. */
    method TakeRollbackActions(start: nat) returns (actions: seq<nat>)
      requires start <= peers.Length
      modifies peers
      ensures actions == Actions(old(peers[..]), start) && peers[..] == Abandoned(old(peers[..]), start)
    {
      ghost var before := peers[..];
      actions := [];
      var index := peers.Length;
      assert before[..index] == before;
      while index > start
        invariant start <= index <= peers.Length
        invariant actions + Actions(before[..index], start) == Actions(before, start)
        invariant forall i :: 0 <= i < peers.Length ==>
                    peers[i] == if i >= index && Open(before[i]) then RolledBack else before[i]
      {
        index := index - 1;
        assert before[..index + 1][..index] == before[..index];
        if peers[index] == Pending || peers[index] == Completing {
          peers[index] := RolledBack;
          actions := actions + [index];
        }
      }
    }

    /** Completes the peers in turn; `panics` says whose callback panics. The first panic ends the loop
    and rolls back that peer and those after it. */
    method CompleteAll(panics: seq<bool>) returns (actions: seq<nat>, ghost cut: nat)
      requires |panics| == peers.Length && forall i :: 0 <= i < peers.Length ==> peers[i] == Pending
      modifies peers
      ensures Split(peers[..], cut, RolledBack) && actions == Descending(peers.Length, cut)
      ensures forall i :: 0 <= i < cut ==> !panics[i]
      ensures cut < peers.Length ==> panics[cut]
    {
      for index := 0 to peers.Length
        invariant Split(peers[..], index, Pending) && forall i :: 0 <= i < index ==> !panics[i]
      {
        peers[index] := Completing;
        if panics[index] {
          ghost var before := peers[..];
          ActionsOfTail(before, index);
          actions := TakeRollbackActions(index);
          cut := index;
          return;
        }
        peers[index] := Completed;
      }
      return [], peers.Length;
    }
  }

  datatype Answer = Reserved | Declined(withRollback: bool) | Panicked

  predicate FirstRefusal(answers: seq<Answer>, k: nat) {
    k < |answers| && answers[k] != Reserved && forall i :: 0 <= i < k ==> answers[i] == Reserved
  }

  function UndoFrom(answer: Answer, k: nat): seq<nat> {
    (if answer == Declined(true) then [k] else []) + Descending(k, 0)
  }

  /** Reserves the peers in turn; `answers` are what they say. If one declines or panics, those already
  reserved are rolled back, the last one first, after the one that declined with a rollback of its own. */
  method ReserveAll(answers: seq<Answer>) returns (ok: bool, rollbacks: seq<nat>)
    ensures ok <==> forall i :: 0 <= i < |answers| ==> answers[i] == Reserved
    ensures ok ==> rollbacks == []
    ensures !ok ==> exists k: nat :: FirstRefusal(answers, k) && rollbacks == UndoFrom(answers[k], k)
  {
    rollbacks := [];
    for k := 0 to |answers|
      invariant forall i :: 0 <= i < k ==> answers[i] == Reserved
    {
      if answers[k] != Reserved {
        var reservation := new Reservation(k);
        var actions := reservation.TakeRollbackActions(0);
        ActionsOfTail(Fresh(k).states, 0);
        rollbacks := (if answers[k] == Declined(true) then [k] else []) + actions;
        assert FirstRefusal(answers, k) && rollbacks == UndoFrom(answers[k], k);
        return false, rollbacks;
      }
    }
    return true, [];
  }
}
