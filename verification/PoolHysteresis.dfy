/** The pressure state of a pool: it rises when the pressure stays above a threshold and recovers one
rank at a time when it stays below a lower one. */
module PoolHysteresis {
  import opened ExpiryQueue

  datatype PoolState = Normal | Busy | Saturated | Emergency | Unavailable

  datatype Thresholds = Thresholds(
    busy: real, saturated: real, emergency: real,
    busyRecovery: real, saturatedRecovery: real, emergencyRecovery: real,
    enterWindow: int, recoveryWindow: int)

  /** What the configuration insists on. */
  predicate Ordered(t: Thresholds) {
    t.busyRecovery < t.busy < t.saturatedRecovery < t.saturated < t.emergencyRecovery < t.emergency
  }

  datatype Observation = Observation(at: Time, best: real, allWaiting: bool, available: bool)

  datatype Candidate = Candidate(state: PoolState, since: Time)

  datatype Machine = Machine(current: PoolState, candidate: Option<Candidate>, last: Option<Time>)

  const Fresh := Machine(Normal, None, None)

  function Rank(s: PoolState): int {
    match s
    case Normal => 0
    case Busy => 1
    case Saturated => 2
    case Emergency => 3
    case Unavailable => -1
  }

  function Instantaneous(t: Thresholds, o: Observation): PoolState {
    if o.best >= t.emergency then Emergency
    else if o.best >= t.saturated || o.allWaiting then Saturated
    else if o.best >= t.busy then Busy
    else Normal
  }

  /** The state this observation votes for, seen from `current`. */
  function Vote(t: Thresholds, current: PoolState, o: Observation): PoolState {
    var now := Instantaneous(t, o);
    if Rank(now) > Rank(current) then now
    else
      match current
      case Emergency => if o.best < t.emergencyRecovery then Saturated else Emergency
      case Saturated => if o.best < t.saturatedRecovery && !o.allWaiting then Busy else Saturated
      case Busy => if o.best < t.busyRecovery then Normal else Busy
      case Normal => Normal
      case Unavailable => Unavailable
  }

  function Window(t: Thresholds, from: PoolState, to: PoolState): int {
    if Rank(to) > Rank(from) then t.enterWindow else t.recoveryWindow
  }

  predicate Ignored(m: Machine, o: Observation) {
    m.last.Some? && o.at < m.last.value
  }

  function Observed(m: Machine, t: Thresholds, o: Observation): Machine {
    if Ignored(m, o) then m
    else if !o.available then Machine(Unavailable, None, Some(o.at))
    else if m.current == Unavailable then Machine(Instantaneous(t, o), None, Some(o.at))
    else
      var target := Vote(t, m.current, o);
      if target == m.current then Machine(m.current, None, Some(o.at))
      else if m.candidate.None? || m.candidate.value.state != target then
        Machine(m.current, Some(Candidate(target, o.at)), Some(o.at))
      else if o.at - m.candidate.value.since >= Window(t, m.current, target) then Machine(target, None, Some(o.at))
      else m.(last := Some(o.at))
  }

  function After(t: Thresholds, run: seq<Observation>): Machine {
    if run == [] then Fresh else Observed(After(t, run[..|run| - 1]), t, run[|run| - 1])
  }

  // What the thresholds mean

  /** The pressure is high enough to enter the state. */
  predicate Enters(t: Thresholds, s: PoolState, o: Observation) {
    match s
    case Normal => true
    case Busy => o.best >= t.busy || o.allWaiting
    case Saturated => o.best >= t.saturated || o.allWaiting
    case Emergency => o.best >= t.emergency
    case Unavailable => false
  }

  /** The pressure is high enough to stay in the state. */
  predicate Keeps(t: Thresholds, s: PoolState, o: Observation) {
    match s
    case Normal => true
    case Busy => o.best >= t.busyRecovery || o.allWaiting
    case Saturated => o.best >= t.saturatedRecovery || o.allWaiting
    case Emergency => o.best >= t.emergencyRecovery
    case Unavailable => true
  }

  /** With ordered thresholds an observation votes for the highest state it can enter above the present
  one; if there is none for the present one while it can keep it, and else for the next one below. */
  lemma VoteExactly(t: Thresholds, current: PoolState, o: Observation)
    requires Ordered(t) && current != Unavailable
    ensures var v := Vote(t, current, o);
            && v != Unavailable
            && (Rank(v) > Rank(current) <==> exists s :: Rank(s) > Rank(current) && Enters(t, s, o))
            && (Rank(v) > Rank(current) ==> Enters(t, v, o) && forall s :: Rank(s) > Rank(v) ==> !Enters(t, s, o))
            && (Rank(v) < Rank(current) <==> !Keeps(t, current, o))
            && (Rank(v) < Rank(current) ==> Rank(v) == Rank(current) - 1)
  {
    assert Rank(Normal) == 0 && Rank(Busy) == 1 && Rank(Saturated) == 2 && Rank(Emergency) == 3;
    if o.best >= t.emergency {
      assert Enters(t, Emergency, o);
    }
    if o.best >= t.saturated || o.allWaiting {
      assert Enters(t, Saturated, o);
    }
    if o.best >= t.busy {
      assert Enters(t, Busy, o);
    }
  }

  /** Whether the pool is available is told by the last observation that counts, and a pool that becomes
  available again is at once in the highest state the pressure can enter. */
  lemma AvailabilityIsImmediate(t: Thresholds, m: Machine, o: Observation)
    requires Ordered(t) && !Ignored(m, o)
    ensures var n := Observed(m, t, o);
            && (n.current == Unavailable <==> !o.available)
            && (m.current == Unavailable && o.available ==>
                  Enters(t, n.current, o) && forall s :: Rank(s) > Rank(n.current) ==> !Enters(t, s, o))
  {
    if m.current != Unavailable {
      VoteExactly(t, m.current, o);
      hide Vote;
    } else {
      assert Rank(Normal) == 0 && Rank(Busy) == 1 && Rank(Saturated) == 2 && Rank(Emergency) == 3;
    }
  }

  // Every change follows an unbroken run of votes

  /** Observation `k` was ignored, or it was a vote for `to` while the pool was in state `from`. */
  predicate VotedAt(t: Thresholds, run: seq<Observation>, k: nat, from: PoolState, to: PoolState)
    requires k < |run|
  {
    var m := After(t, run[..k]);
    Ignored(m, run[k]) || (m.current == from && run[k].available && Vote(t, from, run[k]) == to)
  }

  ghost predicate Unbroken(t: Thresholds, run: seq<Observation>, i: nat, from: PoolState, to: PoolState) {
    i < |run| && !Ignored(After(t, run[..i]), run[i]) && forall k :: i <= k < |run| ==> VotedAt(t, run, k, from, to)
  }

  lemma UnbrokenPrefix(t: Thresholds, run: seq<Observation>, o: Observation, i: nat, from: PoolState, to: PoolState)
    requires Unbroken(t, run, i, from, to) && VotedAt(t, run + [o], |run|, from, to)
    ensures Unbroken(t, run + [o], i, from, to)
  {
    hide VotedAt;
    assert (run + [o])[..i] == run[..i];
    forall k | i <= k < |run + [o]|
      ensures VotedAt(t, run + [o], k, from, to)
    {
      if k < |run| {
        SameVote(t, run, o, k, from, to);
      }
    }
  }

  lemma SameVote(t: Thresholds, run: seq<Observation>, o: Observation, k: nat, from: PoolState, to: PoolState)
    requires k < |run|
    ensures VotedAt(t, run + [o], k, from, to) <==> VotedAt(t, run, k, from, to)
  {
    assert (run + [o])[..k] == run[..k];
  }

  /** A candidate stands for the votes cast since it was set. */
  lemma {:induction false} CandidateMeaning(t: Thresholds, run: seq<Observation>) returns (i: nat)
    ensures var m := After(t, run);
            m.candidate.Some? ==>
              && Unbroken(t, run, i, m.current, m.candidate.value.state)
              && run[i].at == m.candidate.value.since && m.candidate.value.state != m.current && m.current != Unavailable
    decreases |run|
  {
    i := 0;
    if run != [] {
      var init, o := run[..|run| - 1], run[|run| - 1];
      assert run == init + [o];
      assert run[..|init|] == init;
      i := CandidateMeaning(t, init);
      var m, n := After(t, init), After(t, run);
      if n.candidate.Some? {
        if m.candidate == n.candidate {
          UnbrokenPrefix(t, init, o, i, m.current, m.candidate.value.state);
        } else {
          i := |init|;
          assert Unbroken(t, run, i, n.current, n.candidate.value.state);
        }
      }
    }
  }

  /** Every change of state not involving unavailability is the end of an unbroken run of votes for the
  new state that lasted at least the window, and a recovery goes down exactly one rank. */
  lemma ChangesAreEarned(t: Thresholds, run: seq<Observation>, o: Observation) returns (i: nat)
    requires After(t, run + [o]).current != After(t, run).current
    requires After(t, run).current != Unavailable && After(t, run + [o]).current != Unavailable
    ensures var from, to := After(t, run).current, After(t, run + [o]).current;
            && i < |run| && Unbroken(t, run + [o], i, from, to)
            && o.at - run[i].at >= Window(t, from, to)
            && (Rank(to) < Rank(from) ==> Rank(to) == Rank(from) - 1)
  {
    assert (run + [o])[..|run|] == run;
    i := CandidateMeaning(t, run);
    var from, to := After(t, run).current, After(t, run + [o]).current;
    assert VotedAt(t, run + [o], |run|, from, to);
    UnbrokenPrefix(t, run, o, i, from, to);
  }

  // And an unbroken run of votes that lasts brings the change

  lemma {:induction false} VotesBuildUp(t: Thresholds, run: seq<Observation>, i: nat, from: PoolState, to: PoolState)
    requires i < |run| && from != to && from != Unavailable && to != Unavailable && After(t, run[..i]).current == from
    requires Unbroken(t, run, i, from, to)
    ensures var m := After(t, run);
            m.current == to || (m.current == from && m.candidate.Some? && m.candidate.value.state == to
                                && m.candidate.value.since <= run[i].at)
    decreases |run|
  {
    var init, o := run[..|run| - 1], run[|run| - 1];
    assert run == init + [o];
    assert run[..|init|] == init;
    if i < |init| {
      assert run[..i] == init[..i];
      forall k | i <= k < |init|
        ensures VotedAt(t, init, k, from, to)
      {
        SameVote(t, init, o, k, from, to);
        assert VotedAt(t, run, k, from, to);
      }
      VotesBuildUp(t, init, i, from, to);
      assert VotedAt(t, run, |init|, from, to);
    } else {
      SinceNotAhead(t, init);
      assert VotedAt(t, run, |init|, from, to);
    }
  }

  lemma {:induction false} SinceNotAhead(t: Thresholds, run: seq<Observation>)
    ensures var m := After(t, run);
            m.candidate.Some? ==> m.last.Some? && m.candidate.value.since <= m.last.value && m.candidate.value.state != m.current
    decreases |run|
  {
    if run != [] {
      SinceNotAhead(t, run[..|run| - 1]);
    }
  }

  /** Votes for one state from observation `i` on, the last of them accepted at least the window after
  the first, bring the pool there. */
  lemma LastingVotesWin(t: Thresholds, run: seq<Observation>, o: Observation, i: nat, from: PoolState, to: PoolState)
    requires i < |run| && from != to && from != Unavailable && to != Unavailable && After(t, run[..i]).current == from
    requires Unbroken(t, run + [o], i, from, to)
    requires !Ignored(After(t, run), o) && o.at - run[i].at >= Window(t, from, to)
    ensures After(t, run + [o]).current == to
  {
    var all := run + [o];
    assert all[..|run|] == run && all[..i] == run[..i];
    forall k | i <= k < |run|
      ensures VotedAt(t, run, k, from, to)
    {
      SameVote(t, run, o, k, from, to);
      assert VotedAt(t, all, k, from, to);
    }
    VotesBuildUp(t, run, i, from, to);
    assert VotedAt(t, all, |run|, from, to);
  }

  // A constant pressure settles

  /** An observation that shows the same pool, at any time. */
  predicate Same(o: Observation, p: Observation) {
    o.best == p.best && o.allWaiting == p.allWaiting && o.available == p.available
  }

  /** Once a vote was upwards the state reached is final, and once a vote was downwards no vote is
  upwards again. */
  lemma NoOscillation(t: Thresholds, s: PoolState, o: Observation)
    requires Ordered(t) && s != Unavailable
    ensures var to := Vote(t, s, o);
            && to != Unavailable
            && (Rank(to) > Rank(s) ==> Vote(t, to, o) == to)
            && (Rank(to) < Rank(s) ==> Rank(Vote(t, to, o)) <= Rank(to))
  {
  }

  /** Where a constant observation leads from `s`. */
  function Settled(t: Thresholds, s: PoolState, o: Observation): PoolState {
    var first := Vote(t, s, o);
    if first == s then s
    else
      var second := Vote(t, first, o);
      if second == first then first else Vote(t, second, o)
  }

  lemma SettledIsFixed(t: Thresholds, s: PoolState, o: Observation)
    requires Ordered(t) && s != Unavailable
    ensures Vote(t, Settled(t, s, o), o) == Settled(t, s, o)
    ensures Vote(t, s, o) != s ==> Settled(t, Vote(t, s, o), o) == Settled(t, s, o)
  {
  }

  predicate Between(a: int, x: int, b: int) {
    a <= x <= b || b <= x <= a
  }

  predicate Constant(run: seq<Observation>, o: Observation) {
    o.available && forall i :: 0 <= i < |run| ==> Same(run[i], o)
  }

  function From(m: Machine, t: Thresholds, run: seq<Observation>): Machine {
    if run == [] then m else Observed(From(m, t, run[..|run| - 1]), t, run[|run| - 1])
  }

  lemma StepTowards(t: Thresholds, m: Machine, p: Observation, o: Observation)
    requires Ordered(t) && m.current != Unavailable && Same(p, o) && o.available
    ensures var n := Observed(m, t, p);
            && n.current != Unavailable && Settled(t, n.current, o) == Settled(t, m.current, o)
            && Between(Rank(m.current), Rank(n.current), Rank(Settled(t, m.current, o)))
  {
  }

  /** Under constant pressure the pool moves only towards the state it settles in, from whatever state
  and half-formed candidate it starts: it never turns back, so it never oscillates. */
  lemma {:induction false} ConstantPressureSettles(t: Thresholds, m: Machine, run: seq<Observation>, o: Observation)
    requires Ordered(t) && m.current != Unavailable && Constant(run, o)
    ensures var n := From(m, t, run);
            && n.current != Unavailable && Settled(t, n.current, o) == Settled(t, m.current, o)
            && Between(Rank(m.current), Rank(n.current), Rank(Settled(t, m.current, o)))
            && (run != [] ==>
                  Between(Rank(From(m, t, run[..|run| - 1]).current), Rank(n.current), Rank(Settled(t, m.current, o))))
    decreases |run|
  {
    hide Observed;
    hide Settled;
    if run != [] {
      ConstantPressureSettles(t, m, run[..|run| - 1], o);
      StepTowards(t, From(m, t, run[..|run| - 1]), run[|run| - 1], o);
    }
  }

  // And it gets there

  /** Times do not go back, neither behind what the machine has seen. */
  predicate Chronological(m: Machine, run: seq<Observation>) {
    && InOrder(run)
    && (run != [] && m.last.Some? ==> m.last.value <= run[0].at)
  }

  /** The candidate was not set in the future, as holds of every machine that is reached. */
  predicate Dated(m: Machine) {
    m.candidate.Some? ==> m.last.Some? && m.candidate.value.since <= m.last.value
  }

  /** At least two observations, the last of them both windows after the first. */
  predicate Lasting(t: Thresholds, run: seq<Observation>) {
    |run| >= 2 && run[|run| - 1].at - run[0].at >= t.enterWindow && run[|run| - 1].at - run[0].at >= t.recoveryWindow
  }

  /** While the pool does not move, the vote for its next state stands since the first observation. */
  lemma {:induction false} VoteStands(t: Thresholds, m: Machine, run: seq<Observation>, o: Observation)
    requires Ordered(t) && m.current != Unavailable && Constant(run, o) && Chronological(m, run) && run != []
    requires Vote(t, m.current, o) != m.current && (m.candidate.Some? ==> m.candidate.value.since <= run[0].at)
    ensures var n := From(m, t, run);
            || n.current != m.current
            || (n.last == Some(run[|run| - 1].at) && n.candidate.Some?
                && n.candidate.value.state == Vote(t, m.current, o) && n.candidate.value.since <= run[0].at)
    decreases |run|
  {
    var init, last := run[..|run| - 1], run[|run| - 1];
    var n := From(m, t, init);
    ConstantPressureSettles(t, m, init, o);
    StepTowards(t, n, last, o);
    if init == [] {
      assert n == m;
    } else {
      VoteStands(t, m, init, o);
      if n.current != m.current {
        hide Observed;
        hide Settled;
      }
    }
  }

  /** Constant pressure that lasts for the windows moves the pool, unless it has settled. */
  lemma LastingPressureMoves(t: Thresholds, m: Machine, run: seq<Observation>, o: Observation)
    requires Ordered(t) && m.current != Unavailable && Constant(run, o) && Chronological(m, run) && Lasting(t, run)
    requires m.candidate.Some? ==> m.candidate.value.since <= run[0].at
    ensures From(m, t, run).current != m.current || m.current == Settled(t, m.current, o)
  {
    if Vote(t, m.current, o) != m.current {
      var init, last := run[..|run| - 1], run[|run| - 1];
      var n := From(m, t, init);
      VoteStands(t, m, init, o);
      ConstantPressureSettles(t, m, init, o);
      StepTowards(t, n, last, o);
    }
  }

  lemma {:induction false} FromKeepsDated(t: Thresholds, m: Machine, run: seq<Observation>)
    requires Dated(m)
    ensures Dated(From(m, t, run))
    decreases |run|
  {
    if run == [] {
    } else {
      FromKeepsDated(t, m, run[..|run| - 1]);
    }
  }

  lemma {:induction false} FromConcat(t: Thresholds, m: Machine, a: seq<Observation>, b: seq<Observation>)
    ensures From(m, t, a + b) == From(From(m, t, a), t, b)
    decreases |b|
  {
    hide Observed;
    if b == [] {
      assert a + b == a;
    } else {
      assert (a + b)[..|a + b| - 1] == a + b[..|b| - 1];
      FromConcat(t, m, a, b[..|b| - 1]);
    }
  }

  lemma {:induction false} LastIsSeen(t: Thresholds, m: Machine, run: seq<Observation>)
    requires Chronological(m, run) && run != []
    ensures From(m, t, run).last == Some(run[|run| - 1].at)
    decreases |run|
  {
    var init := run[..|run| - 1];
    if init == [] {
      assert From(m, t, init) == m;
    } else {
      LastIsSeen(t, m, init);
    }
  }

  /** How many ranks the pool is away from where it settles. */
  function Distance(t: Thresholds, m: Machine, o: Observation): nat {
    var d := Rank(m.current) - Rank(Settled(t, m.current, o));
    if d >= 0 then d else -d
  }

  lemma StretchCloser(t: Thresholds, m: Machine, run: seq<Observation>, o: Observation)
    requires Ordered(t) && m.current != Unavailable && Dated(m)
    requires Constant(run, o) && Chronological(m, run) && Lasting(t, run)
    ensures var n := From(m, t, run);
            && n.current != Unavailable && Dated(n) && n.last == Some(run[|run| - 1].at)
            && Settled(t, n.current, o) == Settled(t, m.current, o)
            && (Distance(t, n, o) == 0 || Distance(t, n, o) < Distance(t, m, o))
  {
    LastingPressureMoves(t, m, run, o);
    ConstantPressureSettles(t, m, run, o);
    FromKeepsDated(t, m, run);
    LastIsSeen(t, m, run);
    hide From;
    hide Settled;
  }

  function Joined(stretches: seq<seq<Observation>>): seq<Observation> {
    if stretches == [] then [] else Joined(stretches[..|stretches| - 1]) + stretches[|stretches| - 1]
  }

  predicate InOrder(run: seq<Observation>) {
    forall i, j :: 0 <= i < j < |run| ==> run[i].at <= run[j].at
  }

  lemma OrderOfParts(a: seq<Observation>, b: seq<Observation>)
    requires InOrder(a + b)
    ensures InOrder(a) && InOrder(b) && (a != [] && b != [] ==> a[|a| - 1].at <= b[0].at)
  {
    var all := a + b;
    assert forall i :: 0 <= i < |a| ==> all[i] == a[i];
    assert forall i :: 0 <= i < |b| ==> all[|a| + i] == b[i];
    forall i, j | 0 <= i < j < |b|
      ensures b[i].at <= b[j].at
    {
      assert all[|a| + i].at <= all[|a| + j].at;
    }
  }

  lemma ChronologicalParts(t: Thresholds, m: Machine, a: seq<Observation>, b: seq<Observation>)
    requires Chronological(m, a + b)
    ensures Chronological(m, a) && Chronological(From(m, t, a), b)
  {
    hide InOrder;
    OrderOfParts(a, b);
    if a == [] {
      assert a + b == b;
    } else {
      assert (a + b)[0] == a[0];
      LastIsSeen(t, m, a);
      hide From;
    }
  }

  /** Each lasting stretch of constant pressure brings the pool a rank closer, until it is there. */
  lemma {:induction false} StretchesApproach(t: Thresholds, m: Machine, stretches: seq<seq<Observation>>, o: Observation)
    requires Ordered(t) && m.current != Unavailable && Dated(m) && Chronological(m, Joined(stretches))
    requires forall i :: 0 <= i < |stretches| ==> Constant(stretches[i], o) && Lasting(t, stretches[i])
    ensures var n := From(m, t, Joined(stretches));
            && n.current != Unavailable && Dated(n) && Settled(t, n.current, o) == Settled(t, m.current, o)
            && (Distance(t, n, o) == 0 || Distance(t, n, o) + |stretches| <= Distance(t, m, o))
    decreases |stretches|
  {
    if stretches == [] {
    } else {
      var init, last := stretches[..|stretches| - 1], stretches[|stretches| - 1];
      ChronologicalParts(t, m, Joined(init), last);
      StretchesApproach(t, m, init, o);
      hide Lasting;
      hide Constant;
      hide Distance;
      hide Settled;
      assert Constant(last, o) && Lasting(t, last);
      StretchCloser(t, From(m, t, Joined(init)), last, o);
      FromConcat(t, m, Joined(init), last);
    }
  }

  lemma {:induction false} AfterConcat(t: Thresholds, a: seq<Observation>, b: seq<Observation>)
    ensures After(t, a + b) == From(After(t, a), t, b)
    decreases |b|
  {
    hide Observed;
    if b == [] {
      assert a + b == a;
    } else {
      assert (a + b)[..|a + b| - 1] == a + b[..|b| - 1];
      AfterConcat(t, a, b[..|b| - 1]);
    }
  }

  lemma RanksApart(t: Thresholds, m: Machine, o: Observation)
    requires Ordered(t) && m.current != Unavailable
    ensures Distance(t, m, o) <= 3 && (Distance(t, m, o) == 0 ==> m.current == Settled(t, m.current, o))
  {
  }

  /** Whatever happened before, three lasting stretches of constant pressure bring the pool to the fixed
  point, and constant pressure keeps it there. */
  lemma ConstantPressureArrives(
    t: Thresholds, before: seq<Observation>, stretches: seq<seq<Observation>>, more: seq<Observation>, o: Observation)
    requires Ordered(t) && After(t, before).current != Unavailable && |stretches| >= 3
    requires Chronological(After(t, before), Joined(stretches)) && Constant(more, o)
    requires forall i :: 0 <= i < |stretches| ==> Constant(stretches[i], o) && Lasting(t, stretches[i])
    ensures var m, n := After(t, before), After(t, before + Joined(stretches) + more);
            n.current == Settled(t, m.current, o) == Vote(t, n.current, o)
  {
    var m := After(t, before);
    SinceNotAhead(t, before);
    hide After;
    StretchesApproach(t, m, stretches, o);
    AfterConcat(t, before, Joined(stretches));
    AfterConcat(t, before + Joined(stretches), more);
    var n := From(m, t, Joined(stretches));
    hide From;
    ConstantPressureSettles(t, n, more, o);
    RanksApart(t, m, o);
    RanksApart(t, n, o);
    SettledIsFixed(t, m.current, o);
    RankIsState(From(n, t, more).current, Settled(t, m.current, o));
    hide Settled;
    hide Distance;
  }

  lemma RankIsState(a: PoolState, b: PoolState)
    ensures Rank(a) == Rank(b) ==> a == b
  {
  }

  /** Without the order of thresholds the same pressure can drive the pool back and forth. */
  lemma UnorderedThresholdsOscillate()
    ensures exists t, o: Observation :: !Ordered(t) && o.available && Vote(t, Normal, o) == Busy && Vote(t, Busy, o) == Normal
  {
    var t := Thresholds(1.0, 4.0, 6.0, 2.0, 3.0, 5.0, 0, 0);
    var o := Observation(0, 1.5, false, true);
    assert !Ordered(t) && o.available && Vote(t, Normal, o) == Busy && Vote(t, Busy, o) == Normal;
  }

  // The machine itself

  class PoolMachine {
    const thresholds: Thresholds
    var current: PoolState
    var candidate: PoolState
    var candidateSince: Time
    var candidateSet: bool
    var lastObservedAt: Option<Time>

    function Shown(): Machine
      reads this
    {
      Machine(current, if candidateSet then Some(Candidate(candidate, candidateSince)) else None, lastObservedAt)
    }

    constructor (thresholds: Thresholds)
      ensures Shown() == Fresh && this.thresholds == thresholds
    {
      this.thresholds := thresholds;
      current := Normal;
      candidate, candidateSince, candidateSet := Normal, 0, false;
      lastObservedAt := None;
    }

    method ResetCandidate()
      modifies this
      ensures Shown() == old(Shown()).(candidate := None) && lastObservedAt == old(lastObservedAt)
    {
      candidateSince := 0;
      candidateSet := false;
    }

    method Target(now: PoolState, o: Observation) returns (target: PoolState, window: int)
      requires now == Instantaneous(thresholds, o) && current != Unavailable
      ensures target == Vote(thresholds, current, o)
      ensures target != current ==> window == Window(thresholds, current, target)
    {
      if Rank(now) > Rank(current) {
        return now, thresholds.enterWindow;
      }
      match current {
        case Emergency =>
          if o.best < thresholds.emergencyRecovery {
            return Saturated, thresholds.recoveryWindow;
          }
        case Saturated =>
          if o.best < thresholds.saturatedRecovery && !o.allWaiting {
            return Busy, thresholds.recoveryWindow;
          }
        case Busy =>
          if o.best < thresholds.busyRecovery {
            return Normal, thresholds.recoveryWindow;
          }
        case _ =>
      }
      return current, 0;
    }

    method Observe(o: Observation) returns (state: PoolState)
      modifies this
      ensures Shown() == Observed(old(Shown()), thresholds, o) && state == current
    {
      if lastObservedAt.Some? && o.at < lastObservedAt.value {
        return current;
      }
      lastObservedAt := Some(o.at);
      if !o.available {
        current := Unavailable;
        ResetCandidate();
        return current;
      }
      var now := Instantaneous(thresholds, o);
      if current == Unavailable {
        current := now;
        ResetCandidate();
        return current;
      }
      var target, window := Target(now, o);
      if target == current {
        ResetCandidate();
        return current;
      }
      if !candidateSet || candidate != target {
        candidate := target;
        candidateSince := o.at;
        candidateSet := true;
        return current;
      }
      if o.at - candidateSince >= window {
        current := target;
        ResetCandidate();
      }
      return current;
    }
  }
}
