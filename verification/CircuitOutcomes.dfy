/** What reported outcomes do to a circuit over whole runs: enough failures open it, a failed probe
reopens it, and the last probe closes it if one succeeded and none failed. */
module CircuitOutcomes {
  import opened ExpiryQueue
  import opened CircuitBreaker
  import opened CircuitBook
  import opened Counting
  import opened CircuitRuns
  import opened CircuitProperties

  /** The event reports in time how a call went that was made through breaker `s` in generation `g` and
  is still open. */
  ghost predicate Tells(b: Book, u: Setup, e: Event, s: nat, g: int) {
    var live := Expire(b, u.o, e.now);
    && e.op.CompleteOp? && e.op.c.attemptId in live.attempts && Timely(e.op.c.reportedAt, e.now)
    && var a := live.attempts[e.op.c.attemptId];
    && a.retainUntil.None? && a.serial == s && a.ticket.generation == g
    && e.op.c.backend == a.request.backend && e.op.c.generation == g
  }

  /** What is left of a breaker when overdue permits are settled: nothing happens, or a probe failed. */
  lemma Lapsing(b: Book, o: Options, now: Time, s: nat)
    requires s in b.machines
    ensures var n := Expire(b, o, now); s in n.machines
    ensures var m, n := b.machines[s], Expire(b, o, now).machines[s];
            n == m || exists t :: n == Complete(m, o, Probe(m), Failure, t)
  {
    hide Complete;
  }

  /** The machine after one event that tells it nothing. */
  predicate Untold(m: Machine, n: Machine, o: Options, now: Time) {
    n == m || n == Observe(m, o, now) || n == Observe(Acquire(m, o, now).0, o, now)
  }

  lemma ReplayUntold(b: Book, o: Options, r: Request, now: Time, s: nat)
    requires s in b.machines && r.attemptId in b.attempts
    ensures s in Replay(b, o, r, now).0.machines && Untold(b.machines[s], Replay(b, o, r, now).0.machines[s], o, now)
  {
    hide Observe;
    hide Acquire;
  }

  lemma AskUntold(b: Book, o: Options, r: Request, now: Time, s: nat)
    requires s in b.machines && Serves(b, r.backend)
    ensures s in Ask(b, o, r, now).0.machines && Untold(b.machines[s], Ask(b, o, r, now).0.machines[s], o, now)
  {
    hide Observe;
    hide Acquire;
    hide Seen;
  }

  lemma AcquireUntold(b: Book, u: Setup, r: Request, victim: Option<Id>, now: Time, s: nat)
    requires s in Expire(b, u.o, now).machines
    ensures var c := AcquireAttempt(b, u.o, r, now, u.capacity, victim).0;
            s in c.machines && Untold(Expire(b, u.o, now).machines[s], c.machines[s], u.o, now)
  {
    var live := Expire(b, u.o, now);
    hide Expire;
    hide Replay;
    hide Ask;
    if r.attemptId in live.attempts {
      ReplayUntold(live, u.o, r, now, s);
    } else if Serves(Evict(live, victim), r.backend) {
      AskUntold(Evict(live, victim), u.o, r, now, s);
    }
    hide Observe;
    hide Acquire;
    hide Seen;
  }

  lemma {:induction false} RenewUntold(b: Book, probes: seq<Permit>, now: Time)
    ensures RenewAll(b, probes, now).0.machines == b.machines && RenewAll(b, probes, now).0.circuits == b.circuits
    decreases |probes|
  {
    if probes == [] {
    } else {
      RenewUntold(b, probes[..|probes| - 1], now);
    }
  }

  lemma {:induction false} ReconcileUntold(b: Book, values: seq<Backend>, now: Time, s: nat)
    requires s in b.machines && s < b.next
    ensures var c := Reconciled(b, values, now);
            s in c.machines && c.machines[s] == b.machines[s] && c.next >= b.next
    decreases |values|
  {
    if values == [] {
    } else {
      ReconcileUntold(b, values[..|values| - 1], now, s);
    }
  }

  /** What the breaker is told by the event, if anything. */
  datatype Report = Report(ticket: Ticket, outcome: Outcome, at: Time)

  ghost function Told(b: Book, u: Setup, e: Event, s: nat): Option<Report> {
    var live := Expire(b, u.o, e.now);
    if e.op.CompleteOp? && e.op.c.attemptId in live.attempts && Tells(b, u, e, s, live.attempts[e.op.c.attemptId].ticket.generation)
    then Some(Report(live.attempts[e.op.c.attemptId].ticket, e.op.c.outcome, e.op.c.reportedAt))
    else None
  }

  lemma ToldTells(b: Book, u: Setup, e: Event, s: nat, g: int)
    ensures var told := Told(b, u, e, s);
            && (Tells(b, u, e, s, g) <==> told.Some? && told.value.ticket.generation == g)
            && (told.Some? ==> e.op.CompleteOp? && told.value.outcome == e.op.c.outcome && told.value.at == e.op.c.reportedAt)
  {
    hide Expire;
  }

  /** What is told belongs to a generation the breaker has reached. */
  lemma ToldBelongs(b: Book, u: Setup, e: Event, s: nat)
    requires Inv(b, u.o) && Told(b, u, e, s).Some?
    ensures s in b.machines && s in Expire(b, u.o, e.now).machines
    ensures Belongs(Told(b, u, e, s).value.ticket, Expire(b, u.o, e.now).machines[s])
  {
    ExpireKeepsInv(b, u.o, e.now);
    var live := Expire(b, u.o, e.now);
    assert Filed(live, e.op.c.attemptId);
    assert live.machines.Keys == b.machines.Keys;
    hide Expire;
  }

  function Heard(m: Machine, o: Options, r: Report, now: Time): Machine {
    Observe(Complete(m, o, r.ticket, r.outcome, r.at), o, now)
  }

  /** A report reaches the breaker the attempt was made through, if it is the first and in time. */
  ghost predicate Reaches(live: Book, c: Completion, now: Time, s: nat) {
    && c.attemptId in live.attempts && Timely(c.reportedAt, now)
    && var a := live.attempts[c.attemptId];
    && a.retainUntil.None? && a.serial == s && c.backend == a.request.backend && c.generation == a.ticket.generation
  }

  lemma JudgedTold(live: Book, o: Options, c: Completion, now: Time, s: nat)
    requires s in live.machines && (c.attemptId in live.attempts ==> Filed(live, c.attemptId))
    ensures var n := Judged(live, o, c, now).0;
            && s in n.machines && n.circuits == live.circuits
            && n.machines[s] == if Reaches(live, c, now, s)
                                then Complete(live.machines[s], o, live.attempts[c.attemptId].ticket, c.outcome, c.reportedAt)
                                else live.machines[s]
  {
    hide Complete;
  }

  lemma SeenMachine(b: Book, o: Options, k: int, now: Time, s: nat)
    requires s in b.machines
    ensures var n := Observed(b, o, k, now);
            && s in n.machines
            && n.machines[s] == if k in b.circuits && b.circuits[k].serial == s then Observe(b.machines[s], o, now) else b.machines[s]
  {
    hide Observe;
  }

  lemma CompleteTold(b: Book, u: Setup, e: Event, s: nat)
    requires Inv(Expire(b, u.o, e.now), u.o) && s in Expire(b, u.o, e.now).machines && e.op.CompleteOp?
    ensures var live, n, told := Expire(b, u.o, e.now), Step(b, u, e), Told(b, u, e, s);
            && s in n.machines
            && if told.Some? then n.machines[s] == Heard(live.machines[s], u.o, told.value, e.now)
               else Untold(live.machines[s], n.machines[s], u.o, e.now)
  {
    var live, c := Expire(b, u.o, e.now), e.op.c;
    if c.attemptId in live.attempts {
      assert Filed(live, c.attemptId) && Current(live, c.attemptId);
    }
    hide Expire;
    hide Inv;
    hide Observe;
    hide Acquire;
    hide Complete;
    hide Seen;
    JudgedTold(live, u.o, c, e.now, s);
    var judged := Judged(live, u.o, c, e.now).0;
    hide Judged;
    SeenMachine(judged, u.o, c.backend.id, e.now, s);
    hide Observed;
    assert Told(b, u, e, s).Some? <==> Reaches(live, c, e.now, s);
  }

  lemma OthersTellNothing(b: Book, u: Setup, e: Event, s: nat)
    requires s in Expire(b, u.o, e.now).machines && s < Expire(b, u.o, e.now).next && !e.op.CompleteOp?
    ensures s in Step(b, u, e).machines
    ensures Untold(Expire(b, u.o, e.now).machines[s], Step(b, u, e).machines[s], u.o, e.now)
  {
    var live := Expire(b, u.o, e.now);
    hide Expire;
    match e.op
    case AcquireOp(r, victim) =>
      AcquireUntold(b, u, r, victim, e.now, s);
      hide AcquireAttempt;
      hide Untold;
    case RenewOp(probes) =>
      RenewUntold(live, probes, e.now);
      hide RenewAll;
    case ReconcileOp(values) =>
      ReconcileUntold(live, values[..Leading(values)], e.now, s);
      hide Reconciled;
      hide Leading;
    case SnapshotOp(id) =>
      SeenMachine(live, u.o, id, e.now, s);
      hide Observed;
    case StatusOp =>
    hide Observe;
    hide Acquire;
    hide Complete;
  }

  /** What an event does to each breaker. */
  lemma Effect(b: Book, u: Setup, e: Event, s: nat)
    requires Inv(b, u.o) && s in b.machines
    ensures s in Expire(b, u.o, e.now).machines && s in Step(b, u, e).machines
    ensures var live, n, told := Expire(b, u.o, e.now).machines[s], Step(b, u, e).machines[s], Told(b, u, e, s);
            if told.Some? then n == Heard(live, u.o, told.value, e.now) else Untold(live, n, u.o, e.now)
  {
    ExpireKeepsInv(b, u.o, e.now);
    Lapsing(b, u.o, e.now, s);
    assert s < Expire(b, u.o, e.now).next;
    hide Expire;
    hide Inv;
    hide Step;
    hide Untold;
    hide Heard;
    if e.op.CompleteOp? {
      CompleteTold(b, u, e, s);
    } else {
      OthersTellNothing(b, u, e, s);
    }
  }

  // Failures of a closed circuit

  function CountFrom(failures: seq<Time>, start: Time): nat {
    if failures == [] then 0
    else CountFrom(failures[..|failures| - 1], start) + if failures[|failures| - 1] >= start then 1 else 0
  }

  lemma {:induction false} CountPruned(failures: seq<Time>, cutoff: Time, start: Time)
    requires cutoff <= start
    ensures CountFrom(Prune(failures, cutoff), start) == CountFrom(failures, start)
    decreases |failures|
  {
    if failures == [] {
    } else {
      var init, last := failures[..|failures| - 1], failures[|failures| - 1];
      assert failures == init + [last];
      CountPruned(init, cutoff, start);
      CountOneMore(init, last, start);
      CountOneMore(Prune(init, cutoff), last, start);
      hide CountFrom;
      assert Prune(failures, cutoff) == Prune(init, cutoff) + if last >= cutoff then [last] else [];
      hide Prune;
      if last < cutoff {
        assert Prune(failures, cutoff) == Prune(init, cutoff);
      }
    }
  }

  lemma CountOneMore(failures: seq<Time>, at: Time, start: Time)
    ensures CountFrom(failures + [at], start) == CountFrom(failures, start) + if at >= start then 1 else 0
  {
    assert (failures + [at])[..|failures|] == failures;
  }

  lemma {:induction false} CountAtMost(failures: seq<Time>, start: Time)
    ensures CountFrom(failures, start) <= |failures|
    decreases |failures|
  {
    if failures == [] {
    } else {
      CountAtMost(failures[..|failures| - 1], start);
    }
  }

  ghost predicate NoneAfter(failures: seq<Time>, end: Time) {
    forall t :: t in failures ==> t <= end
  }

  lemma {:induction false} PrunedNoneAfter(failures: seq<Time>, cutoff: Time, end: Time)
    requires NoneAfter(failures, end)
    ensures NoneAfter(Prune(failures, cutoff), end)
    decreases |failures|
  {
    if failures == [] {
    } else {
      var init, last := failures[..|failures| - 1], failures[|failures| - 1];
      assert failures == init + [last];
      forall t | t in init
        ensures t <= end
      {
        assert t in failures;
      }
      PrunedNoneAfter(init, cutoff, end);
      forall t | t in Prune(failures, cutoff)
        ensures t <= end
      {
        assert t in Prune(init, cutoff) || (t == last && last in failures);
      }
    }
  }

  /** Pruning for an instant not later than the end of the window forgets no failure inside it. */
  lemma PruneKeepsWindow(failures: seq<Time>, cutoff: Time, start: Time, window: int)
    requires cutoff <= start && NoneAfter(failures, start + window)
    ensures CountFrom(Prune(failures, cutoff), start) == CountFrom(failures, start)
    ensures NoneAfter(Prune(failures, cutoff), start + window)
  {
    CountPruned(failures, cutoff, start);
    PrunedNoneAfter(failures, cutoff, start + window);
  }

  /** Looking at a closed circuit inside the window forgets none of its failures there. */
  lemma UntoldKeepsWindow(m: Machine, n: Machine, o: Options, now: Time, start: Time)
    requires Untold(m, n, o, now) && m.state == Closed && now - o.window <= start && NoneAfter(m.failures, start + o.window)
    ensures n.state == Closed && n.generation == m.generation
    ensures CountFrom(n.failures, start) == CountFrom(m.failures, start) && NoneAfter(n.failures, start + o.window)
  {
    var kept := Prune(m.failures, now - o.window);
    PruneKeepsWindow(m.failures, now - o.window, start, o.window);
    PruneKeepsWindow(kept, now - o.window, start, o.window);
    hide CountFrom;
    hide NoneAfter;
    hide Prune;
  }

  lemma RecordedKeepsWindow(m: Machine, o: Options, at: Time, start: Time)
    requires NoneAfter(m.failures, start + o.window) && at <= start + o.window
    ensures var n := Recorded(m, o, at);
            && CountFrom(n.failures, start) == CountFrom(m.failures, start) + (if at >= start then 1 else 0)
            && NoneAfter(n.failures, start + o.window)
  {
    var all := m.failures + [at];
    LatestMeaning(all);
    CountOneMore(m.failures, at, start);
    PruneKeepsWindow(all, Latest(all) - o.window, start, o.window);
    hide CountFrom;
    hide Prune;
    hide Latest;
  }

  /** A failure told to a closed circuit is on record afterwards, or it opened the circuit. */
  lemma HeardKeepsWindow(m: Machine, o: Options, r: Report, now: Time, start: Time)
    requires m.state == Closed && Belongs(r.ticket, m) && now - o.window <= start && NoneAfter(m.failures, start + o.window)
    requires r.ticket.generation == m.generation && r.outcome == Failure ==> r.at <= start + o.window
    ensures var n := Heard(m, o, r, now);
            if n.generation == m.generation
            then n.state == Closed && NoneAfter(n.failures, start + o.window)
                 && CountFrom(n.failures, start) == CountFrom(m.failures, start)
                      + (if r.ticket.generation == m.generation && r.outcome == Failure && r.at >= start then 1 else 0)
            else n.generation > m.generation && n.state != Closed
  {
    var c := Complete(m, o, r.ticket, r.outcome, r.at);
    if r.ticket.generation == m.generation && r.outcome == Failure {
      RecordedKeepsWindow(m, o, r.at, start);
    }
    hide CountFrom;
    hide NoneAfter;
    hide Prune;
    hide Latest;
    if c.generation == m.generation {
      assert Untold(c, Observe(c, o, now), o, now);
      UntoldKeepsWindow(c, Observe(c, o, now), o, now, start);
    }
  }

  lemma LapsingLeavesClosed(b: Book, o: Options, now: Time, s: nat)
    requires s in b.machines
    ensures s in Expire(b, o, now).machines
    ensures var m, n := b.machines[s], Expire(b, o, now).machines[s];
            if m.state == HalfOpen then Moves(m, n) && (n.generation == m.generation || n.state == Open) else n == m
  {
    Lapsing(b, o, now, s);
    hide Expire;
    hide Prune;
    hide Latest;
  }

  // Runs

  /** Event `j` tells breaker `s` of a call made in generation `g`. */
  ghost predicate TellsAt(u: Setup, run: seq<Event>, j: nat, s: nat, g: int) {
    j < |run| && Tells(After(Empty, u, run[..j]), u, run[j], s, g)
  }

  /** ... and the call failed, not before `start`. */
  ghost predicate FailsAt(u: Setup, run: seq<Event>, j: nat, s: nat, g: int, start: Time) {
    TellsAt(u, run, j, s, g) && run[j].op.CompleteOp? && run[j].op.c.outcome == Failure && run[j].op.c.reportedAt >= start
  }

  ghost function FailuresTold(u: Setup, run: seq<Event>, s: nat, g: int, start: Time): set<nat> {
    set j: nat | j < |run| && FailsAt(u, run, j, s, g, start)
  }

  /** Nothing in the run is later than the end of the window that begins at `start`. */
  ghost predicate InWindow(u: Setup, run: seq<Event>, s: nat, g: int, start: Time) {
    forall j: nat :: j < |run| ==>
      && run[j].now <= start + u.o.window
      && (FailsAt(u, run, j, s, g, start) ==> run[j].op.c.reportedAt <= start + u.o.window)
  }

  lemma LastIsStep(u: Setup, run: seq<Event>)
    requires run != []
    ensures After(Empty, u, run) == Step(After(Empty, u, run[..|run| - 1]), u, run[|run| - 1])
  {
    hide Step;
  }

  lemma TellsBefore(u: Setup, run: seq<Event>, n: nat, j: nat, s: nat, g: int, start: Time)
    requires n <= |run| && j < n
    ensures TellsAt(u, run[..n], j, s, g) == TellsAt(u, run, j, s, g)
    ensures FailsAt(u, run[..n], j, s, g, start) == FailsAt(u, run, j, s, g, start)
  {
    hide Tells;
    hide After;
    assert run[..n][..j] == run[..j];
  }

  lemma FailuresToldMore(u: Setup, run: seq<Event>, s: nat, g: int, start: Time)
    requires run != []
    ensures var n := |run| - 1;
            FailuresTold(u, run, s, g, start) ==
              FailuresTold(u, run[..n], s, g, start) + if FailsAt(u, run, n, s, g, start) then {n} else {}
  {
    var n := |run| - 1;
    hide FailsAt;
    forall j: nat
      ensures j in FailuresTold(u, run, s, g, start) <==>
              j in FailuresTold(u, run[..n], s, g, start) + if FailsAt(u, run, n, s, g, start) then {n} else {}
    {
      if j < n {
        TellsBefore(u, run, n, j, s, g, start);
      }
    }
  }

  lemma UntoldMoves(m: Machine, n: Machine, o: Options, now: Time)
    requires Untold(m, n, o, now)
    ensures Moves(m, n)
  {
    hide Prune;
  }

  lemma HeardMoves(m: Machine, o: Options, r: Report, now: Time)
    ensures Moves(m, Heard(m, o, r, now))
  {
    hide Prune;
    hide Latest;
  }

  /** A generation is in one state from its beginning to its end. */
  lemma SameGenerationSameState(b: Book, u: Setup, e: Event, s: nat)
    requires Inv(b, u.o) && s in b.machines
    ensures s in Step(b, u, e).machines && s in Expire(b, u.o, e.now).machines
    ensures var m, live, n := b.machines[s], Expire(b, u.o, e.now).machines[s], Step(b, u, e).machines[s];
            Moves(m, live) && Moves(live, n) && Moves(m, n)
  {
    hide Step;
    hide Expire;
    hide Told;
    hide Heard;
    hide Untold;
    Effect(b, u, e, s);
    LapsingLeavesClosed(b, u.o, e.now, s);
    var live, n, told := Expire(b, u.o, e.now).machines[s], Step(b, u, e).machines[s], Told(b, u, e, s);
    if told.Some? {
      HeardMoves(live, u.o, told.value, e.now);
    } else {
      UntoldMoves(live, n, u.o, e.now);
    }
  }

  lemma {:induction false} StaysInGeneration(u: Setup, run: seq<Event>, i: nat, s: nat)
    requires ValidOptions(u.o) && LawfulRun(Empty, u, run) && i <= |run| && s in After(Empty, u, run[..i]).machines
    ensures s in After(Empty, u, run).machines
    ensures Moves(After(Empty, u, run[..i]).machines[s], After(Empty, u, run).machines[s])
    decreases |run|
  {
    hide After;
    hide Step;
    hide LawfulRun;
    if i == |run| {
      assert run[..i] == run;
    } else {
      var n := |run| - 1;
      assert run[..n][..i] == run[..i];
      PrefixLawful(Empty, u, run, n);
      StaysInGeneration(u, run[..n], i, s);
      EmptyInv(u.o);
      RunKeepsInv(Empty, u, run[..n]);
      hide Inv;
      LastIsStep(u, run);
      SameGenerationSameState(After(Empty, u, run[..n]), u, run[n], s);
    }
  }

  /** A closed circuit inside a window: each failure told is counted, or the circuit opens. */
  lemma WindowStep(b: Book, u: Setup, e: Event, s: nat, start: Time)
    requires Inv(b, u.o) && s in b.machines && b.machines[s].state == Closed && e.now <= start + u.o.window
    requires NoneAfter(b.machines[s].failures, start + u.o.window)
    requires var g := b.machines[s].generation;
             Tells(b, u, e, s, g) && e.op.c.outcome == Failure && e.op.c.reportedAt >= start ==> e.op.c.reportedAt <= start + u.o.window
    ensures s in Step(b, u, e).machines
    ensures var m, n := b.machines[s], Step(b, u, e).machines[s];
            if n.generation == m.generation
            then n.state == Closed && NoneAfter(n.failures, start + u.o.window)
                 && CountFrom(n.failures, start) == CountFrom(m.failures, start)
                      + (if Tells(b, u, e, s, m.generation) && e.op.c.outcome == Failure && e.op.c.reportedAt >= start then 1 else 0)
            else n.generation > m.generation && n.state != Closed
  {
    hide Step;
    hide Expire;
    hide Tells;
    hide Told;
    hide Heard;
    hide Untold;
    hide CountFrom;
    hide NoneAfter;
    Effect(b, u, e, s);
    LapsingLeavesClosed(b, u.o, e.now, s);
    var m, n, told := b.machines[s], Step(b, u, e).machines[s], Told(b, u, e, s);
    ToldTells(b, u, e, s, m.generation);
    if told.Some? {
      ToldBelongs(b, u, e, s);
      HeardKeepsWindow(m, u.o, told.value, e.now, start);
    } else {
      UntoldKeepsWindow(m, n, u.o, e.now, start);
    }
  }

  lemma ClosedMachineAfresh(m: Machine, n: Machine, o: Options, told: Option<Report>, now: Time)
    requires n.state == Closed && m.state != Closed
    requires if told.Some? then n == Heard(m, o, told.value, now) else Untold(m, n, o, now)
    ensures m.generation < n.generation && n.failures == []
  {
    hide Latest;
  }

  /** A circuit that closes starts without failures, in a generation nobody was told of. */
  lemma ClosedAfresh(b: Book, u: Setup, e: Event, s: nat)
    requires Inv(b, u.o) && s in b.machines && b.machines[s].state != Closed
    requires s in Step(b, u, e).machines && Step(b, u, e).machines[s].state == Closed
    ensures s in Expire(b, u.o, e.now).machines
    ensures Expire(b, u.o, e.now).machines[s].generation < Step(b, u, e).machines[s].generation
    ensures Step(b, u, e).machines[s].failures == []
  {
    hide Step;
    hide Expire;
    hide Told;
    hide Heard;
    hide Untold;
    Effect(b, u, e, s);
    LapsingLeavesClosed(b, u.o, e.now, s);
    ClosedMachineAfresh(Expire(b, u.o, e.now).machines[s], Step(b, u, e).machines[s], u.o, Told(b, u, e, s), e.now);
  }

  /** Nothing was told yet of a generation the breaker has not reached. */
  lemma NothingToldYet(u: Setup, run: seq<Event>, s: nat, g: int, start: Time)
    requires ValidOptions(u.o) && LawfulRun(Empty, u, run)
    requires s in After(Empty, u, run).machines ==> After(Empty, u, run).machines[s].generation < g
    ensures FailuresTold(u, run, s, g, start) == {}
  {
    forall j: nat | j < |run|
      ensures !TellsAt(u, run, j, s, g)
    {
      if TellsAt(u, run, j, s, g) {
        ToldEarlier(u, run, j, s, g);
      }
    }
  }

  lemma ToldEarlier(u: Setup, run: seq<Event>, j: nat, s: nat, g: int)
    requires ValidOptions(u.o) && LawfulRun(Empty, u, run) && TellsAt(u, run, j, s, g)
    ensures s in After(Empty, u, run).machines && g <= After(Empty, u, run).machines[s].generation
  {
    hide Tells;
    hide Told;
    hide Expire;
    hide After;
    hide Step;
    hide LawfulRun;
    var b := After(Empty, u, run[..j]);
    PrefixLawful(Empty, u, run, j);
    EmptyInv(u.o);
    RunKeepsInv(Empty, u, run[..j]);
    hide Inv;
    ToldTells(b, u, run[j], s, g);
    ToldBelongs(b, u, run[j], s);
    SameGenerationSameState(b, u, run[j], s);
    LastIsStep(u, run[..j + 1]);
    assert run[..j + 1][..j] == run[..j];
    StaysInGeneration(u, run, j + 1, s);
  }

  /** What is known of a closed circuit inside a window. */
  ghost predicate Watched(u: Setup, run: seq<Event>, s: nat, start: Time)
    requires s in After(Empty, u, run).machines
  {
    var m := After(Empty, u, run).machines[s];
    m.state == Closed ==>
      && NoneAfter(m.failures, start + u.o.window)
      && |FailuresTold(u, run, s, m.generation, start)| <= CountFrom(m.failures, start)
  }

  lemma WindowShorter(u: Setup, run: seq<Event>, s: nat, g: int, start: Time, n: nat)
    requires InWindow(u, run, s, g, start) && n <= |run|
    ensures InWindow(u, run[..n], s, g, start)
  {
    hide Tells;
    hide After;
    forall j: nat | j < n
      ensures run[..n][j].now <= start + u.o.window
      ensures FailsAt(u, run[..n], j, s, g, start) ==> run[..n][j].op.c.reportedAt <= start + u.o.window
    {
      TellsBefore(u, run, n, j, s, g, start);
    }
  }

  lemma {:induction false} InstalledFresh(b: Book, values: seq<Backend>, now: Time, s: nat)
    requires s !in b.machines && s in Reconciled(b, values, now).machines
    ensures Reconciled(b, values, now).machines[s] == Fresh
    decreases |values|
  {
    var init := values[..|values| - 1];
    if s in Reconciled(b, init, now).machines {
      InstalledFresh(b, init, now, s);
    }
  }

  lemma AcquireInstallsNone(b: Book, u: Setup, r: Request, victim: Option<Id>, now: Time)
    ensures AcquireAttempt(b, u.o, r, now, u.capacity, victim).0.machines.Keys == Expire(b, u.o, now).machines.Keys
  {
    hide Expire;
    hide Observe;
    hide Acquire;
    hide Seen;
  }

  lemma CompleteInstallsNone(b: Book, u: Setup, c: Completion, now: Time)
    ensures CompleteAttempt(b, u.o, c, now).0.machines.Keys == Expire(b, u.o, now).machines.Keys
  {
    hide Expire;
    hide Observe;
    hide Complete;
    hide Seen;
  }

  lemma NewMachine(b: Book, u: Setup, e: Event, s: nat)
    requires s !in b.machines && s in Step(b, u, e).machines
    ensures Step(b, u, e).machines[s] == Fresh
  {
    var live := Expire(b, u.o, e.now);
    assert live.machines.Keys == b.machines.Keys;
    hide Expire;
    match e.op
    case AcquireOp(r, victim) => AcquireInstallsNone(b, u, r, victim, e.now);
    case CompleteOp(c) => CompleteInstallsNone(b, u, c, e.now);
    case RenewOp(probes) => RenewUntold(live, probes, e.now);
    case ReconcileOp(values) => InstalledFresh(live, values[..Leading(values)], e.now, s);
    case SnapshotOp(id) =>
    case StatusOp =>
    hide AcquireAttempt;
    hide CompleteAttempt;
    hide RenewAll;
    hide Reconciled;
  }

  /** A circuit just closed, or just installed, has nothing held against it. */
  lemma WatchedAfresh(u: Setup, run: seq<Event>, s: nat, start: Time)
    requires ValidOptions(u.o) && LawfulRun(Empty, u, run) && run != [] && s in After(Empty, u, run).machines
    requires After(Empty, u, run).machines[s].state == Closed
    requires var b := After(Empty, u, run[..|run| - 1]); s in b.machines ==> b.machines[s].state != Closed
    ensures Watched(u, run, s, start)
  {
    hide After;
    hide LawfulRun;
    hide Step;
    var n := |run| - 1;
    var b, g := After(Empty, u, run[..n]), After(Empty, u, run).machines[s].generation;
    LastIsStep(u, run);
    PrefixLawful(Empty, u, run, n);
    EmptyInv(u.o);
    RunKeepsInv(Empty, u, run[..n]);
    hide Inv;
    if s in b.machines {
      ClosedAfresh(b, u, run[n], s);
      SameGenerationSameState(b, u, run[n], s);
    } else {
      NewMachine(b, u, run[n], s);
    }
    NothingToldYet(u, run[..n], s, g, start);
    FailuresToldMore(u, run, s, g, start);
    hide Tells;
    hide Told;
    hide Expire;
    ToldTells(b, u, run[n], s, g);
    if Tells(b, u, run[n], s, g) {
      ToldBelongs(b, u, run[n], s);
      assert false;
    }
  }

  lemma WatchedOn(u: Setup, run: seq<Event>, s: nat, start: Time)
    requires ValidOptions(u.o) && LawfulRun(Empty, u, run) && run != []
    requires var b := After(Empty, u, run[..|run| - 1]); s in b.machines && b.machines[s].state == Closed && Watched(u, run[..|run| - 1], s, start)
    requires InWindow(u, run, s, After(Empty, u, run[..|run| - 1]).machines[s].generation, start)
    ensures s in After(Empty, u, run).machines && Watched(u, run, s, start)
  {
    hide After;
    hide LawfulRun;
    hide Step;
    hide Tells;
    hide CountFrom;
    var n := |run| - 1;
    var b := After(Empty, u, run[..n]);
    var g := b.machines[s].generation;
    LastIsStep(u, run);
    PrefixLawful(Empty, u, run, n);
    EmptyInv(u.o);
    RunKeepsInv(Empty, u, run[..n]);
    hide Inv;
    FailuresToldMore(u, run, s, g, start);
    TellsNow(u, run, s, g, start);
    WindowStep(b, u, run[n], s, start);
  }

  lemma TellsNow(u: Setup, run: seq<Event>, s: nat, g: int, start: Time)
    requires run != []
    ensures var n := |run| - 1;
            var b, e := After(Empty, u, run[..n]), run[n];
            && (TellsAt(u, run, n, s, g) <==> Tells(b, u, e, s, g))
            && (FailsAt(u, run, n, s, g, start) <==>
                  Tells(b, u, e, s, g) && e.op.c.outcome == Failure && e.op.c.reportedAt >= start)
  {
    hide After;
  }

  lemma {:induction false} FailuresAreCounted(u: Setup, run: seq<Event>, s: nat, start: Time)
    requires ValidOptions(u.o) && LawfulRun(Empty, u, run) && s in After(Empty, u, run).machines
    requires InWindow(u, run, s, After(Empty, u, run).machines[s].generation, start)
    ensures Watched(u, run, s, start)
    decreases |run|
  {
    NoMachineAtFirst(u, run, s);
    hide After;
    hide LawfulRun;
    hide InWindow;
    hide Watched;
    var n := |run| - 1;
    var b := After(Empty, u, run[..n]);
    PrefixLawful(Empty, u, run, n);
    if After(Empty, u, run).machines[s].state != Closed {
      OnlyClosedIsWatched(u, run, s, start);
    } else if s !in b.machines || b.machines[s].state != Closed {
      WatchedAfresh(u, run, s, start);
    } else {
      StaysClosed(u, run, s);
      WindowShorter(u, run, s, b.machines[s].generation, start, n);
      FailuresAreCounted(u, run[..n], s, start);
      WatchedOn(u, run, s, start);
    }
  }

  lemma NoMachineAtFirst(u: Setup, run: seq<Event>, s: nat)
    requires s in After(Empty, u, run).machines
    ensures run != []
  {
  }

  lemma OnlyClosedIsWatched(u: Setup, run: seq<Event>, s: nat, start: Time)
    requires s in After(Empty, u, run).machines && After(Empty, u, run).machines[s].state != Closed
    ensures Watched(u, run, s, start)
  {
  }

  /** A circuit closed before and after an event is in the same generation. */
  lemma StaysClosed(u: Setup, run: seq<Event>, s: nat)
    requires ValidOptions(u.o) && LawfulRun(Empty, u, run) && run != [] && s in After(Empty, u, run).machines
    requires var b := After(Empty, u, run[..|run| - 1]); s in b.machines && b.machines[s].state == Closed
    requires After(Empty, u, run).machines[s].state == Closed
    ensures After(Empty, u, run).machines[s].generation == After(Empty, u, run[..|run| - 1]).machines[s].generation
  {
    hide After;
    hide LawfulRun;
    hide Step;
    var n := |run| - 1;
    var b := After(Empty, u, run[..n]);
    LastIsStep(u, run);
    PrefixLawful(Empty, u, run, n);
    EmptyInv(u.o);
    RunKeepsInv(Empty, u, run[..n]);
    hide Inv;
    FromClosed(b, u, run[n], s);
  }

  /** From a closed circuit the way leads on only through the open one. */
  lemma FromClosed(b: Book, u: Setup, e: Event, s: nat)
    requires Inv(b, u.o) && s in b.machines && b.machines[s].state == Closed
    ensures s in Step(b, u, e).machines
    ensures var m, n := b.machines[s], Step(b, u, e).machines[s];
            || (n.state == Closed && n.generation == m.generation)
            || (n.state == Open && n.generation == m.generation + 1 && e.now < n.openedAt + u.o.cooldown
                && Tells(b, u, e, s, m.generation) && e.op.c.outcome == Failure && n.openedAt >= e.op.c.reportedAt
                && (n.openedAt == e.op.c.reportedAt || n.openedAt in m.failures))
            || (n.state == HalfOpen && n.generation == m.generation + 2)
  {
    hide Step;
    hide Expire;
    hide Tells;
    hide Told;
    hide Heard;
    hide Untold;
    Effect(b, u, e, s);
    ToldTells(b, u, e, s, b.machines[s].generation);
    LapsingLeavesClosed(b, u.o, e.now, s);
    MachineFromClosed(b.machines[s], Step(b, u, e).machines[s], u.o, Told(b, u, e, s), e.now);
  }

  /** The machine left a closed one, at the earliest by this event. */
  predicate Left(m: Machine, n: Machine, o: Options, told: Option<Report>, now: Time) {
    || (n.state == Closed && n.generation == m.generation)
    || (n.state == Open && n.generation == m.generation + 1 && now < n.openedAt + o.cooldown
        && told.Some? && told.value.ticket.generation == m.generation && told.value.outcome == Failure
        && n.openedAt >= told.value.at && (n.openedAt == told.value.at || n.openedAt in m.failures))
    || (n.state == HalfOpen && n.generation == m.generation + 2)
  }

  lemma HeardFromClosed(m: Machine, o: Options, r: Report, now: Time)
    requires m.state == Closed
    ensures Left(m, Heard(m, o, r, now), o, Some(r), now)
  {
    var all := m.failures + [r.at];
    LatestMeaning(all);
    assert r.at in all;
    hide Latest;
    hide Prune;
  }

  lemma MachineFromClosed(m: Machine, n: Machine, o: Options, told: Option<Report>, now: Time)
    requires m.state == Closed && if told.Some? then n == Heard(m, o, told.value, now) else Untold(m, n, o, now)
    ensures Left(m, n, o, told, now)
  {
    if told.Some? {
      HeardFromClosed(m, o, told.value, now);
      hide Heard;
      hide Left;
    }
    hide Prune;
  }

  lemma ProbeFailureMoves(m: Machine, o: Options, r: Report, now: Time)
    requires m.state == HalfOpen && r.ticket == Probe(m) && r.outcome == Failure
    ensures var n := Heard(m, o, r, now);
            || (n.state == Open && n.generation == m.generation + 1 && now < n.openedAt + o.cooldown && r.at <= n.openedAt)
            || (n.state == HalfOpen && n.generation == m.generation + 2 && r.at + o.cooldown <= now)
  {
    LatestMeaning(m.failures + [r.at]);
    assert r.at in m.failures + [r.at];
    hide Prune;
    hide Latest;
  }

  lemma FailedProbeStep(b: Book, u: Setup, e: Event, s: nat)
    requires Inv(b, u.o) && s in b.machines && s in Expire(b, u.o, e.now).machines
    requires var m := Expire(b, u.o, e.now).machines[s];
             m.state == HalfOpen && Tells(b, u, e, s, m.generation) && e.op.c.outcome == Failure
    ensures s in Step(b, u, e).machines
    ensures var m, n := Expire(b, u.o, e.now).machines[s], Step(b, u, e).machines[s];
            if e.now < e.op.c.reportedAt + u.o.cooldown
            then n.state == Open && n.generation == m.generation + 1 && n.openedAt >= e.op.c.reportedAt
            else n.state != Closed && n.generation > m.generation
  {
    hide Step;
    hide Expire;
    hide Told;
    hide Tells;
    hide Heard;
    hide Untold;
    Effect(b, u, e, s);
    var m := Expire(b, u.o, e.now).machines[s];
    ToldTells(b, u, e, s, m.generation);
    ToldBelongs(b, u, e, s);
    ProbeFailureMoves(m, u.o, Told(b, u, e, s).value, e.now);
  }

  /** Whoever fails in the present generation is counted among the closed circuit's failures, or ends
  the generation. */
  lemma FailedGeneration(u: Setup, run: seq<Event>, j: nat, s: nat, g: int, start: Time)
    requires ValidOptions(u.o) && LawfulRun(Empty, u, run) && FailsAt(u, run, j, s, g, start)
    ensures s in After(Empty, u, run).machines
    ensures var m := After(Empty, u, run).machines[s]; m.generation > g || (m.generation == g && m.state == Closed)
  {
    hide Tells;
    hide Told;
    hide Expire;
    hide After;
    hide Step;
    hide LawfulRun;
    hide Inv;
    ToldEarlier(u, run, j, s, g);
    var b, e := After(Empty, u, run[..j]), run[j];
    PrefixLawful(Empty, u, run, j);
    EmptyInv(u.o);
    RunKeepsInv(Empty, u, run[..j]);
    ToldTells(b, u, e, s, g);
    ToldBelongs(b, u, e, s);
    LastIsStep(u, run[..j + 1]);
    assert run[..j + 1][..j] == run[..j];
    SameGenerationSameState(b, u, e, s);
    StaysInGeneration(u, run, j + 1, s);
    var m := Expire(b, u.o, e.now).machines[s];
    if m.state == HalfOpen && m.generation == g {
      FailedProbeStep(b, u, e, s);
    }
  }

  lemma SaneClosed(u: Setup, run: seq<Event>, k: int)
    requires ValidOptions(u.o) && LawfulRun(Empty, u, run) && k in After(Empty, u, run).circuits
    ensures var b := After(Empty, u, run);
            var s := b.circuits[k].serial;
            s in b.machines && (b.machines[s].state == Closed ==> |b.machines[s].failures| < u.o.threshold)
  {
    EmptyInv(u.o);
    RunKeepsInv(Empty, u, run);
    hide After;
    assert Probing(After(Empty, u, run), u.o, k);
  }

  /** Event `i` opens the circuit, which is half-open at once if its cooldown is already over. */
  ghost predicate OpensAt(u: Setup, run: seq<Event>, i: nat, s: nat, g: int) {
    && i < |run| && s in After(Empty, u, run[..i]).machines && s in After(Empty, u, run[..i + 1]).machines
    && var m, n := After(Empty, u, run[..i]).machines[s], After(Empty, u, run[..i + 1]).machines[s];
    && m.generation == g
    && ((n.state == Open && n.generation == g + 1) || (n.state == HalfOpen && n.generation == g + 2))
  }

  /** A closed circuit leaves its generation only by opening. */
  lemma {:induction false} LeavesByOpening(u: Setup, run: seq<Event>, i: nat, s: nat) returns (at: nat)
    requires ValidOptions(u.o) && LawfulRun(Empty, u, run) && i <= |run| && s in After(Empty, u, run[..i]).machines
    requires After(Empty, u, run[..i]).machines[s].state == Closed && s in After(Empty, u, run).machines
    requires After(Empty, u, run).machines[s].generation > After(Empty, u, run[..i]).machines[s].generation
    ensures i <= at < |run| && OpensAt(u, run, at, s, After(Empty, u, run[..i]).machines[s].generation)
    decreases |run| - i
  {
    hide After;
    hide Step;
    hide LawfulRun;
    assert run[..|run|] == run;
    if i == |run| {
      assert false;
    }
    var b := After(Empty, u, run[..i]);
    PrefixLawful(Empty, u, run, i);
    EmptyInv(u.o);
    RunKeepsInv(Empty, u, run[..i]);
    hide Inv;
    FromClosed(b, u, run[i], s);
    LastIsStep(u, run[..i + 1]);
    assert run[..i + 1][..i] == run[..i];
    if After(Empty, u, run[..i + 1]).machines[s].state == Closed {
      at := LeavesByOpening(u, run, i + 1, s);
    } else {
      at := i;
    }
  }

  /** A burst opens the circuit: once `threshold` failures of calls of the closed circuit's generation,
  all inside one window, were reported in time, each for the first time, it has opened. */
  lemma BurstOpens(u: Setup, run: seq<Event>, k: int, i: nat, start: Time, burst: set<nat>) returns (at: nat)
    requires ValidOptions(u.o) && LawfulRun(Empty, u, run) && k in After(Empty, u, run).circuits && i <= |run|
    requires var s := After(Empty, u, run).circuits[k].serial;
             && s in After(Empty, u, run[..i]).machines && After(Empty, u, run[..i]).machines[s].state == Closed
             && var g := After(Empty, u, run[..i]).machines[s].generation;
             && InWindow(u, run, s, g, start)
             && |burst| >= u.o.threshold && forall j :: j in burst ==> FailsAt(u, run, j, s, g, start)
    ensures var s := After(Empty, u, run).circuits[k].serial;
            i <= at < |run| && OpensAt(u, run, at, s, After(Empty, u, run[..i]).machines[s].generation)
  {
    var s := After(Empty, u, run).circuits[k].serial;
    hide LawfulRun;
    hide After;
    var g := After(Empty, u, run[..i]).machines[s].generation;
    var j := Element(burst);
    FailedGeneration(u, run, j, s, g, start);
    var m := After(Empty, u, run).machines[s];
    if m.generation == g {
      FailuresAreCounted(u, run, s, start);
      SmallerSet(burst, FailuresTold(u, run, s, g, start));
      CountAtMost(m.failures, start);
      SaneClosed(u, run, k);
      assert false;
    }
    at := LeavesByOpening(u, run, i, s);
  }

  // Probes of a half-open circuit

  /** Event `j` tells breaker `s` that a call of generation `g` went well. */
  ghost predicate SucceedsAt(u: Setup, run: seq<Event>, j: nat, s: nat, g: int) {
    TellsAt(u, run, j, s, g) && run[j].op.CompleteOp? && run[j].op.c.outcome == Success
  }

  ghost predicate SuccessTold(u: Setup, run: seq<Event>, s: nat, g: int) {
    exists j: nat :: SucceedsAt(u, run, j, s, g)
  }

  lemma SucceedsBefore(u: Setup, run: seq<Event>, j: nat, s: nat, g: int)
    requires run != []
    ensures var n := |run| - 1;
            && (j < n ==> SucceedsAt(u, run[..n], j, s, g) == SucceedsAt(u, run, j, s, g))
            && (j >= n ==> !SucceedsAt(u, run[..n], j, s, g))
            && (SucceedsAt(u, run, j, s, g) ==> j <= n)
            && (SucceedsAt(u, run, n, s, g) <==>
                  Tells(After(Empty, u, run[..n]), u, run[n], s, g) && run[n].op.c.outcome == Success)
  {
    var n := |run| - 1;
    TellsNow(u, run, s, g, 0);
    TellsByCompletion(After(Empty, u, run[..n]), u, run[n], s, g);
    hide Tells;
    hide After;
    if j < n {
      TellsBefore(u, run, n, j, s, g, 0);
    }
  }

  lemma TellsByCompletion(b: Book, u: Setup, e: Event, s: nat, g: int)
    ensures Tells(b, u, e, s, g) ==> e.op.CompleteOp?
  {
  }

  lemma SuccessToldMore(u: Setup, run: seq<Event>, s: nat, g: int)
    requires run != []
    ensures var n := |run| - 1;
            var b, e := After(Empty, u, run[..n]), run[n];
            SuccessTold(u, run, s, g) <==> SuccessTold(u, run[..n], s, g) || (Tells(b, u, e, s, g) && e.op.c.outcome == Success)
  {
    var n := |run| - 1;
    hide SucceedsAt;
    hide After;
    hide Tells;
    SucceedsBefore(u, run, n, s, g);
    if SuccessTold(u, run, s, g) {
      var j: nat :| SucceedsAt(u, run, j, s, g);
      SucceedsBefore(u, run, j, s, g);
    }
    if SuccessTold(u, run[..n], s, g) {
      var j: nat :| SucceedsAt(u, run[..n], j, s, g);
      SucceedsBefore(u, run, j, s, g);
    }
  }

  lemma LapsedMark(b: Book, o: Options, now: Time, s: nat)
    requires s in b.machines
    ensures s in Expire(b, o, now).machines
    ensures var m, live := b.machines[s], Expire(b, o, now).machines[s];
            live == m || (live.state == Open && live.generation > m.generation)
  {
    Lapsing(b, o, now, s);
    LapsingLeavesClosed(b, o, now, s);
    hide Expire;
    hide Prune;
    hide Latest;
  }

  lemma MachineMark(m: Machine, n: Machine, o: Options, told: Option<Report>, now: Time)
    requires n.state == HalfOpen && (told.Some? ==> Belongs(told.value.ticket, m))
    requires if told.Some? then n == Heard(m, o, told.value, now) else Untold(m, n, o, now)
    ensures if m.generation == n.generation
            then m.state == HalfOpen
                 && (n.succeeded <==>
                       m.succeeded || (told.Some? && told.value.ticket.generation == m.generation && told.value.outcome == Success))
            else !n.succeeded && m.generation < n.generation
  {
    hide Prune;
    hide Latest;
  }

  /** What an event does to the mark of success. */
  lemma SuccessStep(b: Book, u: Setup, e: Event, s: nat)
    requires Inv(b, u.o) && s in b.machines && s in Step(b, u, e).machines && Step(b, u, e).machines[s].state == HalfOpen
    ensures s in Expire(b, u.o, e.now).machines
    ensures var m, live, n := b.machines[s], Expire(b, u.o, e.now).machines[s], Step(b, u, e).machines[s];
            if m.generation == n.generation
            then m.state == HalfOpen && (n.succeeded <==> m.succeeded || (Tells(b, u, e, s, n.generation) && e.op.c.outcome == Success))
            else !n.succeeded && live.generation < n.generation
  {
    hide Step;
    hide Expire;
    hide Tells;
    hide Told;
    hide Heard;
    hide Untold;
    Effect(b, u, e, s);
    LapsedMark(b, u.o, e.now, s);
    var live, n, told := Expire(b, u.o, e.now).machines[s], Step(b, u, e).machines[s], Told(b, u, e, s);
    ToldTells(b, u, e, s, n.generation);
    if told.Some? {
      ToldBelongs(b, u, e, s);
    }
    MachineMark(live, n, u.o, told, e.now);
  }

  lemma NoSuccessYet(u: Setup, run: seq<Event>, s: nat, g: int)
    requires ValidOptions(u.o) && LawfulRun(Empty, u, run)
    requires s in After(Empty, u, run).machines ==> After(Empty, u, run).machines[s].generation < g
    ensures !SuccessTold(u, run, s, g)
  {
    hide After;
    hide LawfulRun;
    hide Tells;
    if SuccessTold(u, run, s, g) {
      var j: nat :| SucceedsAt(u, run, j, s, g);
      ToldEarlier(u, run, j, s, g);
      assert false;
    }
  }

  /** The mark of success of a half-open circuit tells whether a probe of this generation was reported
  to have gone well. */
  lemma {:induction false} SuccessesAreMarked(u: Setup, run: seq<Event>, s: nat)
    requires ValidOptions(u.o) && LawfulRun(Empty, u, run) && s in After(Empty, u, run).machines
    requires After(Empty, u, run).machines[s].state == HalfOpen
    ensures var m := After(Empty, u, run).machines[s]; m.succeeded <==> SuccessTold(u, run, s, m.generation)
    decreases |run|
  {
    NoMachineAtFirst(u, run, s);
    hide After;
    hide LawfulRun;
    hide Step;
    hide Expire;
    hide Tells;
    hide Told;
    hide SuccessTold;
    var n := |run| - 1;
    var b, g := After(Empty, u, run[..n]), After(Empty, u, run).machines[s].generation;
    LastIsStep(u, run);
    PrefixLawful(Empty, u, run, n);
    EmptyInv(u.o);
    RunKeepsInv(Empty, u, run[..n]);
    hide Inv;
    SuccessToldMore(u, run, s, g);
    if s !in b.machines {
      NewMachine(b, u, run[n], s);
      assert false;
    } else {
      SuccessStep(b, u, run[n], s);
      if b.machines[s].generation == g {
        SuccessesAreMarked(u, run[..n], s);
      } else {
        SameGenerationSameState(b, u, run[n], s);
        NoSuccessYet(u, run[..n], s, g);
        ToldTells(b, u, run[n], s, g);
        if Tells(b, u, run[n], s, g) {
          ToldBelongs(b, u, run[n], s);
        }
      }
    }
  }

  lemma MachineCloses(m: Machine, n: Machine, o: Options, told: Option<Report>, now: Time)
    requires Sane(m, o) && m.state == HalfOpen && (told.Some? ==> Belongs(told.value.ticket, m))
    requires if told.Some? then n == Heard(m, o, told.value, now) else Untold(m, n, o, now)
    requires told.Some? && told.value.ticket == Probe(m) ==> m.probes > 0
    ensures n.state == Closed <==>
              && told.Some? && told.value.ticket == Probe(m) && told.value.outcome != Failure && m.probes == 1
              && (told.value.outcome == Success || m.succeeded)
    ensures n.state == Closed ==> n.generation == m.generation + 1 && n.failures == [] && n.probes == 0
  {
    hide Latest;
  }

  lemma OnlyOne(live: Book, s: nat, id: Id)
    requires s in live.machines && id in Live(live, s)
    ensures |Live(live, s)| == 1 <==> Live(live, s) == {id}
  {
    var all := Live(live, s);
    if |all| == 1 {
      var rest := all - {id};
      assert |rest| == 0;
      assert all == rest + {id};
    }
  }

  lemma ToldProbeIsLive(b: Book, u: Setup, e: Event, s: nat)
    requires Inv(b, u.o) && s in Expire(b, u.o, e.now).machines
    requires Tells(b, u, e, s, Expire(b, u.o, e.now).machines[s].generation)
    requires Expire(b, u.o, e.now).machines[s].state == HalfOpen
    ensures e.op.c.attemptId in Live(Expire(b, u.o, e.now), s)
  {
    ExpireKeepsInv(b, u.o, e.now);
    assert Filed(Expire(b, u.o, e.now), e.op.c.attemptId);
    hide Expire;
  }

  /** A half-open circuit closes exactly with the report that ends its last open probe, if that probe or
  one before it went well and this one did not fail. */
  lemma ClosesExactlyWhen(u: Setup, run: seq<Event>, e: Event, k: int)
    requires ValidOptions(u.o) && LawfulRun(Empty, u, run) && k in After(Empty, u, run).circuits
    requires var b := After(Empty, u, run);
             var live, s := Expire(b, u.o, e.now), b.circuits[k].serial;
             s in live.machines && live.machines[s].state == HalfOpen
    ensures var b := After(Empty, u, run);
            var live, s := Expire(b, u.o, e.now), b.circuits[k].serial;
            && s in Step(b, u, e).machines
            && var m, n := live.machines[s], Step(b, u, e).machines[s];
            && (n.state == Closed <==>
                  && Tells(b, u, e, s, m.generation) && e.op.c.outcome != Failure && Live(live, s) == {e.op.c.attemptId}
                  && (e.op.c.outcome == Success || SuccessTold(u, run, s, m.generation)))
            && (n.state == Closed ==> n.generation == m.generation + 1 && n.failures == [])
  {
    var b := After(Empty, u, run);
    EmptyInv(u.o);
    RunKeepsInv(Empty, u, run);
    assert Probing(b, u.o, k);
    hide LawfulRun;
    hide After;
    hide Step;
    ExpireKeepsInv(b, u.o, e.now);
    var live, s := Expire(b, u.o, e.now), b.circuits[k].serial;
    assert live.circuits == b.circuits;
    assert Probing(live, u.o, k);
    LapsedMark(b, u.o, e.now, s);
    hide Expire;
    hide Inv;
    hide Tells;
    hide Told;
    hide Heard;
    hide Untold;
    SuccessesAreMarked(u, run, s);
    var m := live.machines[s];
    Effect(b, u, e, s);
    ToldTells(b, u, e, s, m.generation);
    if Told(b, u, e, s).Some? {
      ToldBelongs(b, u, e, s);
    }
    if Tells(b, u, e, s, m.generation) {
      ToldProbeIsLive(b, u, e, s);
      OnlyOne(live, s, e.op.c.attemptId);
    }
    hide Live;
    MachineCloses(m, Step(b, u, e).machines[s], u.o, Told(b, u, e, s), e.now);
  }

  /** A probe of the present generation that is reported to have failed reopens the circuit, and it stays
  so for the cooldown from that failure at least. */
  lemma FailedProbeReopens(u: Setup, run: seq<Event>, e: Event, k: int)
    requires ValidOptions(u.o) && LawfulRun(Empty, u, run) && k in After(Empty, u, run).circuits
    requires var b := After(Empty, u, run);
             var live, s := Expire(b, u.o, e.now), b.circuits[k].serial;
             && s in live.machines && live.machines[s].state == HalfOpen
             && Tells(b, u, e, s, live.machines[s].generation) && e.op.c.outcome == Failure
    ensures var b := After(Empty, u, run);
            var s := b.circuits[k].serial;
            && s in Step(b, u, e).machines
            && var m, n := Expire(b, u.o, e.now).machines[s], Step(b, u, e).machines[s];
            if e.now < e.op.c.reportedAt + u.o.cooldown
            then n.state == Open && n.generation == m.generation + 1 && n.openedAt >= e.op.c.reportedAt
            else n.state != Closed && n.generation > m.generation
  {
    hide LawfulRun;
    hide After;
    hide Step;
    hide Tells;
    EmptyInv(u.o);
    RunKeepsInv(Empty, u, run);
    hide Inv;
    FailedProbeStep(After(Empty, u, run), u, e, After(Empty, u, run).circuits[k].serial);
  }

  lemma MachineStaysOpen(m: Machine, n: Machine, o: Options, told: Option<Report>, now: Time)
    requires m.state == Open && now < m.openedAt + o.cooldown && (told.Some? ==> Belongs(told.value.ticket, m))
    requires if told.Some? then n == Heard(m, o, told.value, now) else Untold(m, n, o, now)
    ensures n == m
  {
  }

  /** Nothing moves an open circuit before its cooldown is over. */
  lemma OpenStays(b: Book, u: Setup, e: Event, s: nat)
    requires Inv(b, u.o) && s in b.machines && b.machines[s].state == Open && e.now < b.machines[s].openedAt + u.o.cooldown
    ensures s in Step(b, u, e).machines && Step(b, u, e).machines[s] == b.machines[s]
  {
    hide Step;
    hide Expire;
    hide Told;
    hide Heard;
    hide Untold;
    Effect(b, u, e, s);
    LapsingLeavesClosed(b, u.o, e.now, s);
    if Told(b, u, e, s).Some? {
      ToldBelongs(b, u, e, s);
    }
    MachineStaysOpen(b.machines[s], Step(b, u, e).machines[s], u.o, Told(b, u, e, s), e.now);
  }

  /** An open circuit is open, in the same generation, until the cooldown is over. */
  lemma {:induction false} OpenForItsCooldown(u: Setup, run: seq<Event>, i: nat, s: nat)
    requires ValidOptions(u.o) && LawfulRun(Empty, u, run) && i <= |run| && s in After(Empty, u, run[..i]).machines
    requires After(Empty, u, run[..i]).machines[s].state == Open
    requires forall j :: i <= j < |run| ==> run[j].now < After(Empty, u, run[..i]).machines[s].openedAt + u.o.cooldown
    ensures s in After(Empty, u, run).machines && After(Empty, u, run).machines[s] == After(Empty, u, run[..i]).machines[s]
    decreases |run|
  {
    hide After;
    hide Step;
    hide LawfulRun;
    assert run[..|run|] == run;
    if i < |run| {
      var n := |run| - 1;
      assert run[..n][..i] == run[..i];
      PrefixLawful(Empty, u, run, n);
      OpenForItsCooldown(u, run[..n], i, s);
      EmptyInv(u.o);
      RunKeepsInv(Empty, u, run[..n]);
      hide Inv;
      LastIsStep(u, run);
      OpenStays(After(Empty, u, run[..n]), u, run[n], s);
    }
  }
}
