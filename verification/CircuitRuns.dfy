/** What holds of the circuit coordinator's book after any run of its operations. */
module CircuitRuns {
  import opened ExpiryQueue
  import opened CircuitBreaker
  import opened CircuitBook
  import opened Counting

  predicate Belongs(t: Ticket, m: Machine) {
    t.generation <= m.generation && (t.generation == m.generation ==> m.state != Open && (t.probe <==> m.state == HalfOpen))
  }

  /** Every circuit has a breaker of its own. */
  ghost predicate Wired(b: Book) {
    && (forall k :: k in b.circuits ==>
          && b.circuits[k].serial in b.machines && b.circuits[k].identity.id == k
          && b.circuits[k].identity.enabled && !b.circuits[k].identity.draining)
    && (forall j, k :: j in b.circuits && k in b.circuits && b.circuits[j].serial == b.circuits[k].serial ==> j == k)
    && (forall s :: s in b.machines ==> s < b.next)
  }

  /** An attempt is filed under its own name, knows its breaker, and holds a permit exactly when it
  is a probe. */
  ghost predicate Filed(b: Book, id: Id)
    requires id in b.attempts
  {
    var a := b.attempts[id];
    && a.request.attemptId == id && a.serial in b.machines && Belongs(a.ticket, b.machines[a.serial])
    && (a.permit.Some? <==> a.ticket.probe)
    && (a.permit.Some? ==> a.permit.value.generation == a.ticket.generation)
    && (a.completion.Some? ==> a.retainUntil.Some?)
  }

  /** An attempt still open was made through the circuit that serves its backend now. */
  ghost predicate Current(b: Book, id: Id)
    requires id in b.attempts
  {
    var a := b.attempts[id];
    a.retainUntil.None? ==>
      a.request.backend.id in b.circuits && b.circuits[a.request.backend.id] == Circuit(a.request.backend, a.serial)
  }

  ghost predicate Kept(b: Book) {
    forall id :: id in b.attempts ==> Filed(b, id) && Current(b, id)
  }

  /** The open probes of the breaker's present generation. */
  function Live(b: Book, s: nat): set<Id>
    requires s in b.machines
  {
    set id | id in b.attempts && b.attempts[id].retainUntil.None? && b.attempts[id].serial == s
             && b.attempts[id].ticket == Probe(b.machines[s])
  }

  /** A serving breaker's counters are those of the open probes. */
  ghost predicate Probing(b: Book, o: Options, k: int)
    requires k in b.circuits
  {
    var s := b.circuits[k].serial;
    s in b.machines && Sane(b.machines[s], o) && b.machines[s].probes == |Live(b, s)|
  }

  ghost predicate Counted(b: Book, o: Options) {
    forall k :: k in b.circuits ==> Probing(b, o, k)
  }

  ghost predicate Inv(b: Book, o: Options) {
    ValidOptions(o) && Wired(b) && Kept(b) && Counted(b, o)
  }

  // One operation changes one breaker and some attempts

  predicate Moves(m: Machine, n: Machine) {
    m.generation < n.generation || (m.generation == n.generation && m.state == n.state)
  }

  /** The same attempt later on: once terminal, always terminal. */
  predicate SameAttempt(a: Attempt, c: Attempt) {
    && c.request == a.request && c.serial == a.serial && c.ticket == a.ticket
    && (c.permit.Some? <==> a.permit.Some?)
    && (c.permit.Some? ==> c.permit.value.generation == a.permit.value.generation)
    && (a.retainUntil.Some? ==> c.retainUntil.Some?) && (c.completion.Some? ==> c.retainUntil.Some?)
  }

  ghost predicate Evolves(b: Book, c: Book, s: nat) {
    && (forall id :: id in c.attempts ==>
          if id in b.attempts then SameAttempt(b.attempts[id], c.attempts[id])
          else c.attempts[id].serial == s && Filed(c, id) && Current(c, id))
    && (forall id :: id in b.attempts && b.attempts[id].retainUntil.None? && b.attempts[id].serial != s ==>
          id in c.attempts && c.attempts[id].retainUntil.None?)
  }

  ghost predicate ChangesOnly(b: Book, c: Book, s: nat) {
    && c.circuits == b.circuits && c.next == b.next && s in b.machines && s in c.machines
    && c.machines == b.machines[s := c.machines[s]]
    && Moves(b.machines[s], c.machines[s])
  }

  lemma OtherProbes(b: Book, c: Book, s: nat, t: nat)
    requires Evolves(b, c, s) && ChangesOnly(b, c, s) && t != s && t in b.machines
    ensures Live(c, t) == Live(b, t)
  {
    forall id
      ensures id in Live(c, t) <==> id in Live(b, t)
    {
    }
  }

  lemma ChangeKeepsFiles(b: Book, c: Book, s: nat)
    requires Kept(b) && Evolves(b, c, s) && ChangesOnly(b, c, s)
    ensures Kept(c)
  {
    forall id | id in c.attempts
      ensures Filed(c, id) && Current(c, id)
    {
      if id in b.attempts {
        assert Filed(b, id) && Current(b, id);
      }
    }
  }

  lemma ChangeKeepsInv(b: Book, c: Book, o: Options, k: int)
    requires Inv(b, o) && k in b.circuits && Evolves(b, c, b.circuits[k].serial) && ChangesOnly(b, c, b.circuits[k].serial)
    requires Probing(c, o, k)
    ensures Inv(c, o)
  {
    var s := b.circuits[k].serial;
    ChangeKeepsFiles(b, c, s);
    forall j | j in c.circuits
      ensures Probing(c, o, j)
    {
      if j != k {
        assert Probing(b, o, j);
        OtherProbes(b, c, s, c.circuits[j].serial);
      }
    }
    hide Live;
    hide Kept;
    hide Evolves;
  }

  /** A change of terminal attempts, permits or completions that touches no breaker. */
  lemma QuietChange(b: Book, c: Book, o: Options)
    requires Inv(b, o) && c == b.(attempts := c.attempts)
    requires forall id :: id in c.attempts ==> id in b.attempts && SameAttempt(b.attempts[id], c.attempts[id])
    requires forall id :: id in b.attempts && b.attempts[id].retainUntil.None? ==>
               id in c.attempts && c.attempts[id].retainUntil.None?
    ensures Inv(c, o)
  {
    forall id | id in c.attempts
      ensures Filed(c, id) && Current(c, id)
    {
      assert Filed(b, id) && Current(b, id);
    }
    forall j | j in c.circuits
      ensures Probing(c, o, j)
    {
      assert Probing(b, o, j);
      var s := b.circuits[j].serial;
      forall x
        ensures x in Live(c, s) <==> x in Live(b, s)
      {
      }
      assert Live(c, s) == Live(b, s);
    }
    hide Live;
  }

  lemma NoProbes(b: Book, c: Book, s: nat)
    requires Kept(b) && s in b.machines && s in c.machines && c.machines[s].generation > b.machines[s].generation
    requires forall id :: id in c.attempts ==> id in b.attempts && SameAttempt(b.attempts[id], c.attempts[id])
    ensures Live(c, s) == {}
  {
    forall id | id in c.attempts && c.attempts[id].serial == s
      ensures c.attempts[id].ticket != Probe(c.machines[s])
    {
      assert Filed(b, id);
    }
  }

  // Observing

  lemma ObservedMachine(m: Machine, o: Options, now: Time)
    requires ValidOptions(o) && Sane(m, o)
    ensures var n := Observe(m, o, now);
            Sane(n, o) && Moves(m, n) && n.probes == if n.generation == m.generation then m.probes else 0
  {
  }

  lemma ObserveKeepsInv(b: Book, o: Options, k: int, now: Time)
    requires Inv(b, o)
    ensures Inv(Observed(b, o, k, now), o)
  {
    if k in b.circuits {
      var c := Observed(b, o, k, now);
      var s := b.circuits[k].serial;
      assert Probing(b, o, k);
      ObservedMachine(b.machines[s], o, now);
      hide Observe;
      if c.machines[s].generation == b.machines[s].generation {
        forall x
          ensures x in Live(c, s) <==> x in Live(b, s)
        {
        }
        assert Live(c, s) == Live(b, s);
      } else {
        NoProbes(b, c, s);
      }
      hide Live;
      assert Evolves(b, c, s) by {
        assert forall id :: id in b.attempts ==> Filed(b, id);
      }
      ChangeKeepsInv(b, c, o, k);
    }
  }

  // Settling

  lemma CompletedMachine(m: Machine, o: Options, t: Ticket, outcome: Outcome, at: Time)
    requires ValidOptions(o) && Sane(m, o) && Belongs(t, m) && (t == Probe(m) ==> m.probes > 0)
    ensures var n := Complete(m, o, t, outcome, at);
            && Sane(n, o) && Moves(m, n)
            && n.probes == if n.generation > m.generation then 0 else if t == Probe(m) then m.probes - 1 else m.probes
  {
  }

  lemma SettleKeepsInv(b: Book, o: Options, id: Id, outcome: Outcome, at: Time, until: Time)
    requires Inv(b, o) && id in b.attempts && b.attempts[id].retainUntil.None?
    ensures Filed(b, id) && Inv(Settle(b, o, id, outcome, at, until), o)
  {
    assert Filed(b, id) && Current(b, id);
    var a := b.attempts[id];
    var c := Settle(b, o, id, outcome, at, until);
    var k, s := a.request.backend.id, a.serial;
    assert Probing(b, o, k);
    if a.ticket == Probe(b.machines[s]) {
      assert id in Live(b, s);
    }
    CompletedMachine(b.machines[s], o, a.ticket, outcome, at);
    hide Complete;
    hide Sane;
    assert Evolves(b, c, s) by {
      assert forall i :: i in b.attempts ==> Filed(b, i);
    }
    if c.machines[s].generation > b.machines[s].generation {
      NoProbes(b, c, s);
    } else if a.ticket == Probe(b.machines[s]) {
      forall x
        ensures x in Live(c, s) <==> x in Live(b, s) - {id}
      {
      }
      assert Live(c, s) == Live(b, s) - {id};
    } else {
      forall x
        ensures x in Live(c, s) <==> x in Live(b, s)
      {
      }
      assert Live(c, s) == Live(b, s);
    }
    hide Live;
    ChangeKeepsInv(b, c, o, k);
  }

  // Expiry

  ghost function DueIds(b: Book, now: Time): set<Id> {
    set id | id in b.attempts && Due(b.attempts[id], now)
  }

  ghost predicate OldestDue(b: Book, id: Id, now: Time) {
    && id in b.attempts && Due(b.attempts[id], now)
    && forall x :: x in b.attempts && Due(b.attempts[x], now) ==>
         b.attempts[id].permit.value.expiresAt <= b.attempts[x].permit.value.expiresAt
  }

  ghost function LapseOne(b: Book, o: Options, id: Id, now: Time): Book
    requires id in b.attempts && b.attempts[id].serial in b.machines && b.attempts[id].permit.Some?
  {
    var at := b.attempts[id].permit.value.expiresAt;
    Settle(b, o, id, Failure, at, BoundaryOf(now, b.attempts[id].request.startedAt, at))
  }

  lemma LapseOther(b: Book, o: Options, id: Id, now: Time, s: nat)
    requires Inv(b, o) && OldestDue(b, id, now) && Filed(b, id) && s in b.machines
    requires s != b.attempts[id].serial || b.attempts[id].ticket != Probe(b.machines[s])
    ensures var c := LapseOne(b, o, id, now); c.machines[s] == b.machines[s] && Lapses(c, s, now) == Lapses(b, s, now)
  {
    var c := LapseOne(b, o, id, now);
    assert c.machines[s] == b.machines[s];
    hide Complete;
    forall t
      ensures t in Lapses(c, s, now) <==> t in Lapses(b, s, now)
    {
      if t in Lapses(b, s, now) {
        var x :| x in b.attempts && Due(b.attempts[x], now) && b.attempts[x].serial == s
                 && b.attempts[x].ticket == Probe(b.machines[s]) && b.attempts[x].permit.value.expiresAt == t;
        assert x != id && c.attempts[x] == b.attempts[x];
      }
    }
  }

  /** A breaker that hears of an overdue probe hears of no other one. */
  lemma LapseOwn(b: Book, o: Options, id: Id, now: Time)
    requires Inv(b, o) && OldestDue(b, id, now) && Filed(b, id)
    requires b.attempts[id].ticket == Probe(b.machines[b.attempts[id].serial])
    ensures var c := LapseOne(b, o, id, now);
            var s := b.attempts[id].serial;
            && Lapses(c, s, now) == {} && Lapses(b, s, now) != {}
            && Least(Lapses(b, s, now)) == b.attempts[id].permit.value.expiresAt
  {
    var c := LapseOne(b, o, id, now);
    var s := b.attempts[id].serial;
    assert b.attempts[id].permit.value.expiresAt in Lapses(b, s, now);
    assert c.machines[s].generation > b.machines[s].generation;
    hide Complete;
    forall x | x in c.attempts && c.attempts[x].serial == s
      ensures c.attempts[x].ticket != Probe(c.machines[s])
    {
      assert Filed(b, x);
    }
  }

  lemma LapseMachine(b: Book, o: Options, id: Id, now: Time, s: nat)
    requires Inv(b, o) && OldestDue(b, id, now) && Filed(b, id) && s in b.machines
    ensures ExpirePermits(LapseOne(b, o, id, now), o, now).machines[s] == ExpirePermits(b, o, now).machines[s]
  {
    hide Lapses;
    hide Complete;
    hide Inv;
    if s == b.attempts[id].serial && b.attempts[id].ticket == Probe(b.machines[s]) {
      LapseOwn(b, o, id, now);
    } else {
      LapseOther(b, o, id, now, s);
    }
  }

  lemma LapseAttempts(b: Book, o: Options, id: Id, now: Time)
    requires OldestDue(b, id, now) && Filed(b, id)
    ensures ExpirePermits(LapseOne(b, o, id, now), o, now).attempts == ExpirePermits(b, o, now).attempts
  {
    hide Lapses;
    hide Complete;
  }

  /** Overdue permits may be settled one at a time, the oldest first. */
  lemma LapseFirst(b: Book, o: Options, id: Id, now: Time)
    requires Inv(b, o) && OldestDue(b, id, now) && Filed(b, id)
    ensures ExpirePermits(LapseOne(b, o, id, now), o, now) == ExpirePermits(b, o, now)
  {
    hide ExpirePermits;
    hide Complete;
    hide Inv;
    var c := LapseOne(b, o, id, now);
    LapseAttempts(b, o, id, now);
    ExpirePermitsFrame(b, o, now);
    ExpirePermitsFrame(c, o, now);
    assert c.machines.Keys == b.machines.Keys && c.circuits == b.circuits && c.next == b.next;
    hide LapseOne;
    hide Filed;
    hide OldestDue;
    forall s | s in b.machines
      ensures ExpirePermits(c, o, now).machines[s] == ExpirePermits(b, o, now).machines[s]
    {
      LapseMachine(b, o, id, now, s);
    }
    assert ExpirePermits(c, o, now).machines == ExpirePermits(b, o, now).machines;
  }

  lemma ExpirePermitsFrame(b: Book, o: Options, now: Time)
    ensures var c := ExpirePermits(b, o, now);
            c.circuits == b.circuits && c.next == b.next && c.machines.Keys == b.machines.Keys
  {
    hide Lapses;
  }

  lemma NothingDue(b: Book, o: Options, now: Time)
    requires DueIds(b, now) == {}
    ensures ExpirePermits(b, o, now) == b
  {
    assert forall id :: id in b.attempts ==> id !in DueIds(b, now);
    assert forall s :: s in b.machines ==> Lapses(b, s, now) == {};
    assert ExpirePermits(b, o, now).machines == b.machines;
    assert ExpirePermits(b, o, now).attempts == b.attempts;
  }

  lemma FindOldest(b: Book, now: Time) returns (id: Id)
    requires DueIds(b, now) != {}
    ensures OldestDue(b, id, now)
  {
    var times := set x | x in DueIds(b, now) :: b.attempts[x].permit.value.expiresAt;
    var y := Element(DueIds(b, now));
    assert b.attempts[y].permit.value.expiresAt in times;
    var least := Least(times);
    id :| id in DueIds(b, now) && b.attempts[id].permit.value.expiresAt == least;
    forall x | x in b.attempts && Due(b.attempts[x], now)
      ensures b.attempts[id].permit.value.expiresAt <= b.attempts[x].permit.value.expiresAt
    {
      assert x in DueIds(b, now);
      assert b.attempts[x].permit.value.expiresAt in times;
    }
  }

  lemma {:induction false} ExpirePermitsKeepsInv(b: Book, o: Options, now: Time)
    requires Inv(b, o)
    ensures Inv(ExpirePermits(b, o, now), o)
    decreases |DueIds(b, now)|
  {
    if DueIds(b, now) == {} {
      NothingDue(b, o, now);
    } else {
      var id := FindOldest(b, now);
      assert Filed(b, id);
      var a := b.attempts[id];
      SettleKeepsInv(b, o, id, Failure, a.permit.value.expiresAt, BoundaryOf(now, a.request.startedAt, a.permit.value.expiresAt));
      LapseFirst(b, o, id, now);
      var c := LapseOne(b, o, id, now);
      hide Complete;
      assert DueIds(c, now) == DueIds(b, now) - {id};
      ExpirePermitsKeepsInv(c, o, now);
    }
  }

  lemma WithoutKeepsInv(b: Book, o: Options, gone: set<Id>)
    requires Inv(b, o) && forall id :: id in gone && id in b.attempts ==> b.attempts[id].retainUntil.Some?
    ensures Inv(Without(b, gone), o)
  {
    assert forall id :: id in b.attempts ==> Filed(b, id);
    QuietChange(b, Without(b, gone), o);
  }

  lemma ExpireKeepsInv(b: Book, o: Options, now: Time)
    requires Inv(b, o)
    ensures Inv(Expire(b, o, now), o)
  {
    ExpirePermitsKeepsInv(b, o, now);
    WithoutKeepsInv(ExpirePermits(b, o, now), o, Forgotten(ExpirePermits(b, o, now), now));
  }

  // Acquisition

  lemma AcquiredMachine(m: Machine, o: Options, now: Time)
    requires ValidOptions(o) && Sane(m, o)
    ensures var (n, t) := Acquire(m, o, now);
            && Sane(n, o) && Moves(m, n) && Observe(n, o, now) == n
            && (t.None? ==> n.probes == if n.generation == m.generation then m.probes else 0)
            && (t.Some? ==> Belongs(t.value, n) && t.value.generation == n.generation && (t.value.probe <==> n.state == HalfOpen)
                            && n.probes == (if n.generation == m.generation then m.probes else 0) + (if t.value.probe then 1 else 0))
  {
    AcquireThenObserve(m, o, now);
  }

  lemma AskKeepsInv(b: Book, o: Options, r: Request, now: Time)
    requires Inv(b, o) && Serves(b, r.backend) && r.attemptId !in b.attempts
    ensures Inv(Ask(b, o, r, now).0, o)
  {
    var k := r.backend.id;
    var s := b.circuits[k].serial;
    var c := Ask(b, o, r, now).0;
    assert Probing(b, o, k);
    AcquiredMachine(b.machines[s], o, now);
    var t := Acquire(b.machines[s], o, now).1;
    hide Acquire;
    hide Observe;
    hide Sane;
    assert forall i :: i in b.attempts ==> Filed(b, i);
    var before := b.(machines := c.machines);
    if c.machines[s].generation > b.machines[s].generation {
      NoProbes(b, before, s);
    } else {
      forall x
        ensures x in Live(before, s) <==> x in Live(b, s)
      {
      }
      assert Live(before, s) == Live(b, s);
    }
    if t.Some? {
      assert Filed(c, r.attemptId) && Current(c, r.attemptId);
      NewProbe(before, c, s, r.attemptId);
    } else {
      assert c == before;
    }
    hide Live;
    assert Evolves(b, c, s);
    ChangeKeepsInv(b, c, o, k);
  }

  lemma NewProbe(b: Book, c: Book, s: nat, id: Id)
    requires s in b.machines && id !in b.attempts && id in c.attempts && c == b.(attempts := b.attempts[id := c.attempts[id]])
    requires c.attempts[id].serial == s && c.attempts[id].retainUntil.None?
    ensures |Live(c, s)| == |Live(b, s)| + if c.attempts[id].ticket == Probe(b.machines[s]) then 1 else 0
  {
    if c.attempts[id].ticket == Probe(b.machines[s]) {
      forall x
        ensures x in Live(c, s) <==> x in Live(b, s) + {id}
      {
      }
      assert Live(c, s) == Live(b, s) + {id};
      assert id !in Live(b, s);
    } else {
      forall x
        ensures x in Live(c, s) <==> x in Live(b, s)
      {
      }
      assert Live(c, s) == Live(b, s);
    }
  }

  lemma AcquireKeepsInv(b: Book, o: Options, r: Request, now: Time, capacity: nat, victim: Option<Id>)
    requires Inv(b, o)
    requires r.attemptId !in Expire(b, o, now).attempts ==> Victim(Expire(b, o, now), capacity, victim)
    ensures Inv(AcquireAttempt(b, o, r, now, capacity, victim).0, o)
  {
    hide Expire;
    hide Inv;
    hide Observed;
    hide Ask;
    hide Seen;
    var live := Expire(b, o, now);
    ExpireKeepsInv(b, o, now);
    ObserveKeepsInv(live, o, r.backend.id, now);
    if r.attemptId !in live.attempts {
      var room := Evict(live, victim);
      if victim.Some? {
        WithoutKeepsInv(live, o, {victim.value});
      }
      if Serves(room, r.backend) {
        AskKeepsInv(room, o, r, now);
      }
    }
  }

  // Completion

  lemma RecordKeepsInv(b: Book, o: Options, c: Completion, now: Time)
    requires Inv(b, o) && c.attemptId in b.attempts && b.attempts[c.attemptId].serial in b.machines
    ensures Inv(Record(b, o, c, now), o)
  {
    var id := c.attemptId;
    var a := b.attempts[id];
    var until := BoundaryOf(now, a.request.startedAt, c.reportedAt);
    assert forall i :: i in b.attempts ==> Filed(b, i);
    if a.retainUntil.Some? {
      QuietChange(b, Record(b, o, c, now), o);
    } else {
      SettleKeepsInv(b, o, id, c.outcome, c.reportedAt, until);
      var s := Settle(b, o, id, c.outcome, c.reportedAt, until);
      hide Complete;
      assert forall i :: i in s.attempts ==> Filed(s, i);
      QuietChange(s, Record(b, o, c, now), o);
    }
  }

  lemma CompleteKeepsInv(b: Book, o: Options, c: Completion, now: Time)
    requires Inv(b, o)
    ensures Inv(CompleteAttempt(b, o, c, now).0, o)
  {
    var live := Expire(b, o, now);
    ExpireKeepsInv(b, o, now);
    hide Expire;
    hide Inv;
    if c.attemptId in live.attempts && live.attempts[c.attemptId].serial in live.machines {
      RecordKeepsInv(live, o, c, now);
    }
    hide Record;
    ObserveKeepsInv(Judged(live, o, c, now).0, o, c.backend.id, now);
  }

  // Renewal

  lemma RenewOneKeepsInv(b: Book, o: Options, p: Permit, now: Time)
    requires Inv(b, o)
    ensures Inv(RenewOne(b, p, now).0, o)
  {
    assert forall i :: i in b.attempts ==> Filed(b, i);
    QuietChange(b, RenewOne(b, p, now).0, o);
  }

  lemma {:induction false} RenewKeepsInv(b: Book, o: Options, probes: seq<Permit>, now: Time)
    requires Inv(b, o)
    ensures Inv(RenewAll(b, probes, now).0, o)
    decreases |probes|
  {
    hide Inv;
    if probes != [] {
      RenewKeepsInv(b, o, probes[..|probes| - 1], now);
      RenewOneKeepsInv(RenewAll(b, probes[..|probes| - 1], now).0, o, probes[|probes| - 1], now);
    }
  }

  // Reconciliation

  lemma RetireKeepsInv(b: Book, o: Options, ids: set<int>, now: Time)
    requires Inv(b, o)
    ensures Inv(Retire(b, ids, now), o)
  {
    var c := Retire(b, ids, now);
    forall id | id in c.attempts
      ensures Filed(c, id) && Current(c, id)
    {
      assert Filed(b, id) && Current(b, id);
    }
    forall j | j in c.circuits
      ensures Probing(c, o, j)
    {
      assert Probing(b, o, j);
      RetireElsewhere(b, o, ids, now, j);
    }
    hide Live;
  }

  lemma RetireElsewhere(b: Book, o: Options, ids: set<int>, now: Time, j: int)
    requires Inv(b, o) && j in b.circuits && j !in ids
    ensures Live(Retire(b, ids, now), b.circuits[j].serial) == Live(b, b.circuits[j].serial)
  {
    var c := Retire(b, ids, now);
    var s := b.circuits[j].serial;
    forall id
      ensures id in Live(c, s) <==> id in Live(b, s)
    {
      if id in Live(b, s) {
        assert Current(b, id);
      }
    }
  }

  lemma InstallKeepsInv(b: Book, o: Options, value: Backend)
    requires Inv(b, o) && value.enabled && !value.draining
    requires forall id :: id in b.attempts && b.attempts[id].retainUntil.None? ==> b.attempts[id].request.backend.id != value.id
    ensures Inv(Install(b, value), o)
  {
    var c := Install(b, value);
    forall id | id in c.attempts
      ensures Filed(c, id) && Current(c, id)
    {
      assert Filed(b, id) && Current(b, id);
    }
    forall j | j in c.circuits
      ensures Probing(c, o, j)
    {
      if j == value.id {
        forall id | id in c.attempts
          ensures c.attempts[id].serial != b.next
        {
          assert Filed(b, id);
        }
        assert Live(c, b.next) == {};
      } else {
        assert Probing(b, o, j);
        assert Live(c, b.circuits[j].serial) == Live(b, b.circuits[j].serial);
      }
    }
    hide Live;
  }

  lemma ReconcileOneKeepsInv(b: Book, o: Options, value: Backend, now: Time)
    requires Inv(b, o)
    ensures Inv(ReconcileOne(b, value, now), o)
  {
    RetireKeepsInv(b, o, {value.id}, now);
    hide Inv;
    if value.enabled && !value.draining {
      InstallKeepsInv(Retire(b, {value.id}, now), o, value);
    }
  }

  lemma {:induction false} ReconciledKeepsInv(b: Book, o: Options, values: seq<Backend>, now: Time)
    requires Inv(b, o)
    ensures Inv(Reconciled(b, values, now), o)
    decreases |values|
  {
    hide Inv;
    hide ReconcileOne;
    if values != [] {
      ReconciledKeepsInv(b, o, values[..|values| - 1], now);
      ReconcileOneKeepsInv(Reconciled(b, values[..|values| - 1], now), o, values[|values| - 1], now);
    }
  }

  lemma ReconcileKeepsInv(b: Book, o: Options, values: seq<Backend>, now: Time)
    requires Inv(b, o)
    ensures Inv(ReconcileAll(b, o, values, now).0, o)
  {
    hide Inv;
    hide Reconciled;
    hide Expire;
    ExpireKeepsInv(b, o, now);
    var taken := values[..Leading(values)];
    ReconciledKeepsInv(Expire(b, o, now), o, taken, now);
    var r := Reconciled(Expire(b, o, now), taken, now);
    RetireKeepsInv(r, o, r.circuits.Keys - Ids(values), now);
  }
}
