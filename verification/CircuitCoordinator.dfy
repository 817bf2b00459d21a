/** The local circuit coordinator as it is kept in memory: maps updated in place and two queues that
index the deadlines of permits and of terminal attempts. */
module CircuitCoordinator {
  import opened ExpiryQueue
  import opened CircuitBreaker
  import opened CircuitBook
  import opened CircuitRuns
  import opened Counting

  ghost predicate PermitsQueued(attempts: map<Id, Attempt>, q: multiset<Entry>) {
    forall id :: id in attempts && attempts[id].retainUntil.None? && attempts[id].permit.Some? ==>
      Entry(attempts[id].permit.value.expiresAt, id, CircuitPermit) in q
  }

  ghost predicate TerminalsQueued(attempts: map<Id, Attempt>, q: multiset<Entry>) {
    forall id :: id in attempts && attempts[id].retainUntil.Some? ==>
      Entry(attempts[id].retainUntil.value, id, CircuitAttempt) in q
  }

  class Coordinator {
    const options: Options
    const attemptCapacity: nat
    var circuits: map<int, Circuit>
    var machines: map<nat, Machine>
    var attempts: map<Id, Attempt>
    var next: nat
    const expiries: Queue
    const terminalExpiries: Queue

    function Books(): Book
      reads this
    {
      Book(circuits, machines, attempts, next)
    }

    ghost predicate Queues()
      reads this, expiries, terminalExpiries
    {
      expiries != terminalExpiries && expiries.Valid() && terminalExpiries.Valid()
    }

    ghost predicate Indexed()
      reads this, expiries, terminalExpiries
    {
      && Queues() && Inv(Books(), options)
      && PermitsQueued(attempts, expiries.Contents()) && TerminalsQueued(attempts, terminalExpiries.Contents())
    }

    ghost predicate Valid()
      reads this, expiries, terminalExpiries
    {
      Indexed() && 0 < attemptCapacity && |attempts| <= attemptCapacity
    }

    constructor (options: Options, capacity: int)
      requires ValidOptions(options)
      ensures Valid() && Books() == Empty && this.options == options
      ensures attemptCapacity == if capacity <= 0 then 65_536 else capacity
      ensures fresh(expiries) && fresh(terminalExpiries)
    {
      this.options := options;
      attemptCapacity := if capacity <= 0 then 65_536 else capacity;
      circuits, machines, attempts, next := map[], map[], map[], 0;
      expiries := new Queue();
      terminalExpiries := new Queue();
    }

    /** The attempt's outcome reaches its breaker and its retention begins. */
    method SettleAttempt(id: Id, outcome: Outcome, at: Time, until: Time)
      requires Queues() && Inv(Books(), options) && TerminalsQueued(attempts, terminalExpiries.Contents())
      requires id in attempts && attempts[id].retainUntil.None? && attempts[id].serial in machines
      modifies this`machines, this`attempts, terminalExpiries
      ensures Queues() && Inv(Books(), options) && TerminalsQueued(attempts, terminalExpiries.Contents())
      ensures Books() == Settle(old(Books()), options, id, outcome, at, until)
    {
      hide Inv;
      hide CircuitBreaker.Complete;
      SettleKeepsInv(Books(), options, id, outcome, at, until);
      var a := attempts[id];
      TerminalMore(attempts, id, a.(retainUntil := Some(until)), terminalExpiries.Contents());
      machines := machines[a.serial := CircuitBreaker.Complete(machines[a.serial], options, a.ticket, outcome, at)];
      attempts := attempts[id := a.(retainUntil := Some(until))];
      terminalExpiries.Add(CircuitAttempt, id, until);
    }

    /** The first drain loop of `expire`: permits whose time has come, the oldest first. */
    method ExpirePermits(now: Time)
      requires Indexed()
      modifies this`machines, this`attempts, expiries, terminalExpiries
      ensures Indexed() && Books() == CircuitBook.ExpirePermits(old(Books()), options, now)
    {
      hide Inv;
      hide PermitsQueued;
      hide TerminalsQueued;
      hide CircuitBook.ExpirePermits;
      hide CircuitBreaker.Complete;
      hide OldestDue;
      hide DueIds;
      hide Filed;
      var more := true;
      while more
        invariant Indexed() && Books().circuits == old(circuits) && next == old(next)
        invariant CircuitBook.ExpirePermits(Books(), options, now) == CircuitBook.ExpirePermits(old(Books()), options, now)
        invariant !more ==> DueIds(Books(), now) == {}
        decreases more, |expiries.entries|
      {
        ghost var before := expiries.Contents();
        var due := expiries.Due(now);
        match due
        case None =>
          NoneDue(Books(), before, now);
          more := false;
        case Some(e) =>
          if e.id in attempts && attempts[e.id].retainUntil.None? && attempts[e.id].permit.Some?
             && attempts[e.id].permit.value.expiresAt == e.at && e.kind == CircuitPermit
          {
            var a := attempts[e.id];
            OldestIsFirst(Books(), options, before, e, now);
            LapseFirst(Books(), options, e.id, now);
            var until := BoundaryOf(now, a.request.startedAt, e.at);
            PermitSettled(attempts, e.id, a.(retainUntil := Some(until)), before, e);
            SettleAttempt(e.id, Failure, e.at, until);
          } else {
            StalePermit(attempts, before, e);
          }
      }
      NothingDue(Books(), options, now);
    }

    method DropAttempt(id: Id)
      requires Inv(Books(), options) && id in attempts && attempts[id].retainUntil.Some?
      modifies this`attempts
      ensures Inv(Books(), options) && Books() == Without(old(Books()), {id})
    {
      WithoutKeepsInv(Books(), options, {id});
      hide Inv;
      attempts := attempts - {id};
    }

    /** Takes one entry whose time has come off the queue and forgets its attempt, if it is still that entry's. */
    method ForgetDue(now: Time) returns (more: bool, ghost gone: set<Id>)
      requires Indexed()
      modifies this`attempts, terminalExpiries
      ensures Indexed() && Books() == Without(old(Books()), gone) && gone <= Forgotten(old(Books()), now)
      ensures more ==> |terminalExpiries.entries| < old(|terminalExpiries.entries|)
      ensures !more ==> gone == {} && Forgotten(Books(), now) == {}
    {
      hide Inv;
      hide PermitsQueued;
      hide TerminalsQueued;
      WithoutNothing(Books());
      ghost var before := terminalExpiries.Contents();
      var due := terminalExpiries.Due(now);
      match due
      case None =>
        NoneForgotten(Books(), before, now);
        return false, {};
      case Some(e) =>
        if e.id in attempts && attempts[e.id].retainUntil == Some(e.at) {
          KeptWithout(attempts, {e.id}, before, e);
          FewerPermits(attempts, e.id, expiries.Contents());
          DropAttempt(e.id);
          return true, {e.id};
        }
        KeptWithout(attempts, {}, before, e);
        return true, {};
    }

    /** The second drain loop of `expire`: attempts whose retention is over. */
    method ForgetAttempts(now: Time)
      requires Indexed()
      modifies this`attempts, terminalExpiries
      ensures Indexed() && Books() == Forget(old(Books()), now)
    {
      hide Indexed;
      hide Forgotten;
      hide Without;
      ghost var start := Books();
      ghost var gone: set<Id> := {};
      WithoutNothing(start);
      var more := true;
      while more
        invariant Indexed() && gone <= Forgotten(start, now) && Books() == Without(start, gone)
        invariant !more ==> Forgotten(Books(), now) == {}
        decreases more, |terminalExpiries.entries|
      {
        ghost var forgot;
        more, forgot := ForgetDue(now);
        ForgetMore(start, gone, forgot, now);
        gone := gone + forgot;
      }
      AllForgotten(start, gone, now);
    }

    method Expire(now: Time)
      requires Valid()
      modifies this`machines, this`attempts, expiries, terminalExpiries
      ensures Valid() && Books() == CircuitBook.Expire(old(Books()), options, now)
    {
      hide Inv;
      ExpirePermits(now);
      SameKeys(old(Books()), options, now);
      ForgetAttempts(now);
      hide CircuitBook.ExpirePermits;
      SmallerMap(attempts, old(attempts));
    }

    /** Whether the queue's front is a terminal attempt, after dropping entries that no longer match. */
    method HasTerminalAttempt() returns (found: bool)
      requires terminalExpiries.Valid() && TerminalsQueued(attempts, terminalExpiries.Contents())
      modifies terminalExpiries
      ensures terminalExpiries.Valid() && TerminalsQueued(attempts, terminalExpiries.Contents())
      ensures found ==>
                && terminalExpiries.entries != []
                && terminalExpiries.entries[0].id in attempts
                && attempts[terminalExpiries.entries[0].id].retainUntil == Some(terminalExpiries.entries[0].at)
      ensures !found ==> forall id :: id in attempts ==> attempts[id].retainUntil.None?
    {
      hide TerminalsQueued;
      while |terminalExpiries.entries| > 0
        invariant terminalExpiries.Valid() && TerminalsQueued(attempts, terminalExpiries.Contents())
        decreases |terminalExpiries.entries|
      {
        var front := terminalExpiries.entries[0];
        if front.id in attempts && attempts[front.id].retainUntil == Some(front.at) {
          return true;
        }
        KeptWithout(attempts, {}, terminalExpiries.Contents(), front);
        var _ := terminalExpiries.PopOldest();
      }
      SomeQueued(attempts, terminalExpiries.Contents());
      return false;
    }

    method EvictOldest() returns (ok: bool, ghost victim: Id)
      requires Indexed() && |attempts| >= attemptCapacity
      modifies this`attempts, terminalExpiries
      ensures Indexed()
      ensures !ok ==> Books() == old(Books()) && forall id :: id in attempts ==> attempts[id].retainUntil.None?
      ensures ok ==>
                && Victim(old(Books()), attemptCapacity, Some(victim))
                && Books() == Without(old(Books()), {victim}) && |attempts| == old(|attempts|) - 1
    {
      hide Inv;
      hide PermitsQueued;
      hide TerminalsQueued;
      ok := HasTerminalAttempt();
      if !ok {
        return false, 0;
      }
      ghost var before := terminalExpiries.Contents();
      var front := terminalExpiries.PopOldest();
      var e := front.value;
      OldestIsVictim(Books(), attemptCapacity, e, before);
      hide Victim;
      KeptWithout(attempts, {e.id}, before, e);
      FewerPermits(attempts, e.id, expiries.Contents());
      KeyRemoved(attempts, e.id);
      DropAttempt(e.id);
      victim := e.id;
    }

    /** Evicts at most one terminal attempt, one that is nearest the end of its retention. */
    method MakeAttemptRoom() returns (ok: bool, ghost victim: Option<Id>)
      requires Valid()
      modifies this`attempts, terminalExpiries
      ensures Valid() && Books() == Evict(old(Books()), victim)
      ensures Victim(old(Books()), attemptCapacity, victim)
      ensures ok <==> |attempts| < attemptCapacity
      ensures !ok ==> victim.None?
    {
      hide Indexed;
      victim := None;
      while |attempts| >= attemptCapacity
        invariant Valid() && Books() == Evict(old(Books()), victim)
        invariant victim.Some? ==> Victim(old(Books()), attemptCapacity, victim) && |attempts| < attemptCapacity
        decreases |attempts|
      {
        ghost var evicted;
        ok, evicted := EvictOldest();
        if !ok {
          return false, None;
        }
        victim := Some(evicted);
      }
      return true, victim;
    }

    /** Looking at a breaker lets its clock move on. */
    method View(id: int, at: Time) returns (s: Snapshot)
      requires Valid()
      modifies this`machines
      ensures Valid() && Books() == Observed(old(Books()), options, id, at) && s == Seen(Books(), options, id)
    {
      ObserveKeepsInv(Books(), options, id, at);
      hide Observe;
      if id !in circuits {
        return Snapshot(Backend(id, 0, false, false), Open, 0, 0, None, 0, false);
      }
      var serial := circuits[id].serial;
      machines := machines[serial := Observe(machines[serial], options, at)];
      hide Inv;
      return SnapshotOf(circuits[id].identity, machines[serial], options);
    }

    method TakeSnapshot(id: int, at: Time) returns (s: Snapshot)
      requires Valid()
      modifies this, expiries, terminalExpiries
      ensures Valid() && Books() == Observed(CircuitBook.Expire(old(Books()), options, at), options, id, at)
      ensures s == Seen(Books(), options, id)
    {
      Expire(at);
      s := View(id, at);
    }

    /** Files a new attempt with its permit, if it is a probe. */
    method FileAttempt(r: Request, a: Attempt)
      requires Queues() && PermitsQueued(attempts, expiries.Contents()) && TerminalsQueued(attempts, terminalExpiries.Contents())
      requires |attempts| < attemptCapacity && a.retainUntil.None? && r.attemptId !in attempts
      modifies this`attempts, expiries
      ensures Queues() && PermitsQueued(attempts, expiries.Contents()) && TerminalsQueued(attempts, terminalExpiries.Contents())
      ensures attempts == old(attempts)[r.attemptId := a] && |attempts| <= attemptCapacity
    {
      hide PermitsQueued;
      hide TerminalsQueued;
      KeyAdded(attempts, r.attemptId, a);
      PermitMore(attempts, r.attemptId, a, expiries.Contents());
      TerminalMore(attempts, r.attemptId, a, terminalExpiries.Contents());
      if a.permit.Some? {
        expiries.Add(CircuitPermit, r.attemptId, a.permit.value.expiresAt);
      }
      attempts := attempts[r.attemptId := a];
    }

    method AskBreaker(r: Request, now: Time) returns (d: Decision)
      requires Valid() && Serves(Books(), r.backend) && r.attemptId !in attempts && |attempts| < attemptCapacity
      modifies this`machines, this`attempts, expiries
      ensures Valid() && (Books(), d) == Ask(old(Books()), options, r, now)
    {
      AskKeepsInv(Books(), options, r, now);
      hide Inv;
      hide CircuitBreaker.Acquire;
      hide Observe;
      hide PermitsQueued;
      hide TerminalsQueued;
      var entry := circuits[r.backend.id];
      var (m, ticket) := CircuitBreaker.Acquire(machines[entry.serial], options, now);
      machines := machines[entry.serial := Observe(m, options, now)];
      var snap := SnapshotOf(entry.identity, machines[entry.serial], options);
      match ticket
      case None =>
        return Decision(Some(snap), None, Some(if snap.state == HalfOpen then ProbeCapacityExhausted else CircuitOpen));
      case Some(t) =>
        var a := NewAttempt(r, entry.serial, t, snap.state == HalfOpen, now);
        FileAttempt(r, a);
        return Decision(Some(snap), a.permit, None);
    }

    method Acquire(r: Request, now: Time) returns (d: Decision, ghost victim: Option<Id>)
      requires Valid()
      modifies this, expiries, terminalExpiries
      ensures Valid()
      ensures r.attemptId !in CircuitBook.Expire(old(Books()), options, now).attempts ==>
                Victim(CircuitBook.Expire(old(Books()), options, now), attemptCapacity, victim)
      ensures (Books(), d) == AcquireAttempt(old(Books()), options, r, now, attemptCapacity, victim)
    {
      hide Inv;
      hide PermitsQueued;
      hide TerminalsQueued;
      hide CircuitBook.Expire;
      hide Ask;
      hide Observed;
      hide Seen;
      hide Indexed;
      Expire(now);
      victim := None;
      if r.attemptId in attempts {
        var seen := attempts[r.attemptId];
        if seen.request != r {
          return Decision(None, None, Some(IdempotencyConflict)), None;
        }
        var s := View(r.backend.id, now);
        if seen.retainUntil.Some? {
          return Decision(Some(s), None, Some(LeaseLost)), None;
        }
        return Decision(Some(s), seen.permit, None), None;
      }
      var ok;
      ok, victim := MakeAttemptRoom();
      if !ok {
        var s := View(r.backend.id, now);
        return Decision(Some(s), None, Some(CoordinationUnavailable)), victim;
      }
      if !Serves(Books(), r.backend) {
        return Decision(None, None, Some(StaleBackend)), victim;
      }
      if !Timely(r.startedAt, now) {
        return Decision(None, None, Some(StaleOperation)), victim;
      }
      d := AskBreaker(r, now);
    }

    /** A completion that belongs to a known attempt is put on record. */
    method RecordCompletion(c: Completion, now: Time)
      requires Valid() && c.attemptId in attempts && attempts[c.attemptId].serial in machines
      modifies this`machines, this`attempts, terminalExpiries
      ensures Valid() && Books() == Record(old(Books()), options, c, now)
    {
      hide Inv;
      hide PermitsQueued;
      hide TerminalsQueued;
      hide CircuitBreaker.Complete;
      RecordKeepsInv(Books(), options, c, now);
      RecordMeaning(Books(), options, c, now);
      hide Record;
      var a := attempts[c.attemptId];
      var until := BoundaryOf(now, a.request.startedAt, c.reportedAt);
      var done := a.(completion := Some(c), retainUntil := Some(until));
      PermitSettled(attempts, c.attemptId, done, expiries.Contents(), Entry(0, c.attemptId, CircuitAttempt));
      TerminalMore(attempts, c.attemptId, done, terminalExpiries.Contents());
      KeyKept(attempts, c.attemptId, done);
      if a.retainUntil.None? {
        machines := machines[a.serial := CircuitBreaker.Complete(machines[a.serial], options, a.ticket, c.outcome, c.reportedAt)];
      }
      attempts := attempts[c.attemptId := done];
      terminalExpiries.Add(CircuitAttempt, c.attemptId, until);
    }

    method Complete(c: Completion, now: Time) returns (s: Snapshot, reason: Option<Reason>)
      requires Valid()
      modifies this, expiries, terminalExpiries
      ensures Valid() && (Books(), s, reason) == CompleteAttempt(old(Books()), options, c, now)
    {
      hide CircuitBook.Expire;
      hide Record;
      hide Observed;
      hide Seen;
      hide PermitsQueued;
      hide TerminalsQueued;
      Expire(now);
      reason := None;
      var id := c.attemptId;
      if id in attempts && attempts[id].completion.Some? {
        if attempts[id].completion.value != c {
          reason := Some(IdempotencyConflict);
        }
      } else if !Timely(c.reportedAt, now) {
        reason := Some(StaleOperation);
      } else if id in attempts {
        if attempts[id].request.backend != c.backend || attempts[id].ticket.generation != c.generation {
          reason := Some(IdempotencyConflict);
        } else {
          assert Filed(Books(), id);
          hide Inv;
          RecordCompletion(c, now);
        }
      }
      hide Inv;
      s := View(c.backend.id, now);
    }

    method RenewProbe(p: Permit, now: Time) returns (result: Renewal)
      requires Valid()
      modifies this`attempts, expiries
      ensures Valid() && (Books(), result) == RenewOne(old(Books()), p, now)
    {
      hide Inv;
      hide PermitsQueued;
      hide TerminalsQueued;
      RenewOneKeepsInv(Books(), options, p, now);
      if !Renewable(Books(), p) {
        return Lost(None);
      }
      var a := attempts[p.id];
      var ttl := if a.request.probeTtl > 0 then a.request.probeTtl else p.ttl;
      if ttl <= 0 {
        return Lost(Some(p.id));
      }
      var renewed := a.(permit := Some(a.permit.value.(expiresAt := now + ttl)));
      PermitMore(attempts, p.id, renewed, expiries.Contents());
      TerminalMore(attempts, p.id, renewed, terminalExpiries.Contents());
      KeyKept(attempts, p.id, renewed);
      attempts := attempts[p.id := renewed];
      expiries.Add(CircuitPermit, p.id, now + ttl);
      return Renewed(p.id, now + ttl, ttl);
    }

    method RenewProbes(probes: seq<Permit>, now: Time) returns (results: seq<Renewal>)
      requires Valid()
      modifies this, expiries, terminalExpiries
      ensures Valid() && (Books(), results) == RenewAll(CircuitBook.Expire(old(Books()), options, now), probes, now)
    {
      hide CircuitBook.Expire;
      hide RenewOne;
      hide Indexed;
      Expire(now);
      ghost var live := Books();
      results := [];
      for i := 0 to |probes|
        invariant Valid() && (Books(), results) == RenewAll(live, probes[..i], now)
      {
        assert probes[..i + 1][..i] == probes[..i];
        var result := RenewProbe(probes[i], now);
        results := results + [result];
      }
      assert probes[..|probes|] == probes;
    }

    /** Abandons the attempts still open on backend `id`. */
    method Invalidate(id: int, now: Time)
      requires Queues() && PermitsQueued(attempts, expiries.Contents()) && TerminalsQueued(attempts, terminalExpiries.Contents())
      modifies this`attempts, terminalExpiries
      ensures Queues() && PermitsQueued(attempts, expiries.Contents()) && TerminalsQueued(attempts, terminalExpiries.Contents())
      ensures attempts == Invalidated(old(attempts), {id}, now)
    {
      hide PermitsQueued;
      hide TerminalsQueued;
      hide InvalidatedOnly;
      hide Invalidated;
      ghost var start := attempts;
      ghost var done: set<Id> := {};
      var left := attempts.Keys;
      InvalidatedNone(start, id, now);
      while left != {}
        invariant Queues() && PermitsQueued(attempts, expiries.Contents()) && TerminalsQueued(attempts, terminalExpiries.Contents())
        invariant done + left == start.Keys && done !! left && attempts.Keys == start.Keys
        invariant attempts == InvalidatedOnly(start, done, id, now)
        decreases |left|
      {
        ghost var some := Element(left);
        var x :| x in left;
        InvalidatedOne(start, done, x, id, now);
        if attempts[x].request.backend.id == id && attempts[x].retainUntil.None? {
          var a := attempts[x].(retainUntil := Some(Boundary(now, attempts[x].request.startedAt)));
          PermitSettled(attempts, x, a, expiries.Contents(), Entry(0, x, CircuitAttempt));
          TerminalMore(attempts, x, a, terminalExpiries.Contents());
          attempts := attempts[x := a];
          terminalExpiries.Add(CircuitAttempt, x, a.retainUntil.value);
        }
        left := left - {x};
        done := done + {x};
      }
      InvalidatedAll(start, id, now);
    }

    method RetireOne(id: int, now: Time)
      requires Valid()
      modifies this`circuits, this`attempts, terminalExpiries
      ensures Valid() && Books() == Retire(old(Books()), {id}, now)
    {
      hide Inv;
      hide PermitsQueued;
      hide TerminalsQueued;
      hide Invalidated;
      RetireKeepsInv(Books(), options, {id}, now);
      InvalidatedSize(attempts, {id}, now);
      circuits := circuits - {id};
      Invalidate(id, now);
    }

    method InstallCircuit(value: Backend)
      modifies this`circuits, this`machines, this`next
      ensures Books() == Install(old(Books()), value)
    {
      circuits := circuits[value.id := Circuit(value, next)];
      machines := machines[next := Fresh];
      next := next + 1;
    }

    method ReconcileBackend(value: Backend, now: Time)
      requires Valid()
      modifies this, terminalExpiries
      ensures Valid() && Books() == ReconcileOne(old(Books()), value, now)
    {
      hide Inv;
      hide Retire;
      hide PermitsQueued;
      hide TerminalsQueued;
      ReconcileOneKeepsInv(Books(), options, value, now);
      if !value.enabled || value.draining {
        RetireOne(value.id, now);
        return;
      }
      if value.id in circuits && circuits[value.id].identity == value {
        return;
      }
      RetireOne(value.id, now);
      InstallCircuit(value);
    }

    method Reconcile(values: seq<Backend>, now: Time) returns (ok: bool)
      requires Valid()
      modifies this, expiries, terminalExpiries
      ensures Valid() && (Books(), ok) == ReconcileAll(old(Books()), options, values, now)
    {
      hide CircuitBook.Expire;
      hide ReconcileOne;
      hide Indexed;
      hide Leading;
      hide Ids;
      hide Retire;
      Expire(now);
      ghost var live := Books();
      LeadingNone();
      var seen: set<int> := {};
      for i := 0 to |values|
        invariant Valid() && Leading(values[..i]) == i && seen == Ids(values[..i])
        invariant Books() == Reconciled(live, values[..i], now)
      {
        LeadingNext(values, i);
        if values[i].id in seen {
          return false;
        }
        seen := seen + {values[i].id};
        assert values[..i + 1][..i] == values[..i];
        ReconcileBackend(values[i], now);
      }
      assert values[..|values|] == values;
      RetireMissing(seen, now);
      return true;
    }

    /** Takes the backends that were not listed out of service. */
    method RetireMissing(seen: set<int>, now: Time)
      requires Valid()
      modifies this, terminalExpiries
      ensures Valid() && Books() == Retire(old(Books()), old(circuits.Keys) - seen, now)
    {
      hide Indexed;
      hide Retire;
      ghost var start := Books();
      ghost var gone: set<int> := {};
      var left := circuits.Keys - seen;
      RetireNone(start, now);
      while left != {}
        invariant Valid() && gone + left == start.circuits.Keys - seen && Books() == Retire(start, gone, now)
        decreases |left|
      {
        ghost var some := Element(left);
        var id :| id in left;
        RetireMore(start, gone, id, now);
        RetireOne(id, now);
        left := left - {id};
        gone := gone + {id};
      }
    }

    method Status(now: Time) returns (available: bool)
      requires Valid()
      modifies this, expiries, terminalExpiries
      ensures Valid() && Books() == CircuitBook.Expire(old(Books()), options, now)
      ensures available <==>
                |attempts| < attemptCapacity || exists id :: id in attempts && attempts[id].retainUntil.Some?
    {
      hide Inv;
      hide PermitsQueued;
      hide TerminalsQueued;
      hide CircuitBook.Expire;
      Expire(now);
      available := |attempts| < attemptCapacity;
      if !available {
        available := HasTerminalAttempt();
      }
    }
  }

  lemma RecordMeaning(b: Book, o: Options, c: Completion, now: Time)
    requires c.attemptId in b.attempts && b.attempts[c.attemptId].serial in b.machines
    ensures var a := b.attempts[c.attemptId];
            var m := CircuitBreaker.Complete(b.machines[a.serial], o, a.ticket, c.outcome, c.reportedAt);
            var until := BoundaryOf(now, a.request.startedAt, c.reportedAt);
            Record(b, o, c, now) == b.(
              machines := if a.retainUntil.Some? then b.machines else b.machines[a.serial := m],
              attempts := b.attempts[c.attemptId := a.(completion := Some(c), retainUntil := Some(until))])
  {
    hide CircuitBreaker.Complete;
  }

  // Queues and attempts

  lemma NoneDue(b: Book, q: multiset<Entry>, now: Time)
    requires PermitsQueued(b.attempts, q) && forall x :: x in q ==> x.at > now
    ensures DueIds(b, now) == {}
  {
    forall id
      ensures id !in DueIds(b, now)
    {
      assert id in b.attempts && b.attempts[id].retainUntil.None? && b.attempts[id].permit.Some? ==>
          Entry(b.attempts[id].permit.value.expiresAt, id, CircuitPermit) in q;
    }
  }

  /** The oldest queued permit is the oldest of those overdue. */
  lemma OldestIsFirst(b: Book, o: Options, q: multiset<Entry>, e: Entry, now: Time)
    requires Inv(b, o) && PermitsQueued(b.attempts, q) && e.at <= now && forall x :: x in q ==> e.at <= x.at
    requires e.id in b.attempts && b.attempts[e.id].retainUntil.None? && b.attempts[e.id].permit.Some?
    requires b.attempts[e.id].permit.value.expiresAt == e.at
    ensures OldestDue(b, e.id, now) && Filed(b, e.id) && b.attempts[e.id].serial in b.machines
  {
    assert Filed(b, e.id);
    forall x | x in b.attempts && Due(b.attempts[x], now)
      ensures e.at <= b.attempts[x].permit.value.expiresAt
    {
      assert Entry(b.attempts[x].permit.value.expiresAt, x, CircuitPermit) in q;
    }
    hide Inv;
  }

  lemma StalePermit(attempts: map<Id, Attempt>, q: multiset<Entry>, e: Entry)
    requires PermitsQueued(attempts, q)
    requires !(e.id in attempts && attempts[e.id].retainUntil.None? && attempts[e.id].permit.Some?
               && attempts[e.id].permit.value.expiresAt == e.at && e.kind == CircuitPermit)
    ensures PermitsQueued(attempts, q - multiset{e})
  {
  }

  lemma PermitSettled(attempts: map<Id, Attempt>, id: Id, a: Attempt, q: multiset<Entry>, e: Entry)
    requires PermitsQueued(attempts, q) && e.id == id && a.retainUntil.Some?
    ensures PermitsQueued(attempts[id := a], q - multiset{e}) && PermitsQueued(attempts[id := a], q)
  {
  }

  lemma PermitMore(attempts: map<Id, Attempt>, id: Id, a: Attempt, q: multiset<Entry>)
    requires PermitsQueued(attempts, q)
    ensures a.permit.None? ==> PermitsQueued(attempts[id := a], q)
    ensures a.permit.Some? ==>
              PermitsQueued(attempts[id := a], q + multiset{Entry(a.permit.value.expiresAt, id, CircuitPermit)})
  {
  }

  lemma TerminalMore(attempts: map<Id, Attempt>, id: Id, a: Attempt, q: multiset<Entry>)
    requires TerminalsQueued(attempts, q)
    ensures a.retainUntil.None? ==> TerminalsQueued(attempts[id := a], q)
    ensures a.retainUntil.Some? ==>
              TerminalsQueued(attempts[id := a], q + multiset{Entry(a.retainUntil.value, id, CircuitAttempt)})
  {
  }

  lemma FewerPermits(attempts: map<Id, Attempt>, id: Id, q: multiset<Entry>)
    requires PermitsQueued(attempts, q)
    ensures PermitsQueued(attempts - {id}, q)
  {
  }

  lemma KeptWithout(attempts: map<Id, Attempt>, removed: set<Id>, q: multiset<Entry>, e: Entry)
    requires TerminalsQueued(attempts, q)
    requires e.id in attempts && attempts[e.id].retainUntil == Some(e.at) ==> e.id in removed
    ensures TerminalsQueued(attempts - removed, q - multiset{e})
    ensures removed == {} ==> TerminalsQueued(attempts, q - multiset{e})
  {
    assert removed == {} ==> attempts - removed == attempts;
  }

  lemma SomeQueued(attempts: map<Id, Attempt>, q: multiset<Entry>)
    requires TerminalsQueued(attempts, q)
    ensures (exists id :: id in attempts && attempts[id].retainUntil.Some?) ==> |q| > 0
  {
    if id :| id in attempts && attempts[id].retainUntil.Some? {
      assert Entry(attempts[id].retainUntil.value, id, CircuitAttempt) in q;
    }
  }

  lemma OldestIsVictim(b: Book, capacity: nat, e: Entry, q: multiset<Entry>)
    requires TerminalsQueued(b.attempts, q) && |b.attempts| >= capacity
    requires e.id in b.attempts && b.attempts[e.id].retainUntil == Some(e.at)
    requires forall x :: x in q ==> e.at <= x.at
    ensures Victim(b, capacity, Some(e.id))
  {
    forall id | id in b.attempts && b.attempts[id].retainUntil.Some?
      ensures e.at <= b.attempts[id].retainUntil.value
    {
      assert Entry(b.attempts[id].retainUntil.value, id, CircuitAttempt) in q;
    }
  }

  lemma WithoutNothing(b: Book)
    ensures Without(b, {}) == b
  {
    assert b.attempts - {} == b.attempts;
  }

  lemma NoneForgotten(b: Book, q: multiset<Entry>, now: Time)
    requires TerminalsQueued(b.attempts, q) && forall x :: x in q ==> x.at > now
    ensures Forgotten(b, now) == {}
  {
    forall id
      ensures id !in Forgotten(b, now)
    {
      assert id in b.attempts && b.attempts[id].retainUntil.Some? ==>
          Entry(b.attempts[id].retainUntil.value, id, CircuitAttempt) in q;
    }
  }

  lemma ForgetMore(b: Book, gone: set<Id>, more: set<Id>, now: Time)
    requires gone <= Forgotten(b, now) && more <= Forgotten(Without(b, gone), now)
    ensures gone + more <= Forgotten(b, now) && Without(Without(b, gone), more) == Without(b, gone + more)
  {
    assert b.attempts - gone - more == b.attempts - (gone + more);
  }

  lemma AllForgotten(b: Book, gone: set<Id>, now: Time)
    requires gone <= Forgotten(b, now) && Forgotten(Without(b, gone), now) == {}
    ensures gone == Forgotten(b, now)
  {
    forall id | id in Forgotten(b, now)
      ensures id in gone
    {
      assert id in gone || id in Forgotten(Without(b, gone), now);
    }
  }

  // Sizes

  lemma SameKeys(b: Book, o: Options, now: Time)
    ensures CircuitBook.ExpirePermits(b, o, now).attempts.Keys == b.attempts.Keys
  {
    hide Lapses;
  }

  lemma InvalidatedSize(attempts: map<Id, Attempt>, ids: set<int>, now: Time)
    ensures |Invalidated(attempts, ids, now)| == |attempts|
  {
    var c := Invalidated(attempts, ids, now);
    assert c.Keys == attempts.Keys;
    assert |c| == |c.Keys| && |attempts| == |attempts.Keys|;
  }

  // Invalidation in any order

  ghost function InvalidatedOnly(attempts: map<Id, Attempt>, done: set<Id>, id: int, now: Time): map<Id, Attempt> {
    map x | x in attempts :: if x in done then Abandoned(attempts[x], {id}, now) else attempts[x]
  }

  lemma InvalidatedNone(attempts: map<Id, Attempt>, id: int, now: Time)
    ensures InvalidatedOnly(attempts, {}, id, now) == attempts
  {
  }

  lemma InvalidatedOne(attempts: map<Id, Attempt>, done: set<Id>, x: Id, id: int, now: Time)
    requires x in attempts && x !in done
    ensures InvalidatedOnly(attempts, done, id, now).Keys == attempts.Keys
    ensures InvalidatedOnly(attempts, done, id, now)[x] == attempts[x]
    ensures InvalidatedOnly(attempts, done + {x}, id, now)
         == InvalidatedOnly(attempts, done, id, now)[x := Abandoned(attempts[x], {id}, now)]
  {
  }

  lemma InvalidatedAll(attempts: map<Id, Attempt>, id: int, now: Time)
    ensures InvalidatedOnly(attempts, attempts.Keys, id, now) == Invalidated(attempts, {id}, now)
  {
  }

  lemma RetireNone(b: Book, now: Time)
    ensures Retire(b, {}, now) == b
  {
    assert b.circuits - {} == b.circuits;
    var none := Invalidated(b.attempts, {}, now);
    forall x | x in b.attempts
      ensures none[x] == b.attempts[x]
    {
    }
    assert none == b.attempts;
  }

  lemma RetireMore(b: Book, gone: set<int>, id: int, now: Time)
    ensures Retire(Retire(b, gone, now), {id}, now) == Retire(b, gone + {id}, now)
  {
    assert b.circuits - gone - {id} == b.circuits - (gone + {id});
    var twice, once := Invalidated(Invalidated(b.attempts, gone, now), {id}, now), Invalidated(b.attempts, gone + {id}, now);
    forall x | x in b.attempts
      ensures twice[x] == once[x]
    {
    }
    assert twice == once;
  }

  // Repeated backends

  lemma LeadingNone()
    ensures Leading([]) == 0 && Ids([]) == {}
  {
  }

  lemma LeadingNext(values: seq<Backend>, i: nat)
    requires i < |values| && Leading(values[..i]) == i
    ensures Ids(values[..i + 1]) == Ids(values[..i]) + {values[i].id}
    ensures values[i].id !in Ids(values[..i]) ==> Leading(values[..i + 1]) == i + 1
    ensures values[i].id in Ids(values[..i]) ==> Leading(values) == i
  {
    var next := values[..i + 1];
    assert next[..i] == values[..i];
    assert next == values[..i] + [values[i]];
    if values[i].id in Ids(values[..i]) {
      LeadingStops(values, i, |values|);
      assert values[..|values|] == values;
    }
  }

  lemma {:induction false} LeadingStops(values: seq<Backend>, i: nat, n: nat)
    requires i < n <= |values| && Leading(values[..i]) == i && values[i].id in Ids(values[..i])
    ensures Leading(values[..n]) == i
    decreases n
  {
    assert values[..n][..n - 1] == values[..n - 1];
    if n > i + 1 {
      LeadingStops(values, i, n - 1);
    }
  }

  /** Options a breaker would refuse make no coordinator. */
  method New(options: Options, capacity: int) returns (c: Option<Coordinator>)
    ensures c.Some? <==> ValidOptions(options)
    ensures c.Some? ==> fresh(c.value) && c.value.Valid() && c.value.Books() == Empty && c.value.options == options
  {
    if !ValidOptions(options) {
      return None;
    }
    var made := new Coordinator(options, capacity);
    return Some(made);
  }
}
