/** The tokenization coordinator as it is kept in memory: in-flight and receipt counters, and two
queues whose entries are dropped only when their time comes. */
module TokenizationCoordinator {
  import opened ExpiryQueue
  import opened Counting
  import opened Tokenization

  /** Each lease in flight is queued, and whatever is queued, stale or not, carries the deadline of
  the lease on its operation's present receipt. */
  ghost predicate LeasesQueued(receipts: map<Id, Receipt>, active: map<Id, Lease>, q: multiset<Entry>) {
    && (forall id :: id in active ==> Entry(active[id].expiresAt, id, AdmissionLease) in q)
    && (forall e :: e in q ==>
          e.id in receipts && receipts[e.id].decision.Granted? && receipts[e.id].decision.lease.expiresAt == e.at)
  }

  /** Each receipt is queued once and nothing else is. */
  ghost predicate ReceiptsQueued(receipts: map<Id, Receipt>, q: multiset<Entry>) {
    && (forall id :: id in receipts ==> q[Entry(receipts[id].retainUntil, id, AdmissionReceipt)] == 1)
    && (forall e :: e in q ==> e.id in receipts && e == Entry(receipts[e.id].retainUntil, e.id, AdmissionReceipt))
  }

  ghost predicate ActiveCounted(active: map<Id, Lease>, clients: Counters, backends: Counters) {
    && (forall c :: Count(clients, c) == |ClientActive(active, c)|)
    && (forall b :: Count(backends, b) == Load(active, b))
  }

  ghost predicate ReceiptsCounted(receipts: map<Id, Receipt>, counts: Counters) {
    forall c :: Count(counts, c) == |ClientReceipts(receipts, c)|
  }

  class Coordinator {
    const policy: Policy
    var receipts: map<Id, Receipt>
    var rates: map<int, Rate>
    var receiptCounts: Counters
    const receiptExpiries: Queue
    const leaseExpiries: Queue
    var active: map<Id, Lease>
    var clientInflight: Counters
    var backendInflight: Counters

    function Books(): Desk
      reads this
    {
      Desk(receipts, active, rates)
    }

    ghost predicate Queues()
      reads this, receiptExpiries, leaseExpiries
    {
      receiptExpiries != leaseExpiries && receiptExpiries.Valid() && leaseExpiries.Valid()
    }

    ghost predicate Valid()
      reads this, receiptExpiries, leaseExpiries
    {
      && Queues() && Receipted(Books())
      && ActiveCounted(active, clientInflight, backendInflight) && ReceiptsCounted(receipts, receiptCounts)
      && LeasesQueued(receipts, active, leaseExpiries.Contents()) && ReceiptsQueued(receipts, receiptExpiries.Contents())
    }

    constructor (policy: Policy)
      ensures Valid() && Books() == Empty && this.policy == policy
      ensures fresh(receiptExpiries) && fresh(leaseExpiries)
    {
      this.policy := policy;
      receipts, rates, active := map[], map[], map[];
      receiptCounts, clientInflight, backendInflight := map[], map[], map[];
      receiptExpiries := new Queue();
      leaseExpiries := new Queue();
      new;
      assert forall c :: ClientActive(map[], c) == {};
      assert forall b :: BackendActive(map[], b) == {};
      assert forall c :: ClientReceipts(map[], c) == {};
    }

    /** The operation's lease, if any, is no longer in flight. */
    method Release(id: Id)
      requires ActiveCounted(active, clientInflight, backendInflight)
      modifies this`active, this`clientInflight, this`backendInflight
      ensures ActiveCounted(active, clientInflight, backendInflight) && active == old(active) - {id}
    {
      hide ActiveCounted;
      if id !in active {
        assert active - {id} == active;
        return;
      }
      var l := active[id];
      CountedWithout(active, id, clientInflight, backendInflight);
      active := active - {id};
      clientInflight := Decremented(clientInflight, l.client);
      backendInflight := Decremented(backendInflight, l.backend);
    }

    /** Takes one entry whose time has come off the queue. */
    method ReleaseDue(now: Time) returns (more: bool, ghost id: Id)
      requires Valid()
      modifies this`active, this`clientInflight, this`backendInflight, leaseExpiries
      ensures Valid()
      ensures more ==>
                && active == old(active) - {id} && |leaseExpiries.entries| < old(|leaseExpiries.entries|)
                && (id in old(active) ==> old(active)[id].expiresAt <= now)
      ensures !more ==> active == old(active) && AllAfter(leaseExpiries.Contents(), now)
    {
      hide ActiveCounted;
      hide ReceiptsCounted;
      hide LeasesQueued;
      hide ReceiptsQueued;
      hide Receipted;
      ghost var before := leaseExpiries.Contents();
      var due := leaseExpiries.Due(now);
      match due
      case None => return false, 0;
      case Some(e) =>
        DueIsLapsed(Books(), before, e, now);
        QueuedWithout(receipts, active, before, e);
        FewerReceipted(Books(), e.id);
        Release(e.id);
        return true, e.id;
    }

    /** The first loop of the cleanup: leases that ran out. */
    method ReleaseLapsed(now: Time)
      requires Valid()
      modifies this`active, this`clientInflight, this`backendInflight, leaseExpiries
      ensures Valid() && Books() == old(Books()).(active := old(active) - Lapsed(old(Books()), now))
      ensures AllAfter(leaseExpiries.Contents(), now)
    {
      hide Valid;
      hide Lapsed;
      hide AllAfter;
      hide Spares;
      hide Off;
      ghost var start := Books();
      ghost var gone: set<Id> := {};
      NothingOff(start, now);
      var more := true;
      while more
        invariant Valid() && Books() == Off(start, gone) && Spares(start, gone, now)
        invariant !more ==> AllAfter(leaseExpiries.Contents(), now)
        decreases more, |leaseExpiries.entries|
      {
        ghost var id;
        more, id := ReleaseDue(now);
        if more {
          OffMore(start, gone, id, now);
          gone := gone + {id};
        }
      }
      assert LeasesQueued(receipts, active, leaseExpiries.Contents()) by {
        Tied();
      }
      AllLapsed(start, gone, leaseExpiries.Contents(), now);
    }

    lemma Tied()
      requires Valid()
      ensures LeasesQueued(receipts, active, leaseExpiries.Contents())
    {
    }

    method DropDue(now: Time) returns (more: bool, ghost gone: set<Id>)
      requires Valid() && AllAfter(leaseExpiries.Contents(), now)
      modifies this`receipts, this`receiptCounts, receiptExpiries
      ensures Valid() && Books() == Shred(old(Books()), gone) && gone <= Outlived(old(Books()), now)
      ensures more ==> |receiptExpiries.entries| < old(|receiptExpiries.entries|)
      ensures !more ==> Outlived(Books(), now) == {}
    {
      hide ActiveCounted;
      hide ReceiptsCounted;
      hide LeasesQueued;
      hide ReceiptsQueued;
      hide Receipted;
      hide Outlived;
      ghost var before := receiptExpiries.Contents();
      var due := receiptExpiries.Due(now);
      match due
      case None =>
        NoneOutlived(Books(), before, now);
        NothingShredded(Books());
        return false, {};
      case Some(e) =>
        QueuedReceipt(receipts, before, e);
        IsOutlived(Books(), e.id, now);
        DropQueued(receipts, before, e);
        DropUntied(Books(), e.id, leaseExpiries.Contents(), now);
        hide AllAfter;
        DropReceipt(e.id);
        return true, {e.id};
    }

    /** The second loop of the cleanup: receipts that were kept long enough. */
    method DropOutlived(now: Time)
      requires Valid() && AllAfter(leaseExpiries.Contents(), now)
      modifies this`receipts, this`receiptCounts, receiptExpiries
      ensures Valid() && Books() == old(Books()).(receipts := old(receipts) - Outlived(old(Books()), now))
    {
      assert receiptExpiries != leaseExpiries;
      hide Valid;
      hide Outlived;
      hide AllAfter;
      hide Shred;
      ghost var start := Books();
      ghost var gone: set<Id> := {};
      NothingShredded(start);
      var more := true;
      while more
        invariant Valid() && Books() == Shred(start, gone) && gone <= Outlived(start, now)
        invariant AllAfter(leaseExpiries.Contents(), now)
        invariant !more ==> Outlived(Books(), now) == {}
        decreases more, |receiptExpiries.entries|
      {
        ghost var dropped;
        more, dropped := DropDue(now);
        OutlivedMore(start, gone, dropped, now);
        gone := gone + dropped;
      }
      AllOutlived(start, gone, now);
    }

    method DropReceipt(id: Id)
      requires id in receipts && ReceiptsCounted(receipts, receiptCounts)
      modifies this`receipts, this`receiptCounts
      ensures receipts == old(receipts) - {id} && ReceiptsCounted(receipts, receiptCounts)
    {
      hide ReceiptsCounted;
      CountedReceiptGone(receipts, id, receiptCounts);
      var client := receipts[id].request.client;
      receipts := receipts - {id};
      receiptCounts := Decremented(receiptCounts, client);
    }

    /** The third loop of the cleanup: buckets nobody drew on for a day. */
    method DropIdle(now: Time)
      modifies this`rates
      ensures rates == old(rates) - Idle(old(rates), now)
    {
      ghost var gone: set<int> := {};
      var left := rates.Keys;
      while left != {}
        invariant left <= old(rates).Keys && gone <= Idle(old(rates), now) && rates == old(rates) - gone
        invariant forall c :: c in Idle(old(rates), now) ==> c in left || c in gone
        decreases |left|
      {
        ghost var some := Element(left);
        var c :| c in left;
        if c in rates && now - rates[c].at >= DAY {
          rates := rates - {c};
          gone := gone + {c};
        }
        left := left - {c};
      }
      forall c
        ensures c in gone <==> c in Idle(old(rates), now)
      {
      }
      assert gone == Idle(old(rates), now);
    }

    method Cleanup(now: Time)
      requires Valid()
      modifies this, receiptExpiries, leaseExpiries
      ensures Valid() && Books() == Tokenization.Cleanup(old(Books()), now)
    {
      hide ActiveCounted;
      hide ReceiptsCounted;
      hide LeasesQueued;
      hide ReceiptsQueued;
      ReleaseLapsed(now);
      DropOutlived(now);
      DropIdle(now);
    }

    method SelectBackend(candidates: seq<Candidate>) returns (selected: Option<Candidate>)
      requires ActiveCounted(active, clientInflight, backendInflight)
      ensures selected == Select(active, policy, candidates)
    {
      hide Load;
      hide ClientActive;
      selected := None;
      for i := 0 to |candidates|
        invariant selected == Select(active, policy, candidates[..i])
      {
        assert candidates[..i + 1][..i] == candidates[..i];
        var b := candidates[i];
        if b.backend > 0 && Count(backendInflight, b.backend) < policy.backendMax
           && (selected.None?
               || Count(backendInflight, b.backend) < Count(backendInflight, selected.value.backend)
               || (Count(backendInflight, b.backend) == Count(backendInflight, selected.value.backend)
                   && b.backend < selected.value.backend))
        {
          selected := Some(b);
        }
      }
      assert candidates[..|candidates|] == candidates;
    }

    method Decide(r: Request, now: Time) returns (d: Decision)
      requires policy.rpm != 0 && ActiveCounted(active, clientInflight, backendInflight)
      ensures d == Judge(Books(), policy, r, now)
    {
      hide Load;
      if Count(clientInflight, r.client) >= policy.clientMax {
        return Refused(ClientLimit, None);
      }
      var selected := SelectBackend(r.candidates);
      match selected
      case None => return Refused(BackendLimit, None);
      case Some(c) =>
        var level := Level(rates, policy, r.client, now);
        if level < 1.0 {
          return Refused(RateLimit, Some(RetryAt(policy, level, now)));
        }
        return Granted(Grant(r, policy, c, now));
    }

    method Start(id: Id, l: Lease)
      requires id !in active && ActiveCounted(active, clientInflight, backendInflight)
      modifies this`active, this`clientInflight, this`backendInflight
      ensures ActiveCounted(active, clientInflight, backendInflight) && active == old(active)[id := l]
    {
      hide ActiveCounted;
      CountedWith(active, id, l, clientInflight, backendInflight);
      active := active[id := l];
      clientInflight := Incremented(clientInflight, l.client);
      backendInflight := Incremented(backendInflight, l.backend);
    }

    method PutReceipt(id: Id, receipt: Receipt)
      requires Queues() && id !in receipts
      requires ReceiptsCounted(receipts, receiptCounts) && ReceiptsQueued(receipts, receiptExpiries.Contents())
      modifies this`receipts, this`receiptCounts, receiptExpiries
      ensures Queues() && receipts == old(receipts)[id := receipt]
      ensures ReceiptsCounted(receipts, receiptCounts) && ReceiptsQueued(receipts, receiptExpiries.Contents())
    {
      hide ReceiptsCounted;
      hide ReceiptsQueued;
      CountedReceipt(receipts, id, receipt, receiptCounts);
      MoreQueued(receipts, id, receipt, receiptExpiries.Contents());
      receipts := receipts[id := receipt];
      receiptCounts := Incremented(receiptCounts, receipt.request.client);
      receiptExpiries.Add(AdmissionReceipt, id, receipt.retainUntil);
    }

    method FileReceipt(r: Request, now: Time, d: Decision)
      requires Valid() && ValidPolicy(policy) && r.operation !in receipts
      requires d.Granted? ==> d.lease.operation == r.operation && d.lease.expiresAt <= Later(now, r.startedAt) + Ttl(policy)
      modifies this, receiptExpiries, leaseExpiries
      ensures Valid() && Books() == File(old(Books()), policy, r, now, d)
    {
      hide ActiveCounted;
      hide ReceiptsCounted;
      hide LeasesQueued;
      hide ReceiptsQueued;
      hide Receipted;
      hide Level;
      var receipt := Receipt(r, d, Later(now, r.startedAt) + Ttl(policy), false);
      FiledReceipted(Books(), policy, r, now, d);
      MoreTied(receipts, active, r.operation, receipt, leaseExpiries.Contents());
      NotActive(Books(), r.operation);
      PutReceipt(r.operation, receipt);
      if d.Granted? {
        rates := rates[r.client := Rate(Level(rates, policy, r.client, now) - 1.0, now)];
        Start(r.operation, d.lease);
        leaseExpiries.Add(AdmissionLease, r.operation, d.lease.expiresAt);
      }
    }

    method Acquire(r: Request, now: Time) returns (d: Decision)
      requires Valid()
      modifies this, receiptExpiries, leaseExpiries
      ensures Valid() && (Books(), d) == Tokenization.Acquire(old(Books()), policy, r, now)
    {
      hide ActiveCounted;
      hide LeasesQueued;
      hide ReceiptsQueued;
      hide Receipted;
      hide Tokenization.Cleanup;
      hide File;
      hide Select;
      hide Level;
      if !ValidPolicy(policy) {
        return Refused(Unavailable, None);
      }
      Cleanup(now);
      if r.operation in receipts {
        return Replay(Books(), r, now);
      }
      if !Timely(r, policy, now) {
        return Refused(StaleOperation, None);
      }
      if Count(receiptCounts, r.client) >= RECEIPTS_PER_CLIENT {
        return Refused(Unavailable, None);
      }
      d := Decide(r, now);
      FileReceipt(r, now, d);
    }

    method Complete(l: Lease) returns (e: Option<Error>)
      requires Valid()
      modifies this
      ensures Valid() && (Books(), e) == Tokenization.Complete(old(Books()), l)
    {
      hide ActiveCounted;
      hide ReceiptsCounted;
      hide LeasesQueued;
      hide ReceiptsQueued;
      hide Receipted;
      if l.operation !in receipts {
        return Some(UnknownLease);
      }
      if receipts[l.operation].decision != Granted(l) {
        return Some(IdentityMismatch);
      }
      CompletedCounted(receipts, l.operation, receiptCounts);
      CompletedQueued(Books(), l.operation, leaseExpiries.Contents(), receiptExpiries.Contents());
      receipts := receipts[l.operation := receipts[l.operation].(completed := true)];
      Release(l.operation);
      return None;
    }
  }

  // Counters

  lemma CountedWithout(active: map<Id, Lease>, id: Id, clients: Counters, backends: Counters)
    requires id in active && ActiveCounted(active, clients, backends)
    ensures ActiveCounted(active - {id}, Decremented(clients, active[id].client), Decremented(backends, active[id].backend))
  {
    var rest, l := active - {id}, active[id];
    assert rest[id := l] == active;
    hide ClientActive;
    hide Load;
    forall c
      ensures Count(Decremented(clients, l.client), c) == |ClientActive(rest, c)|
    {
      ClientMore(rest, id, l, c);
    }
    forall b
      ensures Count(Decremented(backends, l.backend), b) == Load(rest, b)
    {
      BackendMore(rest, id, l, b);
    }
  }

  lemma CountedWith(active: map<Id, Lease>, id: Id, l: Lease, clients: Counters, backends: Counters)
    requires id !in active && ActiveCounted(active, clients, backends)
    ensures ActiveCounted(active[id := l], Incremented(clients, l.client), Incremented(backends, l.backend))
  {
    hide ClientActive;
    hide Load;
    forall c
      ensures Count(Incremented(clients, l.client), c) == |ClientActive(active[id := l], c)|
    {
      ClientMore(active, id, l, c);
    }
    forall b
      ensures Count(Incremented(backends, l.backend), b) == Load(active[id := l], b)
    {
      BackendMore(active, id, l, b);
    }
  }

  lemma ReceiptMore(receipts: map<Id, Receipt>, id: Id, r: Receipt, c: int)
    requires id !in receipts
    ensures |ClientReceipts(receipts[id := r], c)| == |ClientReceipts(receipts, c)| + if c == r.request.client then 1 else 0
  {
    assert ClientReceipts(receipts[id := r], c) == ClientReceipts(receipts, c) + if c == r.request.client then {id} else {};
  }

  lemma CountedReceipt(receipts: map<Id, Receipt>, id: Id, r: Receipt, counts: Counters)
    requires id !in receipts && ReceiptsCounted(receipts, counts)
    ensures ReceiptsCounted(receipts[id := r], Incremented(counts, r.request.client))
  {
    hide ClientReceipts;
    forall c
      ensures Count(Incremented(counts, r.request.client), c) == |ClientReceipts(receipts[id := r], c)|
    {
      ReceiptMore(receipts, id, r, c);
    }
  }

  lemma CountedReceiptGone(receipts: map<Id, Receipt>, id: Id, counts: Counters)
    requires id in receipts && ReceiptsCounted(receipts, counts)
    ensures ReceiptsCounted(receipts - {id}, Decremented(counts, receipts[id].request.client))
  {
    var rest, r := receipts - {id}, receipts[id];
    assert rest[id := r] == receipts;
    hide ClientReceipts;
    forall c
      ensures Count(Decremented(counts, r.request.client), c) == |ClientReceipts(rest, c)|
    {
      ReceiptMore(rest, id, r, c);
    }
  }

  lemma CompletedCounted(receipts: map<Id, Receipt>, id: Id, counts: Counters)
    requires id in receipts && ReceiptsCounted(receipts, counts)
    ensures ReceiptsCounted(receipts[id := receipts[id].(completed := true)], counts)
  {
    forall c
      ensures ClientReceipts(receipts[id := receipts[id].(completed := true)], c) == ClientReceipts(receipts, c)
    {
    }
  }

  lemma CompletedQueued(d: Desk, id: Id, leases: multiset<Entry>, kept: multiset<Entry>)
    requires Receipted(d) && LeasesQueued(d.receipts, d.active, leases) && ReceiptsQueued(d.receipts, kept) && id in d.receipts
    ensures var done := d.receipts[id := d.receipts[id].(completed := true)];
            && Receipted(Desk(done, d.active - {id}, d.rates))
            && LeasesQueued(done, d.active - {id}, leases) && ReceiptsQueued(done, kept)
  {
  }

  // Leases and their queue

  ghost predicate AllAfter(q: multiset<Entry>, now: Time) {
    forall e :: e in q ==> e.at > now
  }

  function Off(d: Desk, gone: set<Id>): Desk {
    d.(active := d.active - gone)
  }

  /** None of these operations holds a lease that is still running. */
  ghost predicate Spares(d: Desk, gone: set<Id>, now: Time) {
    forall id :: id in gone && id in d.active ==> d.active[id].expiresAt <= now
  }

  lemma NothingOff(d: Desk, now: Time)
    ensures Off(d, {}) == d && Spares(d, {}, now)
  {
    assert d.active - {} == d.active;
  }

  lemma OffMore(d: Desk, gone: set<Id>, id: Id, now: Time)
    requires Spares(d, gone, now) && (id in Off(d, gone).active ==> Off(d, gone).active[id].expiresAt <= now)
    ensures Spares(d, gone + {id}, now)
    ensures Off(d, gone + {id}) == Off(d, gone).(active := Off(d, gone).active - {id})
  {
    assert d.active - gone - {id} == d.active - (gone + {id});
  }

  /** An entry that falls due never names a lease that is still running. */
  lemma DueIsLapsed(d: Desk, q: multiset<Entry>, e: Entry, now: Time)
    requires Receipted(d) && LeasesQueued(d.receipts, d.active, q) && e in q && e.at <= now
    ensures e.id in d.active ==> d.active[e.id].expiresAt <= now
  {
  }

  lemma QueuedWithout(receipts: map<Id, Receipt>, active: map<Id, Lease>, q: multiset<Entry>, e: Entry)
    requires LeasesQueued(receipts, active, q) && e in q
    ensures LeasesQueued(receipts, active - {e.id}, q - multiset{e})
  {
  }

  lemma FewerReceipted(d: Desk, id: Id)
    requires Receipted(d)
    ensures Receipted(d.(active := d.active - {id}))
  {
  }

  lemma AllLapsed(d: Desk, gone: set<Id>, q: multiset<Entry>, now: Time)
    requires Spares(d, gone, now) && LeasesQueued(d.receipts, Off(d, gone).active, q) && AllAfter(q, now)
    ensures Off(d, gone) == d.(active := d.active - Lapsed(d, now))
  {
    forall id | id in d.active
      ensures id in gone <==> id in Lapsed(d, now)
    {
      if id !in gone {
        assert id in Off(d, gone).active && Off(d, gone).active[id] == d.active[id];
        assert Entry(d.active[id].expiresAt, id, AdmissionLease) in q;
      }
    }
  }

  // Receipts and their queue

  lemma NoneOutlived(d: Desk, q: multiset<Entry>, now: Time)
    requires ReceiptsQueued(d.receipts, q) && AllAfter(q, now)
    ensures Outlived(d, now) == {}
  {
    forall id | id in d.receipts
      ensures d.receipts[id].retainUntil > now
    {
      assert Entry(d.receipts[id].retainUntil, id, AdmissionReceipt) in q;
    }
  }

  lemma QueuedReceipt(receipts: map<Id, Receipt>, q: multiset<Entry>, e: Entry)
    requires ReceiptsQueued(receipts, q) && e in q
    ensures e.id in receipts && receipts[e.id].retainUntil == e.at
  {
  }

  lemma IsOutlived(d: Desk, id: Id, now: Time)
    requires id in d.receipts && d.receipts[id].retainUntil <= now
    ensures id in Outlived(d, now)
  {
  }

  lemma OutlivedMore(d: Desk, gone: set<Id>, more: set<Id>, now: Time)
    requires gone <= Outlived(d, now) && more <= Outlived(Shred(d, gone), now)
    ensures gone + more <= Outlived(d, now) && Shred(Shred(d, gone), more) == Shred(d, gone + more)
  {
    assert d.receipts - gone - more == d.receipts - (gone + more);
  }

  lemma NothingShredded(d: Desk)
    ensures Shred(d, {}) == d
  {
    assert d.receipts - {} == d.receipts;
  }

  function Shred(d: Desk, gone: set<Id>): Desk {
    d.(receipts := d.receipts - gone)
  }

  lemma DropQueued(receipts: map<Id, Receipt>, q: multiset<Entry>, e: Entry)
    requires ReceiptsQueued(receipts, q) && e in q
    ensures ReceiptsQueued(receipts - {e.id}, q - multiset{e})
  {
    forall x | x in q - multiset{e}
      ensures x.id in receipts - {e.id} && x == Entry((receipts - {e.id})[x.id].retainUntil, x.id, AdmissionReceipt)
    {
      assert x in q;
      assert q[x] == 1;
    }
  }

  lemma ActiveIsKept(d: Desk, q: multiset<Entry>, now: Time)
    requires Receipted(d) && LeasesQueued(d.receipts, d.active, q) && AllAfter(q, now)
    ensures forall id :: id in d.active ==> id in d.receipts && d.receipts[id].retainUntil > now
  {
    forall id | id in d.active
      ensures id in d.receipts && d.receipts[id].retainUntil > now
    {
      assert Entry(d.active[id].expiresAt, id, AdmissionLease) in q;
    }
  }

  /** A receipt kept long enough has no lease in flight and no queued deadline left. */
  lemma DropUntied(d: Desk, id: Id, q: multiset<Entry>, now: Time)
    requires Receipted(d) && LeasesQueued(d.receipts, d.active, q) && AllAfter(q, now)
    requires id in d.receipts && d.receipts[id].retainUntil <= now
    ensures Receipted(d.(receipts := d.receipts - {id})) && LeasesQueued(d.receipts - {id}, d.active, q)
  {
    ActiveIsKept(d, q, now);
    forall e | e in q
      ensures e.id != id
    {
      assert e.at > now;
    }
  }

  lemma AllOutlived(d: Desk, gone: set<Id>, now: Time)
    requires gone <= Outlived(d, now) && Outlived(Shred(d, gone), now) == {}
    ensures Shred(d, gone) == d.(receipts := d.receipts - Outlived(d, now))
  {
    forall id | id in Outlived(d, now)
      ensures id in gone
    {
      assert id in gone || id in Outlived(Shred(d, gone), now);
    }
  }

  // A new receipt

  lemma NotActive(d: Desk, id: Id)
    requires Receipted(d) && id !in d.receipts
    ensures id !in d.active
  {
  }

  lemma FiledReceipted(d: Desk, p: Policy, r: Request, now: Time, decision: Decision)
    requires Receipted(d) && r.operation !in d.receipts
    requires decision.Granted? ==>
               decision.lease.operation == r.operation && decision.lease.expiresAt <= Later(now, r.startedAt) + Ttl(p)
    ensures Receipted(File(d, p, r, now, decision))
  {
    hide Level;
  }

  lemma MoreQueued(receipts: map<Id, Receipt>, id: Id, r: Receipt, q: multiset<Entry>)
    requires ReceiptsQueued(receipts, q) && id !in receipts
    ensures ReceiptsQueued(receipts[id := r], q + multiset{Entry(r.retainUntil, id, AdmissionReceipt)})
  {
    assert Entry(r.retainUntil, id, AdmissionReceipt) !in q;
  }

  lemma MoreTied(receipts: map<Id, Receipt>, active: map<Id, Lease>, id: Id, r: Receipt, q: multiset<Entry>)
    requires LeasesQueued(receipts, active, q) && id !in receipts
    ensures LeasesQueued(receipts[id := r], active, q)
    ensures r.decision.Granted? ==>
              LeasesQueued(receipts[id := r], active[id := r.decision.lease],
                           q + multiset{Entry(r.decision.lease.expiresAt, id, AdmissionLease)})
  {
  }
}
