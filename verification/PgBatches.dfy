/** The loops around the transactions: a batch of completions is one transaction per item, a batch of
renewals one transaction per 256 leases, and a failure reports the prefix that was carried out. */
module PgBatches {
  import opened ExpiryQueue
  import opened Admission
  import opened PgAdmission
  import LeaseDelivery

  /** The transaction number `at` fails; it may have been committed before its answer was lost. */
  datatype Fault = Fault(at: nat, committed: bool)

  function CompleteEach(t: Tables, c: Config, items: seq<Item>, clock: seq<Time>): Tables
    requires |items| == |clock|
  {
    if items == [] then t
    else
      var n := |items| - 1;
      CompleteTx(CompleteEach(t, c, items[..n], clock[..n]), c, items[n], clock[n]).0
  }

  /** Whatever fails, the answer is one the lease manager may rely on: it confirms only items carried
  out, and the tables show exactly the items carried out. */
  method CompleteBatch(t: Tables, c: Config, items: seq<Item>, clock: seq<Time>, fault: Option<Fault>)
    returns (s: Tables, a: LeaseDelivery.Answer)
    requires |clock| == |items|
    ensures LeaseDelivery.Honest(items, a) && (a.failed <==> fault.Some? && fault.value.at < |items|)
    ensures s == CompleteEach(t, c, items[..a.committed], clock[..a.committed])
    ensures LeaseDelivery.Matches(items, a.results) && |a.results| == if a.failed then fault.value.at else |items|
  {
    s := t;
    var results: seq<Id> := [];
    for i := 0 to |items|
      invariant s == CompleteEach(t, c, items[..i], clock[..i])
      invariant |results| == i && LeaseDelivery.Matches(items, results)
      invariant fault.Some? ==> i <= fault.value.at
    {
      assert items[..i + 1][..i] == items[..i] && clock[..i + 1][..i] == clock[..i];
      if fault == Some(Fault(i, false)) {
        return s, LeaseDelivery.Answer(i, results, true);
      }
      var (next, _) := CompleteTx(s, c, items[i], clock[i]);
      s := next;
      if fault.Some? && fault.value.at == i {
        return s, LeaseDelivery.Answer(i + 1, results, true);
      }
      results := results + [items[i].leaseId];
    }
    assert items[..|items|] == items && clock[..|items|] == clock;
    return s, LeaseDelivery.Answer(|items|, results, false);
  }

  const RENEWAL_BATCH := 256

  function Least(a: nat, b: nat): nat {
    if a <= b then a else b
  }

  /** The leases of transaction `k`. */
  function Part(wants: seq<Lease>, k: nat): seq<Lease> {
    wants[Least(RENEWAL_BATCH * k, |wants|)..Least(RENEWAL_BATCH * (k + 1), |wants|)]
  }

  /** The first `n` transactions, each at its own moment. */
  function RenewParts(t: Tables, wants: seq<Lease>, clock: nat -> Time, n: nat): (Tables, seq<RenewResult>) {
    if n == 0 then (t, [])
    else
      var (s, results) := RenewParts(t, wants, clock, n - 1);
      var (next, answers) := RenewTx(s, Part(wants, n - 1), clock(n - 1));
      (next, results + answers)
  }

  /** Renewal in transactions of bounded size: the results are those of the transactions known to be
  committed, the tables show those and at most the one whose answer was lost. */
  method RenewBatches(t: Tables, wants: seq<Lease>, clock: nat -> Time, fault: Option<Fault>)
    returns (s: Tables, results: seq<RenewResult>, failed: bool, ghost parts: nat)
    ensures failed <==> fault.Some? && RENEWAL_BATCH * fault.value.at < |wants|
    ensures if failed then parts == fault.value.at else RENEWAL_BATCH * parts >= |wants|
    ensures results == RenewParts(t, wants, clock, parts).1
    ensures s == RenewParts(t, wants, clock, if failed && fault.value.committed then parts + 1 else parts).0
  {
    hide RenewTx;
    s, results, failed, parts := t, [], false, 0;
    var start, chunk := 0, 0;
    while start < |wants|
      invariant chunk == parts && start == Least(RENEWAL_BATCH * chunk, |wants|) && !failed
      invariant (s, results) == RenewParts(t, wants, clock, chunk)
      invariant fault.Some? ==> chunk <= fault.value.at || |wants| <= RENEWAL_BATCH * fault.value.at
      decreases |wants| - start
    {
      var end := Least(start + RENEWAL_BATCH, |wants|);
      assert wants[start..end] == Part(wants, chunk);
      if fault == Some(Fault(chunk, false)) {
        return s, results, true, parts;
      }
      var (next, answers) := RenewTx(s, wants[start..end], clock(chunk));
      s := next;
      if fault.Some? && fault.value.at == chunk {
        return s, results, true, parts;
      }
      results := results + answers;
      start, chunk, parts := end, chunk + 1, parts + 1;
    }
  }

  /** The answers to the first transactions are about the first leases, in order, and no other lease
  was touched. */
  lemma {:induction false} RenewPartsTouch(t: Tables, wants: seq<Lease>, clock: nat -> Time, n: nat)
    ensures var (s, results) := RenewParts(t, wants, clock, n);
            && |results| == Least(RENEWAL_BATCH * n, |wants|)
            && (forall i :: 0 <= i < |results| ==> results[i].lease.leaseId == wants[i].leaseId)
            && (forall id :: id in t.leases && id !in Wanted(wants) ==> id in s.leases && s.leases[id] == t.leases[id])
    decreases n
  {
    hide RenewTx;
    if n > 0 {
      RenewPartsTouch(t, wants, clock, n - 1);
      RenewTouches(RenewParts(t, wants, clock, n - 1).0, Part(wants, n - 1), clock(n - 1));
      PartWanted(wants, n - 1);
      hide Wanted;
    }
  }

  lemma PartWanted(wants: seq<Lease>, k: nat)
    ensures forall id :: id !in Wanted(wants) ==> id !in Wanted(Part(wants, k))
  {
    var start := Least(RENEWAL_BATCH * k, |wants|);
    forall id | id in Wanted(Part(wants, k))
      ensures id in Wanted(wants)
    {
      var i :| 0 <= i < |Part(wants, k)| && Part(wants, k)[i].leaseId == id;
      assert wants[start + i].leaseId == id;
    }
  }

  lemma {:induction false} LongestCovers(live: Leases, wants: seq<Lease>, i: nat)
    requires i < |wants| && StillHolds(live, wants[i])
    ensures Longest(live, wants, wants[i].leaseId) >= wants[i].ttl
    decreases |wants|
  {
    if i < |wants| - 1 {
      LongestCovers(live, wants[..|wants| - 1], i);
    }
  }

  /** Whoever is told that a lease was renewed holds it for at least the time told, and whoever is told
  that it was lost does not hold it. */
  lemma AnswersAreTrue(t: Tables, wants: seq<Lease>, now: Time, i: nat)
    requires i < |wants|
    ensures var (s, results) := RenewTx(t, wants, now);
            && |results| == |wants|
            && (results[i].Renewed? ==>
                  && wants[i].leaseId in Live(s.leases, now)
                  && s.leases[wants[i].leaseId].expiresAt >= results[i].lease.expiresAt == now + wants[i].ttl)
            && (results[i].Lost? <==> !StillHolds(Live(t.leases, now), wants[i]))
  {
    var live := Live(t.leases, now);
    if StillHolds(live, wants[i]) {
      LongestCovers(live, wants, i);
    }
    hide Longest;
  }

  lemma RenewTouches(t: Tables, wants: seq<Lease>, now: Time)
    ensures var (s, results) := RenewTx(t, wants, now);
            && |results| == |wants| && (forall i :: 0 <= i < |wants| ==> results[i].lease.leaseId == wants[i].leaseId)
            && (forall id :: id in t.leases && id !in Wanted(wants) ==> id in s.leases && s.leases[id] == t.leases[id])
  {
    forall id | id !in Wanted(wants)
      ensures Longest(Live(t.leases, now), wants, id) == 0
    {
      NotWanted(Live(t.leases, now), wants, id);
    }
  }

  lemma {:induction false} NotWanted(live: Leases, wants: seq<Lease>, id: Id)
    requires id !in Wanted(wants)
    ensures Longest(live, wants, id) == 0
    decreases |wants|
  {
    if wants != [] {
      assert wants[|wants| - 1].leaseId in Wanted(wants);
      var init := wants[..|wants| - 1];
      forall i | 0 <= i < |init|
        ensures init[i].leaseId != id
      {
        assert wants[i].leaseId in Wanted(wants);
      }
      NotWanted(live, init, id);
    }
  }
}
