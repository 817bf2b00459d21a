/** What the delivery of completions does to the coordinator's ledger, while others use it as well. */
module LeaseSettlement {
  import opened ExpiryQueue
  import opened Admission
  import opened LeaseDelivery
  import AdmissionRuns
  import AdmissionLimits
  import AdmissionOrphans

  /** At step `k` of the log the lease identifier is admitted afresh. */
  predicate AdmittedAt(s: Ledger, log: seq<AdmissionRuns.Event>, capacity: nat, k: nat, id: Id)
    requires k < |log|
  {
    && log[k].op.AcquireOp? && log[k].op.r.leaseId == id
    && AdmissionRuns.Fresh(AdmissionRuns.After(s, log[..k], capacity), log[k], capacity, log[k].op.r)
  }

  /** Whatever prefixes of whatever batches the coordinator carried out, among whatever operations of
  others, on any ledger it starts from: a lease is released and its usage charged by at most one of the
  calls, unless its identifier was admitted afresh in between. */
  lemma ChargedAtMostOnce(cap: nat, run: seq<Event>, s: Ledger, capacity: nat, id: Id, i: nat, j: nat)
    requires i < j < |After(cap, run).log|
    requires var log := After(cap, run).log;
             && AdmissionRuns.Completes(AdmissionRuns.After(s, log[..i], capacity), log[i], id)
             && AdmissionRuns.Completes(AdmissionRuns.After(s, log[..j], capacity), log[j], id)
    ensures var log := After(cap, run).log;
            exists k :: i < k < j && AdmittedAt(s, log, capacity, k, id)
  {
    var log := After(cap, run).log;
    hide After;
    hide AdmissionRuns.After;
    hide AdmissionRuns.Completes;
    hide AdmissionRuns.Fresh;
    AdmissionRuns.CompletedAtMostOnce(s, log, capacity, id, i, j);
    var k :| i < k < j && log[k].op.AcquireOp? && log[k].op.r.leaseId == id
             && AdmissionRuns.Fresh(AdmissionRuns.After(s, log[..k], capacity), log[k], capacity, log[k].op.r);
    assert AdmittedAt(s, log, capacity, k, id);
  }

  lemma Executes(s: Ledger, log: seq<AdmissionRuns.Event>, capacity: nat, i: nat, item: Item)
    requires i < |log| && log[i].op.CompleteOp? && item in log[i].op.items
    ensures AdmissionRuns.Settled(AdmissionRuns.After(s, log[..i + 1], capacity), item.leaseId)
  {
    hide AdmissionRuns.Step;
    AdmissionRuns.AfterNext(s, log, capacity, i + 1);
    var k :| 0 <= k < |log[i].op.items| && log[i].op.items[k] == item;
    assert log[i].op.items[k].leaseId == item.leaseId;
    AdmissionRuns.CompletingSettles(AdmissionRuns.After(s, log[..i], capacity), log[i], capacity, item.leaseId);
  }

  lemma SettledHoldsNothing(s: Ledger, id: Id)
    requires Backed(s) && AdmissionRuns.Settled(s, id)
    ensures id !in s.leases
  {
  }

  /** With an honest coordinator an acknowledged completion was carried out at some step of the log, and
  from then on its lease is gone and nothing more can be charged for it, unless its identifier is
  admitted afresh. */
  lemma AcknowledgedMeansReleased(cap: nat, run: seq<Event>, capacity: nat, item: Item) returns (i: nat)
    requires HonestRun(cap, run) && item in After(cap, run).acked
    requires AdmissionLimits.LawfulRun(After(cap, run).log, capacity)
    ensures var log := After(cap, run).log;
            var s := AdmissionRuns.After(Empty, log, capacity);
            && i < |log| && log[i].op.CompleteOp? && item in log[i].op.items
            && ((forall k :: i < k < |log| ==> !AdmittedAt(Empty, log, capacity, k, item.leaseId)) ==>
                  AdmissionRuns.Settled(s, item.leaseId) && item.leaseId !in s.leases)
  {
    AcknowledgedMeansCarriedOut(cap, run);
    var log := After(cap, run).log;
    assert Reached(log, item);
    i :| 0 <= i < |log| && log[i].op.CompleteOp? && item in log[i].op.items;
    hide After;
    hide AdmissionRuns.After;
    hide AdmissionRuns.Fresh;
    Executes(Empty, log, capacity, i, item);
    AdmissionOrphans.RunKeepsBacked(log, capacity);
    assert log[..|log|] == log;
    if forall k :: i < k < |log| ==> !AdmittedAt(Empty, log, capacity, k, item.leaseId) {
      forall k | i < k < |log| && log[k].op.AcquireOp? && log[k].op.r.leaseId == item.leaseId
        ensures !AdmissionRuns.Fresh(AdmissionRuns.After(Empty, log[..k], capacity), log[k], capacity, log[k].op.r)
      {
        assert !AdmittedAt(Empty, log, capacity, k, item.leaseId);
      }
      AdmissionRuns.SettledUntil(Empty, log, capacity, item.leaseId, i, |log|);
      SettledHoldsNothing(AdmissionRuns.After(Empty, log, capacity), item.leaseId);
    }
  }
}
