/** The time-ordered queue the coordinators index their deadlines with: a binary heap kept in
one slice by the push and pop of Go's `container/heap`. */
module ExpiryQueue {

  type Id = int
  type Time = int

  datatype Kind = AdmissionLease | AdmissionReceipt | CircuitPermit | CircuitAttempt

  datatype Entry = Entry(at: Time, id: Id, kind: Kind)

  datatype Option<+T> = None | Some(value: T)

  function Parent(i: nat): (p: nat)
    requires i > 0
    ensures p < i
  {
    (i - 1) / 2
  }

  /** Every entry is at least as late as its parent, except possibly between `hole` and its parent. */
  ghost predicate OrderedAbove(q: seq<Entry>, hole: nat) {
    && (forall i :: 0 < i < |q| && i != hole ==> q[Parent(i)].at <= q[i].at)
    && (forall i :: 0 < i < |q| && Parent(i) == hole && hole > 0 ==> q[Parent(hole)].at <= q[i].at)
  }

  /** Every entry is at least as late as its parent, except possibly below `hole`. */
  ghost predicate OrderedBelow(q: seq<Entry>, hole: nat) {
    && (forall i :: 0 < i < |q| && Parent(i) != hole ==> q[Parent(i)].at <= q[i].at)
    && (forall i :: 0 < i < |q| && Parent(i) == hole && hole > 0 ==> q[Parent(hole)].at <= q[i].at)
  }

  ghost predicate Ordered(q: seq<Entry>) {
    forall i :: 0 < i < |q| ==> q[Parent(i)].at <= q[i].at
  }

  lemma {:induction false} FrontIsOldest(q: seq<Entry>, i: nat)
    requires Ordered(q) && i < |q|
    ensures q[0].at <= q[i].at
    decreases i
  {
    if i > 0 {
      FrontIsOldest(q, Parent(i));
    }
  }

  function Swapped(q: seq<Entry>, i: nat, j: nat): (r: seq<Entry>)
    requires i < |q| && j < |q|
    ensures |r| == |q|
  {
    q[i := q[j]][j := q[i]]
  }

  lemma SwapKeeps(q: seq<Entry>, i: nat, j: nat)
    requires i < |q| && j < |q|
    ensures multiset(Swapped(q, i, j)) == multiset(q)
  {
    var r := q[i := q[j]];
    assert multiset(r) == multiset(q) - multiset{q[i]} + multiset{q[j]};
    assert multiset(r[j := q[i]]) == multiset(r) - multiset{r[j]} + multiset{q[i]};
  }

  lemma SwapUp(q: seq<Entry>, j: nat)
    requires 0 < j < |q| && OrderedAbove(q, j) && q[j].at < q[Parent(j)].at
    ensures OrderedAbove(Swapped(q, Parent(j), j), Parent(j))
  {
    var i := Parent(j);
    var r := Swapped(q, i, j);
    forall k | 0 < k < |r| && k != i
      ensures r[Parent(k)].at <= r[k].at
    {
      assert k == j || q[Parent(k)].at <= q[k].at;
    }
    if i > 0 {
      assert q[Parent(i)].at <= q[i].at;
      forall k | 0 < k < |r| && Parent(k) == i
        ensures r[Parent(i)].at <= r[k].at
      {
        assert k == j || q[i].at <= q[k].at;
      }
    }
  }

  /** `j` is a child of `i` with no earlier sibling. */
  ghost predicate EarliestChild(q: seq<Entry>, i: nat, j: nat) {
    && 0 < j < |q| && Parent(j) == i
    && forall k :: 0 < k < |q| && Parent(k) == i ==> q[j].at <= q[k].at
  }

  lemma SwapDown(q: seq<Entry>, i: nat, j: nat)
    requires i < |q| && OrderedBelow(q, i) && EarliestChild(q, i, j) && q[j].at < q[i].at
    ensures OrderedBelow(Swapped(q, i, j), j)
  {
    var r := Swapped(q, i, j);
    forall k | 0 < k < |r| && Parent(k) != j
      ensures r[Parent(k)].at <= r[k].at
    {
      if Parent(k) == i {
        assert q[j].at <= q[k].at;
      } else {
        assert q[Parent(k)].at <= q[k].at;
        if k == i {
          assert q[Parent(i)].at <= q[j].at;
        }
      }
    }
    forall k | 0 < k < |r| && Parent(k) == j
      ensures r[Parent(j)].at <= r[k].at
    {
      assert q[Parent(k)].at <= q[k].at;
    }
  }

  lemma Children(i: nat, k: nat)
    requires k > 0
    ensures Parent(k) == i <==> k == 2 * i + 1 || k == 2 * i + 2
  {
  }

  /** The child the program picks has no earlier sibling. */
  lemma PicksEarliest(q: seq<Entry>, i: nat, j: nat)
    requires j == 2 * i + 1 || j == 2 * i + 2
    requires j < |q|
    requires j == 2 * i + 1 && j + 1 < |q| ==> q[j].at <= q[j + 1].at
    requires j == 2 * i + 2 ==> q[j].at < q[j - 1].at
    ensures EarliestChild(q, i, j)
  {
    Children(i, j);
    forall k | 0 < k < |q| && Parent(k) == i
      ensures q[j].at <= q[k].at
    {
      Children(i, k);
    }
  }

  lemma Childless(q: seq<Entry>, i: nat)
    requires i < |q| <= 2 * i + 1 && OrderedBelow(q, i)
    ensures Ordered(q)
  {
    forall k | 0 < k < |q|
      ensures Parent(k) != i
    {
      Children(i, k);
    }
  }

  lemma EndsBelow(q: seq<Entry>, i: nat)
    requires i < |q| && OrderedBelow(q, i)
    requires exists j: nat :: EarliestChild(q, i, j) && q[i].at <= q[j].at
    ensures Ordered(q)
  {
  }

  lemma MemberOf(q: seq<Entry>, e: Entry)
    ensures e in multiset(q) <==> e in q
  {
  }

  class Queue {
    var entries: seq<Entry>

    ghost predicate Valid()
      reads this
    {
      Ordered(entries)
    }

    ghost function Contents(): multiset<Entry>
      reads this
    {
      multiset(entries)
    }

    constructor ()
      ensures Valid() && entries == []
    {
      entries := [];
    }

    method Add(kind: Kind, id: Id, at: Time)
      requires Valid()
      modifies this
      ensures Valid()
      ensures Contents() == old(Contents()) + multiset{Entry(at, id, kind)}
    {
      entries := entries + [Entry(at, id, kind)];
      Up(|entries| - 1);
    }

    /** Moves the entry at `start` towards the front until its parent is no later. */
    method Up(start: nat)
      requires start < |entries| && OrderedAbove(entries, start)
      modifies this
      ensures Valid() && Contents() == old(Contents())
    {
      var j: nat := start;
      while j > 0 && entries[j].at < entries[Parent(j)].at
        invariant j < |entries| && OrderedAbove(entries, j)
        invariant Contents() == old(Contents())
        decreases j
      {
        var i := Parent(j);
        SwapKeeps(entries, i, j);
        SwapUp(entries, j);
        entries := Swapped(entries, i, j);
        j := i;
      }
    }

    /** Moves the entry at the front away from it until no child is earlier. */
    method Down()
      requires entries != [] && OrderedBelow(entries, 0)
      modifies this
      ensures Valid() && Contents() == old(Contents())
    {
      hide Parent;
      hide OrderedBelow;
      hide EarliestChild;
      hide Ordered;
      var i: nat := 0;
      while 2 * i + 1 < |entries|
        invariant i < |entries| && OrderedBelow(entries, i)
        invariant Contents() == old(Contents())
        decreases |entries| - i
      {
        var j: nat := 2 * i + 1;
        if j + 1 < |entries| && entries[j + 1].at < entries[j].at {
          j := j + 1;
        }
        PicksEarliest(entries, i, j);
        if entries[j].at >= entries[i].at {
          EndsBelow(entries, i);
          return;
        }
        SwapKeeps(entries, i, j);
        SwapDown(entries, i, j);
        entries := Swapped(entries, i, j);
        i := j;
      }
      Childless(entries, i);
    }

    method Pop() returns (e: Entry)
      requires Valid() && entries != []
      modifies this
      ensures Valid() && e == old(entries[0])
      ensures |entries| + 1 == old(|entries|)
      ensures Contents() == old(Contents()) - multiset{e}
    {
      e := entries[0];
      var n := |entries| - 1;
      SwapKeeps(entries, 0, n);
      var moved := Swapped(entries, 0, n);
      assert moved == moved[..n] + [e];
      entries := moved[..n];
      if n > 0 {
        Down();
      }
    }

    /** The oldest entry, if its time has come. */
    method Due(now: Time) returns (e: Option<Entry>)
      requires Valid()
      modifies this
      ensures Valid()
      ensures e.None? ==> Contents() == old(Contents()) && forall x :: x in Contents() ==> x.at > now
      ensures e.Some? ==>
                && e.value in old(Contents()) && e.value.at <= now
                && Contents() == old(Contents()) - multiset{e.value} && |entries| < old(|entries|)
                && forall x :: x in old(Contents()) ==> e.value.at <= x.at
    {
      forall x | x in Contents()
        ensures entries[0].at <= x.at
      {
        MemberOf(entries, x);
        var i :| 0 <= i < |entries| && entries[i] == x;
        FrontIsOldest(entries, i);
      }
      if |entries| == 0 || entries[0].at > now {
        return None;
      }
      var oldest := Pop();
      return Some(oldest);
    }

    /** The oldest entry, whatever its time. */
    method PopOldest() returns (e: Option<Entry>)
      requires Valid()
      modifies this
      ensures Valid()
      ensures e.None? <==> old(entries) == []
      ensures e.None? ==> Contents() == old(Contents())
      ensures e.Some? ==>
                && e.value == old(entries[0]) && Contents() == old(Contents()) - multiset{e.value}
                && |entries| < old(|entries|)
                && forall x :: x in old(Contents()) ==> e.value.at <= x.at
    {
      if |entries| == 0 {
        return None;
      }
      forall x | x in Contents()
        ensures entries[0].at <= x.at
      {
        MemberOf(entries, x);
        var i :| 0 <= i < |entries| && entries[i] == x;
        FrontIsOldest(entries, i);
      }
      var oldest := Pop();
      return Some(oldest);
    }
  }
}
