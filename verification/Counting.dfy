/** Counters kept as maps, where a count of zero is an absent key; sizes of sets and maps; least elements. */
module Counting {

  type Counters = map<int, int>

  function Count(m: Counters, k: int): int {
    if k in m then m[k] else 0
  }

  function Incremented(m: Counters, k: int): Counters {
    m[k := Count(m, k) + 1]
  }

  function Decremented(m: Counters, k: int): Counters {
    if Count(m, k) <= 1 then m - {k} else m[k := m[k] - 1]
  }

  lemma SmallerSet<T>(a: set<T>, b: set<T>)
    requires a <= b
    ensures |a| <= |b|
  {
    assert b == a + (b - a);
  }

  lemma SmallerMap<K, V>(a: map<K, V>, b: map<K, V>)
    requires a.Keys <= b.Keys
    ensures |a| <= |b|
  {
    SmallerSet(a.Keys, b.Keys);
    assert |a| == |a.Keys| && |b| == |b.Keys|;
  }

  lemma KeyRemoved<K, V>(m: map<K, V>, k: K)
    requires k in m
    ensures |m - {k}| == |m| - 1
  {
    assert (m - {k}).Keys == m.Keys - {k};
    assert |m| == |m.Keys| && |m - {k}| == |(m - {k}).Keys|;
  }

  lemma KeyAdded<K, V>(m: map<K, V>, k: K, v: V)
    requires k !in m
    ensures |m[k := v]| == |m| + 1
  {
    assert m[k := v].Keys == m.Keys + {k};
    assert |m[k := v]| == |m[k := v].Keys|;
  }

  lemma KeyKept<K, V>(m: map<K, V>, k: K, v: V)
    requires k in m
    ensures |m[k := v]| == |m|
  {
    assert m[k := v].Keys == m.Keys;
    assert |m[k := v]| == |m[k := v].Keys| && |m| == |m.Keys|;
  }

  lemma Vacant<T>(s: set<T>)
    ensures (forall x :: x !in s) ==> s == {}
  {
    if forall x :: x !in s {
      assert s == {};
    }
  }

  lemma Element<T>(s: set<T>) returns (x: T)
    requires s != {}
    ensures x in s
  {
    Vacant(s);
    x :| x in s;
  }

  lemma {:induction false} LeastExists(times: set<int>)
    requires times != {}
    ensures exists t :: t in times && forall u :: u in times ==> t <= u
    decreases |times|
  {
    var x := Element(times);
    var rest := times - {x};
    if rest == {} {
      assert times == {x};
    } else {
      LeastExists(rest);
      var y :| y in rest && forall u :: u in rest ==> y <= u;
      assert times == rest + {x};
      var z := if x < y then x else y;
      assert z in times && forall u :: u in times ==> z <= u;
    }
  }

  ghost function Least(times: set<int>): (t: int)
    requires times != {}
    ensures t in times && forall u :: u in times ==> t <= u
  {
    LeastExists(times);
    var t :| t in times && forall u :: u in times ==> t <= u;
    t
  }
}
