/** Sums of a natural-valued function over a finite set of keys. */
module Sums {

  ghost function SumOver<K(!new)>(s: set<K>, f: K -> nat): nat {
    if s == {} then 0 else
      var k :| k in s;
      f(k) + SumOver(s - {k}, f)
  }

  /** Any key may be taken out first. */
  lemma {:induction false} SumRemove<K(!new)>(s: set<K>, f: K -> nat, k: K)
    requires k in s
    ensures SumOver(s, f) == f(k) + SumOver(s - {k}, f)
    decreases s
  {
    var j :| j in s && SumOver(s, f) == f(j) + SumOver(s - {j}, f);
    if j != k {
      SumRemove(s - {j}, f, k);
      SumRemove(s - {k}, f, j);
      assert s - {j} - {k} == s - {k} - {j};
    }
  }

  lemma SumInsert<K(!new)>(s: set<K>, f: K -> nat, k: K)
    requires k !in s
    ensures SumOver(s + {k}, f) == f(k) + SumOver(s, f)
  {
    SumRemove(s + {k}, f, k);
    assert s + {k} - {k} == s;
  }

  lemma {:induction false} SumCongruent<K(!new)>(s: set<K>, f: K -> nat, g: K -> nat)
    requires forall k :: k in s ==> f(k) == g(k)
    ensures SumOver(s, f) == SumOver(s, g)
    decreases s
  {
    if s != {} {
      var k :| k in s;
      SumRemove(s, f, k);
      SumRemove(s, g, k);
      SumCongruent(s - {k}, f, g);
    }
  }

  lemma {:induction false} SumPlus<K(!new)>(s: set<K>, f: K -> nat, g: K -> nat, h: K -> nat)
    requires forall k :: k in s ==> h(k) == f(k) + g(k)
    ensures SumOver(s, h) == SumOver(s, f) + SumOver(s, g)
    decreases s
  {
    if s != {} {
      var k :| k in s;
      SumRemove(s, f, k);
      SumRemove(s, g, k);
      SumRemove(s, h, k);
      SumPlus(s - {k}, f, g, h);
    }
  }

  lemma {:induction false} SumMonotone<K(!new)>(s: set<K>, f: K -> nat, g: K -> nat)
    requires forall k :: k in s ==> f(k) <= g(k)
    ensures SumOver(s, f) <= SumOver(s, g)
    decreases s
  {
    if s != {} {
      var k :| k in s;
      SumRemove(s, f, k);
      SumRemove(s, g, k);
      SumMonotone(s - {k}, f, g);
    }
  }

  /** A part, no larger member by member, sums to no more than the whole. */
  lemma {:induction false} SumSubset<K(!new)>(s: set<K>, t: set<K>, f: K -> nat, g: K -> nat)
    requires s <= t && forall k :: k in s ==> f(k) <= g(k)
    ensures SumOver(s, f) <= SumOver(t, g)
    decreases s
  {
    if s != {} {
      var k :| k in s;
      SumRemove(s, f, k);
      SumRemove(t, g, k);
      SumSubset(s - {k}, t - {k}, f, g);
    }
  }

  lemma SumMember<K(!new)>(s: set<K>, f: K -> nat, k: K)
    requires k in s
    ensures f(k) <= SumOver(s, f)
  {
    SumRemove(s, f, k);
  }

  lemma {:induction false} SumZero<K(!new)>(s: set<K>, f: K -> nat)
    ensures SumOver(s, f) == 0 <==> forall k :: k in s ==> f(k) == 0
    decreases s
  {
    if s != {} {
      var k :| k in s;
      SumRemove(s, f, k);
      SumZero(s - {k}, f);
      assert forall j :: j in s <==> j == k || j in s - {k};
    }
  }

  /** A function that vanishes off one key sums to its value there. */
  lemma SumSingle<K(!new)>(s: set<K>, f: K -> nat, k: K)
    requires k in s && forall j :: j in s && j != k ==> f(j) == 0
    ensures SumOver(s, f) == f(k)
  {
    SumRemove(s, f, k);
    SumZero(s - {k}, f);
  }
}
