/** Deterministic victim order: ids ranked by (major, minor, id), smallest first. */
module Order {
  import opened Arithmetic

  datatype Rank = Rank(major: nat, minor: nat, id: u64)

  predicate Before(a: Rank, b: Rank) {
    || a.major < b.major
    || (a.major == b.major && (a.minor < b.minor || (a.minor == b.minor && a.id < b.id)))
  }

  /** A ranking ends in the id itself, so distinct ids never tie. */
  ghost predicate TotalRanking(key: u64 -> Rank) { forall id: u64 :: key(id).id == id }

  ghost predicate Sorted(ids: seq<u64>, key: u64 -> Rank) {
    forall i, j :: 0 <= i < j < |ids| ==> Before(key(ids[i]), key(ids[j]))
  }

  ghost predicate Distinct(ids: seq<u64>) { forall i, j :: 0 <= i < j < |ids| ==> ids[i] != ids[j] }

  function Elements(ids: seq<u64>): set<u64> { set id | id in ids }

  ghost predicate IsLeast(ids: set<u64>, key: u64 -> Rank, m: u64) {
    m in ids && forall x :: x in ids && x != m ==> Before(key(m), key(x))
  }

  lemma {:induction false} LeastExists(ids: set<u64>, key: u64 -> Rank)
    requires ids != {} && TotalRanking(key)
    ensures exists m :: IsLeast(ids, key, m)
  {
    var a :| a in ids;
    if ids - {a} == {} {
      assert ids == {a};
      assert IsLeast(ids, key, a);
    } else {
      LeastExists(ids - {a}, key);
      var b :| IsLeast(ids - {a}, key, b);
      var m := if Before(key(a), key(b)) then a else b;
      forall x | x in ids && x != m ensures Before(key(m), key(x)) {
        assert x == a || x in ids - {a};
        assert key(a).id == a && key(b).id == b && key(x).id == x;
      }
      assert IsLeast(ids, key, m);
    }
  }

  /** The ids in rank order. */
  ghost function Ranked(ids: set<u64>, key: u64 -> Rank): (r: seq<u64>)
    requires TotalRanking(key)
    ensures Elements(r) == ids
    ensures Sorted(r, key)
  {
    if ids == {} then []
    else
      LeastExists(ids, key);
      var m :| IsLeast(ids, key, m);
      var rest := Ranked(ids - {m}, key);
      assert forall x :: x in rest <==> x in Elements(rest);
      var r := [m] + rest;
      assert Elements(r) == {m} + Elements(rest);
      r
  }

  function ById(): u64 -> Rank { (id: u64) => Rank(0, 0, id) }

  /** The source's sorted_members: ids in ascending order. */
  ghost function Ascending(ids: set<u64>): (r: seq<u64>)
    ensures Elements(r) == ids
    ensures Sorted(r, ById())
  {
    Ranked(ids, ById())
  }

  lemma SortedHead(ids: seq<u64>, key: u64 -> Rank)
    requires ids != [] && Sorted(ids, key)
    ensures Elements(ids) == {ids[0]} + Elements(ids[1..])
    ensures ids[0] !in Elements(ids[1..])
    ensures IsLeast(Elements(ids), key, ids[0])
    ensures Sorted(ids[1..], key)
  {
    assert ids == [ids[0]] + ids[1..];
  }

  /** Any two rank-ordered listings of the same ids are the same listing: a plan built by
      sorting does not depend on the order in which the candidates were visited. */
  lemma {:induction false} SortedUnique(a: seq<u64>, b: seq<u64>, key: u64 -> Rank)
    requires Sorted(a, key) && Sorted(b, key) && Elements(a) == Elements(b)
    ensures a == b
  {
    NoElements(a);
    NoElements(b);
    if a != [] {
      SortedHead(a, key);
      SortedHead(b, key);
      assert a[0] == b[0];
      assert Elements(a[1..]) == Elements(a) - {a[0]};
      assert Elements(b[1..]) == Elements(b) - {b[0]};
      SortedUnique(a[1..], b[1..], key);
    }
  }

  lemma NoElements(ids: seq<u64>)
    ensures ids == [] <==> Elements(ids) == {}
  {
    if ids != [] { assert ids[0] in Elements(ids); }
  }

  /** Inserting one id into a ranked listing. */
  method Insert(ids: seq<u64>, key: u64 -> Rank, id: u64) returns (r: seq<u64>)
    requires TotalRanking(key) && Sorted(ids, key) && id !in Elements(ids)
    ensures Sorted(r, key) && Elements(r) == Elements(ids) + {id}
  {
    var i := 0;
    while i < |ids| && Before(key(ids[i]), key(id))
      invariant 0 <= i <= |ids|
      invariant forall k :: 0 <= k < i ==> Before(key(ids[k]), key(id))
    {
      i := i + 1;
    }
    r := ids[..i] + [id] + ids[i..];
    forall k | i <= k < |ids| ensures Before(key(id), key(ids[k])) {
      assert ids[k] in Elements(ids);
      assert key(ids[k]).id == ids[k] && key(ids[i]).id == ids[i] && key(id).id == id;
      if k > i { assert Before(key(ids[i]), key(ids[k])); }
      assert ids[i] in Elements(ids);
    }
  }

  /** Visiting a set in an arbitrary order and sorting, as the source does with an
      unordered container, yields the one ranked listing. */
  method Sort(ids: set<u64>, key: u64 -> Rank) returns (r: seq<u64>)
    requires TotalRanking(key)
    ensures r == Ranked(ids, key)
  {
    r := [];
    var todo := ids;
    while todo != {}
      invariant todo <= ids && Sorted(r, key) && Elements(r) == ids - todo
      decreases todo
    {
      var id :| id in todo;
      r := Insert(r, key, id);
      todo := todo - {id};
    }
    SortedUnique(r, Ranked(ids, key), key);
  }
}
