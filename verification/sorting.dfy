/**
  `list.sort(key=lambda r: r["cost_usd"])`, as the planner's pad and
  budget-repair passes use it: ascending by cost, and stable, so recipes of
  equal cost keep their relative order.
*/
module Sorting {
  import opened Recipes

  predicate SortedByCost(rs: seq<Recipe>) {
    forall i, j :: 0 <= i < j < |rs| ==> rs[i].costUsd <= rs[j].costUsd
  }

  /** The entries of `rs` that cost exactly `c`, in order. */
  function CostClass(rs: seq<Recipe>, c: real): seq<Recipe> {
    if |rs| == 0 then []
    else (if rs[0].costUsd == c then [rs[0]] else []) + CostClass(rs[1..], c)
  }

  /** Put `x` in front of the first entry that costs at least as much. */
  function Insert(x: Recipe, rs: seq<Recipe>): (r: seq<Recipe>)
    ensures |r| == |rs| + 1
    ensures multiset(r) == multiset(rs) + multiset{x}
  {
    if |rs| == 0 || x.costUsd <= rs[0].costUsd then [x] + rs
    else
      assert rs == [rs[0]] + rs[1..];
      [rs[0]] + Insert(x, rs[1..])
  }

  /** Every entry costs at least `lo`. */
  predicate CostsAtLeast(rs: seq<Recipe>, lo: real) {
    forall i :: 0 <= i < |rs| ==> lo <= rs[i].costUsd
  }

  lemma {:induction false} InsertAtLeast(x: Recipe, rs: seq<Recipe>, lo: real)
    requires lo <= x.costUsd && CostsAtLeast(rs, lo)
    ensures CostsAtLeast(Insert(x, rs), lo)
  {
    if !(|rs| == 0 || x.costUsd <= rs[0].costUsd) {
      InsertAtLeast(x, rs[1..], lo);
      var r := [rs[0]] + Insert(x, rs[1..]);
      assert forall i :: 0 < i < |r| ==> r[i] == Insert(x, rs[1..])[i - 1];
    }
  }

  /** Inserting into a sorted list keeps it sorted. */
  lemma {:induction false} InsertSorted(x: Recipe, rs: seq<Recipe>)
    requires SortedByCost(rs)
    ensures SortedByCost(Insert(x, rs))
  {
    if !(|rs| == 0 || x.costUsd <= rs[0].costUsd) {
      var rest := Insert(x, rs[1..]);
      InsertSorted(x, rs[1..]);
      InsertAtLeast(x, rs[1..], rs[0].costUsd);
      var r := [rs[0]] + rest;
      forall i, j | 0 <= i < j < |r| ensures r[i].costUsd <= r[j].costUsd {
        assert r[j] == rest[j - 1];
        if i > 0 {
          assert r[i] == rest[i - 1];
        }
      }
    }
  }

  /** `x` joins its own cost class in front; every other class is untouched. */
  lemma {:induction false} InsertClass(x: Recipe, rs: seq<Recipe>, c: real)
    requires SortedByCost(rs)
    ensures CostClass(Insert(x, rs), c) == (if x.costUsd == c then [x] else []) + CostClass(rs, c)
  {
    if |rs| == 0 || x.costUsd <= rs[0].costUsd {
      assert ([x] + rs)[1..] == rs;
    } else {
      InsertClass(x, rs[1..], c);
      var r := [rs[0]] + Insert(x, rs[1..]);
      assert r[1..] == Insert(x, rs[1..]);
    }
  }

  /**
    The stable ascending sort by cost: the result is sorted, a permutation of
    the input, and for every cost the entries of that cost appear in the
    same order as in the input.
  */
  function SortByCost(rs: seq<Recipe>): (r: seq<Recipe>)
    ensures SortedByCost(r)
    ensures multiset(r) == multiset(rs)
    ensures |r| == |rs|
    ensures forall c :: CostClass(r, c) == CostClass(rs, c)
  {
    if |rs| == 0 then []
    else
      var rest := SortByCost(rs[1..]);
      assert rs == [rs[0]] + rs[1..];
      InsertSorted(rs[0], rest);
      forall c ensures CostClass(Insert(rs[0], rest), c) == CostClass(rs, c) {
        InsertClass(rs[0], rest, c);
      }
      Insert(rs[0], rest)
  }

  /** A sorted list starts with one of its cheapest entries. */
  lemma SortedHeadCheapest(rs: seq<Recipe>, x: Recipe)
    requires SortedByCost(rs) && x in rs
    ensures rs[0].costUsd <= x.costUsd
  {
  }

  /** The sort keeps exactly the entries of its input. */
  lemma SortByCostMembers(rs: seq<Recipe>)
    ensures forall x :: x in SortByCost(rs) <==> x in rs
  {
    var r := SortByCost(rs);
    assert forall x :: x in r <==> x in multiset(r);
    assert forall x :: x in rs <==> x in multiset(rs);
  }

  /** Sorting a list that is already in cost order returns it unchanged. */
  lemma {:induction false} SortSortedIdentity(rs: seq<Recipe>)
    requires SortedByCost(rs)
    ensures SortByCost(rs) == rs
  {
    if |rs| > 0 {
      SortSortedIdentity(rs[1..]);
      assert SortByCost(rs[1..]) == rs[1..];
      assert rs == [rs[0]] + rs[1..];
    }
  }
}
