/**
  The typed recipe record the planner works on, and the house rules that
  both the per-plan filter and the guardrails share.
*/
module Recipes {
  import opened Values

  /** One `{item, qty}` entry, both fields already rendered by `str`. */
  datatype Ingredient = Ingredient(item: string, qty: string)

  datatype Macros = Macros(proteinG: real, fiberG: real, kcals: real)

  /** A recipe; `source` is `"llm"` for a generated one and anything else (normally `"curated"`) otherwise. */
  datatype Recipe = Recipe(
    id: string,
    name: string,
    tags: seq<string>,
    cookingMethod: string,
    minutes: int,
    ingredients: seq<Ingredient>,
    macros: Macros,
    costUsd: real,
    source: string)
  {
    predicate IsLlm() { source == "llm" }
  }

  /** Words that disqualify a recipe wherever they appear. */
  const BannedTokens: seq<string> := ["shellfish", "raw onion", "kale"]

  /** The per-dinner cost ceiling, in US dollars. */
  const MaxMealCost: real := 18.0

  /** The nutrition floor per dinner, in grams. */
  const MinProteinG: real := 40.0
  const MinFiberG: real := 6.0

  /** `prefs.get("avoid_whole_tomatoes", True)`, read for its truthiness. */
  function AvoidWholeTomatoes(prefs: Dict): (avoid: bool)
    ensures "avoid_whole_tomatoes" !in Keys(prefs) ==> avoid
  {
    Truthy(GetOr(prefs, "avoid_whole_tomatoes", VBool(true)))
  }

  function Ids(rs: seq<Recipe>): set<string> {
    set r | r in rs :: r.id
  }

  predicate DistinctIds(rs: seq<Recipe>) {
    forall i, j :: 0 <= i < j < |rs| ==> rs[i].id != rs[j].id
  }

  lemma IdsCons(rs: seq<Recipe>)
    requires |rs| > 0
    ensures Ids(rs) == {rs[0].id} + Ids(rs[1..])
  {
    assert rs == [rs[0]] + rs[1..];
    assert forall r :: r in rs <==> r == rs[0] || r in rs[1..];
  }

  /** Recipes with pairwise distinct ids have as many ids as entries. */
  lemma {:induction false} DistinctIdsCount(rs: seq<Recipe>)
    requires DistinctIds(rs)
    ensures |Ids(rs)| == |rs|
  {
    if |rs| > 0 {
      DistinctTail(rs);
      DistinctIdsCount(rs[1..]);
      IdsCons(rs);
      HeadIdFresh(rs);
    }
  }

  /** In a list with distinct ids the head's id is not among the tail's. */
  lemma HeadIdFresh(rs: seq<Recipe>)
    requires |rs| > 0 && DistinctIds(rs)
    ensures rs[0].id !in Ids(rs[1..])
  {
    var tail := rs[1..];
    forall r | r in tail ensures r.id != rs[0].id {
      var j :| 0 <= j < |tail| && tail[j] == r;
      assert rs[j + 1] == r;
    }
  }

  lemma IdsAppend(a: seq<Recipe>, b: seq<Recipe>)
    ensures Ids(a + b) == Ids(a) + Ids(b)
  {
    assert forall r :: r in a + b <==> r in a || r in b;
  }

  /** Two lists with distinct ids and no id in common concatenate to a list with distinct ids. */
  lemma DistinctAppend(a: seq<Recipe>, b: seq<Recipe>)
    requires DistinctIds(a) && DistinctIds(b)
    requires forall r :: r in b ==> r.id !in Ids(a)
    ensures DistinctIds(a + b)
  {
    var c := a + b;
    forall i, j | 0 <= i < j < |c| ensures c[i].id != c[j].id {
      if j >= |a| {
        assert c[j] == b[j - |a|];
        if i < |a| {
          assert c[i] in a;
          assert b[j - |a|] in b;
        } else {
          assert c[i] == b[i - |a|];
        }
      }
    }
  }

  lemma DistinctTail(rs: seq<Recipe>)
    requires |rs| > 0 && DistinctIds(rs)
    ensures DistinctIds(rs[1..])
  {
    var tail := rs[1..];
    forall i, j | 0 <= i < j < |tail| ensures tail[i].id != tail[j].id {
      assert tail[i] == rs[i + 1] && tail[j] == rs[j + 1];
    }
  }

  /** The head of a list with distinct ids can go back in front of any selection from its tail. */
  lemma DistinctFilterCons(rs: seq<Recipe>, rest: seq<Recipe>)
    requires |rs| > 0 && DistinctIds(rs) && DistinctIds(rest)
    requires forall x :: x in rest ==> x in rs[1..]
    ensures DistinctIds([rs[0]] + rest)
  {
    forall x | x in rest ensures x.id != rs[0].id {
      var j :| 0 <= j < |rs[1..]| && rs[1..][j] == x;
      assert rs[j + 1] == x;
    }
    DistinctAppend([rs[0]], rest);
  }

  /** The recipes whose id is outside `excluded`, in order. */
  function WithoutIds(rs: seq<Recipe>, excluded: set<string>): (r: seq<Recipe>)
    ensures |r| <= |rs|
  {
    if |rs| == 0 then []
    else
      var rest := WithoutIds(rs[1..], excluded);
      if rs[0].id in excluded then rest else [rs[0]] + rest
  }

  /** An entry survives the filter exactly when it was there and its id is not excluded. */
  lemma {:induction false} WithoutIdsMembers(rs: seq<Recipe>, excluded: set<string>)
    ensures forall x :: x in WithoutIds(rs, excluded) <==> x in rs && x.id !in excluded
  {
    if |rs| > 0 {
      WithoutIdsMembers(rs[1..], excluded);
      assert forall x :: x in rs <==> x == rs[0] || x in rs[1..];
    }
  }

  /** The filter removes exactly the excluded ids. */
  lemma WithoutIdsIds(rs: seq<Recipe>, excluded: set<string>)
    ensures Ids(WithoutIds(rs, excluded)) == Ids(rs) - excluded
  {
    WithoutIdsMembers(rs, excluded);
  }

  /** Excluding every id of the list leaves nothing. */
  lemma {:induction false} WithoutIdsAll(rs: seq<Recipe>, excluded: set<string>)
    requires Ids(rs) <= excluded
    ensures WithoutIds(rs, excluded) == []
  {
    if |rs| > 0 {
      IdsCons(rs);
      WithoutIdsAll(rs[1..], excluded);
    }
  }

  lemma WithoutIdsShrinks(rs: seq<Recipe>, excluded: set<string>, k: nat)
    requires k < |rs| && rs[k].id in excluded
    ensures |WithoutIds(rs, excluded)| < |rs|
  {
    if k > 0 {
      WithoutIdsShrinks(rs[1..], excluded, k - 1);
    }
  }

  /** Filtering twice is filtering once by both id sets. */
  lemma {:induction false} WithoutIdsTwice(rs: seq<Recipe>, a: set<string>, b: set<string>)
    ensures WithoutIds(WithoutIds(rs, a), b) == WithoutIds(rs, a + b)
  {
    if |rs| > 0 {
      WithoutIdsTwice(rs[1..], a, b);
      if rs[0].id !in a {
        assert ([rs[0]] + WithoutIds(rs[1..], a))[1..] == WithoutIds(rs[1..], a);
      }
    }
  }

  function TotalCost(rs: seq<Recipe>): real {
    if |rs| == 0 then 0.0 else rs[0].costUsd + TotalCost(rs[1..])
  }

  function TotalProtein(rs: seq<Recipe>): real {
    if |rs| == 0 then 0.0 else rs[0].macros.proteinG + TotalProtein(rs[1..])
  }

  function TotalFiber(rs: seq<Recipe>): real {
    if |rs| == 0 then 0.0 else rs[0].macros.fiberG + TotalFiber(rs[1..])
  }

  /** Replacing one entry changes the total by the difference of the two costs. */
  lemma {:induction false} TotalCostUpdate(rs: seq<Recipe>, i: nat, x: Recipe)
    requires i < |rs|
    ensures TotalCost(rs[i := x]) == TotalCost(rs) - rs[i].costUsd + x.costUsd
  {
    if i > 0 {
      TotalCostUpdate(rs[1..], i - 1, x);
      assert rs[i := x][1..] == rs[1..][i - 1 := x];
    }
  }

  lemma {:induction false} TotalCostAppend(a: seq<Recipe>, b: seq<Recipe>)
    ensures TotalCost(a + b) == TotalCost(a) + TotalCost(b)
  {
    if |a| > 0 {
      TotalCostAppend(a[1..], b);
      assert (a + b)[1..] == a[1..] + b;
    } else {
      assert a + b == b;
    }
  }

  /** The number of generated recipes in `rs`. */
  function CountLlm(rs: seq<Recipe>): nat {
    if |rs| == 0 then 0 else (if rs[0].IsLlm() then 1 else 0) + CountLlm(rs[1..])
  }

  lemma {:induction false} CountLlmAppend(a: seq<Recipe>, b: seq<Recipe>)
    ensures CountLlm(a + b) == CountLlm(a) + CountLlm(b)
  {
    if |a| > 0 {
      CountLlmAppend(a[1..], b);
      assert (a + b)[1..] == a[1..] + b;
    } else {
      assert a + b == b;
    }
  }

  /** Replacing one entry removes at most one generated recipe. */
  lemma {:induction false} CountLlmUpdate(rs: seq<Recipe>, i: nat, x: Recipe)
    requires i < |rs|
    ensures CountLlm(rs[i := x]) + 1 >= CountLlm(rs)
  {
    if i > 0 {
      CountLlmUpdate(rs[1..], i - 1, x);
      assert rs[i := x][1..] == rs[1..][i - 1 := x];
    }
  }

  lemma {:induction false} CountLlmAll(rs: seq<Recipe>)
    requires forall r :: r in rs ==> r.IsLlm()
    ensures CountLlm(rs) == |rs|
  {
    if |rs| > 0 {
      CountLlmAll(rs[1..]);
    }
  }
}
