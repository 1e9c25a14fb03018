/**
  `aggregate_ingredients` (mealplanner/groceries.py): the shopping list of a
  plan, one entry per ingredient item, where numeric quantities are summed
  and any other quantity is appended as text.
*/
module Groceries {
  import opened Options
  import opened Values
  import opened Recipes
  import Text

  /** The shopping list: item name to quantity text. */
  type Need = map<string, string>

  /** An ingredient as the loop reads it: item name and quantity text, both stripped. A blank item is skipped. */
  datatype Line = Line(item: string, qty: string)

  /** The stripped lines of an ingredient list, in order. */
  function Lines(ings: seq<Ingredient>): (ls: seq<Line>)
    ensures |ls| == |ings|
    ensures forall i :: 0 <= i < |ings| ==> ls[i] == Line(Text.Strip(ings[i].item), Text.Strip(ings[i].qty))
  {
    seq(|ings|, i requires 0 <= i < |ings| => Line(Text.Strip(ings[i].item), Text.Strip(ings[i].qty)))
  }

  /** A previous entry counts only when it is present and non-empty (Python truthiness of `need.get(item)`). */
  predicate Truthy(prev: Option<string>) {
    prev.Some? && prev.value != ""
  }

  /**
    The new entry for an item: a numeric quantity is added to a numeric
    previous entry and rendered, or rendered and appended to a textual one;
    any other quantity is appended as it stands; without a previous entry
    the quantity (rendered if numeric) is the entry.
  */
  function Merge(prev: Option<string>, qty: string, ft: FloatText): string {
    match ft.parse(qty)
    case Some(val) =>
      if Truthy(prev) then
        match ft.parse(prev.value)
        case Some(p) => ft.show(val + p)
        case None => prev.value + " + " + ft.show(val)
      else ft.show(val)
    case None =>
      if Truthy(prev) then prev.value + " + " + qty else qty
  }

  /** A number merged into the rendering of a number that reads back gives the rendering of their sum. */
  lemma MergeNumbers(s: real, qty: string, ft: FloatText)
    requires RoundTrips(ft, s) && ft.parse(qty).Some?
    ensures Merge(Some(ft.show(s)), qty, ft) == ft.show(ft.parse(qty).value + s)
  {
  }

  /** Text merged into a non-empty entry is appended after `" + "`. */
  lemma MergeText(prev: string, qty: string, ft: FloatText)
    requires prev != "" && ft.parse(qty).None?
    ensures Merge(Some(prev), qty, ft) == prev + " + " + qty
  {
  }

  /** The shopping list after one more line. */
  function AddLine(need: Need, line: Line, ft: FloatText): Need {
    if line.item == "" then need
    else need[line.item := Merge(if line.item in need then Some(need[line.item]) else None, line.qty, ft)]
  }

  /** The item names of the non-blank ingredients. */
  function ItemKeys(ings: seq<Line>): set<string> {
    set i | 0 <= i < |ings| && ings[i].item != "" :: ings[i].item
  }

  lemma ItemKeysSnoc(ings: seq<Line>, x: Line)
    ensures ItemKeys(ings + [x]) == ItemKeys(ings) + (if x.item == "" then {} else {x.item})
  {
    var all := ings + [x];
    assert forall i :: 0 <= i < |ings| ==> all[i] == ings[i];
    assert all[|ings|] == x;
  }

  /**
    The shopping list of an ingredient list, folded in order: its items are
    exactly the non-blank stripped item names.
  */
  function Tally(ings: seq<Line>, ft: FloatText): (need: Need)
    ensures need.Keys == ItemKeys(ings)
    decreases |ings|
  {
    if |ings| == 0 then map[]
    else
      var init := ings[..|ings| - 1];
      var last := ings[|ings| - 1];
      assert ings == init + [last];
      ItemKeysSnoc(init, last);
      AddLine(Tally(init, ft), last, ft)
  }

  /** The ingredients of the recipes, recipe by recipe, each in its own order. */
  function AllIngredients(recipes: seq<Recipe>): (ings: seq<Ingredient>)
    ensures (forall i :: 0 <= i < |recipes| ==> recipes[i].ingredients == []) ==> ings == []
  {
    if |recipes| == 0 then [] else recipes[0].ingredients + AllIngredients(recipes[1..])
  }

  /**
    `aggregate_ingredients`: the items of the result are exactly the
    non-blank stripped item names across all recipes, so no recipes, or
    recipes without ingredients, give an empty list.
  */
  function Aggregate(recipes: seq<Recipe>, ft: FloatText): (need: Need)
    ensures need.Keys == ItemKeys(Lines(AllIngredients(recipes)))
    ensures (forall i :: 0 <= i < |recipes| ==> recipes[i].ingredients == []) ==> need == map[]
  {
    Tally(Lines(AllIngredients(recipes)), ft)
  }

  /** The non-blank ingredients, in order. */
  function NonBlank(ings: seq<Line>): (r: seq<Line>)
    ensures forall x :: x in r <==> x in ings && x.item != ""
    decreases |ings|
  {
    if |ings| == 0 then []
    else
      var init := ings[..|ings| - 1];
      var last := ings[|ings| - 1];
      assert ings == init + [last];
      assert forall x :: x in ings <==> x in init || x == last;
      if last.item == "" then NonBlank(init) else NonBlank(init) + [last]
  }

  /** Blank ingredients do not affect the result: dropping them all gives the same list. */
  lemma {:induction false} TallySkipsBlanks(ings: seq<Line>, ft: FloatText)
    ensures Tally(NonBlank(ings), ft) == Tally(ings, ft)
    decreases |ings|
  {
    if |ings| > 0 {
      var init := ings[..|ings| - 1];
      var last := ings[|ings| - 1];
      TallySkipsBlanks(init, ft);
      if last.item != "" {
        var nb := NonBlank(init) + [last];
        assert nb[..|nb| - 1] == NonBlank(init);
      }
    }
  }

  /** The last ingredient leaves every other item's entry alone. */
  lemma TallyFrame(ings: seq<Line>, k: string, ft: FloatText)
    requires |ings| > 0 && k != ings[|ings| - 1].item
    ensures var before, after := Tally(ings[..|ings| - 1], ft), Tally(ings, ft);
            (k in after <==> k in before) && (k in before ==> after[k] == before[k])
  {
  }

  /** The last ingredient's entry merges its quantity into the previous entry for its item, if any. */
  lemma TallyLast(ings: seq<Line>, ft: FloatText)
    requires |ings| > 0 && ings[|ings| - 1].item != ""
    ensures var last, before := ings[|ings| - 1], Tally(ings[..|ings| - 1], ft);
            && last.item in Tally(ings, ft)
            && Tally(ings, ft)[last.item]
               == Merge(if last.item in before then Some(before[last.item]) else None, last.qty, ft)
  {
  }

  /** The stripped quantities filed under `k`, in input order. */
  function QtysOf(ings: seq<Line>, k: string): (qs: seq<string>)
    ensures |qs| <= |ings|
    decreases |ings|
  {
    if |ings| == 0 then []
    else
      var init := ings[..|ings| - 1];
      var last := ings[|ings| - 1];
      QtysOf(init, k) + (if last.item == k then [last.qty] else [])
  }

  /** The sum of the quantities filed under `k`, each read by `float` (those that fail count as 0). */
  function SumOf(ings: seq<Line>, k: string, ft: FloatText): (sum: real)
    ensures QtysOf(ings, k) == [] ==> sum == 0.0
    decreases |ings|
  {
    if |ings| == 0 then 0.0
    else
      var init := ings[..|ings| - 1];
      var last := ings[|ings| - 1];
      SumOf(init, k, ft) + (if last.item == k then ft.parse(last.qty).GetOr(0.0) else 0.0)
  }

  /** An item is on the list exactly when some quantity was filed under it. */
  lemma {:induction false} TallyHasQtys(ings: seq<Line>, k: string, ft: FloatText)
    requires k != ""
    ensures k in Tally(ings, ft) <==> |QtysOf(ings, k)| > 0
    decreases |ings|
  {
    if |ings| > 0 {
      TallyHasQtys(ings[..|ings| - 1], k, ft);
      if ings[|ings| - 1].item != k {
        TallyFrame(ings, k, ft);
      }
    }
  }

  /**
    When every quantity filed under `k` is numeric, the entry is the
    rendering of their sum, given that each running sum the next quantity
    is added to reads back from its rendering.
  */
  lemma {:induction false} TallyNumeric(ings: seq<Line>, k: string, ft: FloatText)
    requires k != ""
    requires forall i :: 0 <= i < |ings| && ings[i].item == k ==> ft.parse(ings[i].qty).Some?
    requires forall j :: 0 < j < |ings| && ings[j].item == k ==> RoundTrips(ft, SumOf(ings[..j], k, ft))
    ensures k in Tally(ings, ft) ==> Tally(ings, ft)[k] == ft.show(SumOf(ings, k, ft))
    decreases |ings|
  {
    if |ings| > 0 {
      var init, last := ings[..|ings| - 1], ings[|ings| - 1];
      assert forall i :: 0 <= i < |init| ==> init[i] == ings[i];
      assert forall j :: 0 < j < |init| ==> init[..j] == ings[..j];
      TallyNumeric(init, k, ft);
      if last.item != k {
        TallyFrame(ings, k, ft);
      } else {
        assert ft.parse(ings[|ings| - 1].qty).Some?;
        if |init| > 0 {
          assert RoundTrips(ft, SumOf(ings[..|ings| - 1], k, ft));
        }
        NumericStep(ings, k, ft);
      }
    }
  }

  /** The step of `TallyNumeric` for a last line filed under `k`. */
  lemma NumericStep(ings: seq<Line>, k: string, ft: FloatText)
    requires k != "" && |ings| > 0
    requires ings[|ings| - 1].item == k && ft.parse(ings[|ings| - 1].qty).Some?
    requires var init := ings[..|ings| - 1];
             k in Tally(init, ft) ==> RoundTrips(ft, SumOf(init, k, ft)) && Tally(init, ft)[k] == ft.show(SumOf(init, k, ft))
    ensures Tally(ings, ft)[k] == ft.show(SumOf(ings, k, ft))
  {
    var init, last := ings[..|ings| - 1], ings[|ings| - 1];
    var v := ft.parse(last.qty).value;
    assert SumOf(ings, k, ft) == SumOf(init, k, ft) + v;
    TallyLast(ings, ft);
    if k in Tally(init, ft) {
      MergeNumbers(SumOf(init, k, ft), last.qty, ft);
    } else {
      TallyHasQtys(init, k, ft);
      assert SumOf(init, k, ft) == 0.0;
      assert Tally(ings, ft)[k] == ft.show(v);
    }
  }

  /** Appending one more piece to a join. */
  lemma {:induction false} JoinSnoc(sep: string, xs: seq<string>, y: string)
    requires |xs| > 0
    ensures Text.Join(sep, xs + [y]) == Text.Join(sep, xs) + sep + y
    decreases |xs|
  {
    if |xs| > 1 {
      JoinSnoc(sep, xs[1..], y);
      assert (xs + [y])[1..] == xs[1..] + [y];
    } else {
      assert (xs + [y])[1..] == [y];
    }
  }

  /** The quantities after the leading empty ones. */
  function FromFirstText(qs: seq<string>): (r: seq<string>)
    ensures |r| <= |qs|
    ensures |r| > 0 ==> r[0] != ""
  {
    if |qs| == 0 then [] else if qs[0] == "" then FromFirstText(qs[1..]) else qs
  }

  /** One more quantity after the leading empty ones: it starts the list when the list is still empty and is not empty itself. */
  lemma {:induction false} FromFirstTextSnoc(qs: seq<string>, q: string)
    ensures FromFirstText(qs + [q])
            == if FromFirstText(qs) == [] then (if q == "" then [] else [q]) else FromFirstText(qs) + [q]
    decreases |qs|
  {
    if |qs| == 0 {
      assert [] + [q] == [q];
      assert [q][1..] == [];
    } else {
      assert (qs + [q])[1..] == qs[1..] + [q];
      if qs[0] == "" {
        FromFirstTextSnoc(qs[1..], q);
      }
    }
  }

  /**
    When no quantity filed under `k` is numeric, the entry is the quantities
    joined by `" + "` in input order, from the first non-empty one on: an
    empty quantity before it leaves the entry empty, and so falsy, and is
    dropped; one after it is appended like any other. The entry is empty
    exactly when every quantity is.
  */
  lemma {:induction false} TallyText(ings: seq<Line>, k: string, ft: FloatText)
    requires k != ""
    requires forall i :: 0 <= i < |ings| && ings[i].item == k ==> ft.parse(ings[i].qty).None?
    ensures k in Tally(ings, ft) ==> (Tally(ings, ft)[k] != "" <==> FromFirstText(QtysOf(ings, k)) != [])
    ensures k in Tally(ings, ft) ==> Tally(ings, ft)[k] == Text.Join(" + ", FromFirstText(QtysOf(ings, k)))
    decreases |ings|
  {
    if |ings| > 0 {
      var init, last := ings[..|ings| - 1], ings[|ings| - 1];
      assert forall i :: 0 <= i < |init| ==> init[i] == ings[i];
      TallyText(init, k, ft);
      if last.item != k {
        TallyFrame(ings, k, ft);
        assert QtysOf(ings, k) == QtysOf(init, k);
      } else {
        assert QtysOf(ings, k) == QtysOf(init, k) + [last.qty];
        assert ft.parse(ings[|ings| - 1].qty).None?;
        FromFirstTextSnoc(QtysOf(init, k), last.qty);
        TallyLast(ings, ft);
        TallyHasQtys(init, k, ft);
        if k in Tally(init, ft) && Tally(init, ft)[k] != "" {
          MergeText(Tally(init, ft)[k], last.qty, ft);
          JoinSnoc(" + ", FromFirstText(QtysOf(init, k)), last.qty);
        }
      }
    }
  }

  /** An empty quantity ahead of a text quantity leaves just the text: `salt` with `""` then `"a"` is listed as `"a"`. */
  lemma TallyTextExample(ft: FloatText)
    requires ft.parse("").None? && ft.parse("a").None?
    ensures Tally([Line("salt", ""), Line("salt", "a")], ft)["salt"] == "a"
  {
    var ings := [Line("salt", ""), Line("salt", "a")];
    assert ings[..1] == [Line("salt", "")];
    assert QtysOf(ings, "salt") == ["", "a"];
    assert FromFirstText(["", "a"]) == ["a"] by {
      assert ["", "a"][1..] == ["a"];
    }
    TallyHasQtys(ings, "salt", ft);
    TallyText(ings, "salt", ft);
  }

  /**
    The first occurrence of an item stores its rendered number when the
    quantity is numeric and its stripped text otherwise: an item filed once
    has exactly that entry.
  */
  lemma {:induction false} TallySingle(ings: seq<Line>, k: string, q: string, ft: FloatText)
    requires k != "" && QtysOf(ings, k) == [q]
    ensures k in Tally(ings, ft)
    ensures Tally(ings, ft)[k] == match ft.parse(q) case Some(v) => ft.show(v) case None => q
    decreases |ings|
  {
    var init, last := ings[..|ings| - 1], ings[|ings| - 1];
    if last.item != k {
      assert QtysOf(init, k) == QtysOf(ings, k);
      TallySingle(init, k, q, ft);
      TallyFrame(ings, k, ft);
    } else {
      assert QtysOf(ings, k) == QtysOf(init, k) + [last.qty];
      assert |QtysOf(init, k)| == 0;
      assert QtysOf(ings, k)[0] == last.qty;
      TallyHasQtys(init, k, ft);
      TallyLast(ings, ft);
    }
  }
}
