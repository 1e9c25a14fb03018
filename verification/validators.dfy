/**
  The trust boundary for generated candidates (mealplanner/validators.py):
  the schema check, the hard guardrails, and the normalizer that coerces a
  loosely typed candidate into the internal shape.
*/
module Validators {
  import opened Options
  import opened Text
  import opened Values
  import opened Recipes

  /** The required top-level keys, in `sorted` order. */
  const RequiredRecipeKeys: seq<string> :=
    ["cost_usd", "id", "ingredients", "macros", "method", "minutes", "name", "tags"]

  /** The required keys of `macros`, in `sorted` order. */
  const RequiredMacroKeys: seq<string> := ["fiber_g", "kcals", "protein_g"]

  /** The keys of a normalized candidate. */
  const NormalizedKeys: set<string> :=
    {"id", "name", "tags", "method", "minutes", "ingredients", "macros", "cost_usd", "source"}

  /** The schema report: `ok` and the accumulated error lines. */
  datatype SchemaReport = SchemaReport(ok: bool, errors: seq<string>)

  /** `sorted(required - present)`, given `required` already sorted. */
  function Missing(required: seq<string>, present: set<string>): (r: seq<string>)
    ensures forall k :: k in r <==> k in required && k !in present
  {
    if |required| == 0 then []
    else (if required[0] in present then [] else [required[0]]) + Missing(required[1..], present)
  }

  /** Python's rendering of a list of strings, `['a', 'b']`. */
  function PyStrList(xs: seq<string>): string {
    var quoted := seq(|xs|, i requires 0 <= i < |xs| => "'" + xs[i] + "'");
    "[" + Join(", ", quoted) + "]"
  }

  /** The macro keys the schema check reports missing; a missing or non-dict `macros` lacks all three. */
  function MissingMacros(d: Dict): seq<string> {
    match GetOr(d, "macros", VDict([]))
    case VDict(m) => Missing(RequiredMacroKeys, Keys(m))
    case _ => RequiredMacroKeys
  }

  predicate IsListAt(d: Dict, k: string) {
    Get(d, k).Some? && Get(d, k).value.VList?
  }

  predicate HasAllKeys(d: Dict) {
    forall i :: 0 <= i < |RequiredRecipeKeys| ==> RequiredRecipeKeys[i] in Keys(d)
  }

  predicate HasMacroKeys(d: Dict) {
    && GetOr(d, "macros", VDict([])).VDict?
    && forall i :: 0 <= i < |RequiredMacroKeys| ==> RequiredMacroKeys[i] in Keys(GetOr(d, "macros", VDict([])).fields)
  }

  /** Nothing is reported missing exactly when every required key is present. */
  lemma MissingEmpty(required: seq<string>, present: set<string>)
    ensures Missing(required, present) == [] <==> forall i :: 0 <= i < |required| ==> required[i] in present
  {
    var missing := Missing(required, present);
    if missing != [] {
      assert missing[0] in missing;
    } else {
      forall i | 0 <= i < |required| ensures required[i] in present {
        assert required[i] !in missing;
      }
    }
  }

  lemma MissingAllKeys(d: Dict)
    ensures Missing(RequiredRecipeKeys, Keys(d)) == [] <==> HasAllKeys(d)
  {
    MissingEmpty(RequiredRecipeKeys, Keys(d));
  }

  lemma MissingMacroKeys(d: Dict)
    ensures MissingMacros(d) == [] <==> HasMacroKeys(d)
  {
    match GetOr(d, "macros", VDict([]))
    case VDict(m) => MissingEmpty(RequiredMacroKeys, Keys(m));
    case _ =>
  }

  function Failed(check: bool): nat { if check then 0 else 1 }

  /**
    `validate_recipe_schema`: every failed check adds exactly one error line,
    so there are at most four, and the record is accepted exactly when all
    four checks hold and the error list is empty.
  */
  function ValidateRecipeSchema(d: Dict): (r: SchemaReport)
    ensures r.ok <==> r.errors == []
    ensures r.ok <==> HasAllKeys(d) && HasMacroKeys(d) && IsListAt(d, "ingredients") && IsListAt(d, "tags")
    ensures |r.errors| == Failed(HasAllKeys(d)) + Failed(HasMacroKeys(d)) + Failed(IsListAt(d, "ingredients")) + Failed(IsListAt(d, "tags"))
    ensures |r.errors| <= 4
  {
    var missing := Missing(RequiredRecipeKeys, Keys(d));
    var missingMacros := MissingMacros(d);
    var e1 := if missing != [] then ["missing keys: " + PyStrList(missing)] else [];
    var e2 := if missingMacros != [] then ["macros missing keys: " + PyStrList(missingMacros)] else [];
    var e3 := if !IsListAt(d, "ingredients") then ["ingredients must be a list"] else [];
    var e4 := if !IsListAt(d, "tags") then ["tags must be a list"] else [];
    MissingAllKeys(d);
    MissingMacroKeys(d);
    var errors := e1 + e2 + e3 + e4;
    SchemaReport(|errors| == 0, errors)
  }

  /** Some banned token occurs in `text`. */
  predicate AnyBanned(text: string) {
    exists i | 0 <= i < |BannedTokens| :: Contains(text, BannedTokens[i])
  }

  /** The space-joined, lower-cased tag string the guardrails search. */
  function TagText(r: Recipe): string {
    Lower(Join(" ", r.tags))
  }

  /**
    `hard_guardrails`: a candidate is rejected for a banned token in its
    lower-cased name or joined tags, for a very-spicy marker, for whole
    tomatoes when those are avoided, below the nutrition floor, or above the
    cost ceiling; it is accepted otherwise.
  */
  function HardGuardrails(r: Recipe, avoidWholeTomatoes: bool): (ok: bool)
    ensures AnyBanned(Lower(r.name)) || AnyBanned(TagText(r)) ==> !ok
    ensures Contains(TagText(r), "very_spicy") || Contains(Lower(r.name), "extra spicy") ==> !ok
    ensures avoidWholeTomatoes && Contains(TagText(r), "whole_tomatoes") ==> !ok
    ensures r.macros.proteinG < MinProteinG || r.macros.fiberG < MinFiberG ==> !ok
    ensures r.costUsd > MaxMealCost ==> !ok
    ensures !ok ==> AnyBanned(Lower(r.name)) || AnyBanned(TagText(r))
                    || Contains(TagText(r), "very_spicy") || Contains(Lower(r.name), "extra spicy")
                    || (avoidWholeTomatoes && Contains(TagText(r), "whole_tomatoes"))
                    || r.macros.proteinG < MinProteinG || r.macros.fiberG < MinFiberG
                    || r.costUsd > MaxMealCost
  {
    var name := Lower(r.name);
    var tags := TagText(r);
    if exists i | 0 <= i < |BannedTokens| :: Contains(name, BannedTokens[i]) || Contains(tags, BannedTokens[i]) then false
    else if Contains(tags, "very_spicy") || Contains(name, "extra spicy") then false
    else if avoidWholeTomatoes && Contains(tags, "whole_tomatoes") then false
    else if r.macros.proteinG < 40.0 || r.macros.fiberG < 6.0 then false
    else if r.costUsd > MaxMealCost then false
    else true
  }

  /** Turning the whole-tomato preference off never turns an acceptance into a rejection. */
  lemma GuardrailsMonotone(r: Recipe)
    ensures HardGuardrails(r, true) ==> HardGuardrails(r, false)
  {
  }

  /** The raw candidates `normalize_llm_candidate` accepts without raising. */
  predicate Normalizable(c: Dict) {
    && ToInt(GetOr(c, "minutes", VInt(0))).Some?
    && GetOr(c, "macros", VDict([])).VDict?
    && ToList(GetOr(c, "tags", VList([]))).Some?
    && ToList(GetOr(c, "ingredients", VList([]))).Some?
  }

  /** `_float(x)`: `float(x)`, or 0.0 when that raises. */
  function FloatOrZero(v: Value, ft: FloatText): (x: real)
    ensures ToFloat(v, ft).None? ==> x == 0.0
    ensures ToFloat(v, ft).Some? ==> x == ToFloat(v, ft).value
  {
    ToFloat(v, ft).GetOr(0.0)
  }

  /** The nine internal keys, in the order the normalizer writes them. */
  function Layout(id: Value, name: Value, tags: Value, cookingMethod: Value, minutes: Value,
                  ingredients: Value, macros: Value, cost: Value): (n: Dict)
    ensures Keys(n) == NormalizedKeys
    ensures Get(n, "id") == Some(id) && Get(n, "name") == Some(name) && Get(n, "tags") == Some(tags)
    ensures Get(n, "method") == Some(cookingMethod) && Get(n, "minutes") == Some(minutes)
    ensures Get(n, "ingredients") == Some(ingredients) && Get(n, "macros") == Some(macros)
    ensures Get(n, "cost_usd") == Some(cost) && Get(n, "source") == Some(VStr("llm"))
  {
    var n := [("id", id), ("name", name), ("tags", tags), ("method", cookingMethod), ("minutes", minutes),
              ("ingredients", ingredients), ("macros", macros), ("cost_usd", cost), ("source", VStr("llm"))];
    NineKeys(n);
    n
  }

  lemma NineKeys(n: Dict)
    requires |n| == 9
    requires n[0].0 == "id" && n[1].0 == "name" && n[2].0 == "tags" && n[3].0 == "method"
    requires n[4].0 == "minutes" && n[5].0 == "ingredients" && n[6].0 == "macros"
    requires n[7].0 == "cost_usd" && n[8].0 == "source"
    ensures Keys(n) == NormalizedKeys
    ensures Get(n, "id") == Some(n[0].1) && Get(n, "name") == Some(n[1].1) && Get(n, "tags") == Some(n[2].1)
    ensures Get(n, "method") == Some(n[3].1) && Get(n, "minutes") == Some(n[4].1)
    ensures Get(n, "ingredients") == Some(n[5].1) && Get(n, "macros") == Some(n[6].1)
    ensures Get(n, "cost_usd") == Some(n[7].1) && Get(n, "source") == Some(n[8].1)
  {
    NineKeySet(n);
    GetAt(n, "id", 0);
    GetAt(n, "name", 1);
    GetAt(n, "tags", 2);
    GetAt(n, "method", 3);
    GetAt(n, "minutes", 4);
    NineLaterKeys(n);
  }

  lemma NineKeySet(n: Dict)
    requires |n| == 9
    requires n[0].0 == "id" && n[1].0 == "name" && n[2].0 == "tags" && n[3].0 == "method"
    requires n[4].0 == "minutes" && n[5].0 == "ingredients" && n[6].0 == "macros"
    requires n[7].0 == "cost_usd" && n[8].0 == "source"
    ensures Keys(n) == NormalizedKeys
  {
    assert forall k :: k in NormalizedKeys ==> exists i :: 0 <= i < 9 && n[i].0 == k;
  }

  lemma NineLaterKeys(n: Dict)
    requires |n| == 9
    requires n[0].0 == "id" && n[1].0 == "name" && n[2].0 == "tags" && n[3].0 == "method"
    requires n[4].0 == "minutes" && n[5].0 == "ingredients" && n[6].0 == "macros"
    requires n[7].0 == "cost_usd" && n[8].0 == "source"
    ensures Get(n, "ingredients") == Some(n[5].1) && Get(n, "macros") == Some(n[6].1)
    ensures Get(n, "cost_usd") == Some(n[7].1) && Get(n, "source") == Some(n[8].1)
  {
    GetAt(n, "ingredients", 5);
    GetAt(n, "macros", 6);
    GetAt(n, "cost_usd", 7);
    GetAt(n, "source", 8);
  }

  lemma MacroFields(m: Dict)
    requires |m| == 3 && m[0].0 == "protein_g" && m[1].0 == "fiber_g" && m[2].0 == "kcals"
    ensures Keys(m) == {"protein_g", "fiber_g", "kcals"}
    ensures Get(m, "protein_g") == Some(m[0].1)
    ensures Get(m, "fiber_g") == Some(m[1].1)
    ensures Get(m, "kcals") == Some(m[2].1)
  {
    GetAt(m, "protein_g", 0);
    GetAt(m, "fiber_g", 1);
    GetAt(m, "kcals", 2);
  }

  /** The `macros` of a raw candidate, as the normalizer reads them. */
  function RawMacros(c: Dict): Value {
    GetOr(c, "macros", VDict([]))
  }

  /** `_float(macros.get(k, 0))`. */
  function MacroValue(c: Dict, k: string, ft: FloatText): real
    requires RawMacros(c).VDict?
  {
    FloatOrZero(GetOr(RawMacros(c).fields, k, VInt(0)), ft)
  }

  /** The normalized `macros`: the three macro keys, each read by `_float` with 0.0 on failure. */
  function NormalizedMacros(c: Dict, ft: FloatText): (m: Dict)
    requires RawMacros(c).VDict?
    ensures Keys(m) == {"protein_g", "fiber_g", "kcals"}
    ensures forall k :: k in RequiredMacroKeys ==> Get(m, k) == Some(VFloat(MacroValue(c, k, ft)))
  {
    var m := [ ("protein_g", VFloat(MacroValue(c, "protein_g", ft))),
               ("fiber_g", VFloat(MacroValue(c, "fiber_g", ft))),
               ("kcals", VFloat(MacroValue(c, "kcals", ft))) ];
    MacroFields(m);
    m
  }

  /**
    `normalize_llm_candidate`: the result has exactly the internal keys, is
    stamped as generated, renders id, name and method with `str` (a missing
    id or name becomes `"None"`, a missing method `"stovetop"`), converts the
    minutes with `int`, and turns every macro or cost that `float` rejects
    into 0.0.
  */
  function NormalizeLlmCandidate(c: Dict, ft: FloatText): (n: Dict)
    requires Normalizable(c)
    ensures Keys(n) == NormalizedKeys
    ensures Get(n, "source") == Some(VStr("llm"))
    ensures Get(n, "id") == Some(VStr(Str(GetOr(c, "id", VNull), ft)))
    ensures "id" !in Keys(c) ==> Get(n, "id") == Some(VStr("None"))
    ensures Get(n, "name") == Some(VStr(Str(GetOr(c, "name", VNull), ft)))
    ensures "method" !in Keys(c) ==> Get(n, "method") == Some(VStr("stovetop"))
    ensures "method" in Keys(c) ==> Get(n, "method") == Some(VStr(Str(Get(c, "method").value, ft)))
    ensures Get(n, "minutes") == Some(VInt(ToInt(GetOr(c, "minutes", VInt(0))).value))
    ensures "minutes" !in Keys(c) ==> Get(n, "minutes") == Some(VInt(0))
    ensures Get(n, "tags") == Some(VList(ToList(GetOr(c, "tags", VList([]))).value))
    ensures Get(n, "ingredients") == Some(VList(ToList(GetOr(c, "ingredients", VList([]))).value))
    ensures Get(n, "cost_usd") == Some(VFloat(FloatOrZero(GetOr(c, "cost_usd", VInt(0)), ft)))
    ensures Get(n, "macros").Some? && Get(n, "macros").value.VDict?
    ensures Keys(Get(n, "macros").value.fields) == {"protein_g", "fiber_g", "kcals"}
    ensures forall k :: k in RequiredMacroKeys ==>
              Get(Get(n, "macros").value.fields, k) == Some(VFloat(MacroValue(c, k, ft)))
  {
    Layout(
      VStr(Str(GetOr(c, "id", VNull), ft)),
      VStr(Str(GetOr(c, "name", VNull), ft)),
      VList(ToList(GetOr(c, "tags", VList([]))).value),
      VStr(Str(GetOr(c, "method", VStr("stovetop")), ft)),
      VInt(ToInt(GetOr(c, "minutes", VInt(0))).value),
      VList(ToList(GetOr(c, "ingredients", VList([]))).value),
      VDict(NormalizedMacros(c, ft)),
      VFloat(FloatOrZero(GetOr(c, "cost_usd", VInt(0)), ft)))
  }

  /** A normalized candidate always passes the schema check. */
  lemma NormalizedPassesSchema(c: Dict, ft: FloatText)
    requires Normalizable(c)
    ensures ValidateRecipeSchema(NormalizeLlmCandidate(c, ft)) == SchemaReport(true, [])
  {
    var n := NormalizeLlmCandidate(c, ft);
    assert HasAllKeys(n) by {
      forall i | 0 <= i < |RequiredRecipeKeys| ensures RequiredRecipeKeys[i] in Keys(n) {
        assert RequiredRecipeKeys[i] in NormalizedKeys;
      }
    }
    assert HasMacroKeys(n);
    assert IsListAt(n, "ingredients");
    assert IsListAt(n, "tags");
  }
}
