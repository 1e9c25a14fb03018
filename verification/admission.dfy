/**
  The admission of generated candidates (mealplanner/cli.py, the LLM
  proposal step of the `plan` command): every raw candidate gets a slugged
  id and is normalized and schema-checked; the normalized ones then pass the
  guardrails and the recent-use ban or are counted as rejected; a surviving
  candidate whose id is already taken gets a random suffix. Any exception on
  the way disables the whole stage, and the plan is made from the curated
  recipes alone.
*/
module Admission {
  import opened Options
  import opened Values
  import opened Recipes
  import opened Slug
  import opened Validators

  /**
    The random tokens one candidate may consume: `secrets.token_hex(3)` for
    an id of last resort and for an empty slug, and `secrets.token_hex(2)`
    for the suffix of a taken id.
  */
  datatype Tokens = Tokens(idToken: string, slugToken: string, suffix: string)

  predicate WellFormedTokens(t: Tokens) {
    IsHexToken(t.idToken, 3) && IsHexToken(t.slugToken, 3) && IsHexToken(t.suffix, 2)
  }

  /** Tokens of the lengths and alphabet `secrets.token_hex` produces. */
  type HexTokens = t: Tokens | WellFormedTokens(t) witness Tokens("000000", "000000", "0000")

  /**
    `c.get("id") or c.get("name") or f"r-{token}"`: the first of the id and
    the name that is truthy, and the random fallback otherwise. The result
    is always truthy.
  */
  function CandidateId(c: Dict, idToken: string): (v: Value)
    ensures Truthy(v)
    ensures v == GetOr(c, "id", VNull) || v == GetOr(c, "name", VNull) || v == VStr("r-" + idToken)
    ensures Truthy(GetOr(c, "id", VNull)) ==> v == GetOr(c, "id", VNull)
    ensures !Truthy(GetOr(c, "id", VNull)) && Truthy(GetOr(c, "name", VNull)) ==> v == GetOr(c, "name", VNull)
  {
    var id := GetOr(c, "id", VNull);
    var name := GetOr(c, "name", VNull);
    if Truthy(id) then id else if Truthy(name) then name else VStr("r-" + idToken)
  }

  /** `slugify(str(cid))`: the id the candidate is stored under before normalization; always a slug. */
  function NewId(c: Dict, t: HexTokens, ft: FloatText): (id: string)
    ensures IsSlug(id)
  {
    Slugify(Str(CandidateId(c, t.idToken), ft), t.slugToken)
  }

  /** What the first loop makes of one raw candidate. */
  datatype Prepared = Raised | SchemaRejected | Normalized(n: Dict)

  /**
    The first loop's body, given the id `c["id"]` is set to: a candidate
    that is not a dict, or whose fields the normalizer cannot convert,
    raises; the others are normalized and kept exactly when the schema
    check passes.
  */
  function Prepare(c: Value, id: string, ft: FloatText): (p: Prepared)
    ensures p.Raised? <==> !c.VDict? || !Normalizable(SetKey(c.fields, "id", VStr(id)))
    ensures p.Normalized? ==> p.n == NormalizeLlmCandidate(SetKey(c.fields, "id", VStr(id)), ft)
  {
    if !c.VDict? then Raised
    else
      var c' := SetKey(c.fields, "id", VStr(id));
      if !Normalizable(c') then Raised
      else
        var n := NormalizeLlmCandidate(c', ft);
        if ValidateRecipeSchema(n).ok then Normalized(n) else SchemaRejected
  }

  /**
    The schema check never fails on the normalizer's output, so the schema
    rejection count stays zero.
  */
  lemma PrepareNeverRejects(c: Value, id: string, ft: FloatText)
    ensures !Prepare(c, id, ft).SchemaRejected?
  {
    if c.VDict? {
      var c' := SetKey(c.fields, "id", VStr(id));
      if Normalizable(c') {
        NormalizedPassesSchema(c', ft);
      }
    }
  }

  /** `[str(x) for x in xs]` when every element is a string; `None` when one is not. */
  function Strings(vs: seq<Value>): (r: Option<seq<string>>)
    ensures r.Some? <==> forall i :: 0 <= i < |vs| ==> vs[i].VStr?
    ensures r.Some? ==> |r.value| == |vs| && forall i :: 0 <= i < |vs| ==> vs[i] == VStr(r.value[i])
  {
    if |vs| == 0 then Some([])
    else match (vs[0], Strings(vs[1..]))
      case (VStr(s), Some(rest)) => Some([s] + rest)
      case _ => None
  }

  /** One ingredient entry as the planner and the grocery list read it: `str(ing.get(k, ""))`. */
  function DecodeIngredient(v: Value, ft: FloatText): (r: Option<Ingredient>)
    ensures r.Some? <==> v.VDict?
  {
    match v
    case VDict(f) => Some(Ingredient(Str(GetOr(f, "item", VStr("")), ft), Str(GetOr(f, "qty", VStr("")), ft)))
    case _ => None
  }

  function Ingredients(vs: seq<Value>, ft: FloatText): (r: Option<seq<Ingredient>>)
    ensures r.Some? <==> forall i :: 0 <= i < |vs| ==> vs[i].VDict?
    ensures r.Some? ==> |r.value| == |vs| && forall i :: 0 <= i < |vs| ==> DecodeIngredient(vs[i], ft) == Some(r.value[i])
  {
    if |vs| == 0 then Some([])
    else match (DecodeIngredient(vs[0], ft), Ingredients(vs[1..], ft))
      case (Some(x), Some(rest)) => Some([x] + rest)
      case _ => None
  }

  function StrAt(d: Dict, k: string): Option<string> {
    match Get(d, k)
    case Some(VStr(s)) => Some(s)
    case _ => None
  }

  function ListAt(d: Dict, k: string): Option<seq<Value>> {
    match Get(d, k)
    case Some(VList(vs)) => Some(vs)
    case _ => None
  }

  function FloatAt(d: Dict, k: string): Option<real> {
    match Get(d, k)
    case Some(VFloat(x)) => Some(x)
    case _ => None
  }

  function IntAt(d: Dict, k: string): Option<int> {
    match Get(d, k)
    case Some(VInt(i)) => Some(i)
    case _ => None
  }

  function DictAt(d: Dict, k: string): Option<Dict> {
    match Get(d, k)
    case Some(VDict(f)) => Some(f)
    case _ => None
  }

  /**
    A normalized candidate read as a recipe record. It fails where the
    guardrails' `" ".join(tags)` would raise (a tag that is not a string) and
    where a later `ing.get` would (an ingredient that is not a dict).
  */
  function DecodeRecipe(n: Dict, ft: FloatText): Option<Recipe> {
    var tags := if ListAt(n, "tags").Some? then Strings(ListAt(n, "tags").value) else None;
    var ings := if ListAt(n, "ingredients").Some? then Ingredients(ListAt(n, "ingredients").value, ft) else None;
    var mac := DictAt(n, "macros").GetOr([]);
    if && StrAt(n, "id").Some? && StrAt(n, "name").Some? && tags.Some? && StrAt(n, "method").Some?
       && IntAt(n, "minutes").Some? && ings.Some? && DictAt(n, "macros").Some?
       && FloatAt(mac, "protein_g").Some? && FloatAt(mac, "fiber_g").Some? && FloatAt(mac, "kcals").Some?
       && FloatAt(n, "cost_usd").Some? && StrAt(n, "source").Some?
    then
      Some(Recipe(StrAt(n, "id").value, StrAt(n, "name").value, tags.value, StrAt(n, "method").value,
                  IntAt(n, "minutes").value, ings.value,
                  Macros(FloatAt(mac, "protein_g").value, FloatAt(mac, "fiber_g").value, FloatAt(mac, "kcals").value),
                  FloatAt(n, "cost_usd").value, StrAt(n, "source").value))
    else None
  }

  /** The tags and ingredients of the raw candidate after `list(...)`. */
  function RawTags(c: Dict): seq<Value>
    requires Normalizable(c)
  {
    ToList(GetOr(c, "tags", VList([]))).value
  }

  function RawIngredients(c: Dict): seq<Value>
    requires Normalizable(c)
  {
    ToList(GetOr(c, "ingredients", VList([]))).value
  }

  /**
    Reading a normalized candidate as a record fails exactly when a tag is
    not a string or an ingredient is not a dict; otherwise the record
    carries the normalizer's id, name, method, minutes, macros and cost, and
    is marked as generated.
  */
  lemma DecodeNormalized(c: Dict, ft: FloatText)
    requires Normalizable(c)
    ensures var r := DecodeRecipe(NormalizeLlmCandidate(c, ft), ft);
            && (r.Some? <==> (forall i :: 0 <= i < |RawTags(c)| ==> RawTags(c)[i].VStr?)
                             && (forall i :: 0 <= i < |RawIngredients(c)| ==> RawIngredients(c)[i].VDict?))
            && (r.Some? ==>
                  && r.value.id == Str(GetOr(c, "id", VNull), ft)
                  && r.value.name == Str(GetOr(c, "name", VNull), ft)
                  && r.value.minutes == ToInt(GetOr(c, "minutes", VInt(0))).value
                  && r.value.macros == Macros(MacroValue(c, "protein_g", ft), MacroValue(c, "fiber_g", ft),
                                              MacroValue(c, "kcals", ft))
                  && r.value.costUsd == FloatOrZero(GetOr(c, "cost_usd", VInt(0)), ft)
                  && r.value.IsLlm()
                  && |r.value.tags| == |RawTags(c)| && |r.value.ingredients| == |RawIngredients(c)|)
  {
    var n := NormalizeLlmCandidate(c, ft);
    NormalizedFields(c, ft);
    DecodeShape(n, ft, RawTags(c), RawIngredients(c), Get(n, "macros").value.fields);
  }

  /** The fields of a normalized candidate, read with the typed accessors. */
  lemma NormalizedFields(c: Dict, ft: FloatText)
    requires Normalizable(c)
    ensures var n := NormalizeLlmCandidate(c, ft);
            var mac := Get(n, "macros").value.fields;
            && ListAt(n, "tags") == Some(RawTags(c)) && ListAt(n, "ingredients") == Some(RawIngredients(c))
            && DictAt(n, "macros") == Some(mac)
            && StrAt(n, "id") == Some(Str(GetOr(c, "id", VNull), ft))
            && StrAt(n, "name") == Some(Str(GetOr(c, "name", VNull), ft))
            && StrAt(n, "method").Some? && StrAt(n, "source") == Some("llm")
            && IntAt(n, "minutes") == Some(ToInt(GetOr(c, "minutes", VInt(0))).value)
            && FloatAt(n, "cost_usd") == Some(FloatOrZero(GetOr(c, "cost_usd", VInt(0)), ft))
            && FloatAt(mac, "protein_g") == Some(MacroValue(c, "protein_g", ft))
            && FloatAt(mac, "fiber_g") == Some(MacroValue(c, "fiber_g", ft))
            && FloatAt(mac, "kcals") == Some(MacroValue(c, "kcals", ft))
  {
    var n := NormalizeLlmCandidate(c, ft);
    AccessorsAt(n, Get(n, "tags").value, Get(n, "ingredients").value, Get(n, "macros").value, Get(n, "id").value,
                Get(n, "name").value, Get(n, "method").value, Get(n, "source").value, Get(n, "minutes").value,
                Get(n, "cost_usd").value);
    var mac := Get(n, "macros").value.fields;
    assert RequiredMacroKeys[0] == "fiber_g" && RequiredMacroKeys[1] == "kcals" && RequiredMacroKeys[2] == "protein_g";
    MacroAccessors(mac, Get(mac, "protein_g").value, Get(mac, "fiber_g").value, Get(mac, "kcals").value);
  }

  lemma AccessorsAt(n: Dict, tags: Value, ings: Value, mac: Value, id: Value, name: Value, m: Value, source: Value,
                    minutes: Value, cost: Value)
    requires Get(n, "tags") == Some(tags) && Get(n, "ingredients") == Some(ings) && Get(n, "macros") == Some(mac)
    requires Get(n, "id") == Some(id) && Get(n, "name") == Some(name) && Get(n, "method") == Some(m)
    requires Get(n, "source") == Some(source) && Get(n, "minutes") == Some(minutes) && Get(n, "cost_usd") == Some(cost)
    ensures tags.VList? ==> ListAt(n, "tags") == Some(tags.items)
    ensures ings.VList? ==> ListAt(n, "ingredients") == Some(ings.items)
    ensures mac.VDict? ==> DictAt(n, "macros") == Some(mac.fields)
    ensures id.VStr? ==> StrAt(n, "id") == Some(id.s)
    ensures name.VStr? ==> StrAt(n, "name") == Some(name.s)
    ensures m.VStr? ==> StrAt(n, "method") == Some(m.s)
    ensures source.VStr? ==> StrAt(n, "source") == Some(source.s)
    ensures minutes.VInt? ==> IntAt(n, "minutes") == Some(minutes.i)
    ensures cost.VFloat? ==> FloatAt(n, "cost_usd") == Some(cost.x)
  {
  }

  lemma MacroAccessors(mac: Dict, p: Value, f: Value, k: Value)
    requires Get(mac, "protein_g") == Some(p) && Get(mac, "fiber_g") == Some(f) && Get(mac, "kcals") == Some(k)
    ensures p.VFloat? ==> FloatAt(mac, "protein_g") == Some(p.x)
    ensures f.VFloat? ==> FloatAt(mac, "fiber_g") == Some(f.x)
    ensures k.VFloat? ==> FloatAt(mac, "kcals") == Some(k.x)
  {
  }

  /** A dict whose fields have the normalized shapes decodes exactly when its tags and ingredients do. */
  lemma DecodeShape(n: Dict, ft: FloatText, tagValues: seq<Value>, ingValues: seq<Value>, mac: Dict)
    requires ListAt(n, "tags") == Some(tagValues) && ListAt(n, "ingredients") == Some(ingValues)
    requires DictAt(n, "macros") == Some(mac)
    requires StrAt(n, "id").Some? && StrAt(n, "name").Some? && StrAt(n, "method").Some? && StrAt(n, "source").Some?
    requires IntAt(n, "minutes").Some? && FloatAt(n, "cost_usd").Some?
    requires FloatAt(mac, "protein_g").Some? && FloatAt(mac, "fiber_g").Some? && FloatAt(mac, "kcals").Some?
    ensures DecodeRecipe(n, ft).Some? <==> Strings(tagValues).Some? && Ingredients(ingValues, ft).Some?
    ensures DecodeRecipe(n, ft).Some? ==>
              DecodeRecipe(n, ft).value == Recipe(StrAt(n, "id").value, StrAt(n, "name").value, Strings(tagValues).value,
                                                  StrAt(n, "method").value, IntAt(n, "minutes").value,
                                                  Ingredients(ingValues, ft).value,
                                                  Macros(FloatAt(mac, "protein_g").value, FloatAt(mac, "fiber_g").value,
                                                         FloatAt(mac, "kcals").value),
                                                  FloatAt(n, "cost_usd").value, StrAt(n, "source").value)
  {
  }

  /** One raw candidate through both loops' conversions: raised, or a record with its suffix token. */
  function Convert(c: Value, t: HexTokens, ft: FloatText): (x: Option<(Recipe, string)>)
    ensures x.Some? ==> IsSlug(x.value.0.id) && x.value.0.IsLlm() && x.value.1 == t.suffix
  {
    if !c.VDict? then None
    else
      var id := NewId(c.fields, t, ft);
      var p := Prepare(c, id, ft);
      if !p.Normalized? then None
      else
        var r := DecodeRecipe(p.n, ft);
        if r.None? then None
        else
          ConvertedId(SetKey(c.fields, "id", VStr(id)), id, ft);
          Some((r.value, t.suffix))
  }

  /** A converted candidate carries the id it was given, and is marked as generated. */
  lemma ConvertedId(c: Dict, id: string, ft: FloatText)
    requires Get(c, "id") == Some(VStr(id)) && Normalizable(c)
    requires DecodeRecipe(NormalizeLlmCandidate(c, ft), ft).Some?
    ensures var r := DecodeRecipe(NormalizeLlmCandidate(c, ft), ft).value;
            r.id == id && r.IsLlm()
  {
    DecodeNormalized(c, ft);
  }

  /** What the second loop does with one candidate. */
  datatype Verdict = GuardRejected | RecentlyUsed | Accepted(r: Recipe)

  /** `n["id"] = f"{n['id']}-{suffix}"` when the id is taken, and `n["source"] = "llm"`. */
  function Renamed(r: Recipe, suffix: string, seen: set<string>): Recipe {
    r.(id := if r.id in seen then r.id + "-" + suffix else r.id, source := "llm")
  }

  /**
    The second loop's body: the guardrails are checked first, then the
    recent-use ban on the candidate's own id; a survivor is stamped as
    generated and, when its id is already taken, renamed with the suffix.
  */
  function Judge(r: Recipe, suffix: string, avoid: bool, exclude: set<string>, seen: set<string>): (v: Verdict)
    ensures v.GuardRejected? <==> !HardGuardrails(r, avoid)
    ensures v.RecentlyUsed? <==> HardGuardrails(r, avoid) && r.id in exclude
    ensures v.Accepted? ==> r.id !in exclude && v.r.IsLlm() && HardGuardrails(v.r, avoid)
    ensures v.Accepted? ==> v.r.(id := r.id, source := r.source) == r
    ensures v.Accepted? ==> (r.id !in seen ==> v.r.id == r.id) && (r.id in seen ==> v.r.id == r.id + "-" + suffix)
  {
    if !HardGuardrails(r, avoid) then GuardRejected
    else if r.id in exclude then RecentlyUsed
    else Accepted(Renamed(r, suffix, seen))
  }

  /** The ids an accepted candidate can carry: a slug, possibly with a four-digit hex suffix, so at most 45 characters. */
  predicate IsAdmittedId(id: string) {
    0 < |id| <= MaxSlugLength + 5 && forall i :: 0 <= i < |id| ==> IsSlugChar(id[i])
  }

  /**
    The counters of the second loop. `clashes` counts renamed ids that were
    taken as well; the program does not count them, and they stay zero
    unless a random suffix repeats an id already seen.
  */
  datatype Tally = Tally(accepted: seq<Recipe>, rejectGuard: nat, rejectRecentBan: nat, clashes: nat)

  predicate Converted(xs: seq<(Recipe, string)>) {
    forall i :: 0 <= i < |xs| ==> IsSlug(xs[i].0.id) && IsHexToken(xs[i].1, 2)
  }

  /** How many candidates fail the guardrails. */
  function GuardFailures(xs: seq<(Recipe, string)>, avoid: bool): nat {
    if |xs| == 0 then 0
    else (if HardGuardrails(xs[0].0, avoid) then 0 else 1) + GuardFailures(xs[1..], avoid)
  }

  /** How many candidates pass the guardrails but carry a recently used id. */
  function RecentBans(xs: seq<(Recipe, string)>, avoid: bool, exclude: set<string>): nat {
    if |xs| == 0 then 0
    else (if HardGuardrails(xs[0].0, avoid) && xs[0].0.id in exclude then 1 else 0) + RecentBans(xs[1..], avoid, exclude)
  }

  /** The candidates that pass the guardrails and carry no recently used id, in order, with their suffixes. */
  function Survivors(xs: seq<(Recipe, string)>, avoid: bool, exclude: set<string>): seq<(Recipe, string)> {
    if |xs| == 0 then []
    else (if HardGuardrails(xs[0].0, avoid) && xs[0].0.id !in exclude then [xs[0]] else []) + Survivors(xs[1..], avoid, exclude)
  }

  /**
    The accepted list is the survivors, in order, each renamed against the
    ids taken before it: the ones taken at the start and the ids of the
    candidates accepted ahead of it.
  */
  ghost predicate RenamedInOrder(accepted: seq<Recipe>, survivors: seq<(Recipe, string)>, seen: set<string>) {
    && |accepted| == |survivors|
    && forall i :: 0 <= i < |accepted| ==>
         accepted[i] == Renamed(survivors[i].0, survivors[i].1, seen + Ids(accepted[..i]))
  }

  /** An accepted survivor in front of the survivors accepted after its id was taken. */
  lemma RenamedInOrderCons(x: (Recipe, string), rest: seq<Recipe>, survivors: seq<(Recipe, string)>, seen: set<string>)
    requires RenamedInOrder(rest, survivors, seen + {Renamed(x.0, x.1, seen).id})
    ensures RenamedInOrder([Renamed(x.0, x.1, seen)] + rest, [x] + survivors, seen)
  {
    var r' := Renamed(x.0, x.1, seen);
    var all, ss := [r'] + rest, [x] + survivors;
    forall i | 0 <= i < |all|
      ensures all[i] == Renamed(ss[i].0, ss[i].1, seen + Ids(all[..i]))
    {
      if i == 0 {
        assert Ids(all[..0]) == {};
      } else {
        assert all[..i] == [r'] + rest[..i - 1];
        IdsCons(all[..i]);
        assert all[..i][1..] == rest[..i - 1];
        assert seen + Ids(all[..i]) == seen + {r'.id} + Ids(rest[..i - 1]);
      }
    }
  }

  /** The counters and accepted list of `t` are those the reference definitions give for `xs`. */
  ghost predicate Accounted(xs: seq<(Recipe, string)>, avoid: bool, exclude: set<string>, seen: set<string>, t: Tally) {
    && t.rejectGuard == GuardFailures(xs, avoid)
    && t.rejectRecentBan == RecentBans(xs, avoid, exclude)
    && RenamedInOrder(t.accepted, Survivors(xs, avoid, exclude), seen)
  }

  /** A candidate that fails the guardrails adds one guard rejection to the later candidates' counters. */
  lemma AccountedGuard(xs: seq<(Recipe, string)>, avoid: bool, exclude: set<string>, seen: set<string>, t: Tally)
    requires |xs| > 0 && !HardGuardrails(xs[0].0, avoid)
    requires Accounted(xs[1..], avoid, exclude, seen, t)
    ensures Accounted(xs, avoid, exclude, seen, t.(rejectGuard := t.rejectGuard + 1))
  {
  }

  /** A candidate that passes the guardrails with a recently used id adds one ban to the later candidates' counters. */
  lemma AccountedBan(xs: seq<(Recipe, string)>, avoid: bool, exclude: set<string>, seen: set<string>, t: Tally)
    requires |xs| > 0 && HardGuardrails(xs[0].0, avoid) && xs[0].0.id in exclude
    requires Accounted(xs[1..], avoid, exclude, seen, t)
    ensures Accounted(xs, avoid, exclude, seen, t.(rejectRecentBan := t.rejectRecentBan + 1))
  {
  }

  /** A surviving candidate, renamed, goes in front of the candidates accepted after its id was taken. */
  lemma AccountedAccept(xs: seq<(Recipe, string)>, avoid: bool, exclude: set<string>, seen: set<string>, t: Tally, clash: nat)
    requires |xs| > 0 && HardGuardrails(xs[0].0, avoid) && xs[0].0.id !in exclude
    requires Accounted(xs[1..], avoid, exclude, seen + {Renamed(xs[0].0, xs[0].1, seen).id}, t)
    ensures Accounted(xs, avoid, exclude, seen,
                      Tally([Renamed(xs[0].0, xs[0].1, seen)] + t.accepted, t.rejectGuard, t.rejectRecentBan, clash))
  {
    RenamedInOrderCons(xs[0], t.accepted, Survivors(xs[1..], avoid, exclude), seen);
  }

  /**
    The second loop, with `seen` the ids taken so far. Every candidate is
    accepted or counted under exactly one rejection; every accepted one is
    generated, passes the guardrails and has an admitted id; and when no
    renamed id clashes, the accepted ids are distinct and were not taken
    before.
  */
  function JudgeAll(xs: seq<(Recipe, string)>, avoid: bool, exclude: set<string>, seen: set<string>): (t: Tally)
    requires Converted(xs)
    ensures |t.accepted| + t.rejectGuard + t.rejectRecentBan == |xs|
    ensures forall r :: r in t.accepted ==> r.IsLlm() && HardGuardrails(r, avoid) && IsAdmittedId(r.id)
    ensures t.clashes == 0 ==> DistinctIds(t.accepted) && forall r :: r in t.accepted ==> r.id !in seen
    ensures Accounted(xs, avoid, exclude, seen, t)
  {
    if |xs| == 0 then Tally([], 0, 0, 0)
    else
      var (r, suffix) := xs[0];
      match Judge(r, suffix, avoid, exclude, seen)
      case GuardRejected =>
        var t := JudgeAll(xs[1..], avoid, exclude, seen);
        AccountedGuard(xs, avoid, exclude, seen, t);
        t.(rejectGuard := t.rejectGuard + 1)
      case RecentlyUsed =>
        var t := JudgeAll(xs[1..], avoid, exclude, seen);
        AccountedBan(xs, avoid, exclude, seen, t);
        t.(rejectRecentBan := t.rejectRecentBan + 1)
      case Accepted(r') =>
        var t := JudgeAll(xs[1..], avoid, exclude, seen + {r'.id});
        var clash := if r.id in seen && r'.id in seen then 1 else 0;
        AdmittedIdOf(r, suffix, seen);
        AcceptedCons(r', t.accepted, seen, t.clashes + clash == 0);
        AccountedAccept(xs, avoid, exclude, seen, t, t.clashes + clash);
        Tally([r'] + t.accepted, t.rejectGuard, t.rejectRecentBan, t.clashes + clash)
  }

  /** A renamed slug is an admitted id. */
  lemma AdmittedIdOf(r: Recipe, suffix: string, seen: set<string>)
    requires IsSlug(r.id) && IsHexToken(suffix, 2)
    ensures IsAdmittedId(Renamed(r, suffix, seen).id)
  {
    var id := Renamed(r, suffix, seen).id;
    if r.id in seen {
      assert id == r.id + "-" + suffix;
      forall i | 0 <= i < |id| ensures IsSlugChar(id[i]) {
        if i < |r.id| {
          assert id[i] == r.id[i];
        } else if i > |r.id| {
          assert id[i] == suffix[i - |r.id| - 1];
        }
      }
    }
  }

  /**
    An accepted candidate whose id was free, in front of candidates accepted
    after its id was taken; `free` says that no clash happened.
  */
  lemma AcceptedCons(x: Recipe, rest: seq<Recipe>, seen: set<string>, free: bool)
    requires free ==> x.id !in seen && DistinctIds(rest) && forall r :: r in rest ==> r.id !in seen + {x.id}
    ensures free ==> DistinctIds([x] + rest) && forall r :: r in [x] + rest ==> r.id !in seen
  {
    if free {
      var all := [x] + rest;
      forall i, j | 0 <= i < j < |all| ensures all[i].id != all[j].id {
        assert all[j] == rest[j - 1];
        if i > 0 {
          assert all[i] == rest[i - 1];
        }
      }
    }
  }

  /** Every converted candidate has a slug id and a four-digit suffix. */
  lemma ConvertedEach(raws: seq<Value>, tokens: seq<HexTokens>, xs: seq<(Recipe, string)>, ft: FloatText)
    requires |tokens| == |raws| == |xs|
    requires forall i :: 0 <= i < |raws| ==> Convert(raws[i], tokens[i], ft) == Some(xs[i])
    ensures Converted(xs)
  {
    forall i | 0 <= i < |xs| ensures IsSlug(xs[i].0.id) && IsHexToken(xs[i].1, 2) {
      assert Convert(raws[i], tokens[i], ft) == Some(xs[i]);
      assert WellFormedTokens(tokens[i]);
    }
  }

  /** The conversions of all raw candidates, or `None` when one of them raises. */
  function ConvertAll(raws: seq<Value>, tokens: seq<HexTokens>, ft: FloatText): (xs: Option<seq<(Recipe, string)>>)
    requires |tokens| == |raws|
    ensures xs.Some? <==> forall i :: 0 <= i < |raws| ==> Convert(raws[i], tokens[i], ft).Some?
    ensures xs.Some? ==> |xs.value| == |raws| && Converted(xs.value)
    ensures xs.Some? ==> forall i :: 0 <= i < |raws| ==> Convert(raws[i], tokens[i], ft) == Some(xs.value[i])
  {
    var f := (c: Value, t: HexTokens) => Convert(c, t, ft);
    var r := AllSome(raws, tokens, f);
    if r.Some? then
      assert forall i :: 0 <= i < |raws| ==> Convert(raws[i], tokens[i], ft) == f(raws[i], tokens[i]);
      ConvertedEach(raws, tokens, r.value, ft);
      r
    else r
  }

  /**
    The outcome of the LLM proposal step: disabled by an exception, or the
    accepted candidates with the counters the program reports (`llm_raw`,
    `llm_norm`, the three rejection counts) and the clash count of `Tally`.
  */
  datatype Admission =
    | Disabled
    | Admitted(accepted: seq<Recipe>, raw: nat, normalized: nat,
               rejectSchema: nat, rejectGuard: nat, rejectRecentBan: nat, clashes: nat)

  /**
    The proposal step over the raw candidates the collaborator returned,
    with one set of random tokens per candidate. It is disabled exactly when
    some candidate raises; otherwise every raw candidate is normalized (the
    schema rejection count is zero), every normalized one is accepted or
    rejected once, the accepted ones are generated, pass the guardrails
    under the user's tomato preference and carry admitted ids, and, without
    clashes, their ids are distinct and disjoint from the curated ids.
  */
  function Admit(curated: seq<Recipe>, raws: seq<Value>, tokens: seq<HexTokens>, prefs: Dict,
                 exclude: set<string>, ft: FloatText): (a: Admission)
    requires |tokens| == |raws|
    ensures a.Disabled? <==> exists i :: 0 <= i < |raws| && Convert(raws[i], tokens[i], ft).None?
    ensures a.Admitted? ==> a.raw == |raws| == a.normalized + a.rejectSchema && a.rejectSchema == 0
    ensures a.Admitted? ==> a.normalized == |a.accepted| + a.rejectGuard + a.rejectRecentBan
    ensures a.Admitted? ==> forall r :: r in a.accepted ==>
              r.IsLlm() && HardGuardrails(r, AvoidWholeTomatoes(prefs)) && IsAdmittedId(r.id)
    ensures a.Admitted? && a.clashes == 0 ==>
              DistinctIds(a.accepted) && forall r :: r in a.accepted ==> r.id !in Ids(curated)
    ensures a.Admitted? ==>
              var avoid, xs := AvoidWholeTomatoes(prefs), ConvertAll(raws, tokens, ft).value;
              && a.rejectGuard == GuardFailures(xs, avoid)
              && a.rejectRecentBan == RecentBans(xs, avoid, exclude)
              && RenamedInOrder(a.accepted, Survivors(xs, avoid, exclude), Ids(curated))
  {
    match ConvertAll(raws, tokens, ft)
    case None => Disabled
    case Some(xs) =>
      var t := JudgeAll(xs, AvoidWholeTomatoes(prefs), exclude, Ids(curated));
      Admitted(t.accepted, |raws|, |xs|, 0, t.rejectGuard, t.rejectRecentBan, t.clashes)
  }

  /** `all_recipes`: the curated recipes, followed by the accepted ones when the stage ran. */
  function AllRecipes(curated: seq<Recipe>, a: Admission): (pool: seq<Recipe>)
    ensures a.Disabled? ==> pool == curated
    ensures a.Admitted? ==> pool == curated + a.accepted
  {
    if a.Disabled? then curated else curated + a.accepted
  }

  /**
    Curated recipes with distinct ids stay distinct after admission, unless
    a random suffix clashed.
  */
  lemma AllRecipesDistinct(curated: seq<Recipe>, raws: seq<Value>, tokens: seq<HexTokens>, prefs: Dict,
                           exclude: set<string>, ft: FloatText)
    requires |tokens| == |raws|
    requires DistinctIds(curated)
    ensures var a := Admit(curated, raws, tokens, prefs, exclude, ft);
            a.Disabled? || a.clashes == 0 ==> DistinctIds(AllRecipes(curated, a))
  {
    var a := Admit(curated, raws, tokens, prefs, exclude, ft);
    if a.Admitted? && a.clashes == 0 {
      DistinctAppend(curated, a.accepted);
    }
  }
}
