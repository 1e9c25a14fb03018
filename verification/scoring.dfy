/**
  The per-recipe part of the planner (mealplanner/planner.py): the protein
  classification, the eligibility filter, and the score a greedy round ranks
  candidates by.
*/
module Scoring {
  import opened Options
  import opened Text
  import opened Recipes
  import Validators

  /** The weekdays a plan fills, in order. */
  const Days: seq<string> := ["Mon", "Tue", "Wed", "Thu", "Fri", "Sat", "Sun"]

  /** Keyword to protein group, in the order the classifier tries them. */
  const ProteinKeywords: seq<(string, string)> := [
    ("chicken", "chicken"), ("beef", "beef"), ("salmon", "fish"), ("fish", "fish"),
    ("egg", "eggs"), ("eggs", "eggs"), ("turkey", "turkey"), ("pork", "pork"),
    ("tofu", "veg"), ("bean", "veg"), ("lentil", "veg")]

  /** Every group a keyword maps to. */
  const ProteinGroups: set<string> := {"chicken", "beef", "fish", "eggs", "turkey", "pork", "veg"}

  /** The group of the first keyword at or after `from` that occurs in `text`. */
  function FirstKeyword(text: string, from: nat): (g: Option<string>)
    ensures g.None? <==> forall i :: from <= i < |ProteinKeywords| ==> !Contains(text, ProteinKeywords[i].0)
    ensures g.Some? ==> exists i :: (from <= i < |ProteinKeywords| && Contains(text, ProteinKeywords[i].0)
                                     && g.value == ProteinKeywords[i].1
                                     && forall j :: from <= j < i ==> !Contains(text, ProteinKeywords[j].0))
    decreases |ProteinKeywords| - from
  {
    if from >= |ProteinKeywords| then None
    else if Contains(text, ProteinKeywords[from].0) then Some(ProteinKeywords[from].1)
    else FirstKeyword(text, from + 1)
  }

  /**
    The group of the first keyword (in table order) that occurs in `text`:
    none exactly when no keyword occurs, and otherwise a protein group.
  */
  function KeywordGroup(text: string): (g: Option<string>)
    ensures g.None? <==> forall i :: 0 <= i < |ProteinKeywords| ==> !Contains(text, ProteinKeywords[i].0)
    ensures g.Some? ==> exists i :: (0 <= i < |ProteinKeywords| && Contains(text, ProteinKeywords[i].0)
                                     && g.value == ProteinKeywords[i].1
                                     && forall j :: 0 <= j < i ==> !Contains(text, ProteinKeywords[j].0))
    ensures g.Some? ==> g.value in ProteinGroups
  {
    FirstKeyword(text, 0)
  }

  /** The keyword group of a name, searched lower-cased. */
  function NameGroup(name: string): (g: Option<string>)
    ensures g.Some? ==> g.value in ProteinGroups
  {
    KeywordGroup(Lower(name))
  }

  /** The keyword group of one ingredient's lower-cased item. */
  function ItemGroup(ing: Ingredient): (g: Option<string>)
    ensures g.Some? ==> g.value in ProteinGroups
  {
    KeywordGroup(Lower(ing.item))
  }

  /** The first `Some` among `f(xs[0])`, `f(xs[1])`, ... */
  function FirstSome<T>(xs: seq<T>, f: T -> Option<string>): (g: Option<string>)
    ensures g.None? <==> forall k :: 0 <= k < |xs| ==> f(xs[k]).None?
    ensures g.Some? ==> exists k :: (0 <= k < |xs| && g == f(xs[k])
                                     && forall j :: 0 <= j < k ==> f(xs[j]).None?)
  {
    if |xs| == 0 then None
    else if f(xs[0]).Some? then f(xs[0])
    else
      var rest := FirstSome(xs[1..], f);
      assert forall k :: 1 <= k < |xs| ==> xs[1..][k - 1] == xs[k];
      rest
  }

  /** The element that first gives `Some` decides the search. */
  lemma {:induction false} FirstSomeAt<T>(xs: seq<T>, f: T -> Option<string>, k: nat)
    requires k < |xs| && f(xs[k]).Some?
    requires forall j :: 0 <= j < k ==> f(xs[j]).None?
    ensures FirstSome(xs, f) == f(xs[k])
  {
    if k > 0 {
      FirstSomeAt(xs[1..], f, k - 1);
    }
  }

  /** The group of the first ingredient whose item holds a keyword. */
  function ItemsGroup(ings: seq<Ingredient>): Option<string> {
    FirstSome(ings, ItemGroup)
  }

  lemma OtherIsNoGroup()
    ensures "other" !in ProteinGroups
  {
  }

  lemma ItemsGroupSpec(ings: seq<Ingredient>)
    ensures ItemsGroup(ings).None? <==> forall k :: 0 <= k < |ings| ==> ItemGroup(ings[k]).None?
    ensures ItemsGroup(ings).Some? ==> ItemsGroup(ings).value in ProteinGroups
    ensures forall k :: 0 <= k < |ings| && ItemGroup(ings[k]).Some?
              && (forall j :: 0 <= j < k ==> ItemGroup(ings[j]).None?)
              ==> ItemsGroup(ings) == ItemGroup(ings[k])
  {
    forall k | 0 <= k < |ings| && ItemGroup(ings[k]).Some? && (forall j :: 0 <= j < k ==> ItemGroup(ings[j]).None?)
      ensures ItemsGroup(ings) == ItemGroup(ings[k])
    {
      FirstSomeAt(ings, ItemGroup, k);
    }
    if ItemsGroup(ings).Some? {
      var k :| 0 <= k < |ings| && ItemsGroup(ings) == ItemGroup(ings[k]);
    }
  }

  /**
    `_protein_group`: the name is searched before the ingredients, keywords in
    table order, ingredients in list order; the result is always a protein
    group or `"other"`, and `"other"` exactly when no keyword occurs anywhere.
  */
  function ProteinGroup(name: string, ings: seq<Ingredient>): (g: string)
    ensures g in ProteinGroups || g == "other"
    ensures NameGroup(name).Some? ==> g == NameGroup(name).value
    ensures NameGroup(name).None? ==>
              forall k :: 0 <= k < |ings| && ItemGroup(ings[k]).Some?
                && (forall j :: 0 <= j < k ==> ItemGroup(ings[j]).None?)
                ==> g == ItemGroup(ings[k]).value
    ensures g == "other" <==> (NameGroup(name).None? && forall k :: 0 <= k < |ings| ==> ItemGroup(ings[k]).None?)
  {
    OtherIsNoGroup();
    match NameGroup(name)
    case Some(grp) => grp
    case None =>
      var found := ItemsGroup(ings);
      ItemsGroupSpec(ings);
      if found.Some? then found.value else "other"
  }

  function GroupOf(r: Recipe): string {
    ProteinGroup(r.name, r.ingredients)
  }

  /** Some banned token occurs inside one of the tags, compared as written. */
  predicate BannedInSomeTag(tags: seq<string>) {
    exists i, k :: 0 <= i < |BannedTokens| && 0 <= k < |tags| && Contains(tags[k], BannedTokens[i])
  }

  /** One token of the banned-token loop: in the lower-cased name, or in some tag. */
  predicate HitsToken(name: string, tags: seq<string>, token: string) {
    Contains(name, token) || exists k :: 0 <= k < |tags| && Contains(tags[k], token)
  }

  /** The banned-token loop, token by token from `from`. */
  function NoBannedFrom(name: string, tags: seq<string>, from: nat): (ok: bool)
    ensures ok <==> forall i :: from <= i < |BannedTokens| ==> !HitsToken(name, tags, BannedTokens[i])
    decreases |BannedTokens| - from
  {
    if from >= |BannedTokens| then true
    else if HitsToken(name, tags, BannedTokens[from]) then false
    else NoBannedFrom(name, tags, from + 1)
  }

  /**
    `_ok`, the per-plan filter: a recipe is refused for a banned token in its
    lower-cased name or inside any tag (tags are not lower-cased), for an
    exact `whole_tomatoes` tag when those are avoided, for an exact
    `very_spicy` tag, below the nutrition floor, or above the cost ceiling;
    it is accepted otherwise.
  */
  function Ok(r: Recipe, avoidWholeTomatoes: bool): (ok: bool)
    ensures Validators.AnyBanned(Lower(r.name)) || BannedInSomeTag(r.tags) ==> !ok
    ensures avoidWholeTomatoes && "whole_tomatoes" in r.tags ==> !ok
    ensures "very_spicy" in r.tags ==> !ok
    ensures r.macros.proteinG < MinProteinG || r.macros.fiberG < MinFiberG ==> !ok
    ensures r.costUsd > MaxMealCost ==> !ok
    ensures !ok ==> Validators.AnyBanned(Lower(r.name)) || BannedInSomeTag(r.tags)
                    || (avoidWholeTomatoes && "whole_tomatoes" in r.tags) || "very_spicy" in r.tags
                    || r.macros.proteinG < MinProteinG || r.macros.fiberG < MinFiberG
                    || r.costUsd > MaxMealCost
  {
    var name := Lower(r.name);
    if !NoBannedFrom(name, r.tags, 0) then false
    else if avoidWholeTomatoes && "whole_tomatoes" in r.tags then false
    else if "very_spicy" in r.tags then false
    else if r.macros.proteinG < 40.0 || r.macros.fiberG < 6.0 then false
    else if r.costUsd > MaxMealCost then false
    else true
  }

  /** Turning the whole-tomato preference off never turns an acceptance into a refusal. */
  lemma OkMonotone(r: Recipe)
    ensures Ok(r, true) ==> Ok(r, false)
  {
  }

  lemma BannedTokensLower()
    ensures forall i :: 0 <= i < |BannedTokens| ==> NoUpper(BannedTokens[i])
  {
    assert NoUpper("shellfish") && NoUpper("raw onion") && NoUpper("kale");
  }

  /** A word inside one tag survives into the lower-cased, space-joined tag string. */
  lemma TagWordInTagText(r: Recipe, k: nat, t: string)
    requires k < |r.tags| && Contains(r.tags[k], t) && NoUpper(t)
    ensures Contains(Validators.TagText(r), t)
  {
    ContainsInJoin(" ", r.tags, k, t);
    ContainsLower(Join(" ", r.tags), t);
  }

  lemma ExactTagInTagText(r: Recipe, t: string)
    requires t in r.tags && NoUpper(t)
    ensures Contains(Validators.TagText(r), t)
  {
    var k :| 0 <= k < |r.tags| && r.tags[k] == t;
    assert OccursAt(r.tags[k], t, 0);
    TagWordInTagText(r, k, t);
  }

  /**
    The guardrails are at least as strict as the per-plan filter: a
    generated recipe admitted under a preference also passes `_ok` under it.
    (The converse fails: `_ok` does not lower-case tags.)
  */
  lemma GuardrailsImplyOk(r: Recipe, avoidWholeTomatoes: bool)
    requires Validators.HardGuardrails(r, avoidWholeTomatoes)
    ensures Ok(r, avoidWholeTomatoes)
  {
    BannedTokensLower();
    if BannedInSomeTag(r.tags) {
      var i, k :| 0 <= i < |BannedTokens| && 0 <= k < |r.tags| && Contains(r.tags[k], BannedTokens[i]);
      TagWordInTagText(r, k, BannedTokens[i]);
      assert false;
    }
    if avoidWholeTomatoes && "whole_tomatoes" in r.tags {
      assert NoUpper("whole_tomatoes");
      ExactTagInTagText(r, "whole_tomatoes");
      assert false;
    }
    if "very_spicy" in r.tags {
      assert NoUpper("very_spicy");
      ExactTagInTagText(r, "very_spicy");
      assert false;
    }
  }

  /** A draw of `rng.uniform(-0.02, 0.02)`. */
  type Jitter = x: real | -0.02 <= x <= 0.02

  /** The rating store's read-only view: average stars and number of ratings per recipe id. */
  datatype Ratings = Ratings(avg: map<string, real>, count: map<string, int>)

  function CountOf(ratings: Ratings, id: string): int {
    if id in ratings.count then ratings.count[id] else 0
  }

  /**
    The rating bias: the average's distance from 3 stars, scaled by 0.75 and
    the weight, at full strength from two ratings on, at half strength with
    one, and absent with none or with no average.
  */
  function RatingBias(r: Recipe, ratings: Ratings, weight: real): (b: real)
    ensures r.id !in ratings.avg || CountOf(ratings, r.id) <= 0 ==> b == 0.0
    ensures r.id in ratings.avg && CountOf(ratings, r.id) >= 2 ==> b == (ratings.avg[r.id] - 3.0) * 0.75 * weight
    ensures r.id in ratings.avg && CountOf(ratings, r.id) == 1 ==> b == (ratings.avg[r.id] - 3.0) * 0.375 * weight
  {
    var n := CountOf(ratings, r.id);
    var strength := if n >= 2 then 1.0 else if n == 1 then 0.5 else 0.0;
    (if r.id in ratings.avg then (ratings.avg[r.id] - 3.0) * 0.75 * strength else 0.0) * weight
  }

  /** A single rating carries exactly half the bias of two or more. */
  lemma ColdStartHalf(r: Recipe, avg: map<string, real>, count: map<string, int>, weight: real)
    ensures 2.0 * RatingBias(r, Ratings(avg, count[r.id := 1]), weight)
         == RatingBias(r, Ratings(avg, count[r.id := 2]), weight)
  {
  }

  function MethodBonus(r: Recipe, usedMethods: set<string>): (b: real)
    ensures b == 0.15 <==> r.cookingMethod !in usedMethods
    ensures b == 0.0 <==> r.cookingMethod in usedMethods
  {
    if r.cookingMethod !in usedMethods then 0.15 else 0.0
  }

  function GroupBonus(r: Recipe, usedGroups: set<string>): (b: real)
    ensures b == 0.15 <==> GroupOf(r) !in usedGroups
    ensures b == 0.0 <==> GroupOf(r) in usedGroups
  {
    if GroupOf(r) !in usedGroups then 0.15 else 0.0
  }

  function Novelty(r: Recipe): (b: real)
    ensures b == 0.10 <==> r.IsLlm()
    ensures b == 0.0 <==> !r.IsLlm()
  {
    if r.IsLlm() then 0.10 else 0.0
  }

  /** The nutrition-versus-cost part of the score. */
  function BaseScore(r: Recipe): real {
    0.30 * r.macros.proteinG + 0.15 * r.macros.fiberG - 0.25 * r.costUsd
  }

  /** The score before the jitter is added. */
  function SteadyScore(r: Recipe, ratings: Ratings, weight: real, usedMethods: set<string>, usedGroups: set<string>): real {
    BaseScore(r) + RatingBias(r, ratings, weight) + MethodBonus(r, usedMethods)
      + GroupBonus(r, usedGroups) + Novelty(r)
  }

  /** `_score`: the steady score moved by at most 0.02 either way by the jitter draw. */
  function Score(r: Recipe, ratings: Ratings, weight: real, usedMethods: set<string>, usedGroups: set<string>,
                 jitter: Jitter): (s: real)
    ensures SteadyScore(r, ratings, weight, usedMethods, usedGroups) - 0.02 <= s
    ensures s <= SteadyScore(r, ratings, weight, usedMethods, usedGroups) + 0.02
  {
    var base := 0.30 * r.macros.proteinG + 0.15 * r.macros.fiberG - 0.25 * r.costUsd;
    base + RatingBias(r, ratings, weight) + MethodBonus(r, usedMethods) + GroupBonus(r, usedGroups)
      + Novelty(r) + jitter
  }

  /** Using a method or a group only ever lowers a later score: diversity discourages, never rewards, repeats. */
  lemma ScoreDiversity(r: Recipe, ratings: Ratings, weight: real, m: set<string>, g: set<string>,
                       m': set<string>, g': set<string>, jitter: Jitter)
    requires m <= m' && g <= g'
    ensures Score(r, ratings, weight, m', g', jitter) <= Score(r, ratings, weight, m, g, jitter)
  {
  }
}
