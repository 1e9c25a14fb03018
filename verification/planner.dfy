/**
  `plan_week` (mealplanner/planner.py): the exclusion filter with its
  shortage fallback, the LLM-quota pass, the fill pass, the cheapest-first
  pad pass, the budget repair and the final report, each stage a function
  with the facts the next stage relies on.
*/
module Planner {
  import opened Options
  import opened Values
  import opened Recipes
  import opened Scoring
  import opened Greedy
  import opened Sorting

  /** A plan covers one dinner per day of the week. */
  const WeekLength: nat := 7

  /** The budget repair tries at most this many swaps. */
  const MaxRepairAttempts: nat := 12

  /**
    The arguments of `plan_week` once its defaults are applied: an absent
    exclusion set or rating map is empty, and the seeded generator is the
    jitter stream `draws`.
  */
  datatype PlanInput = PlanInput(
    recipes: seq<Recipe>,
    prefs: Dict,
    budget: real,
    exclude: set<string>,
    ratings: Ratings,
    fallbackOnShortage: bool,
    minLlm: int,
    ratingWeight: real,
    draws: nat -> Jitter)

  /** The inner `filtered`: the recipes that pass `_ok`, and, when `useExclude` holds, whose id is not excluded; in order. */
  function Eligible(recipes: seq<Recipe>, avoid: bool, exclude: set<string>, useExclude: bool): (rs: seq<Recipe>)
    ensures |rs| <= |recipes|
    ensures forall x :: x in rs <==> x in recipes && Ok(x, avoid) && (useExclude ==> x.id !in exclude)
    ensures DistinctIds(recipes) ==> DistinctIds(rs)
  {
    if |recipes| == 0 then []
    else
      assert DistinctIds(recipes) ==> DistinctIds(recipes[1..]) by {
        if DistinctIds(recipes) { DistinctTail(recipes); }
      }
      var rest := Eligible(recipes[1..], avoid, exclude, useExclude);
      assert forall x :: x in recipes <==> x == recipes[0] || x in recipes[1..];
      assert DistinctIds(recipes) ==> DistinctIds([recipes[0]] + rest) by {
        if DistinctIds(recipes) { DistinctFilterCons(recipes, rest); }
      }
      if Ok(recipes[0], avoid) && (useExclude ==> recipes[0].id !in exclude) then [recipes[0]] + rest else rest
  }

  /** The candidates a plan chooses from, and whether the exclusion set had to be dropped to find them. */
  datatype Candidates = Candidates(rs: seq<Recipe>, fallbackUsed: bool)

  /**
    The exclusion filter with its fallback: the fallback is used exactly when
    fewer than seven recipes survive the exclusion and falling back is
    allowed, and the candidates are then every eligible recipe; otherwise
    they are the eligible recipes outside the exclusion set.
  */
  function SelectCandidates(recipes: seq<Recipe>, avoid: bool, exclude: set<string>, fallbackOnShortage: bool)
    : (c: Candidates)
    ensures c.fallbackUsed <==> |Eligible(recipes, avoid, exclude, true)| < WeekLength && fallbackOnShortage
    ensures forall x :: x in c.rs <==> x in recipes && Ok(x, avoid) && (!c.fallbackUsed ==> x.id !in exclude)
    ensures DistinctIds(recipes) ==> DistinctIds(c.rs)
  {
    var strict := Eligible(recipes, avoid, exclude, true);
    if |strict| < WeekLength && fallbackOnShortage then Candidates(Eligible(recipes, avoid, exclude, false), true)
    else Candidates(strict, false)
  }

  /** `llm_pool` (`llm` true) or `curated_pool` (`llm` false): the candidates of one source, in order. */
  function FromSource(rs: seq<Recipe>, llm: bool): (r: seq<Recipe>)
    ensures forall x :: x in r <==> x in rs && x.IsLlm() == llm
    ensures DistinctIds(rs) ==> DistinctIds(r)
  {
    if |rs| == 0 then []
    else
      assert DistinctIds(rs) ==> DistinctIds(rs[1..]) by {
        if DistinctIds(rs) { DistinctTail(rs); }
      }
      var rest := FromSource(rs[1..], llm);
      assert forall x :: x in rs <==> x == rs[0] || x in rs[1..];
      assert DistinctIds(rs) ==> DistinctIds([rs[0]] + rest) by {
        if DistinctIds(rs) { DistinctFilterCons(rs, rest); }
      }
      if rs[0].IsLlm() == llm then [rs[0]] + rest else rest
  }

  /** The two pools split the candidates: together they hold exactly the candidates' entries, hence their ids. */
  lemma PoolsCover(rs: seq<Recipe>)
    ensures forall x :: x in FromSource(rs, true) + FromSource(rs, false) <==> x in rs
    ensures Ids(FromSource(rs, true) + FromSource(rs, false)) == Ids(rs)
  {
    var both := FromSource(rs, true) + FromSource(rs, false);
    assert forall x :: x in both <==> x in FromSource(rs, true) || x in FromSource(rs, false);
  }

  /** `need`: the requested number of generated dinners, capped by the week and by the pool size. */
  function LlmQuota(minLlm: int, poolSize: nat): (need: int)
    ensures need <= WeekLength && need <= poolSize && need <= minLlm
    ensures need == minLlm || need == WeekLength || need == poolSize
  {
    Min(Min(minLlm, WeekLength), poolSize)
  }

  /** The two greedy passes: the quota pass over the generated pool, then the fill pass over both pools. */
  datatype Week = Week(quota: Picked, fill: Picked) {
    function Chosen(): seq<Recipe> { quota.picks + fill.picks }
  }

  /** The quota pass runs only on a non-empty generated pool and starts from an empty selection. */
  function QuotaPass(llm: seq<Recipe>, minLlm: int, rank: Ranker): (q: Picked)
    ensures |q.picks| == Min(Max(LlmQuota(minLlm, |llm|), 0), |Ids(llm)|)
    ensures forall r :: r in q.picks ==> r in llm
    ensures DistinctIds(q.picks)
    ensures q.after.already == Ids(q.picks)
  {
    var sel := Selection({}, {}, {}, 0);
    if |llm| > 0 then GreedyPick(llm, LlmQuota(minLlm, |llm|), sel, rank)
    else
      assert Ids(llm) == {};
      Picked([], [], sel)
  }

  /** The quota picks plus the fill pass's count make min(7, number of ids in both pools). */
  lemma WeekCount(llm: seq<Recipe>, curated: seq<Recipe>, q: seq<Recipe>, fill: int)
    requires DistinctIds(q) && |q| <= WeekLength
    requires forall r :: r in q ==> r in llm
    requires fill == if WeekLength - |q| > 0 then Min(WeekLength - |q|, |Ids(llm + curated) - Ids(q)|) else 0
    ensures |q| + fill == Min(WeekLength, |Ids(llm + curated)|)
  {
    IdsAppend(llm, curated);
    DistinctIdsCount(q);
    assert Ids(q) <= Ids(llm) by {
      forall id | id in Ids(q) ensures id in Ids(llm) {
        var r :| r in q && r.id == id;
      }
    }
    var all := Ids(llm + curated);
    assert all * Ids(q) == Ids(q);
    assert |all - Ids(q)| == |all| - |q|;
  }

  /**
    The quota and fill passes together choose min(7, number of candidate ids)
    recipes with pairwise distinct ids, all from the pools, the quota's
    generated picks first.
  */
  function PickWeek(llm: seq<Recipe>, curated: seq<Recipe>, minLlm: int, rank: Ranker): (w: Week)
    ensures DistinctIds(w.Chosen())
    ensures forall r :: r in w.Chosen() ==> r in llm || r in curated
    ensures |w.Chosen()| == Min(WeekLength, |Ids(llm + curated)|)
    ensures w.quota.picks <= w.Chosen() && forall r :: r in w.quota.picks ==> r in llm
    ensures |w.quota.picks| == Min(Max(LlmQuota(minLlm, |llm|), 0), |Ids(llm)|)
  {
    var q := QuotaPass(llm, minLlm, rank);
    var slots := Max(0, WeekLength - |q.picks|);
    var f := if slots > 0 then GreedyPick(llm + curated, slots, q.after, rank) else Picked([], [], q.after);
    WeekCount(llm, curated, q.picks, |f.picks|);
    assert forall r :: r in f.picks ==> r in llm + curated;
    DistinctAppend(q.picks, f.picks);
    Week(q, f)
  }

  /** A subset of a finite set with as many elements is the whole set. */
  lemma SubsetFull(a: set<string>, b: set<string>)
    requires a <= b && |a| == |b|
    ensures a == b
  {
    assert a * b == a;
    assert |b - a| == 0;
  }

  /** `pad_pool` and the repair pool: the candidates whose id is not chosen, cheapest first, ties in candidate order. */
  function Unchosen(chosen: seq<Recipe>, candidates: seq<Recipe>): (pool: seq<Recipe>)
    ensures SortedByCost(pool)
    ensures forall x :: x in pool <==> x in candidates && x.id !in Ids(chosen)
  {
    var rest := WithoutIds(candidates, Ids(chosen));
    WithoutIdsMembers(candidates, Ids(chosen));
    SortByCostMembers(rest);
    SortByCost(rest)
  }

  /**
    The pad pass: a short plan is topped up, up to seven, with the cheapest
    unchosen candidates; what was chosen stays in front.
  */
  function Pad(chosen: seq<Recipe>, candidates: seq<Recipe>): (r: seq<Recipe>)
    ensures |chosen| <= |r| && r[..|chosen|] == chosen
    ensures |r| <= Max(|chosen|, WeekLength)
    ensures forall i :: |chosen| <= i < |r| ==> r[i] in candidates && r[i].id !in Ids(chosen)
  {
    if |chosen| < WeekLength then
      var pool := Unchosen(chosen, candidates);
      var extra := pool[..Min(|pool|, WeekLength - |chosen|)];
      assert forall i :: 0 <= i < |extra| ==> extra[i] in pool;
      chosen + extra
    else chosen
  }

  /**
    The pad pass adds nothing after the greedy passes: once they chose
    min(7, number of candidate ids) recipes with distinct candidate ids,
    either the week is full or every candidate id is already chosen.
  */
  lemma PadAddsNothing(chosen: seq<Recipe>, candidates: seq<Recipe>)
    requires DistinctIds(chosen) && Ids(chosen) <= Ids(candidates)
    requires |chosen| == Min(WeekLength, |Ids(candidates)|)
    ensures Pad(chosen, candidates) == chosen
  {
    if |chosen| < WeekLength {
      DistinctIdsCount(chosen);
      SubsetFull(Ids(chosen), Ids(candidates));
      WithoutIdsAll(candidates, Ids(chosen));
    }
  }

  /** The costs of a list, in order. */
  function Costs(rs: seq<Recipe>): (c: seq<real>)
    ensures |c| == |rs| && forall i :: 0 <= i < |rs| ==> c[i] == rs[i].costUsd
  {
    seq(|rs|, i requires 0 <= i < |rs| => rs[i].costUsd)
  }

  /** `new_list.index(max(chosen, key=cost))`: the position of the first most expensive dinner. */
  function PriciestIndex(rs: seq<Recipe>): (i: nat)
    requires |rs| > 0
    ensures i < |rs|
    ensures forall j :: 0 <= j < |rs| ==> rs[j].costUsd <= rs[i].costUsd
    ensures forall j :: 0 <= j < i ==> rs[j].costUsd < rs[i].costUsd
  {
    BestIndex(Costs(rs))
  }

  /** The plan with its first most expensive dinner replaced by `x`. */
  function Swap(rs: seq<Recipe>, x: Recipe): (r: seq<Recipe>)
    requires |rs| > 0
    ensures |r| == |rs|
    ensures TotalCost(r) == TotalCost(rs) - rs[PriciestIndex(rs)].costUsd + x.costUsd
    ensures forall y :: y in r ==> y in rs || y == x
  {
    var i := PriciestIndex(rs);
    TotalCostUpdate(rs, i, x);
    rs[i := x]
  }

  /** Swapping in a recipe whose id the plan does not hold keeps the ids distinct. */
  lemma SwapDistinct(rs: seq<Recipe>, x: Recipe)
    requires |rs| > 0 && DistinctIds(rs) && x.id !in Ids(rs)
    ensures DistinctIds(Swap(rs, x))
  {
    var i := PriciestIndex(rs);
    var r := Swap(rs, x);
    forall a, b | 0 <= a < b < |r| ensures r[a].id != r[b].id {
      if a == i {
        assert rs[b] in rs;
      } else if b == i {
        assert rs[a] in rs;
      }
    }
  }

  /** The outcome of the budget repair: the plan, the attempts made, and the replacement it committed, if any. */
  datatype Repair = Repair(result: seq<Recipe>, attempts: nat, replacement: Option<Recipe>)

  /**
    The repair loop from its `n` remaining attempts on: each attempt pops the
    cheapest pool entry and tries it in place of the same priciest dinner;
    the first swap that meets the budget is committed and ends the loop.
  */
  function Attempts(chosen: seq<Recipe>, pool: seq<Recipe>, budget: real, n: nat): (r: Repair)
    ensures r.attempts <= n && r.attempts <= |pool|
    ensures r.replacement.None? ==> r.result == chosen
    ensures r.replacement.Some? ==>
              && |chosen| > 0 && r.replacement.value in pool
              && r.result == Swap(chosen, r.replacement.value)
              && TotalCost(r.result) <= budget
  {
    if n == 0 || |chosen| == 0 || |pool| == 0 then Repair(chosen, 0, None)
    else
      var tried := Swap(chosen, pool[0]);
      if TotalCost(tried) <= budget then Repair(tried, 1, Some(pool[0]))
      else
        var rest := Attempts(chosen, pool[1..], budget, n - 1);
        Repair(rest.result, rest.attempts + 1, rest.replacement)
  }

  /** When no entry of the pool brings the plan within budget, the loop commits nothing. */
  lemma {:induction false} AttemptsNoneFits(chosen: seq<Recipe>, pool: seq<Recipe>, budget: real, n: nat)
    requires |chosen| > 0
    requires forall i :: 0 <= i < |pool| ==> TotalCost(Swap(chosen, pool[i])) > budget
    ensures Attempts(chosen, pool, budget, n).replacement == None
  {
    if n > 0 && |pool| > 0 {
      AttemptsNoneFits(chosen, pool[1..], budget, n - 1);
    }
  }

  /**
    Over a cheapest-first pool only the first attempt can succeed: the loop
    commits the cheapest entry exactly when that swap meets the budget, and
    nothing otherwise.
  */
  lemma AttemptsFirstOnly(chosen: seq<Recipe>, pool: seq<Recipe>, budget: real, n: nat)
    requires SortedByCost(pool) && n > 0
    ensures Attempts(chosen, pool, budget, n).replacement
         == if |chosen| > 0 && |pool| > 0 && TotalCost(Swap(chosen, pool[0])) <= budget then Some(pool[0]) else None
  {
    if |chosen| > 0 && |pool| > 0 && TotalCost(Swap(chosen, pool[0])) > budget {
      AttemptsNoneFits(chosen, pool[1..], budget, n - 1);
    }
  }

  /**
    The budget repair: it runs only over budget, makes at most twelve
    attempts, and commits at most one swap, of the cheapest unchosen
    candidate for the first priciest dinner, exactly when that meets the
    budget; the total never goes up.
  */
  function RepairBudget(chosen: seq<Recipe>, candidates: seq<Recipe>, budget: real): (r: Repair)
    ensures r.attempts <= MaxRepairAttempts
    ensures TotalCost(chosen) <= budget ==> r.attempts == 0 && r.replacement == None
    ensures r.replacement.None? ==> r.result == chosen
    ensures r.replacement.Some? ==>
              && |chosen| > 0
              && r.replacement.value in candidates && r.replacement.value.id !in Ids(chosen)
              && r.result == Swap(chosen, r.replacement.value)
              && TotalCost(r.result) <= budget < TotalCost(chosen)
    ensures r.replacement.Some? <==>
              && TotalCost(chosen) > budget && |chosen| > 0 && |Unchosen(chosen, candidates)| > 0
              && TotalCost(Swap(chosen, Unchosen(chosen, candidates)[0])) <= budget
    ensures r.replacement.Some? ==> r.replacement.value == Unchosen(chosen, candidates)[0]
    ensures TotalCost(r.result) <= TotalCost(chosen)
    ensures |r.result| == |chosen|
    ensures forall x :: x in r.result ==> x in chosen || x in candidates
    ensures DistinctIds(chosen) ==> DistinctIds(r.result)
    ensures CountLlm(r.result) + 1 >= CountLlm(chosen)
  {
    if TotalCost(chosen) > budget then
      var pool := Unchosen(chosen, candidates);
      AttemptsFirstOnly(chosen, pool, budget, MaxRepairAttempts);
      var r := Attempts(chosen, pool, budget, MaxRepairAttempts);
      if r.replacement.Some? then
        var x := r.replacement.value;
        assert x.id !in Ids(chosen);
        assert DistinctIds(chosen) ==> DistinctIds(r.result) by {
          if DistinctIds(chosen) { SwapDistinct(chosen, x); }
        }
        CountLlmUpdate(chosen, PriciestIndex(chosen), x);
        r
      else r
    else Repair(chosen, 0, None)
  }

  /** The scorer and group classifier every greedy round of a plan uses. */
  function Ranking(input: PlanInput): Ranker {
    Ranker(PlanScorer(ScoreContext(input.ratings, input.ratingWeight, input.draws)), GroupOf)
  }

  /**
    The greedy passes over a candidate list: min(7, number of candidate ids)
    dinners with distinct ids, all candidates, that the pad pass leaves
    alone, with the generated pool's quota met.
  */
  function ChooseWeek(candidates: seq<Recipe>, minLlm: int, rank: Ranker): (w: Week)
    ensures forall r :: r in w.Chosen() ==> r in candidates
    ensures DistinctIds(w.Chosen())
    ensures |w.Chosen()| == Min(WeekLength, |Ids(candidates)|)
    ensures Pad(w.Chosen(), candidates) == w.Chosen()
    ensures var llm := FromSource(candidates, true);
            CountLlm(w.Chosen()) >= Min(Max(LlmQuota(minLlm, |llm|), 0), |Ids(llm)|)
  {
    var llm := FromSource(candidates, true);
    var curated := FromSource(candidates, false);
    var w := PickWeek(llm, curated, minLlm, rank);
    PoolsCover(candidates);
    assert forall r :: r in w.Chosen() ==> r in candidates;
    assert Ids(w.Chosen()) <= Ids(candidates);
    PadAddsNothing(w.Chosen(), candidates);
    CountLlmAppend(w.quota.picks, w.fill.picks);
    CountLlmAll(w.quota.picks);
    w
  }

  /** Every stage of one run of `plan_week`: the candidates, the greedy passes, the padded plan and the repair. */
  datatype Run = Run(candidates: Candidates, week: Week, padded: seq<Recipe>, repair: Repair) {
    function Final(): seq<Recipe> { repair.result }
    function LlmPool(): seq<Recipe> { FromSource(candidates.rs, true) }
  }

  /**
    The stages of `plan_week` after the candidate filter: the plan has
    min(7, number of candidate ids) dinners with distinct ids, all
    candidates; the pad pass adds nothing; before the repair the generated
    dinners meet the quota, and the repair costs it at most one; the repair
    leaves the plan alone or commits one swap that brings it within budget,
    and never raises the total.
  */
  function Settle(c: Candidates, input: PlanInput): (s: Run)
    ensures s.candidates == c
    ensures forall r :: r in s.Final() ==> r in c.rs
    ensures s.padded == s.week.Chosen()
    ensures DistinctIds(s.Final())
    ensures |s.Final()| == |s.padded| == Min(WeekLength, |Ids(c.rs)|)
    ensures CountLlm(s.padded) >= Min(Max(LlmQuota(input.minLlm, |s.LlmPool()|), 0), |Ids(s.LlmPool())|)
    ensures CountLlm(s.Final()) + 1 >= CountLlm(s.padded)
    ensures s.repair.attempts <= MaxRepairAttempts
    ensures TotalCost(s.Final()) <= TotalCost(s.padded)
    ensures s.repair.replacement.None? ==> s.Final() == s.padded
    ensures s.repair.replacement.Some? ==>
              && |s.padded| > 0 && |Unchosen(s.padded, c.rs)| > 0
              && s.repair.replacement.value == Unchosen(s.padded, c.rs)[0]
              && s.Final() == Swap(s.padded, s.repair.replacement.value)
              && TotalCost(s.Final()) <= input.budget < TotalCost(s.padded)
  {
    var w := ChooseWeek(c.rs, input.minLlm, Ranking(input));
    var padded := Pad(w.Chosen(), c.rs);
    Run(c, w, padded, RepairBudget(padded, c.rs, input.budget))
  }

  /**
    One run of `plan_week`, stage by stage. The fallback is used exactly
    when fewer than seven recipes survive the filter with the exclusion set
    and the caller allows it; every candidate passes `_ok`, and stays
    outside the exclusion set unless the fallback was used.
  */
  function Stages(input: PlanInput): (s: Run)
    ensures s.candidates.fallbackUsed
        <==> |Eligible(input.recipes, AvoidWholeTomatoes(input.prefs), input.exclude, true)| < WeekLength
             && input.fallbackOnShortage
    ensures forall r :: r in s.candidates.rs <==>
              r in input.recipes && Ok(r, AvoidWholeTomatoes(input.prefs))
              && (!s.candidates.fallbackUsed ==> r.id !in input.exclude)
  {
    Settle(SelectCandidates(input.recipes, AvoidWholeTomatoes(input.prefs), input.exclude, input.fallbackOnShortage), input)
  }

  /** One line of the plan. */
  datatype PlanItem = PlanItem(day: string, recipeId: string)

  /** The plan `plan_week` returns; the totals are exact sums, before rounding. */
  datatype WeekPlan = WeekPlan(
    items: seq<PlanItem>,
    totalCostUsd: real,
    proteinGTotal: real,
    fiberGTotal: real,
    fallbackUsed: bool)

  /** `zip(DAYS, chosen)`: as many items as the shorter of the two. */
  function Items(rs: seq<Recipe>): (items: seq<PlanItem>)
    ensures |items| == Min(|Days|, |rs|)
    ensures forall i :: 0 <= i < |items| ==> items[i] == PlanItem(Days[i], rs[i].id)
  {
    seq(Min(|Days|, |rs|), i requires 0 <= i < Min(|Days|, |rs|) => PlanItem(Days[i], rs[i].id))
  }

  /** The report on a plan: one item per dinner, up to a week, and the exact totals. */
  function Report(chosen: seq<Recipe>, fallbackUsed: bool): (plan: WeekPlan)
    requires |chosen| <= WeekLength
    ensures |plan.items| == |chosen|
    ensures forall i :: 0 <= i < |plan.items| ==> plan.items[i].day == Days[i]
    ensures forall i :: 0 <= i < |plan.items| ==> plan.items[i].recipeId == chosen[i].id
    ensures DistinctIds(chosen) ==>
              forall i, j :: 0 <= i < j < |plan.items| ==> plan.items[i].recipeId != plan.items[j].recipeId
    ensures plan.totalCostUsd == TotalCost(chosen) && plan.fallbackUsed == fallbackUsed
    ensures plan.proteinGTotal == TotalProtein(chosen) && plan.fiberGTotal == TotalFiber(chosen)
  {
    WeekPlan(Items(chosen), TotalCost(chosen), TotalProtein(chosen), TotalFiber(chosen), fallbackUsed)
  }

  /**
    `plan_week`: one item per chosen dinner, the days in calendar order from
    Monday, no recipe twice, fewer than seven items exactly when fewer than
    seven candidate ids exist, and totals that the repair never raised.
  */
  function PlanWeek(input: PlanInput): (plan: WeekPlan)
    ensures var s := Stages(input);
            && |plan.items| == Min(WeekLength, |Ids(s.candidates.rs)|)
            && (forall i :: 0 <= i < |plan.items| ==> plan.items[i].day == Days[i])
            && (forall i :: 0 <= i < |plan.items| ==> plan.items[i].recipeId == s.Final()[i].id)
            && (forall i, j :: 0 <= i < j < |plan.items| ==> plan.items[i].recipeId != plan.items[j].recipeId)
            && plan.totalCostUsd == TotalCost(s.Final()) <= TotalCost(s.padded)
            && plan.proteinGTotal == TotalProtein(s.Final())
            && plan.fiberGTotal == TotalFiber(s.Final())
            && plan.fallbackUsed == s.candidates.fallbackUsed
  {
    var s := Stages(input);
    Report(s.Final(), s.candidates.fallbackUsed)
  }

  /**
    With pairwise distinct recipe ids the counts become counts of recipes:
    the plan has min(7, number of candidates) items, and before the repair
    at least min(min_llm, 7, size of the generated pool) of its dinners are
    generated ones.
  */
  lemma UniqueIdsShape(input: PlanInput)
    requires DistinctIds(input.recipes)
    ensures var s := Stages(input);
            && |PlanWeek(input).items| == Min(WeekLength, |s.candidates.rs|)
            && CountLlm(s.padded) >= Min(Max(LlmQuota(input.minLlm, |s.LlmPool()|), 0), |s.LlmPool()|)
  {
    var s := Stages(input);
    DistinctIdsCount(s.candidates.rs);
    DistinctIdsCount(s.LlmPool());
  }

  /**
    Every planned dinner is an input recipe that passes the filter, and
    none is on the exclusion list unless the fallback was used.
  */
  lemma PlannedDinnersEligible(input: PlanInput)
    ensures var s := Stages(input);
            forall r :: r in s.Final() ==>
              && r in input.recipes && Ok(r, AvoidWholeTomatoes(input.prefs))
              && (!s.candidates.fallbackUsed ==> r.id !in input.exclude)
  {
  }
}
