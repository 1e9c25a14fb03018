/**
  `_greedy_pick` (mealplanner/planner.py): repeated rounds that score every
  remaining candidate, take the best one, and record its id, method and
  protein group so that later rounds see them as used.
*/
module Greedy {
  import opened Recipes
  import opened Scoring

  /**
    The selection state the planner threads through its greedy passes: the
    chosen ids, the methods and protein groups already used, and how many
    jitter draws have been consumed.
  */
  datatype Selection = Selection(already: set<string>, methods: set<string>, groups: set<string>, pos: nat)

  /** What every score in a run reads: the ratings, their weight, and the jitter stream. */
  datatype ScoreContext = ScoreContext(ratings: Ratings, weight: real, draws: nat -> Jitter)

  /** One round: the state before it, the candidates it scored, and the index it took. */
  datatype Round = Round(before: Selection, remaining: seq<Recipe>, best: nat)

  /** The picks in order, the rounds that made them, and the state afterwards. */
  datatype Picked = Picked(picks: seq<Recipe>, rounds: seq<Round>, after: Selection)

  function Min(a: int, b: int): int { if a <= b then a else b }
  function Max(a: int, b: int): int { if a >= b then a else b }

  function Methods(rs: seq<Recipe>): set<string> {
    set r | r in rs :: r.cookingMethod
  }

  function Groups(rs: seq<Recipe>, groupOf: Recipe -> string): set<string> {
    set r | r in rs :: groupOf(r)
  }

  /** A score given the candidate, the selection state of its round, and the index of its jitter draw. */
  type Scorer = (Recipe, Selection, nat) -> real

  /** How a greedy pass ranks candidates and classifies the ones it takes. */
  datatype Ranker = Ranker(score: Scorer, groupOf: Recipe -> string)

  /** `_score` under a run's ratings, weight and jitter stream, and a round's used methods and groups. */
  function PlanScorer(ctx: ScoreContext): Scorer {
    (r: Recipe, sel: Selection, pos: nat) =>
      Score(r, ctx.ratings, ctx.weight, sel.methods, sel.groups, ctx.draws(pos))
  }

  /** The scores of one round: candidate `j` consumes draw `pos + j`, in list order. */
  function RoundScores(remaining: seq<Recipe>, sel: Selection, score: Scorer): (s: seq<real>)
    ensures |s| == |remaining|
    ensures forall j :: 0 <= j < |s| ==> s[j] == score(remaining[j], sel, sel.pos + j)
  {
    seq(|remaining|, j requires 0 <= j < |remaining| => score(remaining[j], sel, sel.pos + j))
  }

  /**
    The head of a stable descending sort: a highest score, and the earliest
    one among equal highest scores.
  */
  function BestIndex(scores: seq<real>): (b: nat)
    requires |scores| > 0
    ensures b < |scores|
    ensures forall j :: 0 <= j < |scores| ==> scores[j] <= scores[b]
    ensures forall j :: 0 <= j < b ==> scores[j] < scores[b]
  {
    if |scores| == 1 then 0
    else
      var b := BestIndex(scores[..|scores| - 1]);
      if scores[|scores| - 1] > scores[b] then |scores| - 1 else b
  }

  /** The state after taking `best` in a round that scored `n` candidates. */
  function Take(sel: Selection, best: Recipe, n: nat, rank: Ranker): Selection {
    Selection(sel.already + {best.id}, sel.methods + {best.cookingMethod}, sel.groups + {rank.groupOf(best)}, sel.pos + n)
  }

  /** A round is well formed: it took a top-scoring candidate under the scores of its own state. */
  ghost predicate RoundRanked(r: Round, score: Scorer) {
    && r.best < |r.remaining|
    && (forall j :: 0 <= j < |r.remaining| ==> RoundScore(r, j, score) <= RoundScore(r, r.best, score))
    && (forall j :: 0 <= j < r.best ==> RoundScore(r, j, score) < RoundScore(r, r.best, score))
  }

  /** The score candidate `j` of a round received. */
  function RoundScore(r: Round, j: nat, score: Scorer): real
    requires j < |r.remaining|
  {
    score(r.remaining[j], r.before, r.before.pos + j)
  }

  /** The ids, methods and groups of a list with one more entry at the front. */
  lemma ConsSets(x: Recipe, rest: seq<Recipe>, groupOf: Recipe -> string)
    ensures Ids([x] + rest) == {x.id} + Ids(rest)
    ensures Methods([x] + rest) == {x.cookingMethod} + Methods(rest)
    ensures Groups([x] + rest, groupOf) == {groupOf(x)} + Groups(rest, groupOf)
  {
    assert forall r :: r in [x] + rest <==> r == x || r in rest;
  }

  /** The round that takes the first highest score is well formed. */
  lemma BestIsRanked(remaining: seq<Recipe>, sel: Selection, score: Scorer)
    requires |remaining| > 0
    ensures RoundRanked(Round(sel, remaining, BestIndex(RoundScores(remaining, sel, score))), score)
  {
    var s := RoundScores(remaining, sel, score);
    var r := Round(sel, remaining, BestIndex(s));
    assert forall j :: 0 <= j < |remaining| ==> RoundScore(r, j, score) == s[j];
  }

  /** Every round of the list is well formed and its pick is the entry it ranked first. */
  ghost predicate AllRanked(rounds: seq<Round>, picks: seq<Recipe>, score: Scorer)
    requires |rounds| == |picks|
  {
    forall i :: 0 <= i < |rounds| ==>
      RoundRanked(rounds[i], score) && picks[i] == rounds[i].remaining[rounds[i].best]
  }

  /** A well-formed round in front of well-formed rounds. */
  lemma RankedCons(r: Round, pick: Recipe, rounds: seq<Round>, picks: seq<Recipe>, score: Scorer)
    requires |rounds| == |picks| && AllRanked(rounds, picks, score)
    requires RoundRanked(r, score) && pick == r.remaining[r.best]
    ensures AllRanked([r] + rounds, [pick] + picks, score)
  {
    var rs, ps := [r] + rounds, [pick] + picks;
    forall i | 0 <= i < |rs| ensures RoundRanked(rs[i], score) && ps[i] == rs[i].remaining[rs[i].best] {
      if i > 0 {
        assert rs[i] == rounds[i - 1] && ps[i] == picks[i - 1];
      }
    }
  }

  /** No entry of `rs` has an id in `already`. */
  predicate Fresh(rs: seq<Recipe>, already: set<string>) {
    forall r :: r in rs ==> r.id !in already
  }

  /** Each round scored exactly the entries of `start` whose id its state had not chosen yet. */
  predicate AllScanned(rounds: seq<Round>, start: seq<Recipe>, already: set<string>) {
    forall i :: 0 <= i < |rounds| ==>
      already <= rounds[i].before.already && rounds[i].remaining == WithoutIds(start, rounds[i].before.already)
  }

  lemma WithoutIdsNone(rs: seq<Recipe>, excluded: set<string>)
    requires Fresh(rs, excluded)
    ensures WithoutIds(rs, excluded) == rs
  {
    if |rs| > 0 {
      WithoutIdsNone(rs[1..], excluded);
      assert rs == [rs[0]] + rs[1..];
    }
  }

  /** The first round scanned the whole fresh list; later rounds scanned its filtered tail. */
  lemma ScannedCons(remaining: seq<Recipe>, sel: Selection, b: nat, rank: Ranker, rounds: seq<Round>)
    requires b < |remaining| && Fresh(remaining, sel.already)
    requires AllScanned(rounds, WithoutIds(remaining, sel.already + {remaining[b].id}), sel.already + {remaining[b].id})
    ensures AllScanned([Round(sel, remaining, b)] + rounds, remaining, sel.already)
  {
    var already' := sel.already + {remaining[b].id};
    var rs := [Round(sel, remaining, b)] + rounds;
    WithoutIdsNone(remaining, sel.already);
    forall i | 0 <= i < |rs|
      ensures sel.already <= rs[i].before.already && rs[i].remaining == WithoutIds(remaining, rs[i].before.already)
    {
      if i > 0 {
        var r := rs[i];
        assert r == rounds[i - 1];
        WithoutIdsTwice(remaining, already', r.before.already);
        assert already' + r.before.already == r.before.already;
      }
    }
  }

  /** Taking `remaining[b]` ahead of picks from the filtered list keeps picks inside the list and ids distinct. */
  lemma PicksCons(remaining: seq<Recipe>, already: set<string>, b: nat, rest: seq<Recipe>)
    requires b < |remaining| && Fresh(remaining, already)
    requires var remaining' := WithoutIds(remaining, already + {remaining[b].id});
             (forall r :: r in rest ==> r in remaining') && DistinctIds(rest)
    ensures var picks := [remaining[b]] + rest;
            (forall r :: r in picks ==> r in remaining) && DistinctIds(picks)
  {
    var best := remaining[b];
    WithoutIdsMembers(remaining, already + {best.id});
    var picks := [best] + rest;
    forall i, j | 0 <= i < j < |picks| ensures picks[i].id != picks[j].id {
      assert picks[j] == rest[j - 1];
      if i > 0 {
        assert picks[i] == rest[i - 1];
      } else {
        assert rest[j - 1] in rest;
      }
    }
  }

  /** One round removes exactly one id from the list it scanned. */
  lemma CountStep(remaining: seq<Recipe>, already: set<string>, b: nat)
    requires b < |remaining| && Fresh(remaining, already)
    ensures var remaining' := WithoutIds(remaining, already + {remaining[b].id});
            Fresh(remaining', already + {remaining[b].id})
            && |Ids(remaining')| + 1 == |Ids(remaining)|
  {
    var best := remaining[b];
    WithoutIdsMembers(remaining, already + {best.id});
    WithoutIdsIds(remaining, already + {best.id});
    assert Ids(remaining) * already == {};
    assert Ids(WithoutIds(remaining, already + {best.id})) == Ids(remaining) - {best.id};
    assert best.id in Ids(remaining);
  }

  /** The bookkeeping the rounds from `remaining` on promise: counts and the state they leave. */
  ghost predicate Tracked(remaining: seq<Recipe>, k: int, sel: Selection, rank: Ranker, p: Picked) {
    |p.picks| == |p.rounds| && Counted(remaining, k, sel, rank, p.picks, p.after)
  }

  /** How many entries were picked, and the state they leave behind. */
  ghost predicate Counted(remaining: seq<Recipe>, k: int, sel: Selection, rank: Ranker, picks: seq<Recipe>, after: Selection) {
    && after.already == sel.already + Ids(picks)
    && after.methods == sel.methods + Methods(picks)
    && after.groups == sel.groups + Groups(picks, rank.groupOf)
    && after.pos >= sel.pos
    && |picks| == Min(Max(k, 0), |Ids(remaining)|)
  }

  /** What the rounds from `remaining` on promise about their picks: each ranked first in a full scan of what was left. */
  ghost predicate Chosen(remaining: seq<Recipe>, sel: Selection, rank: Ranker, p: Picked)
    requires |p.picks| == |p.rounds|
  {
    && AllRanked(p.rounds, p.picks, rank.score)
    && (forall r :: r in p.picks ==> r in remaining) && DistinctIds(p.picks)
    && AllScanned(p.rounds, remaining, sel.already)
  }

  /** The index one round takes. */
  function BestOf(remaining: seq<Recipe>, sel: Selection, rank: Ranker): (b: nat)
    requires |remaining| > 0
    ensures b < |remaining|
  {
    BestIndex(RoundScores(remaining, sel, rank.score))
  }

  /** The list the round after that leaves. */
  function Next(remaining: seq<Recipe>, sel: Selection, rank: Ranker): (sel': Selection)
    requires |remaining| > 0
  {
    Take(sel, remaining[BestOf(remaining, sel, rank)], |remaining|, rank)
  }

  /** Taking `best` in front of later picks leaves the state those picks left. */
  lemma SetsCons(sel: Selection, best: Recipe, n: nat, rank: Ranker, picks: seq<Recipe>, after: Selection)
    requires var sel' := Take(sel, best, n, rank);
             && after.already == sel'.already + Ids(picks)
             && after.methods == sel'.methods + Methods(picks)
             && after.groups == sel'.groups + Groups(picks, rank.groupOf)
             && after.pos >= sel'.pos
    ensures after.already == sel.already + Ids([best] + picks)
    ensures after.methods == sel.methods + Methods([best] + picks)
    ensures after.groups == sel.groups + Groups([best] + picks, rank.groupOf)
    ensures after.pos >= sel.pos
  {
    ConsSets(best, picks, rank.groupOf);
  }

  /** One more pick, from a pool with one more fresh id, under a budget one larger. */
  lemma CountCons(k: int, m: nat, n: nat)
    requires k > 0 && m == Min(Max(k - 1, 0), n)
    ensures m + 1 == Min(Max(k, 0), n + 1)
  {
  }

  /** One round in front of the later rounds keeps the bookkeeping. */
  lemma TrackedCons(remaining: seq<Recipe>, k: int, sel: Selection, rank: Ranker, b: nat, picks: seq<Recipe>, after: Selection)
    requires Fresh(remaining, sel.already) && b < |remaining| && k > 0
    requires var sel' := Take(sel, remaining[b], |remaining|, rank);
             Counted(WithoutIds(remaining, sel'.already), k - 1, sel', rank, picks, after)
    ensures Counted(remaining, k, sel, rank, [remaining[b]] + picks, after)
  {
    var best := remaining[b];
    CountStep(remaining, sel.already, b);
    SetsCons(sel, best, |remaining|, rank, picks, after);
    CountCons(k, |picks|, |Ids(WithoutIds(remaining, sel.already + {best.id}))|);
  }

  /** One round in front of the later rounds keeps the ranking facts. */
  lemma ChosenCons(remaining: seq<Recipe>, sel: Selection, rank: Ranker, rest: Picked)
    requires Fresh(remaining, sel.already) && |remaining| > 0 && |rest.picks| == |rest.rounds|
    requires var sel' := Next(remaining, sel, rank);
             Chosen(WithoutIds(remaining, sel'.already), sel', rank, rest)
    ensures var b := BestOf(remaining, sel, rank);
            Chosen(remaining, sel, rank,
                   Picked([remaining[b]] + rest.picks, [Round(sel, remaining, b)] + rest.rounds, rest.after))
  {
    var b := BestOf(remaining, sel, rank);
    var best := remaining[b];
    BestIsRanked(remaining, sel, rank.score);
    RankedCons(Round(sel, remaining, b), best, rest.rounds, rest.picks, rank.score);
    PicksCons(remaining, sel.already, b, rest.picks);
    ScannedCons(remaining, sel, b, rank, rest.rounds);
  }

  /**
    The state each round starts from is the one the run started from, for
    the first round, and the one the previous round's pick left, for every
    later round; the state after the run is the one the last pick left.
  */
  ghost predicate Threaded(sel: Selection, rank: Ranker, p: Picked)
    requires |p.picks| == |p.rounds|
  {
    if |p.rounds| == 0 then p.after == sel
    else
      var last := |p.rounds| - 1;
      && p.rounds[0].before == sel
      && (forall i :: 0 <= i < last ==>
            p.rounds[i + 1].before == Take(p.rounds[i].before, p.picks[i], |p.rounds[i].remaining|, rank))
      && p.after == Take(p.rounds[last].before, p.picks[last], |p.rounds[last].remaining|, rank)
  }

  /** A round taken from `sel`, in front of rounds threaded from the state it leaves, is threaded from `sel`. */
  lemma ThreadedCons(sel: Selection, rank: Ranker, r: Round, pick: Recipe, rest: Picked)
    requires r.before == sel && |rest.picks| == |rest.rounds|
    requires Threaded(Take(sel, pick, |r.remaining|, rank), rank, rest)
    ensures Threaded(sel, rank, Picked([pick] + rest.picks, [r] + rest.rounds, rest.after))
  {
    var p := Picked([pick] + rest.picks, [r] + rest.rounds, rest.after);
    if |rest.rounds| > 0 {
      forall i | 0 <= i < |p.rounds| - 1
        ensures p.rounds[i + 1].before == Take(p.rounds[i].before, p.picks[i], |p.rounds[i].remaining|, rank)
      {
        if i > 0 {
          assert p.rounds[i] == rest.rounds[i - 1] && p.picks[i] == rest.picks[i - 1];
        }
      }
      assert p.rounds[|p.rounds| - 1] == rest.rounds[|rest.rounds| - 1];
    }
  }

  /** The loop of `_greedy_pick`, from a remaining list onwards; `k` is the number of picks still wanted. */
  function Rounds(remaining: seq<Recipe>, k: int, sel: Selection, rank: Ranker): (p: Picked)
    requires Fresh(remaining, sel.already)
    ensures Tracked(remaining, k, sel, rank, p)
    ensures Chosen(remaining, sel, rank, p)
    ensures Threaded(sel, rank, p)
    decreases |remaining|
  {
    if |remaining| == 0 || k <= 0 then
      assert |remaining| == 0 ==> Ids(remaining) == {};
      Picked([], [], sel)
    else
      var b := BestOf(remaining, sel, rank);
      var sel' := Next(remaining, sel, rank);
      var remaining' := WithoutIds(remaining, sel'.already);
      WithoutIdsShrinks(remaining, sel'.already, b);
      CountStep(remaining, sel.already, b);
      var rest := Rounds(remaining', k - 1, sel', rank);
      TrackedCons(remaining, k, sel, rank, b, rest.picks, rest.after);
      ChosenCons(remaining, sel, rank, rest);
      ThreadedCons(sel, rank, Round(sel, remaining, b), remaining[b], rest);
      Picked([remaining[b]] + rest.picks, [Round(sel, remaining, b)] + rest.rounds, rest.after)
  }

  /** Rounds that scanned the pool's fresh entries scanned, each, the pool's entries not chosen before it. */
  lemma ScannedFromPool(pool: seq<Recipe>, already: set<string>, rounds: seq<Round>)
    requires AllScanned(rounds, WithoutIds(pool, already), already)
    ensures forall i :: 0 <= i < |rounds| ==> rounds[i].remaining == WithoutIds(pool, rounds[i].before.already)
  {
    forall i | 0 <= i < |rounds|
      ensures rounds[i].remaining == WithoutIds(pool, rounds[i].before.already)
    {
      var a := rounds[i].before.already;
      WithoutIdsTwice(pool, already, a);
      assert already + a == a;
    }
  }

  /**
    `_greedy_pick`: it returns min(k, number of pool ids not chosen before)
    recipes, all from the pool, none chosen before, with pairwise distinct
    ids; the chosen ids, used methods and used groups grow by exactly the
    picks'; and every round takes a top-scoring entry among all pool entries
    not yet chosen, the earliest on ties.
  */
  function GreedyPick(pool: seq<Recipe>, k: int, sel: Selection, rank: Ranker): (p: Picked)
    ensures |p.picks| == Min(Max(k, 0), |Ids(pool) - sel.already|)
    ensures forall r :: r in p.picks ==> r in pool && r.id !in sel.already
    ensures DistinctIds(p.picks)
    ensures p.after.already == sel.already + Ids(p.picks)
    ensures p.after.methods == sel.methods + Methods(p.picks)
    ensures p.after.groups == sel.groups + Groups(p.picks, rank.groupOf)
    ensures p.after.pos >= sel.pos
    ensures |p.rounds| == |p.picks|
    ensures forall i :: 0 <= i < |p.rounds| ==>
              && RoundRanked(p.rounds[i], rank.score)
              && p.picks[i] == p.rounds[i].remaining[p.rounds[i].best]
              && p.rounds[i].remaining == WithoutIds(pool, p.rounds[i].before.already)
    ensures |p.rounds| > 0 ==> p.rounds[0].before == sel
    ensures forall i :: 0 <= i < |p.rounds| - 1 ==>
              p.rounds[i + 1].before == Take(p.rounds[i].before, p.picks[i], |p.rounds[i].remaining|, rank)
    ensures |p.rounds| == 0 ==> p.after == sel
    ensures |p.rounds| > 0 ==>
              var last := |p.rounds| - 1;
              p.after == Take(p.rounds[last].before, p.picks[last], |p.rounds[last].remaining|, rank)
  {
    var remaining := WithoutIds(pool, sel.already);
    WithoutIdsMembers(pool, sel.already);
    WithoutIdsIds(pool, sel.already);
    var p := Rounds(remaining, k, sel, rank);
    ScannedFromPool(pool, sel.already, p.rounds);
    p
  }
}
