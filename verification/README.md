# mealplanner — a Dafny model of the weekly dinner planner

This project models the planning core of `mealplanner`. The core takes a pool of recipes.
Some are curated and some were proposed by a language model. It chooses up to seven
dinners for the week. Each dinner must pass the house rules: no banned ingredient words,
nothing very spicy, optionally no whole tomatoes, at least 40 g protein and 6 g fibre, and
at most $18. The choice is a seeded greedy pass that rewards protein, fibre, cheapness,
good ratings and variety of cooking method and protein group. A quota reserves slots for
generated recipes. Short plans are padded from the cheapest unchosen candidates, and one
budget repair swap is tried when the week is too expensive.

The model covers the planner itself and three pieces around it:

- the trust boundary for generated candidates: the id slug, normalization, the schema
  check, the hard guardrails, the recent-use ban and the renaming of taken ids;
- the grocery aggregation over the chosen recipes;
- the shared record, value and text helpers these rely on.

Modules follow the program's structure:

| module | file | models |
|---|---|---|
| `Options`, `Text`, `Values` | `options.dfy`, `text.dfy`, `values.dfy` | `None`, `str.lower`/`strip`/`join`/`in`, loosely typed JSON-like values, `str()`, `int()`, `float()`, `list()`, `dict.get` and item assignment |
| `Recipes` | `recipes.dfy` | the typed recipe record, the house constants, id sets, cost and generated-recipe counts |
| `Slug` | `slug.dfy` | `slugify` |
| `Validators` | `validators.dfy` | `validate_recipe_schema`, `hard_guardrails`, `normalize_llm_candidate` |
| `Admission` | `admission.dfy` | the two admission loops of the `plan` command |
| `Scoring` | `scoring.dfy` | `PROTEIN_KEYWORDS`, `_protein_group`, `_ok`, `_score` |
| `Greedy` | `greedy.dfy` | `_greedy_pick` |
| `Sorting` | `sorting.dfy` | the stable `list.sort(key=cost_usd)` |
| `Planner` | `planner.dfy` | `plan_week` |
| `Groceries` | `groceries.dfy` | `aggregate_ingredients` |

## Modelling choices

- Python's `float(text)` and `str(float)` are passed in as a `FloatText` codec of two
  functions, `parse` and `show`. The grocery sums ask, of each running sum that is
  rendered and read back, that parsing its rendering gives the number back and that the
  rendering is not empty (`RoundTrips`). `str` of a finite float does that, but a sum of
  reals need not be a float, so the condition is per value, not for the whole codec.
- The seeded `random.Random(seed)` becomes a stream `draws: nat -> Jitter` of values in
  [-0.02, 0.02]. Each score computed in a greedy round consumes the next value, in the
  order the program computes them.
- Each raw candidate gets its own `secrets.token_hex` values as a parameter (`HexTokens`).
- Python floats are modelled as `real`, so there is no rounding error in sums.
- A `Dict` is a list of key-value pairs, and `Get` reads the first pair with the key.
  A Python dict has no repeated key, and `json.loads` keeps the last of repeated keys in
  its text. So a raw candidate is taken to be the dict `json.loads` produced, with any
  repetition already resolved; the model does not re-resolve it.
- Recipes are a typed record. Generated candidates reach that record by decoding the
  normalized dict (`Admission.DecodeRecipe`). Curated recipes are assumed to already have
  that shape.
- A candidate on which the program would raise leaves the decode path as `None`. The whole
  proposal stage is then `Disabled`, as the program's `except Exception` does, and the
  plan is made from the curated recipes alone.

## Where the model follows the code rather than the documented design

- **Budget repair is not cumulative.** Every attempt swaps into the plan as it was before
  the repair, and the pool is ascending by cost. So only the first attempt can succeed
  (`Planner.AttemptsFirstOnly`). The repair commits at most one swap, and only the
  cheapest unchosen candidate can be swapped in.
- **Short plans are returned.** With fewer than seven distinct candidate ids, `plan_week`
  returns fewer than seven items rather than failing. The pad pass never adds anything
  after the greedy passes (`Planner.PadAddsNothing`, `Planner.ChooseWeek`). This holds
  even when candidate ids repeat.
- **Ids can be up to 45 characters.** A taken id is renamed `<id>-<4 hex digits>`, so
  admitted ids are slugs of up to 45 characters, not 40 (`Admission.IsAdmittedId`).
- **The normalizer can raise.** `int(minutes)` and a non-dict `macros` raise. The model
  states this as the precondition `Normalizable`, and `Admission.Prepare` routes those
  candidates to the raising path.
- **The schema check never rejects a normalized candidate.** Normalization always produces
  every required key, so the schema-rejection counter stays zero
  (`Admission.PrepareNeverRejects`, `Validators.NormalizedPassesSchema`).

## Model

| member | source | states |
|---|---|---|
| Values.SetKey | mealplanner/cli.py:154 | after `c["id"] = v` the key set gains `id`, `id` maps to `v`, and every other key keeps its value |
| Recipes.AvoidWholeTomatoes | mealplanner/planner.py:42 | the whole-tomato preference defaults to on when the key is absent |
| Recipes.WithoutIdsMembers | mealplanner/planner.py:93 | filtering by id keeps exactly the entries whose id is not excluded |
| Recipes.WithoutIdsIds | mealplanner/planner.py:93 | the ids left after filtering are the pool's ids minus the excluded ones |
| Recipes.WithoutIdsTwice | mealplanner/planner.py:102 | filtering twice is the same as filtering once by the union of both id sets |
| Recipes.TotalCostUpdate | mealplanner/planner.py:176-179 | replacing one dinner changes the week's total by the difference of the two costs |
| Recipes.CountLlmUpdate | mealplanner/planner.py:176-178 | one replacement lowers the number of generated dinners by at most one |
| Slug.KeepSlugChars | mealplanner/cli.py:27 | what remains after the character filter uses only `a-z`, `0-9` and `-` |
| Slug.Slugify | mealplanner/cli.py:24-28 | the result is always a non-empty slug of at most 40 characters; an empty cleaned text gives the random fallback; otherwise the result is the cleaned text, or its first 40 characters |
| Slug.SlugIsFixedPoint | mealplanner/cli.py:24-28 | a string that is already a slug is returned unchanged |
| Slug.SlugifyIdempotent | mealplanner/cli.py:24-28 | slugifying a slug changes nothing, whatever fallback token either call draws |
| Slug.SlugifyExample | mealplanner/cli.py:24-28 | "Spicy Kale Bowl!" becomes "spicy-kale-bowl" |
| Validators.Missing | mealplanner/validators.py:13 | the missing keys are exactly the required keys that are absent |
| Validators.MissingAllKeys | mealplanner/validators.py:13-15 | no top-level key is reported missing exactly when all eight required keys are present |
| Validators.MissingMacroKeys | mealplanner/validators.py:17-20 | no macro key is reported missing exactly when `macros` is a dict holding all three macro keys |
| Validators.ValidateRecipeSchema | mealplanner/validators.py:11-28 | accepted exactly when the error list is empty, and exactly when all four checks hold; one error per failed check, so at most four |
| Validators.HardGuardrails | mealplanner/validators.py:30-44 | rejected exactly when a banned word appears in the lower-cased name or joined tags, a very-spicy marker appears, whole tomatoes are avoided and tagged, protein or fibre is under the floor, or cost is over $18 |
| Validators.GuardrailsMonotone | mealplanner/validators.py:37-38 | turning the tomato preference off never rejects a candidate that passes with it on |
| Validators.FloatOrZero | mealplanner/validators.py:51-55 | a value `float()` accepts keeps its number; anything else becomes 0.0 |
| Validators.NormalizedMacros | mealplanner/validators.py:65-69 | the normalized macros have exactly the three macro keys, each the source value as a number or 0.0 |
| Validators.NormalizeLlmCandidate | mealplanner/validators.py:46-73 | the result has exactly the nine normalized keys; source is "llm"; id and name are the `str()` of the inputs ("None" when absent); method defaults to "stovetop"; minutes is `int()` of the input, 0 when absent; tags and ingredients are the `list()` of the inputs; cost and the macros are the inputs as numbers, or 0.0 |
| Validators.NormalizedPassesSchema | mealplanner/validators.py:46-73 | every normalized candidate passes the schema check with no errors |
| Admission.CandidateId | mealplanner/cli.py:153 | the chosen id is truthy: the candidate's id when truthy, else its name when truthy, else "r-" plus the random token |
| Admission.NewId | mealplanner/cli.py:153-154 | the id a candidate is stored under is always a slug |
| Admission.Prepare | mealplanner/cli.py:154-160 | the step raises exactly when the candidate is not a dict or cannot be normalized; otherwise it yields the normalized record |
| Admission.PrepareNeverRejects | mealplanner/cli.py:155-160 | no candidate is ever counted as a schema rejection |
| Admission.DecodeNormalized | mealplanner/validators.py:58-72 | a normalized candidate decodes to a typed recipe exactly when its tags are strings and its ingredients are records; the recipe carries the normalized id, name, minutes, cost and macros and is generated |
| Admission.ConvertedId | mealplanner/cli.py:154-155 | the decoded candidate keeps the id it was given and is marked as generated |
| Admission.Convert | mealplanner/cli.py:152-161 | a converted candidate has a slug id and is generated, and carries its own suffix token |
| Admission.Judge | mealplanner/cli.py:165-176 | guardrail rejection exactly when the guardrails fail; recent-use rejection exactly when they pass and the id is excluded; an accepted candidate's own id is not excluded, and it is unchanged except for source "llm" and a suffix added only when its id was taken |
| Admission.AdmittedIdOf | mealplanner/cli.py:172-173 | a slug with or without the hex suffix is a non-empty id of slug characters, at most 45 long |
| Admission.JudgeAll | mealplanner/cli.py:163-177 | the guard-rejection count is the number of candidates failing the guardrails, the recent-ban count the number passing them with an excluded id, and the accepted list is the remaining candidates in order, each renamed when its id was taken at the start or by an earlier acceptance (`Accounted`); accepted ones are generated, pass the guardrails and have admitted ids; with no clash their ids are distinct and were not taken |
| Admission.ConvertAll | mealplanner/cli.py:151-161 | the first loop completes exactly when no candidate raises, and then holds, in order, the conversion of every raw candidate |
| Admission.Admit | mealplanner/cli.py:147-185 | the stage is disabled exactly when some candidate raises; otherwise every raw candidate is normalized, the guard and recent-ban counts are those of the converted candidates, the accepted list is the surviving candidates in order, renamed against the curated ids and the earlier acceptances, and every accepted candidate is generated, passes the guardrails under the user's tomato preference and has an admitted id; without a suffix clash the accepted ids are distinct and none is a curated id |
| Admission.RenamedInOrderCons | mealplanner/cli.py:172-177 | a survivor renamed against the taken ids, in front of the later survivors renamed after its id was taken, keeps the accepted list in survivor order |
| Admission.AllRecipes | mealplanner/cli.py:179-180 | the planning pool is the curated recipes, followed by the accepted ones when the stage ran |
| Admission.AllRecipesDistinct | mealplanner/cli.py:163-180 | distinct curated ids stay distinct in the planning pool, unless a random suffix clashed |
| Scoring.KeywordGroup | mealplanner/planner.py:24-27 | the group of the first keyword in table order that occurs in the text, and none exactly when no keyword occurs; always one of the seven groups |
| Scoring.FirstSome | mealplanner/planner.py:28-32 | the first ingredient that yields a group decides it; none exactly when no ingredient does |
| Scoring.ItemsGroupSpec | mealplanner/planner.py:28-32 | the ingredient scan returns the group of the first ingredient that names a protein, and none exactly when none does |
| Scoring.ProteinGroup | mealplanner/planner.py:23-33 | a keyword in the name wins; otherwise the first ingredient with a keyword decides; "other" exactly when neither the name nor any ingredient has one |
| Scoring.NoBannedFrom | mealplanner/planner.py:37-41 | no banned word in the name or inside any single tag |
| Scoring.Ok | mealplanner/planner.py:35-51 | rejected exactly when a banned word is in the name or inside a tag, the exact tag "whole_tomatoes" appears while avoided, the exact tag "very_spicy" appears, protein or fibre is under the floor, or cost is over $18 |
| Scoring.OkMonotone | mealplanner/planner.py:42-43 | turning the tomato preference off never excludes a recipe that passed with it on |
| Scoring.GuardrailsImplyOk | mealplanner/planner.py:35-51 | an admitted candidate that passed the guardrails also passes the planner's filter |
| Scoring.RatingBias | mealplanner/planner.py:68-73 | no bias without an average or without ratings; full strength from two ratings on; half strength with one |
| Scoring.ColdStartHalf | mealplanner/planner.py:71-73 | a single rating gives exactly half the bias of two ratings with the same average |
| Scoring.MethodBonus | mealplanner/planner.py:76 | 0.15 exactly when the cooking method is not yet used, 0 exactly when it is |
| Scoring.GroupBonus | mealplanner/planner.py:77-78 | 0.15 exactly when the protein group is not yet used, 0 exactly when it is |
| Scoring.Novelty | mealplanner/planner.py:81 | 0.10 exactly for generated recipes, 0 for all others |
| Scoring.Score | mealplanner/planner.py:53-86 | the score lies within 0.02 of its jitter-free part |
| Scoring.ScoreDiversity | mealplanner/planner.py:75-78 | using more methods or groups never raises a recipe's score |
| Greedy.BestIndex | mealplanner/planner.py:96-97 | the stable descending sort's head: a maximal score, and the first one among equal maxima |
| Greedy.BestIsRanked | mealplanner/planner.py:95-97 | the recipe taken in a round has the highest score of that round, and is the first to have it |
| Greedy.CountStep | mealplanner/planner.py:99-102 | after a pick, the remaining pool is still free of chosen ids and has exactly one id fewer |
| Greedy.ThreadedCons | mealplanner/planner.py:98-102 | a round started from a state, followed by rounds started from the state its pick leaves, gives rounds threaded from that state |
| Greedy.Rounds | mealplanner/planner.py:94-102 | the loop picks min(k, ids available) recipes; the sets of used ids, methods and groups grow by exactly the picks; each pick is the best of its round; the first round starts from the given state and each later round from the state the previous pick left (`Threaded`) |
| Greedy.GreedyPick | mealplanner/planner.py:88-103 | min(k, unchosen ids in the pool) picks with distinct ids, none already chosen, all from the pool; the used sets grow by exactly the picks; the first round starts from the given state, each later round from the state the previous pick left, and the final state is the one the last pick left; every pick wins its round over the pool minus the ids chosen before it |
| Sorting.SortByCost | mealplanner/planner.py:158 | ascending by cost, a permutation of the input, and stable: recipes of equal cost keep their order |
| Sorting.SortByCostMembers | mealplanner/planner.py:170 | sorting keeps exactly the recipes of the input |
| Sorting.SortedHeadCheapest | mealplanner/planner.py:175 | the head of the sorted pool is one of its cheapest recipes |
| Sorting.SortSortedIdentity | mealplanner/planner.py:158 | sorting a list already in cost order returns it unchanged |
| Planner.Eligible | mealplanner/planner.py:127-131 | keeps exactly the recipes that pass the filter (and are not excluded, when asked); distinct ids stay distinct |
| Planner.SelectCandidates | mealplanner/planner.py:133-137 | the fallback is used exactly when fewer than seven recipes survive exclusion and fallback is allowed; the candidates are exactly the recipes passing the filter, excluded ones only after fallback |
| Planner.FromSource | mealplanner/planner.py:139-140 | the generated pool holds exactly the generated candidates, and the curated pool the rest |
| Planner.PoolsCover | mealplanner/planner.py:139-153 | the two pools together hold exactly the candidates and their ids |
| Planner.LlmQuota | mealplanner/planner.py:148 | the quota is the least of `min_llm`, seven and the generated pool's size |
| Planner.QuotaPass | mealplanner/planner.py:147-149 | the quota pass picks min(quota, generated ids) generated recipes with distinct ids |
| Planner.WeekCount | mealplanner/planner.py:151-154 | the quota picks and the fill picks together number min(7, candidate ids) |
| Planner.PickWeek | mealplanner/planner.py:142-154 | both greedy passes choose min(7, candidate ids) distinct recipes from the pools, and the quota picks are generated and come first |
| Planner.Unchosen | mealplanner/planner.py:157-158 | the pad and repair pool is sorted by cost and holds exactly the candidates whose id is not chosen |
| Planner.Pad | mealplanner/planner.py:156-162 | padding keeps the chosen dinners as a prefix, stops at seven, and adds only unchosen candidates |
| Planner.PadAddsNothing | mealplanner/planner.py:156-162 | when the greedy passes already chose min(7, candidate ids) distinct candidates, padding adds nothing |
| Planner.PriciestIndex | mealplanner/planner.py:172 | the position of a most expensive dinner, the first among equals, as `max` and `index` find it |
| Planner.Swap | mealplanner/planner.py:175-179 | the week keeps its length, only the replacement enters, and the total changes by the replacement's cost minus the priciest dinner's |
| Planner.SwapDistinct | mealplanner/planner.py:176-178 | swapping in an unchosen id keeps the ids distinct |
| Planner.Attempts | mealplanner/planner.py:171-185 | at most 12 attempts, no more than the pool's size; a committed swap uses a pool recipe and brings the total within budget; otherwise the week is unchanged |
| Planner.AttemptsNoneFits | mealplanner/planner.py:171-185 | when no single swap fits the budget, the repair commits nothing |
| Planner.AttemptsFirstOnly | mealplanner/planner.py:169-185 | with the pool ascending by cost, the repair commits exactly when swapping in the cheapest unchosen candidate fits the budget |
| Planner.RepairBudget | mealplanner/planner.py:168-185 | nothing happens within budget; a swap is made exactly when the cheapest unchosen candidate fits, and then the total is within budget; the total never rises, the length is kept, ids stay distinct, and at most one generated dinner is lost |
| Planner.ChooseWeek | mealplanner/planner.py:142-162 | min(7, candidate ids) distinct candidates, the generated quota met, and nothing added by padding |
| Planner.Settle | mealplanner/planner.py:139-185 | the final week has min(7, candidate ids) distinct candidates; the quota is met before repair and loses at most one; the repair makes at most 12 attempts, never raises the total, and swaps only to get within budget |
| Planner.Stages | mealplanner/planner.py:127-137 | the fallback flag and the candidate set of a run are those of the exclusion filter with its fallback |
| Planner.PlannedDinnersEligible | mealplanner/planner.py:127-137 | every planned dinner is an input recipe that passes the filter, and none is excluded unless the fallback was used |
| Planner.Report | mealplanner/planner.py:164-194 | the items list the dinners in order from Monday, with no repeated id when ids are distinct; the totals are the sums over the dinners and the flag is the fallback flag |
| Planner.PlanWeek | mealplanner/planner.py:105-194 | min(7, candidate ids) items with consecutive days from Monday and no repeated recipe; totals of the final week, never above the pre-repair total; the fallback flag of the filter |
| Planner.UniqueIdsShape | mealplanner/planner.py:105-194 | with distinct input ids the plan has min(7, candidates) items, and before repair at least min(`min_llm`, 7, generated candidates) dinners are generated |
| Groceries.MergeNumbers | mealplanner/groceries.py:17-22 | a number merged into the rendering of a number that reads back from it gives the rendering of their sum |
| Groceries.MergeText | mealplanner/groceries.py:28-30 | a non-numeric quantity is appended to an earlier entry with " + " |
| Groceries.Tally | mealplanner/groceries.py:8-32 | the result's keys are exactly the non-blank items |
| Groceries.Aggregate | mealplanner/groceries.py:3-33 | the keys are exactly the non-blank stripped items across all recipes; no ingredients give an empty map |
| Groceries.NonBlank | mealplanner/groceries.py:13-14 | keeps exactly the lines with a non-blank item |
| Groceries.TallySkipsBlanks | mealplanner/groceries.py:13-14 | lines with a blank item have no effect |
| Groceries.TallyFrame | mealplanner/groceries.py:15-32 | a line leaves every other item's entry as it was |
| Groceries.TallyLast | mealplanner/groceries.py:15-32 | a line sets its item's entry to the merge of the earlier entry with its quantity |
| Groceries.TallyHasQtys | mealplanner/groceries.py:8-32 | an item has an entry exactly when some line names it |
| Groceries.TallyNumeric | mealplanner/groceries.py:17-26 | when every quantity of an item is numeric and each running sum reads back from its rendering, its entry renders the sum of those quantities |
| Groceries.TallyText | mealplanner/groceries.py:27-32 | when no quantity of an item is numeric, its entry is the quantities from the first non-empty one on, joined with " + " in order, and it is empty exactly when every quantity is |
| Groceries.TallyTextExample | mealplanner/groceries.py:27-32 | an empty quantity followed by `a` for the same item lists just `a` |
| Groceries.TallySingle | mealplanner/groceries.py:15-32 | an item named once gets that quantity, rendered as a number when it parses |

## Left out

- The database, the language-model client, the GUI, configuration and paths are not part
  of this model. `propose_candidates` is a collaborator: its output is the list of raw
  values passed to `Admission.Admit`.
- The `--no-llm` switch is not a parameter. It skips the proposal stage, so that run
  plans from `AllRecipes(curated, Disabled)`, the curated recipes alone. The persistence
  of accepted candidates (`upsert_recipes`) is not modelled; it does not change the plan.
- `ratings_map` is accepted by `plan_week` and never used, so `PlanInput` has no such field.
- The seed itself is not modelled. Any jitter stream of the right range is allowed, so
  the properties hold for every seed.
- The rounding of the three totals (`round(x, 2)`, `round(x, 1)`) is left out. `WeekPlan`
  carries the exact sums.
- Floating-point rounding in scores, sums and comparisons is left out; numbers are reals.
- Validators.HardGuardrails and Scoring.Ok: their characterizations hold only for finite
  numbers. `json.loads` accepts `NaN` and `Infinity`, and `_float("nan")` gives NaN. Every
  comparison with NaN is false. So in the program a NaN protein, fibre or cost, or a cost
  of -Infinity, passes both filters, and a NaN weekly total never triggers the budget
  repair. Reals have no such values.
- `str()` of a list or dict is rendered as a fixed placeholder, not as Python's `repr`.
- `int(text)` accepts only an optional sign and ASCII digits inside white space.
  Underscores and non-ASCII digits are left out.
- `float(text)` and `str(float)` are the abstract `FloatText` codec. Their concrete
  grammar and rendering are not modelled.
- `str.lower` changes only ASCII letters. Other Unicode case mappings are left out.
- Admission.Convert: an ingredient entry that is not a dict disables the whole proposal
  stage. The program admits such a candidate, because `_ok` never reads ingredients. It
  may fail later: in `_protein_group`, when the candidate is scored and its name names no
  protein, or in `aggregate_ingredients`, when it is chosen. Otherwise the run completes
  with it admitted.
- Admission.Admit: on an exception it returns `Disabled` without the partial counters
  (`llm_raw`, `reject_schema`) that the program has already set at that point.
- Admission.JudgeAll: the `clashes` counter exists only in the model. It counts the
  unlikely event that a random suffix produces an id already seen. The distinct-id
  guarantees are stated for runs without a clash. A suffixed id is not checked against
  the exclusion set again; the program does not do that either.
- Planner.Settle: only the pre-repair week is proved to meet the generated-recipe quota.
  After the repair the bound is that at most one generated dinner is lost.
- Validators.NormalizeLlmCandidate: it requires `Normalizable`, the inputs on which the
  program does not raise. The raising inputs are handled by `Admission.Prepare`.
- Curated recipes are taken as typed records. `_validate_recipes`, which checks them on
  loading, is not part of this model.
- Groceries.Aggregate: it reads each ingredient's item and quantity as the strings the
  decoder already produced with `str()`. A recipe without an `ingredients` key is not a
  separate case.
