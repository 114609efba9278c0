# FPL predictor back end: a Dafny model

This project models the core of the back end of an FPL (Fantasy Premier League) predictor:

- **Ingestion.**
  - The bootstrap ingest upserts teams and players.
  - The per-gameweek ingest upserts live player stats, and a loop repeats it over every finished gameweek.
  - The gameweek ingest rewrites deadline text and coerces the event flags to booleans.
  - `GET /gameweeks/current` returns the current and the next gameweek.
- **The rolling-average baseline.** `POST /predictions/baseline/run` averages each player's points over the last N finished gameweeks and upserts one prediction per player.
- **Prediction listing.** `GET /predictions` returns a page of predictions.
- **The squad builder.** `GET /recommendations/squad` is a greedy builder. It picks a 1-3-4-3 starting XI in cycles over FWD, MID, DEF, GKP that alternate between ordering by predicted points and ordering by value, and then a four-player bench by value. Every tentative pick must pass a look-ahead check, position by position: are there still enough eligible players, under the per-team cap, for the quotas, and do the cheapest of them fit the remaining budget?
- **The evaluation script's argument parsers.** `parse_int_arg` and `parse_str_arg` read `--name=value` options from `argv`.

The database is the class `Store.Db`. It holds one map per table: teams and players keyed by FPL id, stats keyed by (player, gameweek), gameweeks keyed by number, and predictions keyed by (player, target gameweek, model name). The routes become methods that update those maps.

Every ingest loop has the same shape: look the key up, insert a new row or overwrite the fields that differ, and count inserts and updates. That shape is written once as the specification function `Upsert.Run`. Its lemmas cover the frame, the counters, "the last record for a key wins" and the re-run that changes nothing. Each route's method is proved equal to `Run` over old state. The loop over finished gameweeks is proved equal to `GwStats.IngestAll`, a fold of the one-gameweek run over the sorted gameweek list. Lemmas about these functions then say what each route promises.

The squad builder follows the source's split into helpers:

- `Candidates`: the query, the position buckets and the two sort orders;
- `Feasibility`: `_remaining_needed`, `_sum_cheapest_cost_m` and `_can_complete_squad`;
- `Picking`: `_try_pick_one`, as the class `Picker`, which holds the shared counters the source mutates and rolls back;
- `Phases`: `_pick_starting_xi` and `_pick_bench`;
- `Squad`: `recommend_squad` and its output assembly.

The central results are these:

- every kept pick passes the look-ahead lower-bound check `_can_complete_squad` with the budget left;
- each phase method returns exactly what its loop, written as a recursive specification function, returns, and `recommend_squad` returns exactly the result those two loops and the checks after them determine; a phase that stops short always records why.
- every squad that `recommend_squad` returns has exactly 2/5/5/3 players drawn from the filtered query, a starting 1-3-4-3 and a four-player bench, distinct players, at most `max_per_team` per team, and a cost within the budget.

Numbers:

- Prices are FPL's `now_cost`, in integer tenths of a million. The budget `budget_m` is taken in the same tenths (500..2000).
- Points are Dafny `real`s.

## Model

| member | source | states |
|---|---|---|
| Store.Flagged | backend/app/models/gameweek.py:18-21 | Holds exactly the gameweeks that carry the flag. |
| Store.FirstFlagged | backend/app/api/routes/gameweeks.py:79-97 | None iff no gameweek carries the flag. Otherwise the result is a flagged gameweek, no flagged gameweek is lower, and it stands for the query's `.first()`. |
| Store.DecideTargetGw | backend/app/api/routes/recommendations.py:40-46 | An explicit target wins. Otherwise the result is the gameweek flagged is_next, or else the "No next gameweek" error, iff none is flagged. |
| Upsert.Step | backend/app/api/routes/ingest.py:29-43 | After one record its key is in the table. |
| Upsert.Run | backend/app/api/routes/ingest.py:24-43 | The keys after the loop are the old keys plus the keys the records name. |
| Upsert.KeysOf | backend/app/api/routes/ingest.py:24-25 | Holds every record's key, and only keys some record names. |
| Upsert.RunPrefix | backend/app/api/routes/ingest.py:24-43 | The loop over one more record is one more Step. |
| Upsert.RunFrame | backend/app/api/routes/ingest.py:24-43 | A row whose key no record names is unchanged. |
| Upsert.RunCounts | backend/app/api/routes/ingest.py:30-43 | Each record bumps at most one counter; when every overwrite counts, exactly one. One primary key is used per insert. |
| Upsert.RunInsertedKeys | backend/app/api/routes/ingest.py:30-32 | `inserted` grows by the number of keys the loop added. |
| Upsert.RunLastWins | backend/app/api/routes/ingest.py:29-43 | A key's final row is the one its last record made from the row the loop had just before it. |
| Upsert.Rerun | backend/app/api/routes/ingest.py:24-43 | Re-running on records with distinct keys, from the state the loop left, changes no row and counts nothing. |
| Upsert.RunIgnoresNextId | backend/app/api/routes/ingest_gw_stats.py:47-85 | When rows do not depend on the surrogate key, the rows and counters do not depend on where the key counter starts. |
| Upsert.RerunFromZero | backend/app/api/routes/gameweeks.py:33-72 | The re-run from a fresh key counter also changes no row and counts nothing. |
| Ingest.ShortNameOf | backend/app/api/routes/ingest.py:27 | A missing or empty short name falls back to the team name. Otherwise it is kept. |
| Ingest.PositionOf | backend/app/api/routes/ingest.py:56-67 | Element types 1..4 give GKP, DEF, MID, FWD. Any other type gives "UNK", which the squad builder does not recognise. |
| Store.PrimaryKeys | backend/app/api/routes/ingest.py:48-49 | Maps each FPL id of a table to its row's primary key, and holds no other key. `Ingest.TeamMap` builds `team_map` with it, and `GwStats.PlayerIdMap` builds `fpl_to_player_id` (ingest_gw_stats.py:23-24). |
| Ingest.TeamsUpserted | backend/app/api/routes/ingest.py:24-43 | The team row of a named id holds the last record's name and short name. Other rows stay unchanged, and counts are at most the payload size. |
| Ingest.PlayersUpserted | backend/app/api/routes/ingest.py:58-112 | The player row of a named id holds the last record's seven fields, with its team resolved through the team map (None if unknown). Other rows stay unchanged. |
| Ingest.ReingestChangesNothing | backend/app/api/routes/ingest.py:12-127 | Ingesting the same payload twice inserts and updates nothing and leaves both tables as they were. |
| Ingest.OverwriteTeam | backend/app/api/routes/ingest.py:33-43 | The result is the existing row with the record's fields, keeping its key; `changed` iff the row differs. |
| Ingest.UpsertTeams | backend/app/api/routes/ingest.py:24-43 | The team table and counters end as `TeamsRun`; other tables are unchanged. |
| Ingest.OverwritePlayer | backend/app/api/routes/ingest.py:87-112 | The result is the existing row with the record's fields, keeping its key; `changed` iff the row differs. |
| Ingest.UpsertPlayers | backend/app/api/routes/ingest.py:58-112 | The player table and counters end as `PlayersRun`; other tables are unchanged. |
| Ingest.IngestFplBootstrap | backend/app/api/routes/ingest.py:12-127 | Both tables and reports are as `Bootstrap` says, and each total is its payload's size. |
| GwStats.StatValue | backend/app/api/routes/ingest_gw_stats.py:41-45 | A missing or null stat reads as 0; otherwise its value. |
| GwStats.Resolve | backend/app/api/routes/ingest_gw_stats.py:32-45 | Each upserted record comes from an element whose player is known, and every such element gives a record; no more records than elements. |
| GwStats.SkippedIds | backend/app/api/routes/ingest_gw_stats.py:33-38 | Holds exactly the ids of the elements whose player is unknown. |
| GwStats.ResolvedOrSkipped | backend/app/api/routes/ingest_gw_stats.py:32-45 | Every element is either upserted or skipped. |
| GwStats.GwCounts | backend/app/api/routes/ingest_gw_stats.py:88-96 | Counters are within the payload size. `skipped_ids` is present iff something was skipped, and then holds the first min(skipped, 20) skipped ids in payload order. |
| GwStats.GwTouchesOnlyItsGameweek | backend/app/api/routes/ingest_gw_stats.py:47-85 | Rows of other gameweeks are neither changed, removed nor added. |
| GwStats.GwLastElementWins | backend/app/api/routes/ingest_gw_stats.py:47-85 | A player's row for the gameweek holds the stats of the last element that resolves to it. |
| GwStats.GwReingestChangesNothing | backend/app/api/routes/ingest_gw_stats.py:17-97 | Re-ingesting the same payload changes no row and counts nothing. |
| GwStats.OverwriteStat | backend/app/api/routes/ingest_gw_stats.py:67-85 | Writes the five stats; `changed` iff any differed. |
| GwStats.IngestOneGw | backend/app/api/routes/ingest_gw_stats.py:17-97 | The stats table and report are `GwRun`/`GwReportOf` of the old state; other tables are unchanged. |
| GwStats.TotalsBound | backend/app/api/routes/ingest_gw_stats.py:112-119 | Summed totals stay within the summed payload sizes. |
| GwStats.IngestListed | backend/app/api/routes/ingest_gw_stats.py:114-116 | One listed gameweek is ingested: the stats table becomes `GwRun` of the old table for that gameweek's payload and the report is `GwReportOf` of it; other tables are unchanged. |
| GwStats.IngestFinishedGameweeks | backend/app/api/routes/ingest_gw_stats.py:105-121 | The stats table and the per-gameweek reports are exactly `IngestAll` over the finished gameweeks in ascending order. One report per finished gameweek, each for its payload; the totals are their sum, and stats of unfinished gameweeks are unchanged. |
| GwStats.IngestAllReports | backend/app/api/routes/ingest_gw_stats.py:112-119 | The fold gives one report per listed gameweek, in list order, each for that gameweek's payload and within its size, and leaves the rows of every unlisted gameweek as they were. |
| GwStats.IngestEach | backend/app/api/routes/ingest_gw_stats.py:114-119 | After the loop, the stats table and the reports are `IngestAll` of the old table over the list; the totals are the reports' sum; other tables are unchanged. |
| Gameweeks.ReplaceZ | backend/app/api/routes/gameweeks.py:20-21 | Leaves no "Z"; text without one is unchanged. |
| Gameweeks.ParseDt | backend/app/api/routes/gameweeks.py:16-22 | A missing or empty text gives None. Text not ending in "Z" is kept. Text ending in "Z" becomes `ReplaceZ` of it, with no "Z" left. |
| Gameweeks.ParseDtUtc | backend/app/api/routes/gameweeks.py:16-22 | An FPL deadline "…Z" becomes "…+00:00". |
| Gameweeks.ParseDtIdempotent | backend/app/api/routes/gameweeks.py:16-22 | Parsing the result again returns it unchanged. This is a property of the modelled `parse_dt` only: the route applies it once per event. |
| Gameweeks.Truthy | backend/app/api/routes/gameweeks.py:36-38 | A flag is true iff present and true. |
| Gameweeks.GameweeksUpserted | backend/app/api/routes/gameweeks.py:33-72 | A named gameweek's row holds its last event, with the deadline normalised and the flags coerced. Other rows stay unchanged. |
| Gameweeks.GameweeksReingestChangesNothing | backend/app/api/routes/gameweeks.py:24-76 | Re-ingesting the same events changes no row and counts nothing. |
| Gameweeks.OverwriteGameweek | backend/app/api/routes/gameweeks.py:54-72 | Writes the five fields; `changed` iff any differed. |
| Gameweeks.IngestGameweeks | backend/app/api/routes/gameweeks.py:24-76 | The gameweek table and report are `GameweeksRun` of the old table; other tables are unchanged. |
| Gameweeks.CurrentAndNext | backend/app/api/routes/gameweeks.py:79-97 | Each half is None iff no gameweek carries its flag; otherwise it is the summary of a gameweek that does. |
| Predictions.FinishedWindow | backend/app/api/routes/predictions.py:34-45 | Holds min(window, #finished) finished gameweeks, strictly ascending, and every finished gameweek left out is lower than all of them. |
| Predictions.WindowPlayers | backend/app/api/routes/predictions.py:48-55 | A player is grouped iff they have a stat row in a window gameweek. |
| Predictions.AverageBounds | backend/app/api/routes/predictions.py:48-55 | A grouped player's average lies between their least and greatest points in the window. |
| Predictions.BaselinePredicts | backend/app/api/routes/predictions.py:61-85 | Every grouped player has this model's prediction for the target gameweek, equal to their average. |
| Predictions.BaselineKeepsOthers | backend/app/api/routes/predictions.py:61-85 | Predictions of other gameweeks, models or players are unchanged. |
| Predictions.BaselineCounts | backend/app/api/routes/predictions.py:58-97 | inserted + updated is the number of grouped players; `inserted` is the number of new predictions. |
| Predictions.UpsertBaseline | backend/app/api/routes/predictions.py:61-85 | The predictions table and counters end as `BaselineRun`, over the players in ascending id order. |
| Predictions.RunBaseline | backend/app/api/routes/predictions.py:16-97 | Ok iff a target gameweek can be decided and some gameweek is finished. With no target, the "No next gameweek" error. With no finished gameweek, the "No finished gameweeks" error. On error, no prediction changes. Otherwise the report names the target, window, gameweeks used, model and counters, and the table is `BaselineRun`. Other tables are unchanged. |
| Predictions.ForTarget | backend/app/api/routes/predictions.py:110-117 | Holds exactly the scanned rows of the target gameweek. |
| Predictions.ListPredictions | backend/app/api/routes/predictions.py:100-137 | `total` counts the target's rows and the request's limit and offset are echoed. The page is the `Page` at offset and limit of some ordering of exactly the target's rows sorted by points descending then player id ascending; it has max(0, min(limit, total − offset)) rows. |
| Predictions.ListingPagesJoin | backend/app/api/routes/predictions.py:114-120 | Two consecutive pages are the page one request spanning both returns. |
| Predictions.TotalIgnoresPaging | backend/app/api/routes/predictions.py:110-112 | `total` does not depend on limit or offset. |
| Predictions.TotalCountsTable | backend/app/models/prediction.py:8-12 | Over a scan of the table, `total` is the number of stored predictions for the gameweek, because (player, gameweek, model) is unique. |
| EvalArgs.Strip | backend/app/services/eval_baseline_mae.py:60 | The result has no whitespace at either end and is no longer than the input. |
| EvalArgs.StripIsMiddle | backend/app/services/eval_baseline_mae.py:60 | Strip returns a slice of its input with only whitespace on both sides. |
| EvalArgs.StripPadded | backend/app/services/eval_baseline_mae.py:60 | Stripping whitespace-padded trimmed text returns that text. |
| EvalArgs.StripIdempotent | backend/app/services/eval_baseline_mae.py:60 | Stripping twice is stripping once. |
| EvalArgs.ParseInt | backend/app/services/eval_baseline_mae.py:63-67 | Accepted text is exactly a digit text, bare or after one "+" or "-" (so no leading, trailing or doubled underscore), and the result is its value with the sign applied. |
| EvalArgs.ParseIntDigits | backend/app/services/eval_baseline_mae.py:63-67 | Digit text parses to its value, also after a leading "+", and to the negated value after a leading "-". |
| EvalArgs.NatToDigits | backend/app/services/eval_baseline_mae.py:63-67 | Gives digit text without underscores whose value is the number. |
| EvalArgs.ParseIntToString | backend/app/services/eval_baseline_mae.py:63-67 | The text of every integer parses back to it. |
| EvalArgs.FirstMatch | backend/app/services/eval_baseline_mae.py:57-59 | The index of the first argument after argv[0] that starts with `--name=`, or None iff there is none. |
| EvalArgs.ArgValue | backend/app/services/eval_baseline_mae.py:57-60 | None iff no argument matches; the value is trimmed. |
| EvalArgs.ArgValueIsFirstMatch | backend/app/services/eval_baseline_mae.py:57-60 | The value is the stripped remainder of the first matching argument. |
| EvalArgs.ParseIntArg | backend/app/services/eval_baseline_mae.py:53-68 | Absent or blank gives the default. Err iff the value is non-blank and not an integer, with the script's message. Otherwise Ok of `ParseInt` of the stripped value. |
| EvalArgs.ParseStrArg | backend/app/services/eval_baseline_mae.py:71-80 | Absent or blank gives the default; otherwise the stripped value. |
| EvalArgs.ProgramNameIgnored | backend/app/services/eval_baseline_mae.py:58 | argv[0] is never read as an option. |
| EvalArgs.FirstMatchWins | backend/app/services/eval_baseline_mae.py:58-59 | Arguments after the first match change nothing. |
| EvalArgs.ParseIntArgRoundTrip | backend/app/services/eval_baseline_mae.py:53-68 | `--name=` followed by an integer's text, padded with whitespace, parses to that integer. |
| EvalArgs.ParseIntArgRejects | backend/app/services/eval_baseline_mae.py:63-67 | A non-blank non-integer value gives the error naming the option and the stripped value. |
| EvalArgs.ParseStrArgRoundTrip | backend/app/services/eval_baseline_mae.py:71-80 | A padded non-blank value is returned stripped. |
| Ordering.SortDesc | backend/app/api/routes/recommendations.py:141-156 | The result is a permutation of the input, sorted by key descending. |
| Ordering.SortDescStable | backend/app/api/routes/recommendations.py:141-156 | Elements with equal keys keep their input order. |
| Ordering.SortAsc | backend/app/api/routes/recommendations.py:189 | `costs.sort()`: a sorted permutation. |
| Ordering.PrefixSumIsMinimal | backend/app/api/routes/recommendations.py:189-190 | The sum of the k smallest elements is at most the sum of any k of them. |
| Ordering.SortedSet | backend/app/api/routes/ingest_gw_stats.py:107-109 | The set's elements, strictly ascending. |
| Candidates.ParsePosition | backend/app/api/routes/recommendations.py:130-138 | Recognises exactly the four position names. |
| Candidates.BaseCandidates | backend/app/api/routes/recommendations.py:49-76 | Keeps exactly the joined rows that match the gameweek, model, status, max cost and min points filters. |
| Candidates.CalcValue | backend/app/api/routes/recommendations.py:84-87 | Value times cost is the points, and a non-positive cost counts as 0.1m. |
| Candidates.ValueOfTenths | backend/app/api/routes/recommendations.py:79-87 | For a positive price in tenths, value × price = 10 × points. |
| Candidates.BuildCandidateBuckets | backend/app/api/routes/recommendations.py:130-138 | Each bucket holds its position's rows in input order. |
| Candidates.GroupByPosition | backend/app/api/routes/recommendations.py:460-465 | The one-pass loop builds the same buckets. |
| Candidates.BucketContents | backend/app/api/routes/recommendations.py:130-138 | A bucket holds each row of its position exactly as often as the input does. |
| Candidates.BucketSizes | backend/app/api/routes/recommendations.py:130-138 | The bucket sizes plus the unrecognised rows add up to the input size. |
| Candidates.SortBucketOrder | backend/app/api/routes/recommendations.py:141-156 | The result is a permutation ordered by points with its tie-breaks, or by value then points. |
| Candidates.SortBucketStable | backend/app/api/routes/recommendations.py:141-156 | Rows with equal keys keep their bucket order. |
| Candidates.SortBuckets | backend/app/api/routes/recommendations.py:336-337 | Each position's bucket is sorted. |
| Feasibility.RemainingNeeded | backend/app/api/routes/recommendations.py:162-163 | The least non-negative counts that top `have` up to the quota. |
| Feasibility.EligibleMembers | backend/app/api/routes/recommendations.py:178-184 | Keeps exactly the unselected rows whose team is under the cap. |
| Feasibility.CheapestSum | backend/app/api/routes/recommendations.py:186-190 | 0 for k ≤ 0. Otherwise None iff fewer than k costs. |
| Feasibility.CheapestSumIsLowerBound | backend/app/api/routes/recommendations.py:166-190 | No choice of k eligible costs is cheaper. |
| Feasibility.CheapestSumAttained | backend/app/api/routes/recommendations.py:166-190 | Some actual choice of k costs achieves the sum. |
| Feasibility.MinCostDefined | backend/app/api/routes/recommendations.py:203-233 | Once the quantity test passes, the lower bound exists. |
| Feasibility.EligibleCosts | backend/app/api/routes/recommendations.py:178-184 | The loop collects the eligible rows' costs in bucket order. |
| Feasibility.SumCheapestCostM | backend/app/api/routes/recommendations.py:166-190 | Equals CheapestSum of the bucket's eligible costs. |
| Feasibility.QuantityCheck | backend/app/api/routes/recommendations.py:203-214 | True iff every position has enough eligible rows. |
| Feasibility.LowerBoundCheck | backend/app/api/routes/recommendations.py:217-233 | True iff the cheapest completion exists and fits the budget. |
| Feasibility.CanCompleteSquad | backend/app/api/routes/recommendations.py:193-233 | Equals `CanComplete`: both checks, in the source's order. |
| Picking.Inc | backend/app/api/routes/recommendations.py:279-284 | Adds one to a key's count. |
| Picking.Dec | backend/app/api/routes/recommendations.py:301-312 | Takes one from a key's count and deletes the key when its count reaches zero; other keys are unchanged. |
| Picking.IncDec | backend/app/api/routes/recommendations.py:279-312 | Decrementing a count just incremented restores the counter. |
| Picking.RollbackRestores | backend/app/api/routes/recommendations.py:301-312 | A rolled-back candidate leaves no trace in the shared state. |
| Picking.FirstAcceptable | backend/app/api/routes/recommendations.py:269-299 | The first row that passes every guard and the feasibility check, or None iff no row does. |
| Picking.PickPreservesConsistency | backend/app/api/routes/recommendations.py:239-314 | A kept row comes from the bucket and fits the budget. The counters stay equal to the picked rows' counts, within the quotas and the team cap. |
| Picking.PickKeepsSquadCompletable | backend/app/api/routes/recommendations.py:286-299 | After a kept pick, the new state passes the look-ahead lower-bound check `CanComplete` with the budget left. |
| Picking.Picker.constructor | backend/app/api/routes/recommendations.py:328-331 | The shared state starts empty. |
| Picking.Picker.HypotheticalAdd | backend/app/api/routes/recommendations.py:279-284 | The state becomes AddPick of the old state. |
| Picking.Picker.Rollback | backend/app/api/routes/recommendations.py:301-312 | The state becomes RemovePick of the old state. |
| Picking.Picker.TryRow | backend/app/api/routes/recommendations.py:269-312 | Keeps the row iff it is acceptable; the state is AddPick when kept and unchanged otherwise. |
| Picking.Picker.FirstKept | backend/app/api/routes/recommendations.py:269-314 | Once the guards pass, the result and state are `PickSpec`: the first acceptable row is added, or the "no feasible" error. |
| Picking.Picker.TryPickOne | backend/app/api/routes/recommendations.py:239-314 | The result and new state are `PickSpec` of the old state. |
| Phases.PhaseStep | backend/app/api/routes/recommendations.py:360-386 | One pick on a sorted bucket keeps the phase invariant, adding the kept row and paying for it. |
| Phases.AbsorbStep | backend/app/api/routes/recommendations.py:363-386 | Given one `_try_pick_one` answer and the picker's new state, the cycle's next state is `Absorb` of it: a kept row is appended and paid for, a refusal adds its prefixed message while fewer than six reasons are kept; the phase invariant holds after it. |
| Phases.TakeAnswer | backend/app/api/routes/recommendations.py:376-386 | The rows, budget, reasons and progress flag after one answer are `Absorb`'s. |
| Phases.RunCycle | backend/app/api/routes/recommendations.py:359-386 | The rows, budget, reasons, picker state and progress flag after one pass over the positions are `Cycle` of the old state, which skips positions already filled; the phase invariant is kept. |
| Phases.StartingLoopStops | backend/app/api/routes/recommendations.py:349-394 | The starting loop ends with the formation met, or with the guard or no-progress message as the last reason, or with six reasons already kept. |
| Phases.BenchLoopStops | backend/app/api/routes/recommendations.py:415-455 | The bench loop ends with the squad quota met, or with the guard or no-progress message as the last reason, or with six reasons already kept. |
| Phases.PickInCycle | backend/app/api/routes/recommendations.py:366-386 | The rows, budget, reasons and picker state after one `_try_pick_one` call are `PickAt` of the old state; the phase invariant is kept. |
| Phases.PickStartingXi | backend/app/api/routes/recommendations.py:317-396 | The rows, budget left, picker state and reasons are exactly `StartingSpec`, the loop run from a fresh picker. The rows are distinct, come from the buckets and fit the budget, with the counters consistent under the formation and the squad quota. |
| Phases.ConsistentForBench | backend/app/api/routes/recommendations.py:409 | The bench phase starts from a consistent state without the formation. |
| Phases.PickBench | backend/app/api/routes/recommendations.py:399-457 | The bench rows, budget left, picker state and reasons are exactly `BenchSpec` of the starting phase's state. They are distinct from each other and from the starting XI, come from the buckets and fit the remaining budget, within the quota and team cap. |
| Phases.BenchCycles | backend/app/api/routes/recommendations.py:415-455 | The bench rows, budget left, picker state and reasons are `BenchLoop` from no rows, the whole remaining budget and no reasons. |
| Squad.TeamCountPermutation | backend/app/api/routes/recommendations.py:651-652 | Team counts do not depend on row order. |
| Squad.CostPermutation | backend/app/api/routes/recommendations.py:651-652 | Total cost does not depend on row order. |
| Squad.RegroupPermutation | backend/app/api/routes/recommendations.py:651-652 | Grouping and reading back gives a reordering of recognised rows. |
| Squad.CandidatesCount | backend/app/api/routes/recommendations.py:526 | Each position's count is its bucket's size. |
| Squad.MissingByPosition | backend/app/api/routes/recommendations.py:529-554 | A position has a shortfall entry iff it has fewer candidates than the squad rule; every entry holds its rule and count, and the entries follow the GKP, DEF, MID, FWD order with no position twice. |
| Squad.CountByPosition | backend/app/api/routes/recommendations.py:566-571 | Counts each position's rows. |
| Squad.FlattenPosDict | backend/app/api/routes/recommendations.py:672-676 | GKP, DEF, MID, FWD lists, concatenated. |
| Squad.BenchList | backend/app/api/routes/recommendations.py:678-699 | The first bench goalkeeper, then the outfielders in DEF, MID, FWD order, four at most. |
| Squad.BenchListWholeBench | backend/app/api/routes/recommendations.py:678-699 | For a bench of one goalkeeper and three outfielders, the list is the whole bench. |
| Squad.Tag | backend/app/api/routes/recommendations.py:706-713 | The result is `Tagged(items, role)`, whose slot i+1 holds item i with its role. |
| Squad.TaggedSlots | backend/app/api/routes/recommendations.py:706-713 | `Tagged` has one slot per item, and slot i+1 holds item i with the role. |
| Squad.SlotsTagged | backend/app/api/routes/recommendations.py:715 | A list whose first slots number the starting XI and whose later slots number the bench is the tagged XI followed by the tagged bench. |
| Squad.EffectiveStatus | backend/app/api/routes/recommendations.py:511 | "all" disables the status filter; any other status is kept. |
| Squad.PhaseCounts | backend/app/api/routes/recommendations.py:610-643 | When both checks pass, the bench holds 1/2/1/0 players and the phases hold 11 and 4 players. |
| Squad.LengthCheckRedundant | backend/app/api/routes/recommendations.py:610-615 | Once every position reaches its quota the squad has exactly 15 players. |
| Squad.StartingPhaseChecked | backend/app/api/routes/recommendations.py:566-596 | Passing the starting check means an exact 1-3-4-3 and a state the bench phase accepts. |
| Squad.FinalCheckFails | backend/app/api/routes/recommendations.py:610-643 | The final check fails only when some position is short. |
| Squad.StartingFailureExplained | backend/app/api/routes/recommendations.py:565-596 | A starting XI short of the formation comes with the starting loop's guard or no-progress message last, or six reasons. |
| Squad.SquadFailureExplained | backend/app/api/routes/recommendations.py:609-643 | A squad that fails the final check comes with the bench loop's guard or no-progress message last, or six reasons. |
| Squad.StoppedWithReasonAfter | backend/app/api/routes/recommendations.py:635 | Putting the starting reasons before the bench's keeps the bench's stop reason visible. |
| Squad.StartingFailedIsPhasesResult | backend/app/api/routes/recommendations.py:565-596 | The StartingFailed answer built from the starting phase's outcome is `PhasesResult`. |
| Squad.BenchResultIsPhasesResult | backend/app/api/routes/recommendations.py:557-607 | After a starting XI that meets the formation, the bench phase's result is `PhasesResult`. |
| Squad.FinalCheckIsBenchResult | backend/app/api/routes/recommendations.py:609-743 | The final check's failure answer or assembled squad, for rows `BenchSpec` produced, is `BenchResult`. |
| Squad.AssembleSquad | backend/app/api/routes/recommendations.py:651-713 | The result groups each phase's rows by position, holds the bench list, and numbers the starting XI's slots before the bench's, each slot holding its row; spend, budget left, team counts and squad counts are passed through. |
| Squad.AssembledSquadLayout | backend/app/api/routes/recommendations.py:651-715 | The squad the output section builds has the grouped phases, the bench list and the slot layout `AssembleSquad` promises. |
| Squad.AssembledUnique | backend/app/api/routes/recommendations.py:651-715 | Any result with that layout is the squad the output section builds, so the layout determines the result. |
| Squad.SquadFromPhases | backend/app/api/routes/recommendations.py:557-743 | Passing both phases and both checks gives a valid squad. |
| Squad.BuildSquad | backend/app/api/routes/recommendations.py:557-743 | The result is exactly `PhasesResult`, the outcome the two phase loops and the checks after them determine. A failed starting check has a short position and a recorded stop reason; a failed final check likewise; a success is a valid squad. |
| Squad.CompleteSquad | backend/app/api/routes/recommendations.py:598-743 | The bench phase, the final check and the output give exactly `BenchResult` of the starting phase's state; a failure has a short position and a stop reason; a success is a valid squad. |
| Squad.FinalCheck | backend/app/api/routes/recommendations.py:609-743 | Short of the quota or of 15 rows: SquadFailed with both phases' reasons, the counts, spend and team counts. Otherwise the assembled squad, which is valid. |
| Squad.FinishSquad | backend/app/api/routes/recommendations.py:645-743 | The squad built by the output section has the assembled layout and is valid. |
| Squad.RecommendSquad | backend/app/api/routes/recommendations.py:472-743 | The no-target error iff the target cannot be decided. Not-enough-candidates iff some bucket is below its rule, with exactly one shortfall per short position (its rule and count), in GKP, DEF, MID, FWD order. Past those, the result is exactly `PhasesResult` of the filtered buckets. Each failure names a short position and a stop reason. A returned squad is valid: exact quotas, 1-3-4-3, distinct players from the filtered query, team cap and budget. |

## Left out

- HTTP fetches of the FPL bootstrap, live and events payloads are parameters of the methods; `backend/app/services/fpl_client.py` is not part of this model.
- Sessions, `commit`, autoflush and transactions are modelled as immediate map updates; `backend/app/core/db.py` is not part of this model.
- Floating point: prices are integer tenths, and the source's `1e-9` slack in budget comparisons is dropped because integer costs do not need it. `round(...)` in the responses and float serialisation are not modelled. Averages are exact reals.
- `datetime.fromisoformat` is not modelled: deadlines stay as the text `parse_dt` would hand to it, and a malformed deadline's exception is not modelled. Gameweeks.OverwriteGameweek therefore compares deadlines as text, where the source compares datetime values (gameweeks.py:56): two spellings of one instant count as a change in the model only.
- Timestamps (`created_at`, `generated_at`) are not modelled.
- `int(...)` and `str(...)` coercion of JSON values and their exceptions are not modelled: payload fields are typed already.
- `bool(...)` of a non-boolean JSON flag is not modelled: flags are `Option<bool>`.
- The `view=compact|full` serialisation and the echoed request filters are not modelled; the result datatype holds the data both views are built from.
- Store.FirstFlagged: the queries behind `.first()` have no ORDER BY, so the model takes the lowest flagged gameweek, one choice of the rows the database could return.
- Predictions.UpsertBaseline: the order of the SQL `GROUP BY` rows is not fixed; the model visits players in ascending id order, which changes no row and no counter.
- Predictions.ListPredictions: rows with equal points and player id (possible only across model names) come in the order the table is given in, which stands for the database's order.
- The surrogate primary keys of the stats, gameweeks and predictions tables are not modelled; teams and players keep theirs, since the team map reads them.
- EvalArgs.ParseInt: digits are ASCII only. Python's `int()` also accepts other Unicode decimal digits, which the model rejects.
- EvalArgs.Strip: whitespace is the set Python's `str.isspace` accepts, written out as code points.
- `run_eval` and the rest of `eval_baseline_mae.py` (the database queries, the error metric, printing and the exit status) are not modelled; only the two argument parsers are.
- Phases.PickBench: the source resets `starting_have` to an empty dict on every bench call; the model does that once when the bench phase starts, which is equivalent since the bench never reads it.
- Feasibility.CanCompleteSquad: the look-ahead check is a per-position lower bound, as in the source: it counts eligible rows and sums the cheapest costs position by position, so it ignores how the team cap couples positions. A kept pick passes this check, which does not guarantee that the squad can still be completed; the model proves no more than the check states.
- Ingest.PlayersUpserted: a player whose team id has no team row gets team None, as the source's dictionary lookup gives; `backend/app/models/player.py:18` declares `team_id` as a non-optional `Mapped[int]`, which makes the column NOT NULL, so the source's commit would then fail. The database constraint and the failed commit are not modelled.
