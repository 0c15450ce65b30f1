# PlayerTracker in Dafny

This project models `PlayerTracker`, the multi-object tracker of the video
player-tracking application, and proves properties of the model. The
tracker keeps a map of active players, each with a position, a smoothed
appearance descriptor and a bounded log of recent samples. It also keeps a
per-player miss counter, the next free id and an append-only history of
`first_detected` / `reidentified` events. One call of `updateTracking`
works in two passes:

1. **Matching.** Every active player, in ascending id order, claims its
   best-scoring unclaimed detection within `maxDistance`. The score is
   `0.6·distance + 0.4·(1 − similarity)·100`. A player that claims nothing
   ages, and it is deleted once its counter has grown too large.
2. **Resolution.** Every detection left unclaimed, in index order, is
   handled in one of two ways:
   - it is re-identified with the most similar stored player whose
     similarity is above 0.7;
   - otherwise it becomes a new player under the next id.

Each call returns one report per detection.

The model is purely functional. `TrackerState` is an immutable record, and
`Tracking.Step` is one call of `updateTracking` that returns the new state
and the output list. The JavaScript `Map` is iterated in insertion order.
Ids are inserted in increasing order and never reused, so that order is
ascending id order. The model therefore walks the ids `1 .. nextPlayerId-1`,
and the invariant `State.Valid` keeps every key inside that range. JS
numbers are modelled as `real`. The Euclidean distance is a parameter,
`dist: Metric`.

Modules, in dependency order:

| module | file | contents |
|---|---|---|
| `Options` | options.dfy | `Option` |
| `Features` | features.dfy | descriptors, similarity measures, exponential smoothing |
| `Players` | players.dfy | detections, players, `createNewPlayer`'s player, `updatePlayer`'s effect |
| `State` | state.dfy | tracker state, its invariant, constructor, `reset`, ageing |
| `Matching` | matching.dfy | the first pass |
| `FirstPassProofs` | first_pass.dfy | the first pass's loop invariant |
| `Reidentification` | reid.dfy | `attemptReidentification` |
| `SecondPass` | second_pass.dfy | the second pass and its loop invariant |
| `Tracking` | tracking.dfy | `updateTracking` and what one call guarantees |
| `Queries` | queries.dfy | `getStats`, `getPlayerHistory` |
| `Runs` | runs.dfy | properties of sequences of calls |

### Where the code differs from its own comments

- **Removal timing.** The constructor's comment at
  `src/playerTracker.js:9` says a player is removed after 30 frames. The code
  compares the counter value read *before* the increment with
  `maxFramesBeforeRemoval` (30) using `>`. A player that was just seen is
  therefore still present after 31 consecutive misses and is deleted on the
  32nd miss. `Runs.RemovalTiming` proves the code's timing.
- **No input validation.** The tracker does not validate or filter its
  detections, so every detection is matched or reported.
- **Falsy fall-through.** The `||` chains that build `getPlayerHistory`'s
  `firstSeen` and `lastSeen` are modelled literally (`Queries.OrElse`). A
  stored `lastSeen` of 0 therefore falls through to the time of the last
  event.
- **Repeated ids.** Re-identification also considers players matched or
  created earlier in the same call. One call can therefore report the same
  id twice, and no contract excludes that.
- **Accuracy.** No code path logs a `lost` event. `Queries.StatsOfValid`
  proves that accuracy is always 100 once the history is non-empty, and 0
  before that.

## Model

| member | source | states |
|---|---|---|
| Features.ColorSimilarity | src/playerTracker.js:217-224 | colour similarity never exceeds 1; it equals 1 exactly when the colours are equal; it is non-negative for 8-bit colours |
| Features.SizeSimilarity | src/playerTracker.js:206-207 | the size term lies in [0, 1] and is 1 exactly on equal sizes |
| Features.AspectSimilarity | src/playerTracker.js:210-211 | the aspect term lies in [0, 1] and is 1 exactly on equal ratios |
| Features.FeatureSimilarity | src/playerTracker.js:201-215 | the weighted similarity is at most 1; it is 1 exactly on identical descriptors; it is non-negative for 8-bit colours |
| Features.FeatureSimilaritySymmetric | src/playerTracker.js:201-224 | similarity does not depend on argument order |
| Features.EmaBetweenShrinksGap | src/playerTracker.js:228-229 | one smoothing step lands between the old and incoming values and shrinks the gap by the factor 1−α |
| Features.Ema | src/playerTracker.js:228-234 | one exponential smoothing step `current·(1−α) + incoming·α`; `Features.EmaBetweenShrinksGap` and `Features.EmaIterateGap` state what it guarantees |
| Features.UpdateFeatures | src/playerTracker.js:226-236 | every component of the smoothed descriptor lies between the old and the incoming one; an equal incoming descriptor is a fixed point; α = 1 adopts the incoming descriptor |
| Features.UpdateFeaturesKeepsColorRange | src/playerTracker.js:231-235 | smoothing keeps 8-bit colours within 0..255 |
| Features.EmaIterateGap | src/playerTracker.js:228-229 | after n smoothing steps towards a fixed value, the remaining gap is (1−α)^n times the initial gap |
| Features.UpdateFeaturesIterateComponents | src/playerTracker.js:226-236 | repeated smoothing of a descriptor acts on each component independently |
| Players.AppendBounded | src/playerTracker.js:166-175 | appending to the sample log keeps at most 50 entries, and the new sample is last |
| Players.AppendBoundedIsSuffix | src/playerTracker.js:172-175 | the bounded log is the most recent suffix of the extended log, so the oldest entries are dropped first |
| Players.AppendBoundedShifts | src/playerTracker.js:172-175 | a full log stays full and every kept entry moves one place towards the front |
| Players.SampleOf | src/playerTracker.js:148-152 | the sample a sighting logs (also at lines 166-170): the call's time, the detection's `[x, y]` and its confidence; `Players.NewPlayer` states a new log holds exactly this sample and `Players.ObserveLogsSample` that an update's log ends with it |
| Players.NewPlayer | src/playerTracker.js:141-154 | a new player carries its id and the detection time as first and last sighting; its position and descriptor are the detection's, and its log holds exactly the one sample |
| Players.Observe | src/playerTracker.js:156-176 | an update keeps the id and first sighting; it sets last sighting and position from the detection; the log stays within 1..50 entries and ends with the new sample |
| Players.ObserveSmooths | src/playerTracker.js:163-164 | an update moves every descriptor component towards the detection's without overshooting, and keeps 8-bit colours 8-bit |
| Players.ObserveLogsSample | src/playerTracker.js:166-175 | the log after an update is the most recent part of the old log plus the new sample; nothing is dropped while the log is not full |
| Players.ObserveFixedPoint | src/playerTracker.js:163-164 | re-observing a descriptor equal to the player's does not change it |
| State.Initial | src/playerTracker.js:2-10 | the constructed tracker is empty, starts ids at 1, and satisfies the tracker invariant |
| State.Reset | src/playerTracker.js:12-17 | from any state, `reset` yields the empty tracker with ids restarting at 1, which satisfies the invariant |
| State.ResetIdempotent | src/playerTracker.js:12-17 | resetting twice is the same as resetting once |
| State.UpdatePlayer | src/playerTracker.js:156-158 | updating an absent id changes nothing; otherwise only that player changes, and counters, ids and history stay untouched |
| State.CreateNewPlayer | src/playerTracker.js:141-154 | storing a new player adds exactly its key and leaves every other player, the counters, ids and history as they were |
| State.Report | src/playerTracker.js:51-61 | the object pushed onto the output (also at lines 88-98 and 114-124): the id, the detection's box and confidence, and the status; `Tracking.StepReportsEveryDetection` states that each detection gets exactly one such report copying its box and confidence |
| State.MarkSeen | src/playerTracker.js:63 | resetting a player's miss counter (also at lines 100 and 126) makes it read 0 and gives the player a counter entry; every other counter, the players, the id counter and the history stay unchanged |
| State.MissCount | src/playerTracker.js:66 | the counter read as `get(id) || 0`: a player without an entry reads 0; `State.Age` and `State.MarkSeen` state their effect in its terms |
| State.Valid | src/playerTracker.js:2-10 | the invariant of every reachable state: ids start at 1 and every key is an issued id; players and counters have the same keys; each player carries its own key and 1 to 50 samples; every history event names an issued id and none is `lost`; `State.Initial`, `State.Reset`, `Tracking.Step` and `Runs.Run` keep it |
| State.Age | src/playerTracker.js:64-74 | An unmatched player is deleted together with its counter when the counter read before the increment exceeds 30, and otherwise keeps its record with the counter one higher, while every other entry, the id counter and the history stay unchanged. |
| Matching.BestMatch | src/playerTracker.js:25-44 | the scan finds nothing exactly when no unclaimed detection is within range; otherwise it returns an eligible detection of minimal score, the lowest index among ties |
| Matching.BestMatchIsTheBest | src/playerTracker.js:25-44 | the scan's answer is exactly the unique reference best choice, in both directions |
| Matching.Score | src/playerTracker.js:33-37 | the score is at least 0.6 times the distance, equals it exactly when the descriptors are identical, and exceeds it by at most 40 for 8-bit colours |
| Matching.Distance | src/playerTracker.js:33 | the distance from the player's last position to the detection's `[x, y]` under the supplied metric; `Matching.Score` and `Matching.BestMatch` state how it is used |
| Matching.Eligible | src/playerTracker.js:31-39 | the gate of the inner scan: the detection is not yet claimed (line 31) and strictly closer than 100 (line 39); `Matching.BestMatch` finds nothing exactly when no detection passes it, and `Matching.BestMatchIsTheBest` ties the scan to the reference choice among those that do |
| Matching.ClaimedBy | src/playerTracker.js:46-63 | a claim observes the player with the detection and resets its counter to 0; it marks the detection used, records the claim, and appends a `tracked` report that copies the detection's box and confidence; no id is issued and nothing is logged |
| Matching.MatchPlayer | src/playerTracker.js:24-75 | one outer iteration: an absent id changes nothing; a player with no eligible detection is aged; otherwise the player claims exactly the reference best choice (`Matching.IsBestAmong`) |
| Matching.MatchUpTo | src/playerTracker.js:24-75 | the first pass over the ids below k issues no id, logs no event, and makes one report per claim; `FirstPassProofs.MatchUpToInv` states its loop invariant |
| Matching.FirstPass | src/playerTracker.js:24-75 | the whole first pass issues no id and logs no event; `FirstPassProofs.FirstPassValid` and `Tracking.StepMatchesGreedily` state what it claims |
| FirstPassProofs.MatchUpToInv | src/playerTracker.js:24-75 | the loop invariant of the first pass holds after every player: unvisited players are untouched; claims are distinct in player and detection; each claim is the greedy best choice; each claimer was observed; each non-claimer was aged |
| FirstPassProofs.FirstPassValid | src/playerTracker.js:24-75 | the first pass preserves the tracker invariant |
| Reidentification.ReidUpTo | src/playerTracker.js:178-193 | the scan over ids below k finds nothing exactly when no player there exceeds the threshold; otherwise it returns the most similar candidate, the lowest id among ties |
| Reidentification.Similarity | src/playerTracker.js:184 | the similarity of a stored player to the detection is at most 1, and exactly 1 when the stored descriptor equals the detection's; `Reidentification.Reidentify` and `Reidentification.ReidentifyIsTheBest` state which player it selects |
| Reidentification.Reidentify | src/playerTracker.js:178-193 | re-identification fails exactly when no stored player is similar enough; otherwise it returns the most similar stored player |
| Reidentification.ReidentifyIsTheBest | src/playerTracker.js:178-193 | re-identification returns j exactly when j is the reference best candidate |
| Reidentification.ExactMatchIsReidentified | src/playerTracker.js:178-193 | a stored player carrying exactly the detection's descriptor guarantees a re-identification, with similarity 1 |
| SecondPass.Resolve | src/playerTracker.js:82-135 | resolving one leftover detection preserves the tracker invariant |
| SecondPass.ResolveReports | src/playerTracker.js:82-135 | resolving a detection appends one report that copies it; the report is `reidentified` exactly when some stored player is similar enough, and then names the best one; otherwise it is `new` under the old counter, which advances by one |
| SecondPass.ResolveUpdates | src/playerTracker.js:84-135 | the reported player is stored with counter 0 and is either the observed old player or a fresh player; every other player and counter is unchanged; the history gains exactly the report's event |
| SecondPass.Leftovers | src/playerTracker.js:78-79 | the leftover indices are exactly the unclaimed indices, in ascending order |
| SecondPass.EventFor | src/playerTracker.js:103-108 | the event logged for a report (also at lines 129-134) names the reported id, the call's time and the report's box corner; it is `first_detected` exactly for a `new` report and `reidentified` exactly for a `reidentified` one, and never `lost` |
| SecondPass.ResolveUpTo | src/playerTracker.js:78-136 | the second pass preserves the tracker invariant |
| SecondPass.ResolveUpToInv | src/playerTracker.js:78-136 | the second pass's loop invariant: one non-`tracked` report per leftover in index order; one event per report; new ids consecutive from the old counter; reported players at counter 0; all others untouched |
| Tracking.Step | src/playerTracker.js:19-139 | one call of `updateTracking` preserves the tracker invariant |
| Tracking.StepFollowsOrder | src/playerTracker.js:19-139 | the output lists claimed detections in player order, then leftovers in index order; this order is a permutation of the detection indices; a report is `tracked` exactly when its detection was claimed |
| Tracking.StepReportsEveryDetection | src/playerTracker.js:19-139 | every detection is reported exactly once, so the output is as long as the input, and each report copies its detection's box and confidence |
| Tracking.StepMatchesGreedily | src/playerTracker.js:24-63 | the claims come first in the output; their players are distinct and increasing and their detections distinct; each claim is the best choice among detections not claimed by lower ids; a non-claimer had nothing eligible |
| Tracking.StepAges | src/playerTracker.js:24-136 | reported players end with counter 0; an unreported player is deleted when its counter already exceeded 30, and otherwise is unchanged with its counter one higher |
| Tracking.StepLogs | src/playerTracker.js:102-134 | the history gains exactly one event per non-`tracked` report, in output order, and loses nothing |
| Tracking.StepUpdatesRecords | src/playerTracker.js:141-176 | after a call every reported player is stored with `lastSeen` equal to the call's time, and its `lastPosition` is the box corner of the last report naming it; a player reported only as `tracked` ends as its old record observed with the detection it claimed |
| Tracking.StepIssuesIds | src/playerTracker.js:109-126 | the `new` reports carry the consecutive ids from the old counter to the new one; every stored player is old or newly issued |
| Tracking.RemovedStaysRemoved | src/playerTracker.js:64-74 | an id once deleted never reappears, because ids are never reissued |
| Queries.CountsPartition | src/playerTracker.js:241-245 | every event either has a given action or has another one |
| Queries.CountAction | src/playerTracker.js:241 | the number of events with a given action, as `filter(...).length` computes it (also at line 277); it never exceeds the number of events; `Queries.CountsPartition` and `Runs.StatsAfterStep` state how it splits the log and how one call raises it |
| Queries.CountOtherThan | src/playerTracker.js:245 | the number of events whose action differs from a given one, the `!== 'lost'` filter; `Queries.CountsPartition` states that it and `Queries.CountAction` add up to the log length, and `Queries.StatsOfValid` that, because a valid history holds no `lost` event, the accuracy built from it is 100 once anything is logged |
| Queries.GetStats | src/playerTracker.js:238-254 | re-identifications never outnumber events; accuracy lies in [0, 100] and is 0 for an empty history |
| Queries.Percentage | src/playerTracker.js:246 | a share is a percentage in [0, 100], and it is exactly 100 when the part is the whole |
| Queries.StatsOfValid | src/playerTracker.js:238-254 | on any valid state: total players is the number of ids issued; active players never exceed it; accuracy is 100 once anything is logged and 0 otherwise |
| Queries.RowFor | src/playerTracker.js:268-279 | a row carries its id, counts that player's events and its `reidentified` events (never more than its events); it is `active` exactly when the player is still stored; `firstSeen` is the first event's time; `lastSeen` is the stored player's last sighting when that is non-zero, and the last event's time otherwise |
| Queries.Group | src/playerTracker.js:258-265 | a player's group holds only that player's events, contains every event of that player, and is no longer than the history; `Queries.PlayerHistoryCovers` and `Queries.PlayerHistoryTotal` show the groups partition the history |
| Queries.OrElse | src/playerTracker.js:274-275 | the JavaScript `||` fall-through on a number: 0 falls through to the alternative; `Queries.RowFor`'s `lastSeen` clause states its effect |
| Queries.RowsBelow | src/playerTracker.js:256-283 | rows cover ids within range and are strictly ascending by id |
| Queries.GetPlayerHistory | src/playerTracker.js:256-283 | the summary rows are strictly ascending by id |
| Queries.PlayerHistoryCovers | src/playerTracker.js:256-283 | a row for a player exists exactly when the player occurs in the history |
| Queries.PlayerHistoryRows | src/playerTracker.js:268-279 | each row's status is `active` exactly when its player is stored, and its detection count is that player's positive number of events |
| Queries.PlayerHistoryTotal | src/playerTracker.js:256-283 | the detection counts of all rows sum to the length of the history |
| Queries.PlayerHistoryReidentifications | src/playerTracker.js:256-283 | the `reidentifications` counts of all rows sum to the re-identification figure of `getStats`, so every such event is counted in exactly one row |
| Runs.Run | src/playerTracker.js:19-139 | any sequence of calls preserves the tracker invariant |
| Runs.MissesAccumulate | src/playerTracker.js:64-74 | a stored player reported by no call stays unchanged, and its counter grows by one per call while it does not exceed 31 |
| Runs.RemovalTiming | src/playerTracker.js:64-74 | a player just seen survives 31 consecutive unreported calls and is deleted by the 32nd |
| Runs.RunIssuesIds | src/playerTracker.js:109-111 | across a run, the `new` reports carry exactly the consecutive ids from the starting counter to the final one, so no id is issued twice |
| Runs.FreshRunIssuesIds | src/playerTracker.js:109-111 | from a fresh tracker the issued ids are exactly 1, 2, … in order |
| Runs.StatsAfterStep | src/playerTracker.js:238-254 | one call raises the re-identification count by its `reidentified` reports and the total by its `new` reports; accuracy stays 100 once anything is logged |

## Left out

- The rest of the application is not part of this model: the detector, the video processor, the UI and the entry point. They call the tracker but do not shape its logic.
- `calculateDistance` (`Math.sqrt` of the squared offsets) is a parameter `dist: Metric`. No property of it is assumed, so every result holds for any metric.
- IEEE-754 rounding, `NaN` and `Infinity` are not modelled. JS numbers are `real`. The initial `Infinity` best score is represented as "no best match yet".
- Queries.GetStats: `accuracy` is the exact real percentage, not the one-decimal string produced by `toFixed(1)`. The empty-history case yields the number 0 in both.
- The `position` entry of a detection's feature bag is not modelled, because the tracker never reads it.
- Descriptors are values. `createNewPlayer` copies the feature bag shallowly, so in the code the stored colour array is shared with the detection, and smoothing it later writes through. That aliasing is not modelled.
- Detections are not validated or filtered, because the tracker performs no validation.
- Runs.MissesAccumulate: stated only while the counter stays at most 31. Beyond that point, `Runs.RemovalTiming` and `Tracking.StepAges` describe the deletion.
- Tracking.Step: its own contract states only that the invariant is kept. What one call does is stated by the `Tracking.Step…` lemmas listed above.
