# Mapa 2026 — a verified model of the priority wizard

Mapa 2026 is a self-assessment wizard for ten life "pillars". On each pillar the user
enters three things:

- a current score (2025),
- a target score (2026),
- an importance weight.

The user can also pick practices.

From these the app computes a ranking:

- `gap = max(0, target - current)`;
- `priorityScore = gap * importance`;
- the pillars are sorted stably by score, highest first;
- a pillar with no gap is MAINTENANCE; any other pillar gets a level by its position in the sorted list: HIGH for the first 3 positions, MEDIUM for the next 4, MAINTENANCE after that.

The results screen shows the scores on a radar chart and groups the ranked pillars by
level.

This project models that core in Dafny and proves what it promises.

- `types.dfy` (`Types`): the records of `types.ts`.
  - `PillarDefinition`, `UserPillarData`, `ProcessedPillar`.
  - `Level` for `PriorityLevel`.
  - `Field` for the three numeric fields.
  - The store type `Assessment`, a `map<string, UserPillarData>`.
- `catalog.dfy` (`Catalog`): the data of `constants.ts`.
  - The ten-entry `PILLARS` catalog and `INITIAL_PILLAR_DATA`.
  - `getInitialData` as a method, with the loop that fills the store.
- `store.dfy` (`Store`): the two edit handlers of `App.tsx`, as functions over the store.
  - `handleUpdate` and `handleTogglePractice`.
- `sort.dfy` (`StableSort`): a stable, descending sort by an integer key.
  - `Sort` is the specification; `SortInPlace` is the in-place array method proved against it.
  - `StableSortUnique` proves that any descending arrangement that keeps the input order within each key equals `Sort`. So the result does not depend on which stable algorithm the JavaScript engine uses.
- `engine.dfy` (`Engine`): `calculatePriorities`.
  - The specification function `Priorities`.
  - The imperative `CalculatePriorities`: it fills an array, sorts it in place, then sets each level in a loop (`AssignLevelsInPlace`).
  - The lemmas about the ranking.
- `wizard.dfy` (`Wizard`): the class `Session`, which holds `step` and `data`.
  - One method per button or input handler.
  - A button that is not rendered at the current step reports `shown == false` and changes nothing.
- `report.dfy` (`Report`): the modelled part of `components/StepResults.tsx`.
  - The radar-chart rows, with labels shortened to 15 characters plus `...`.
  - The three level groups.
- `seqs.dfy` (`Seqs`): `Filter` (JavaScript's `Array.prototype.filter`), subsequences and distinctness.

JavaScript's sort has been stable since section 22.1.3.27 of ECMA-262, 10th edition, so
equal scores keep catalog order. The model states this as `StableSort.SortStable`.

Selected practices behave like a set, but `handleTogglePractice` keeps a list:

- toggling removes every occurrence of a present practice;
- toggling appends an absent practice at the end.

The model follows the code.

## Model

| member | source | states |
|---|---|---|
| Catalog.CatalogShape | constants.ts:3-64 | the catalog has exactly 10 entries, pairwise distinct ids, and 3 practices per pillar |
| Catalog.GetInitialData | constants.ts:74-80 | the store built by the loop has a key for every catalog id and no other, and every record is the default (5, 8, 3, no practices) |
| Store.Update | App.tsx:42-47 | the chosen field of pillar `id` becomes `value`; its other fields, its practices, every other pillar and the key set are unchanged |
| Store.UpdateTwice | App.tsx:42-47 | two updates of the same field keep only the last value |
| Store.ToggledList | App.tsx:51-54 | afterwards the practice is selected exactly when it was not before, and every other practice occurs as often as before |
| Store.ToggleRemovalKeepsOrder | App.tsx:53 | removing a practice keeps the remaining practices in their order (a subsequence) |
| Store.ToggleAdditionAppends | App.tsx:54 | adding an absent practice appends it after the existing ones |
| Store.ToggleTwiceMembership | App.tsx:52-54 | toggling the same practice twice restores the membership of every practice |
| Store.ToggleTwiceRestores | App.tsx:52-54 | toggling an initially absent practice twice restores the exact list |
| Store.TogglePractice | App.tsx:49-61 | only pillar `id`'s selected practices change, to the toggled list; the key set and other pillars are unchanged |
| Store.TogglePracticeTwice | App.tsx:49-61 | at store level, a double toggle restores membership and every other pillar, and the whole store when the practice was absent |
| Store.FreshRecordsIndependent | constants.ts:74-80 | after initialisation, updating or toggling one pillar leaves every other catalog pillar equal to the default record |
| Engine.Gap | App.tsx:74 | the gap is never negative, at least target minus current, and either 0 or exactly that difference |
| Engine.LevelBands | App.tsx:91-101 | at position i: MAINTENANCE iff gap 0 or i >= 7; HIGH iff gap non-zero and i < 3; MEDIUM iff gap non-zero and 3 <= i < 7; nothing but the level changes |
| Engine.LevelsOrdered | App.tsx:91-101 | no HIGH pillar comes after a MEDIUM one, and nothing but MAINTENANCE comes after a pillar demoted to MAINTENANCE by position |
| Engine.PrioritiesRanking | App.tsx:71-104 | the output has one entry per catalog pillar (same multiset of ids), is non-increasing in score, and keeps catalog order within each score; each entry carries its record, with gap and score derived from it, and apart from its level is exactly `{...def, ...userData, gap, priorityScore}` for one catalog definition `def` |
| Engine.NoGapIsMaintenance | App.tsx:74-101 | a pillar whose target is at or below its current score ends with gap 0, score 0 and level MAINTENANCE, whatever its importance |
| Engine.CatalogRanking | App.tsx:72-87 | over the real catalog the output has 10 entries, and every catalog id occurs exactly once and no other id occurs |
| Engine.ExampleProcessed | App.tsx:72-84 | worked example: pillar 0 at (2, 9, 5) scores 35, pillar 1 at (3, 10, 4) scores 28, the eight defaults score 9 |
| Engine.WorkedExample | App.tsx:71-104 | worked example: the ranking is in catalog order with scores 35, 28 and eight 9s; positions 0-2 are HIGH, 3-6 MEDIUM and 7-9 MAINTENANCE |
| Engine.TenWithGaps | App.tsx:91-101 | ten sorted pillars that all have a gap get HIGH at positions 0-2, MEDIUM at 3-6 and MAINTENANCE at 7-9, keeping ids and scores |
| Engine.AssignLevelsInPlace | App.tsx:91-101 | the level loop over the sorted array leaves exactly `AssignLevels` of its old contents, so `LevelBands` describes every entry |
| Engine.CalculatePriorities | App.tsx:71-104 | the array-and-loop engine returns exactly `Priorities`, so every lemma above holds of it |
| StableSort.SortPermutes | App.tsx:87 | sorting is a permutation (equal multisets) |
| StableSort.SortOrders | App.tsx:87 | the sorted list is non-increasing in the key |
| StableSort.SortStable | App.tsx:87 | for every key value, the elements with that key appear in their input order |
| StableSort.StableSortUnique | App.tsx:87 | any non-increasing list with the same per-key subsequences as the input equals `Sort`, so every stable descending sort gives this result |
| StableSort.SortKeepsDescending | App.tsx:87 | a list that is already non-increasing is left as it is |
| StableSort.InsertInPlace | App.tsx:87 | the in-place insertion step turns the prefix plus one element into `Insert` of them and leaves the rest of the array alone |
| StableSort.SortInPlace | App.tsx:87 | the in-place sort leaves `Sort` of the original contents in the array |
| Seqs.FilterMembers | components/StepResults.tsx:28-30 | an element is in the filtered list exactly when it is in the input and passes |
| Seqs.FilterMultiset | components/StepResults.tsx:28-30 | a passing element occurs as often as in the input, a failing one not at all |
| Seqs.FilterIsSubsequence | components/StepResults.tsx:28-30 | a filtered list is a subsequence of its input |
| Wizard.FieldOf | App.tsx:109-111 | the scoring steps 1, 2 and 3 write score2025, score2026 and importance respectively |
| Wizard.Session.constructor | App.tsx:15-16 | a session starts at the landing step with the initial store |
| Wizard.Session.Start | App.tsx:108 | the start button exists only at step 0 and moves to step 1; the store is unchanged |
| Wizard.Session.Back | App.tsx:151-160 | the back button exists only for steps 1-4 and moves back one step; the store is unchanged |
| Wizard.Session.Next | App.tsx:151-167 | the next button exists only for steps 1-4 and moves forward one step; the store is unchanged |
| Wizard.Session.Reset | App.tsx:63-68 | the reset button exists only after step 0; when confirmed the step becomes 0 and the store the initial store, otherwise nothing changes |
| Wizard.Session.Slide | App.tsx:109-111 | a range input exists only on steps 1-3 and applies `handleUpdate` with that step's field; the step is unchanged |
| Wizard.Session.Toggle | App.tsx:112 | a practice card exists only on step 4 and applies `handleTogglePractice`; the step is unchanged |
| Wizard.Session.Results | App.tsx:113 | the ranking is shown only on step 5 and is then `Priorities` of the catalog and the current store |
| Report.Label | components/StepResults.tsx:20 | a name of at most 15 characters is kept; a longer one becomes its first 15 characters followed by `...`, 18 in all |
| Report.LabelKeepsPrefix | components/StepResults.tsx:20 | a label starts with the first min(15, length) characters of the name |
| Report.ChartData | components/StepResults.tsx:19-25 | one row per pillar in the same order, carrying the label, the full name, both scores and `fullMark` 10 |
| Report.ChartFollowsRanking | components/StepResults.tsx:19-25 | on the engine's output, row i shows the i-th ranked pillar's name, which is the catalog name for its id (the only one when ids are distinct, as in the catalog), and the user's two scores for that pillar |
| Report.GroupContents | components/StepResults.tsx:28-30 | a group holds exactly the pillars of its level, each as often as in the input, in input order |
| Report.GroupsPartition | components/StepResults.tsx:28-30 | the three groups are pairwise disjoint and together hold every element of the input |
| Report.RankingGroupSizes | App.tsx:91-101 | on the engine's output at most 3 pillars are HIGH and at most 4 are MEDIUM |

## Left out

- Persistence: loading and saving the session in `localStorage` as JSON (App.tsx:18-35) is browser I/O. A session always starts at step 0 with the initial store. Restored state is never validated: it could hold any step, a store that lacks catalog ids or has extra ones, or values that are not integers. The model does not capture any of this.
- The confirmation dialog of `handleReset` is user interaction. It is the `confirmed` parameter of `Wizard.Session.Reset`. Clearing the stored state on reset belongs to persistence and is left out with it.
- Scrolling to the top on each step change is a display side effect.
- `getProgress` and the goal marker are floating-point percentages for display.
- The PDF and PNG export of `StepResults.tsx` is asynchronous calls into html2canvas and jsPDF.
- The radar chart, the layout, the styling and the logo are library rendering.
- The step screens only forward range inputs and clicks to the handlers. The 1-10 and 1-5 limits are HTML attributes, and the store accepts any integer, so the model takes any `int`.
- `services/apiService.ts` and `vite.config.ts` are a logging stub and build configuration.
- Numbers are integers. A JavaScript `number` could be fractional or NaN; the range inputs never produce either.
- Store.Update: requires that the pillar id is in the store. With a missing id the source would create a record with a single field. Every caller passes a catalog id.
- Store.TogglePractice: requires that the pillar id is in the store. With a missing id the source throws. Every caller passes a catalog id.
- Engine.CalculatePriorities: requires a record for every catalog id (`Covers`); so do `Engine.Priorities` and the lemmas about it. The source throws a TypeError at App.tsx:74 when a record is missing, which can happen only with unvalidated restored state (see Persistence).
- Store.FreshRecordsIndependent: holds in the model by value semantics. In the source, `{ ...INITIAL_PILLAR_DATA }` (constants.ts:77) is a shallow copy, so all ten default records share one `selectedPractices` array. Independence holds there only because `handleTogglePractice` builds a new array (filter or spread, App.tsx:53-54) and never mutates the old one in place. The model does not capture this sharing.
- Report.Label: counts Dafny characters. JavaScript's `length` and `substring` count UTF-16 code units. The two differ only for characters outside the Basic Multilingual Plane, and no catalog name has one.
- Engine.CalculatePriorities: the level loop writes the updated record back into the array. The source mutates the processed objects in place; they are fresh objects that nothing else references.
- Engine.CalculatePriorities: the source's sort algorithm is the JavaScript engine's own. The model uses insertion sort. `StableSort.StableSortUnique` shows that every stable descending sort produces the same list.
- Wizard.Session.Results: the source recomputes the ranking on every render of step 5. The model computes it once per call, from the same state.
