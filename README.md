# Star chart progression graph and unlock evaluator

This project models the core of the `WarframeStarChart` class in `script.js`.
That core is a progression map of planets. Each planet has tiers, each tier has
topics, and each topic is a list of achievements. Each planet also has a
`completed` list of achievement ids. From this structure the model derives:

- whether a tier is completed or unlocked;
- whether an achievement is `locked`, `available` or `completed`;
- the integer radii of the planet layout.

It also models the three commands that change the `completed` lists:
completing one achievement, bulk unlock and bulk reset.

Modules:

- `StringOrder` (`string_order.dfy`): the lexicographic string order that
  JavaScript's `.sort()` uses on tier keys, an insertion sort proved sorted and
  a permutation, and `indexOf`.
- `Graph` (`graph.dfy`): the data model. Ordered JSON objects (tiers, topics)
  are sequences of `(key, value)` pairs in the order `Object.keys` enumerates
  them (integer-like keys first, ascending, then the rest in insertion order). The planet map is a
  Dafny `map`. `completed` is `Option<seq<string>>`, because the document may
  leave it out.
- `Evaluator` (`evaluator.dfy`): `isTierCompleted`, `isTierUnlocked`,
  `findAchievement`, `findTierForAchievement` and `getAchievementStatus` as
  functions over the planets, with the lemmas that state what they mean.
- `Controller` (`controller.dfy`): class `StarChart`. Its field `planets` is
  the `this.achievements.planets` object. Its methods update that field in
  place, as `completeAchievement`, `bulkUnlock` and `bulkReset` do. Its method
  `IsTierCompleted` runs the collect-then-check loops of `isTierCompleted` and
  is proved equal to the evaluator's predicate. Each command is tied to a
  function on the planets (`Complete`, `UnlockAll`, `ResetAll`), and lemmas
  state what those functions do.
- `Layout` (`layout.dfy`): the elements `createPlanetContent` creates, in
  creation order, with their integer radii. A branch is created per topic, a
  node per achievement (with the status it is drawn with) and a junction per
  topic of every tier but the last. The loops are methods proved equal to a
  specification function, and lemmas state the radius rules and counts.

Behaviour of the code worth noting:

- **Tier unlocking.** The id `"tier1"` is unlocked by name. Any other id is
  unlocked when it is not a tier key, or when it sorts first among the sorted
  tier keys. Otherwise it is unlocked exactly when the key just before it in
  lexicographic order is a completed tier. That order is by string, so with
  tiers `tier1`, `tier2` and `tier10`, `tier2` waits for `tier10`
  (`Evaluator.Tier10SortsBeforeTier2`).
- **Owning tier.** The tier that owns an achievement is found in key-enumeration
  order, not in sorted order. The model keeps both orders.
- **No existence check on completion.** `completeAchievement` appends any id,
  including one that is in no topic, and it does not check status. The UI only
  offers it for an `available` achievement (script.js:506-510). A stray id has
  no effect on any tier or any other achievement. It does make its own status
  read `completed`, because that test comes first
  (`Evaluator.StrayIdIsInert`).
- **Junction unlock flag.** A junction carries the unlock flag of the tier it
  is drawn for (script.js:338), not of the tier it leads to.
- **Reset scope and saved data.** `bulkReset` clears every planet; it has no
  per-planet form. Saved completion data is read at start-up but never merged
  into the graph, so the model has no merge rule. Both bulk commands end by
  reloading the page, which fetches the achievements document afresh, so in the
  running program neither has a lasting effect; the model describes the
  in-memory planets just before that reload.
- **Layout constants.** The layout constants are the literals of the code:
  base 80, step 30, jitter 15, junction offset 40.

## Model

| member | source | states |
|---|---|---|
| StringOrder.SortStrings | script.js:415 | the sorted tier keys are in ascending lexicographic order and are a permutation of the keys |
| StringOrder.IndexOf | script.js:416 | `indexOf`: -1 exactly when absent, otherwise the first position holding the key |
| StringOrder.SortedPredecessor | script.js:418-421 | in the sorted keys, index 0 means no key sorts before the tier; a positive index means the key just before it is the greatest key sorting before it |
| StringOrder.InsertSorted | script.js:415 | one insertion step keeps the keys sorted and adds exactly the inserted key |
| StringOrder.ConsSorted | script.js:415 | a key that sorts no later than every key of a sorted list can go in front and the list stays sorted |
| Graph.FindTier | script.js:427 | `tiers[tierId]` is absent exactly when the id is not a tier key; otherwise it is a tier stored under that id |
| Graph.TierIdsHas | script.js:433-435 | the ids collected from a tier's topics are exactly the ids found in some topic of the tier |
| Graph.AllIdsHas | script.js:682-684 | the ids of all tiers, in scan order, are exactly the ids found in some tier |
| Graph.AddId | script.js:531-532 | push-if-absent: the id is present afterwards, nothing else is added, the old list is a prefix, the length grows by one exactly when the id was absent, and no duplicate appears |
| Graph.AddAll | script.js:682-690 | pushing a run of ids if absent: the result holds exactly the old ids and the run's ids, keeps the old list as a prefix, and stays duplicate-free |
| Evaluator.TierCompleted | script.js:425-439 | `isTierCompleted`: true only for an existing tier of a known planet; `TierCompletedIff` states the full condition |
| Evaluator.TierUnlocked | script.js:408-423 | `isTierUnlocked`: false for an unknown planet and true for an id that is not a tier key; `TierUnlockedByOrder` states the full condition |
| Evaluator.AchievementStatus | script.js:357-379 | `getAchievementStatus`: `completed` exactly when the planet is known and the id is in its `completed` list, and `available` only for an id of the planet; `AvailableIff` and `UnknownIdIsLocked` state the rest |
| Evaluator.FindInTopic | script.js:387 | `topic.find`: found exactly when some achievement has the id, and the result is the first such achievement |
| Evaluator.FindInTopics | script.js:386-389 | found exactly when some topic holds the id; the result is `topic.find` of the first topic that holds it |
| Evaluator.FindInTiers | script.js:385-390 | found exactly when some tier holds the id; the result is the first match within the first tier that holds it |
| Evaluator.FindAchievement | script.js:381-392 | found exactly when the planet exists and some topic of some tier holds the id; the result is the first achievement with that id in tier-then-topic scan order |
| Evaluator.FindTierIn | script.js:398-405 | none exactly when no tier holds the id; otherwise the first tier in key-enumeration order that holds it, with its id |
| Evaluator.FindTierForAchievement | script.js:394-406 | none exactly when the planet is unknown or no tier holds the id; otherwise the first owning tier in key-enumeration order |
| Evaluator.UnknownPlanetFailsSoft | script.js:408-410 | for an unknown planet, no tier is unlocked or completed and every status is `locked`, without failing |
| Evaluator.Tier1AlwaysUnlocked | script.js:412-413 | `"tier1"` is unlocked on every known planet, whatever `completed` holds |
| Evaluator.TierUnlockedByOrder | script.js:415-422 | for any other id: unlocked iff it is not a key, or no key sorts before it, or the greatest key sorting before it is a completed tier |
| Evaluator.TierCompletedIff | script.js:425-438 | completed iff the tier exists and every id in any of its topics is in `completed` |
| Evaluator.EmptyTierIsCompleted | script.js:433-438 | an existing tier whose topics are all empty is completed |
| Evaluator.UnknownTierNotCompleted | script.js:427 | an id that is not a tier key, or an unknown planet, gives not completed |
| Evaluator.TierCompletedFrame | script.js:429-438 | tier completion depends on `completed` only through ids that occur in the planet's tiers |
| Evaluator.TierUnlockedFrame | script.js:415-422 | tier unlocking depends on `completed` only through ids that occur in the planet's tiers |
| Evaluator.StrayIdIsInert | script.js:429-438 | adding an id found in no topic changes no tier's completion or unlock and no other achievement's status; the stray id itself reads `completed` |
| Evaluator.CompletedOverridesLock | script.js:361-364 | the status is `completed` exactly when the planet exists and the id is in its `completed` list, before any lock test |
| Evaluator.UnknownIdIsLocked | script.js:367-368 | an id in no topic and not completed is `locked` |
| Evaluator.AvailableIff | script.js:366-378 | `available` exactly when not completed and the first tier in key-enumeration order holding the id is unlocked |
| Evaluator.StatusMonotone | script.js:357-379 | adding ids to `completed` never moves a status back: locked, then available, then completed |
| Evaluator.TierCompletedMonotone | script.js:437-438 | a completed tier stays completed when ids are added to `completed` |
| Evaluator.TierUnlockedMonotone | script.js:418-422 | an unlocked tier stays unlocked when ids are added to `completed` |
| Evaluator.TierUnlockedIsPerPlanet | script.js:408-422 | whether a tier is unlocked depends on its own planet only |
| Evaluator.StatusIsPerPlanet | script.js:357-358 | an achievement's status depends on its own planet only |
| Evaluator.Tier10SortsBeforeTier2 | script.js:415 | with tier keys `tier1`, `tier2`, `tier10`: `tier2` is unlocked iff `tier10` is completed, and `tier10` iff `tier1` is completed |
| Controller.Complete | script.js:524-533 | `completeAchievement` on the planets: same planet ids and tiers, and the id is in the planet's `completed` list afterwards; `CompleteEffect` states the whole effect |
| Controller.UnlockAll | script.js:677-691 | `bulkUnlock` on the planets: same planet ids and tiers; `UnlockAllEffect` states the new `completed` lists |
| Controller.ResetAll | script.js:699-701 | `bulkReset` on the planets: same planet ids and tiers, and every `completed` list is empty |
| Controller.StarChart.constructor | script.js:38-46 | the chart holds the planets loaded from the achievements document |
| Controller.StarChart.CompleteAchievement | script.js:524-540 | the new planets are `Complete` of the old ones |
| Controller.StarChart.BulkUnlock | script.js:675-695 | the new planets are `UnlockAll` of the old ones |
| Controller.StarChart.BulkReset | script.js:697-705 | the new planets are `ResetAll` of the old ones |
| Controller.StarChart.IsTierCompleted | script.js:425-439 | the collect-then-every loops return exactly `TierCompleted` of the current planets |
| Controller.PushIds | script.js:684-688 | the innermost push loop gives the old list with every missing id of the topic added, in order |
| Controller.PushTierIds | script.js:683-689 | the topic loop gives the old list with every missing id of the tier added, topic after topic |
| Controller.PushAllIds | script.js:682-690 | the nested push loops for one planet give the old list with every missing tier id added in scan order |
| Controller.CompleteEffect | script.js:524-533 | no-op on an unknown planet; otherwise the list is created if absent, the id is appended only if absent, the tiers and other planets are unchanged, no duplicate is introduced, and the id reads `completed` |
| Controller.CompleteIdempotent | script.js:531-533 | completing an id twice equals completing it once |
| Controller.CompleteAdvances | script.js:524-533 | completing an available achievement makes it completed and moves no achievement of any planet backward |
| Controller.UnlockAllEffect | script.js:677-691 | for every planet: every id of its tiers is in `completed`, nothing else is added, prior entries keep their order at the front, and a duplicate-free list stays duplicate-free |
| Controller.UnlockAllCompletesEverything | script.js:675-691 | after bulk unlock, every achievement reads `completed` and every tier is completed |
| Controller.ResetAllEffect | script.js:699-701 | after bulk reset, every planet has an empty `completed` list and the same tiers |
| Controller.ResetTierCompletedIff | script.js:699-701 | after bulk reset, a tier is completed iff it exists and holds no achievement |
| Controller.ResetStatus | script.js:697-705 | after bulk reset, an achievement first owned by `"tier1"` is available; one whose owning tier's sorted predecessor holds an achievement is locked |
| Controller.ScenarioStart | script.js:357-379 | two-tier planet, nothing completed: `a1` is available and `b1` is locked |
| Controller.ScenarioSteps | script.js:524-533 | completing `a1` and then `a2` on the fresh planet leaves `completed` as exactly `["a1", "a2"]` |
| Controller.ScenarioDone | script.js:357-379 | with `a1` and `a2` completed, `tier1` is completed and `b1` is available |
| Controller.ScenarioEnd | script.js:524-533 | after completing `a1` and then `a2`, `tier1` is completed and `b1` is available |
| Layout.BranchRadius | script.js:229 | the branch radius is at least 80 |
| Layout.NodeRadius | script.js:238 | a node sits at its branch radius for an even achievement index and 15 beyond it for an odd one |
| Layout.JunctionRadius | script.js:248 | a junction sits outside the node band of its tier |
| Layout.TierBandsDisjoint | script.js:229-248 | branch radius strictly grows with tier index; two nodes of one tier share a radius exactly when their achievement indices have the same parity; node radii of different tiers never coincide; a junction sits 40 beyond the branch |
| Layout.CreateTopicContent | script.js:224-254 | the topic loop body emits exactly the topic's branch, its nodes and, unless the tier is last, its junction |
| Layout.CreateTierContent | script.js:224 | the topic loop emits exactly the items of every topic of the tier |
| Layout.CreatePlanetContent | script.js:205-256 | the tier loop emits exactly `PlanetContent`, and nothing for an unknown planet |
| Layout.LayoutRadii | script.js:220-255 | every created element belongs to an existing tier and topic; each node is the achievement at its index, at `branchRadius + (achIndex % 2) * 15`, with its current status; each junction is on a tier that is not the last, 40 beyond the branch, with that tier's id and unlock flag |
| Layout.LayoutCounts | script.js:220-255 | one junction per topic of every tier except the last, and one node per achievement, in tier, topic and achievement order |

## Left out

- DOM, SVG, CSS, tooltip, modal and zoom code, audio and event wiring
  (script.js:48-126, script.js:158-203, script.js:258-355, script.js:441-522,
  script.js:542-605): rendering and browser I/O with no logic of their own.
  `refreshPlanetContent` is part of that rendering.
- Floating-point geometry: planet ring placement in `createPlanets` and every
  angle and cos/sin coordinate in `createPlanetContent`. Layout items keep the
  tier, topic and achievement indices the angles are computed from instead.
- Fetching the config and achievements documents, `localStorage`,
  `location.reload`, the JSON download, and the unused saved-data read at
  start-up: I/O. The constructor takes the already loaded planets.
- The admin password check and the admin select population: UI credential
  handling, not logic.
- app.js is not part of this model. It is a separate prototype with a
  different data shape.
- Character order: JavaScript's sort compares UTF-16 code units, while the
  model compares Dafny characters (Unicode scalar values). The two agree on
  every string of Basic Multilingual Plane characters.
- Inherited object properties: an id such as `constructor` resolves to a
  prototype member in JavaScript. The model treats every id that is not a key
  as absent.
- Malformed documents: a tier without `topics` or a topic that is not a list
  would throw in JavaScript. The model's types only admit well-shaped graphs.
- Key order: JavaScript enumerates an object's integer-like keys (`"1"`,
  `"10"`) first, in ascending numeric order, and the other keys after them in
  insertion order. The model takes the tier and topic sequences as already in
  that enumeration order and does not compute it from the document text.
- Duplicate keys: a parsed JSON object cannot hold the same key twice. The
  model's key sequences may, and lookups then take the first entry.
- Controller.StarChart.BulkUnlock: visits the planets in an unspecified order
  rather than `Object.keys` order, and builds each planet's list in a local
  variable that is stored once per planet. The result does not depend on
  either choice.
