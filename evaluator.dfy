/** The unlock evaluator of the star chart: the status of a tier or an
    achievement, derived afresh from the planet's tiers and `completed` list on
    every query (script.js, `getAchievementStatus` through `isTierCompleted`). */
module Evaluator {
  import opened StringOrder
  import opened Graph

  datatype Status = Locked | Available | Completed

  /** `isTierCompleted`: the planet exists, has a tier under that id, and every
      achievement id of every topic of the tier is in `completed`. */
  predicate TierCompleted(g: Planets, planetId: string, tierId: string)
    ensures TierCompleted(g, planetId, tierId) ==> planetId in g && tierId in Keys(g[planetId].tiers)
  {
    && planetId in g
    && match FindTier(g[planetId].tiers, tierId)
       case None => false
       case Some(t) => forall id :: id in TierIds(t) ==> id in CompletedOf(g[planetId])
  }

  /** `isTierUnlocked`: `"tier1"` is always unlocked; any other id is unlocked
      when it is not a tier key or sorts first among the tier keys, and
      otherwise exactly when the key just before it in sorted order is a
      completed tier. */
  predicate TierUnlocked(g: Planets, planetId: string, tierId: string)
    ensures planetId !in g ==> !TierUnlocked(g, planetId, tierId)
    ensures planetId in g && tierId !in Keys(g[planetId].tiers) ==> TierUnlocked(g, planetId, tierId)
  {
    if planetId !in g then false
    else if tierId == "tier1" then true
    else
      var order := SortStrings(Keys(g[planetId].tiers));
      var i := IndexOf(order, tierId);
      assert tierId !in Keys(g[planetId].tiers) ==> i == -1 by {
        assert tierId in order ==> tierId in multiset(order);
      }
      if i <= 0 then true else TierCompleted(g, planetId, order[i - 1])
  }

  /** `topic.find(a => a.id === id)`: the first achievement with that id. */
  function FindInTopic(achievements: seq<Achievement>, id: string): (r: Option<Achievement>)
    ensures r.Some? <==> TopicHas(achievements, id)
    ensures r.Some? ==> exists i :: 0 <= i < |achievements| && achievements[i] == r.value
                          && r.value.id == id
                          && forall j :: 0 <= j < i ==> achievements[j].id != id
  {
    if achievements == [] then None
    else if achievements[0].id == id then Some(achievements[0])
    else
      var r := FindInTopic(achievements[1..], id);
      assert forall i :: 1 <= i < |achievements| ==> achievements[i] == achievements[1..][i - 1];
      r
  }

  /** Tier `i` is the first tier, in key-enumeration order, with an achievement `id`. */
  ghost predicate IsFirstOwner(tiers: seq<(string, Tier)>, i: int, id: string)
  {
    && 0 <= i < |tiers|
    && TierHas(tiers[i].1, id)
    && forall j :: 0 <= j < i ==> !TierHas(tiers[j].1, id)
  }

  /** The scan over the topics of one tier: `topic.find` on each topic in turn,
      stopping at the first hit. */
  function FindInTopics(topics: seq<(string, seq<Achievement>)>, id: string): (r: Option<Achievement>)
    ensures r.Some? <==> exists j :: 0 <= j < |topics| && TopicHas(topics[j].1, id)
    ensures r.Some? ==> r.value.id == id
    ensures r.Some? ==> exists j :: 0 <= j < |topics| && r == FindInTopic(topics[j].1, id)
                          && forall j' :: 0 <= j' < j ==> !TopicHas(topics[j'].1, id)
  {
    if topics == [] then None
    else
      match FindInTopic(topics[0].1, id)
      case Some(a) => Some(a)
      case None =>
        assert forall j :: 1 <= j < |topics| ==> topics[j] == topics[1..][j - 1];
        var rest := FindInTopics(topics[1..], id);
        if rest.Some? then
          ghost var k :| 0 <= k < |topics[1..]| && rest == FindInTopic(topics[1..][k].1, id)
                         && forall j' :: 0 <= j' < k ==> !TopicHas(topics[1..][j'].1, id);
          assert forall j' :: 0 <= j' < k + 1 ==> !TopicHas(topics[j'].1, id);
          rest
        else rest
  }

  /** When the head tier lacks the id, the first owner among the other tiers is
      the first owner overall, one position further on. */
  lemma FirstOwnerShift(tiers: seq<(string, Tier)>, k: int, id: string)
    requires tiers != [] && !TierHas(tiers[0].1, id)
    requires IsFirstOwner(tiers[1..], k, id)
    ensures IsFirstOwner(tiers, k + 1, id)
  {
    forall j | 0 <= j < k + 1
      ensures !TierHas(tiers[j].1, id)
    {
      if j > 0 {
        assert tiers[j] == tiers[1..][j - 1];
      }
    }
  }

  /** The scan over the tiers of a planet: the topic scan on each tier in turn,
      stopping at the first hit. */
  function FindInTiers(tiers: seq<(string, Tier)>, id: string): (r: Option<Achievement>)
    ensures r.Some? <==> exists i :: 0 <= i < |tiers| && TierHas(tiers[i].1, id)
    ensures r.Some? ==> r.value.id == id
    ensures r.Some? ==> exists i :: IsFirstOwner(tiers, i, id) && r == FindInTopics(tiers[i].1.topics, id)
  {
    if tiers == [] then None
    else
      match FindInTopics(tiers[0].1.topics, id)
      case Some(a) =>
        assert TierHas(tiers[0].1, id);
        assert IsFirstOwner(tiers, 0, id);
        Some(a)
      case None =>
        assert forall i :: 1 <= i < |tiers| ==> tiers[i] == tiers[1..][i - 1];
        var rest := FindInTiers(tiers[1..], id);
        if rest.Some? then
          ghost var k :| IsFirstOwner(tiers[1..], k, id) && rest == FindInTopics(tiers[1..][k].1.topics, id);
          FirstOwnerShift(tiers, k, id);
          assert tiers[1..][k] == tiers[k + 1];
          rest
        else rest
  }

  /** `findAchievement`: scans tiers, then topics, in key-enumeration order, and
      returns the first achievement with the id. */
  function FindAchievement(g: Planets, planetId: string, id: string): (r: Option<Achievement>)
    ensures r.Some? <==> planetId in g && PlanetHas(g[planetId], id)
    ensures r.Some? ==> r.value.id == id
    ensures r.Some? ==> exists i :: IsFirstOwner(g[planetId].tiers, i, id)
                          && r == FindInTopics(g[planetId].tiers[i].1.topics, id)
  {
    if planetId !in g then None else FindInTiers(g[planetId].tiers, id)
  }

  function FindTierIn(tiers: seq<(string, Tier)>, id: string): (r: Option<(string, Tier)>)
    ensures r.None? <==> forall i :: 0 <= i < |tiers| ==> !TierHas(tiers[i].1, id)
    ensures r.Some? ==> exists i :: IsFirstOwner(tiers, i, id) && tiers[i] == r.value
  {
    if tiers == [] then None
    else if FindInTopics(tiers[0].1.topics, id).Some? then Some(tiers[0])
    else
      assert forall i :: 1 <= i < |tiers| ==> tiers[i] == tiers[1..][i - 1];
      var rest := FindTierIn(tiers[1..], id);
      if rest.Some? then
        ghost var k :| IsFirstOwner(tiers[1..], k, id) && tiers[1..][k] == rest.value;
        assert IsFirstOwner(tiers, k + 1, id);
        rest
      else rest
  }

  /** `findTierForAchievement`: the id and the tier of the first tier, in
      key-enumeration order, that holds the achievement. */
  function FindTierForAchievement(g: Planets, planetId: string, id: string): (r: Option<(string, Tier)>)
    ensures r.None? <==> planetId !in g || !PlanetHas(g[planetId], id)
    ensures r.Some? ==> exists i :: IsFirstOwner(g[planetId].tiers, i, id) && g[planetId].tiers[i] == r.value
  {
    if planetId !in g then None else FindTierIn(g[planetId].tiers, id)
  }

  /** `getAchievementStatus`. */
  function AchievementStatus(g: Planets, planetId: string, id: string): (r: Status)
    ensures r == Completed <==> planetId in g && id in CompletedOf(g[planetId])
    ensures r == Available ==> planetId in g && PlanetHas(g[planetId], id)
  {
    if planetId !in g then Locked
    else if g[planetId].completed.Some? && id in g[planetId].completed.value then Completed
    else if FindAchievement(g, planetId, id).None? then Locked
    else
      match FindTierForAchievement(g, planetId, id)
      case None => Locked
      case Some(entry) => if !TierUnlocked(g, planetId, entry.0) then Locked else Available
  }

  // ---- properties of the evaluator ----

  /** The graph with the `completed` list of one planet replaced. */
  function WithCompleted(g: Planets, planetId: string, c: seq<string>): (r: Planets)
    requires planetId in g
    ensures r.Keys == g.Keys
    ensures r[planetId].tiers == g[planetId].tiers && CompletedOf(r[planetId]) == c
    ensures forall q :: q in g && q != planetId ==> r[q] == g[q]
  {
    g[planetId := g[planetId].(completed := Some(c))]
  }

  /** For an unknown planet id nothing fails: no tier is unlocked or completed
      and every achievement is locked. */
  lemma UnknownPlanetFailsSoft(g: Planets, planetId: string, tierId: string, id: string)
    requires planetId !in g
    ensures !TierUnlocked(g, planetId, tierId)
    ensures !TierCompleted(g, planetId, tierId)
    ensures AchievementStatus(g, planetId, id) == Locked
  {
  }

  /** `"tier1"` is unlocked on every known planet, whatever `completed` holds. */
  lemma Tier1AlwaysUnlocked(g: Planets, planetId: string, c: seq<string>)
    requires planetId in g
    ensures TierUnlocked(g, planetId, "tier1")
    ensures TierUnlocked(WithCompleted(g, planetId, c), planetId, "tier1")
  {
  }

  /** Any other tier id is unlocked exactly when it is not a tier key, or no
      tier key sorts before it, or the greatest tier key sorting before it
      names a completed tier. */
  lemma TierUnlockedByOrder(g: Planets, planetId: string, tierId: string)
    requires planetId in g && tierId != "tier1"
    ensures var keys := Keys(g[planetId].tiers);
      TierUnlocked(g, planetId, tierId) <==>
        || tierId !in keys
        || (forall k :: k in keys ==> !Less(k, tierId))
        || exists k :: IsPredecessor(keys, k, tierId) && TierCompleted(g, planetId, k)
  {
    var keys := Keys(g[planetId].tiers);
    var order := SortStrings(keys);
    var i := IndexOf(order, tierId);
    assert forall k :: k in order <==> k in keys by {
      forall k ensures k in order <==> k in keys {
        assert k in order <==> k in multiset(order);
        assert k in keys <==> k in multiset(keys);
      }
    }
    if tierId in keys {
      SortedPredecessor(order, tierId);
      if i > 0 {
        var p := order[i - 1];
        assert IsPredecessor(keys, p, tierId);
        if exists k :: IsPredecessor(keys, k, tierId) && TierCompleted(g, planetId, k) {
          var k :| IsPredecessor(keys, k, tierId) && TierCompleted(g, planetId, k);
          PredecessorUnique(keys, k, p, tierId);
        }
      }
    }
  }

  /** A tier is completed exactly when it exists and every achievement found in
      any of its topics is in `completed`. */
  lemma TierCompletedIff(g: Planets, planetId: string, tierId: string)
    requires planetId in g
    ensures TierCompleted(g, planetId, tierId) <==>
      && tierId in Keys(g[planetId].tiers)
      && forall id :: TierHas(FindTier(g[planetId].tiers, tierId).value, id) ==> id in CompletedOf(g[planetId])
  {
    var r := FindTier(g[planetId].tiers, tierId);
    if r.Some? {
      forall id ensures id in TierIds(r.value) <==> TierHas(r.value, id) {
        TierIdsHas(r.value, id);
      }
    }
  }

  /** A tier none of whose topics holds an achievement is completed, even with
      an empty or absent `completed` list. */
  lemma EmptyTierIsCompleted(g: Planets, planetId: string, tierId: string)
    requires planetId in g && tierId in Keys(g[planetId].tiers)
    requires forall j :: 0 <= j < |FindTier(g[planetId].tiers, tierId).value.topics| ==>
               FindTier(g[planetId].tiers, tierId).value.topics[j].1 == []
    ensures TierCompleted(g, planetId, tierId)
  {
    TierCompletedIff(g, planetId, tierId);
  }

  /** An id that is not a tier key never names a completed tier. */
  lemma UnknownTierNotCompleted(g: Planets, planetId: string, tierId: string)
    requires planetId !in g || tierId !in Keys(g[planetId].tiers)
    ensures !TierCompleted(g, planetId, tierId)
  {
  }

  /** Tier completion, and hence tier unlocking, depends on `completed` only
      through the ids that occur in the planet's tiers. */
  lemma TierCompletedFrame(g: Planets, planetId: string, c: seq<string>, tierId: string)
    requires planetId in g
    requires forall x :: PlanetHas(g[planetId], x) ==> (x in c <==> x in CompletedOf(g[planetId]))
    ensures TierCompleted(WithCompleted(g, planetId, c), planetId, tierId) == TierCompleted(g, planetId, tierId)
  {
    var tiers := g[planetId].tiers;
    var r := FindTier(tiers, tierId);
    if r.Some? {
      var i :| 0 <= i < |tiers| && tiers[i] == (tierId, r.value);
      forall x | x in TierIds(r.value) ensures x in c <==> x in CompletedOf(g[planetId]) {
        TierIdsHas(r.value, x);
        assert TierHas(tiers[i].1, x);
      }
    }
  }

  lemma TierUnlockedFrame(g: Planets, planetId: string, c: seq<string>, tierId: string)
    requires planetId in g
    requires forall x :: PlanetHas(g[planetId], x) ==> (x in c <==> x in CompletedOf(g[planetId]))
    ensures TierUnlocked(WithCompleted(g, planetId, c), planetId, tierId) == TierUnlocked(g, planetId, tierId)
  {
    var order := SortStrings(Keys(g[planetId].tiers));
    var i := IndexOf(order, tierId);
    if tierId != "tier1" && i > 0 {
      TierCompletedFrame(g, planetId, c, order[i - 1]);
    }
  }

  /** An id in `completed` that occurs in no topic is inert: it completes and
      unlocks no tier and changes no other achievement's status; only its own
      status reads `Completed`, since that test comes first. */
  lemma StrayIdIsInert(g: Planets, planetId: string, stray: string)
    requires planetId in g && !PlanetHas(g[planetId], stray)
    ensures var g' := WithCompleted(g, planetId, CompletedOf(g[planetId]) + [stray]);
      && (forall tierId :: TierCompleted(g', planetId, tierId) == TierCompleted(g, planetId, tierId))
      && (forall tierId :: TierUnlocked(g', planetId, tierId) == TierUnlocked(g, planetId, tierId))
      && (forall id :: id != stray ==> AchievementStatus(g', planetId, id) == AchievementStatus(g, planetId, id))
      && AchievementStatus(g', planetId, stray) == Completed
  {
    var c := CompletedOf(g[planetId]) + [stray];
    var g' := WithCompleted(g, planetId, c);
    forall tierId ensures TierCompleted(g', planetId, tierId) == TierCompleted(g, planetId, tierId) {
      TierCompletedFrame(g, planetId, c, tierId);
    }
    forall tierId ensures TierUnlocked(g', planetId, tierId) == TierUnlocked(g, planetId, tierId) {
      TierUnlockedFrame(g, planetId, c, tierId);
    }
  }

  /** Completion overrides locking: the status is `Completed` exactly when the
      id is in the planet's `completed` list, whatever the tiers say. */
  lemma CompletedOverridesLock(g: Planets, planetId: string, id: string)
    ensures AchievementStatus(g, planetId, id) == Completed <==> planetId in g && id in CompletedOf(g[planetId])
  {
  }

  /** Fail-soft: an id in no topic, and not completed, is locked. */
  lemma UnknownIdIsLocked(g: Planets, planetId: string, id: string)
    requires planetId !in g || (!PlanetHas(g[planetId], id) && id !in CompletedOf(g[planetId]))
    ensures AchievementStatus(g, planetId, id) == Locked
  {
  }

  lemma FirstOwnerUnique(tiers: seq<(string, Tier)>, i: int, j: int, id: string)
    requires IsFirstOwner(tiers, i, id) && IsFirstOwner(tiers, j, id)
    ensures i == j
  {
  }

  /** An achievement is available exactly when it is not completed and the
      first tier in key-enumeration order that holds it is unlocked, the unlock rule
      itself looking at the sorted tier keys. */
  lemma AvailableIff(g: Planets, planetId: string, id: string)
    ensures AchievementStatus(g, planetId, id) == Available <==>
      && planetId in g
      && id !in CompletedOf(g[planetId])
      && exists i :: IsFirstOwner(g[planetId].tiers, i, id) && TierUnlocked(g, planetId, g[planetId].tiers[i].0)
  {
    if planetId in g && id !in CompletedOf(g[planetId]) && PlanetHas(g[planetId], id) {
      var tiers := g[planetId].tiers;
      var r := FindTierForAchievement(g, planetId, id);
      var k :| IsFirstOwner(tiers, k, id) && tiers[k] == r.value;
      forall i | IsFirstOwner(tiers, i, id) ensures i == k {
        FirstOwnerUnique(tiers, i, k, id);
      }
    }
  }

  function Rank(s: Status): nat
  {
    match s
    case Locked => 0
    case Available => 1
    case Completed => 2
  }

  /** Growing `completed` never moves a tier back from completed. */
  lemma TierCompletedMonotone(g: Planets, planetId: string, c: seq<string>, tierId: string)
    requires planetId in g
    requires forall x :: x in CompletedOf(g[planetId]) ==> x in c
    requires TierCompleted(g, planetId, tierId)
    ensures TierCompleted(WithCompleted(g, planetId, c), planetId, tierId)
  {
  }

  lemma TierUnlockedMonotone(g: Planets, planetId: string, c: seq<string>, tierId: string)
    requires planetId in g
    requires forall x :: x in CompletedOf(g[planetId]) ==> x in c
    requires TierUnlocked(g, planetId, tierId)
    ensures TierUnlocked(WithCompleted(g, planetId, c), planetId, tierId)
  {
    var order := SortStrings(Keys(g[planetId].tiers));
    var i := IndexOf(order, tierId);
    if tierId != "tier1" && i > 0 {
      TierCompletedMonotone(g, planetId, c, order[i - 1]);
    }
  }

  /** Statuses only move forward (locked, then available, then completed) when
      ids are added to `completed`; there is no cascade to recompute. */
  lemma StatusMonotone(g: Planets, planetId: string, c: seq<string>, id: string)
    requires planetId in g
    requires forall x :: x in CompletedOf(g[planetId]) ==> x in c
    ensures Rank(AchievementStatus(g, planetId, id)) <= Rank(AchievementStatus(WithCompleted(g, planetId, c), planetId, id))
  {
    var g' := WithCompleted(g, planetId, c);
    if AchievementStatus(g, planetId, id) == Available && id !in c {
      var entry := FindTierForAchievement(g, planetId, id).value;
      assert FindTierForAchievement(g', planetId, id) == Some(entry);
      TierUnlockedMonotone(g, planetId, c, entry.0);
    }
  }

  /** Tier keys sort as strings, not as numbers: with tiers `tier1`, `tier2`
      and `tier10`, `tier2` waits for `tier10` and `tier10` for `tier1`. */
  lemma Tier10SortsBeforeTier2(g: Planets, planetId: string)
    requires planetId in g && Keys(g[planetId].tiers) == ["tier1", "tier2", "tier10"]
    ensures TierUnlocked(g, planetId, "tier2") == TierCompleted(g, planetId, "tier10")
    ensures TierUnlocked(g, planetId, "tier10") == TierCompleted(g, planetId, "tier1")
  {
    var keys := Keys(g[planetId].tiers);
    assert Less("tier1", "tier10");
    assert Less("tier10", "tier2");
    assert Less("tier1", "tier2");
    LessAsymmetric("tier1", "tier10");
    LessAsymmetric("tier10", "tier2");
    LessAsymmetric("tier1", "tier2");
    LessIrreflexive("tier2");
    LessIrreflexive("tier10");
    assert IsPredecessor(keys, "tier10", "tier2");
    assert IsPredecessor(keys, "tier1", "tier10");
    TierUnlockedByOrder(g, planetId, "tier2");
    TierUnlockedByOrder(g, planetId, "tier10");
    if TierUnlocked(g, planetId, "tier2") {
      var k :| IsPredecessor(keys, k, "tier2") && TierCompleted(g, planetId, k);
      PredecessorUnique(keys, k, "tier10", "tier2");
    }
    if TierUnlocked(g, planetId, "tier10") {
      var k :| IsPredecessor(keys, k, "tier10") && TierCompleted(g, planetId, k);
      PredecessorUnique(keys, k, "tier1", "tier10");
    }
  }

  /** Whether a tier is unlocked depends on its own planet only. */
  lemma TierUnlockedIsPerPlanet(g: Planets, g': Planets, planetId: string, tierId: string)
    requires planetId in g <==> planetId in g'
    requires planetId in g ==> g[planetId] == g'[planetId]
    ensures TierUnlocked(g, planetId, tierId) == TierUnlocked(g', planetId, tierId)
  {
    if planetId in g && tierId != "tier1" {
      var order := SortStrings(Keys(g[planetId].tiers));
      var i := IndexOf(order, tierId);
      if i > 0 {
        assert TierCompleted(g, planetId, order[i - 1]) == TierCompleted(g', planetId, order[i - 1]);
      }
    }
  }

  /** The status of an achievement depends on its own planet only. */
  lemma StatusIsPerPlanet(g: Planets, g': Planets, planetId: string, id: string)
    requires planetId in g <==> planetId in g'
    requires planetId in g ==> g[planetId] == g'[planetId]
    ensures AchievementStatus(g, planetId, id) == AchievementStatus(g', planetId, id)
  {
    if planetId in g {
      var f := FindTierForAchievement(g, planetId, id);
      assert FindAchievement(g, planetId, id) == FindAchievement(g', planetId, id);
      assert f == FindTierForAchievement(g', planetId, id);
      if f.Some? {
        TierUnlockedIsPerPlanet(g, g', planetId, f.value.0);
      }
    }
  }
}
