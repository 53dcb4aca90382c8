/** The progression controller of the star chart: the object that owns the
    planets and the three commands that change their `completed` lists
    (script.js, `completeAchievement`, `bulkUnlock`, `bulkReset`), plus the
    loop that `isTierCompleted` runs over the live object. */
module Controller {
  import opened StringOrder
  import opened Graph
  import opened Evaluator

  /** The planets after `completeAchievement(planetId, id)`. */
  function Complete(g: Planets, planetId: string, id: string): (r: Planets)
    ensures r.Keys == g.Keys
    ensures forall q :: q in g ==> r[q].tiers == g[q].tiers
    ensures planetId in g ==> id in CompletedOf(r[planetId])
  {
    if planetId !in g then g
    else WithCompleted(g, planetId, AddId(CompletedOf(g[planetId]), id))
  }

  /** A planet after `bulkUnlock`: every id of its tiers added to `completed`. */
  function UnlockPlanet(p: Planet): Planet
  {
    p.(completed := Some(AddAll(CompletedOf(p), AllIds(p.tiers))))
  }

  /** The planets after `bulkUnlock`. */
  function UnlockAll(g: Planets): (r: Planets)
    ensures r.Keys == g.Keys
    ensures forall q :: q in g ==> r[q].tiers == g[q].tiers
  {
    map q | q in g :: UnlockPlanet(g[q])
  }

  /** The planets after `bulkReset`. */
  function ResetAll(g: Planets): (r: Planets)
    ensures r.Keys == g.Keys
    ensures forall q :: q in g ==> r[q].tiers == g[q].tiers && CompletedOf(r[q]) == []
  {
    map q | q in g :: g[q].(completed := Some([]))
  }

  /** The innermost `forEach` of `bulkUnlock`: each achievement of one topic
      pushed onto `list` unless already there. */
  method PushIds(list: seq<string>, achievements: seq<Achievement>) returns (r: seq<string>)
    ensures r == AddAll(list, Ids(achievements))
  {
    r := list;
    var k := 0;
    while k < |achievements|
      invariant 0 <= k <= |achievements|
      invariant r == AddAll(list, Ids(achievements[..k]))
    {
      if achievements[k].id !in r {
        r := r + [achievements[k].id];
      }
      assert Ids(achievements[..k + 1]) == Ids(achievements[..k]) + [achievements[k].id];
      k := k + 1;
    }
    assert achievements[..k] == achievements;
  }

  /** The middle `forEach` of `bulkUnlock`: the topics of one tier in turn. */
  method PushTierIds(list: seq<string>, t: Tier) returns (r: seq<string>)
    ensures r == AddAll(list, TierIds(t))
  {
    r := list;
    var topics := t.topics;
    var j := 0;
    while j < |topics|
      invariant 0 <= j <= |topics|
      invariant r == AddAll(list, TopicIds(topics[..j]))
    {
      r := PushIds(r, topics[j].1);
      assert topics[..j + 1][..j] == topics[..j];
      AddAllAppend(list, TopicIds(topics[..j]), Ids(topics[j].1));
      j := j + 1;
    }
    assert topics[..j] == topics;
  }

  /** The nested `forEach` of `bulkUnlock` for one planet: every achievement of
      every topic of every tier, in key-enumeration order, pushed onto `list` unless
      already there. */
  method PushAllIds(list: seq<string>, tiers: seq<(string, Tier)>) returns (r: seq<string>)
    ensures r == AddAll(list, AllIds(tiers))
  {
    r := list;
    var i := 0;
    while i < |tiers|
      invariant 0 <= i <= |tiers|
      invariant r == AddAll(list, AllIds(tiers[..i]))
    {
      r := PushTierIds(r, tiers[i].1);
      assert tiers[..i + 1][..i] == tiers[..i];
      AddAllAppend(list, AllIds(tiers[..i]), TierIds(tiers[i].1));
      i := i + 1;
    }
    assert tiers[..i] == tiers;
  }

  class StarChart {
    /** `this.achievements.planets`. */
    var planets: Planets

    /** The chart over the planets loaded from the achievements document. */
    constructor (loaded: Planets)
      ensures planets == loaded
    {
      planets := loaded;
    }

    /** `completeAchievement`: on a known planet, creates the `completed` list
        when absent and appends `id` unless already present; on an unknown
        planet, does nothing. */
    method CompleteAchievement(planetId: string, id: string)
      modifies this
      ensures planets == Complete(old(planets), planetId, id)
    {
      if planetId !in planets {
        return;
      }
      if planets[planetId].completed.None? {
        planets := planets[planetId := planets[planetId].(completed := Some([]))];
      }
      var p := planets[planetId];
      if id !in p.completed.value {
        planets := planets[planetId := p.(completed := Some(p.completed.value + [id]))];
      }
    }

    /** `bulkUnlock`: for every planet, creates `completed` when absent and
        pushes every achievement id of its tiers that is not yet there. */
    method BulkUnlock()
      modifies this
      ensures planets == UnlockAll(old(planets))
    {
      var todo := planets.Keys;
      while todo != {}
        invariant planets.Keys == old(planets).Keys
        invariant todo <= planets.Keys
        invariant forall q :: q in planets ==>
                    planets[q] == if q in todo then old(planets)[q] else UnlockPlanet(old(planets)[q])
        decreases todo
      {
        var q :| q in todo;
        if planets[q].completed.None? {
          planets := planets[q := planets[q].(completed := Some([]))];
        }
        var p := planets[q];
        var list := PushAllIds(p.completed.value, p.tiers);
        planets := planets[q := p.(completed := Some(list))];
        todo := todo - {q};
      }
    }

    /** `bulkReset`: every planet's `completed` becomes the empty list. */
    method BulkReset()
      modifies this
      ensures planets == ResetAll(old(planets))
    {
      var todo := planets.Keys;
      while todo != {}
        invariant planets.Keys == old(planets).Keys
        invariant todo <= planets.Keys
        invariant forall q :: q in planets ==>
                    planets[q] == if q in todo then old(planets)[q] else old(planets)[q].(completed := Some([]))
        decreases todo
      {
        var q :| q in todo;
        planets := planets[q := planets[q].(completed := Some([]))];
        todo := todo - {q};
      }
    }

    /** `isTierCompleted` as the source runs it: collect the ids of every topic
        of the tier into a list, then test that each is in `completed`. */
    method IsTierCompleted(planetId: string, tierId: string) returns (done: bool)
      ensures done == TierCompleted(planets, planetId, tierId)
    {
      if planetId !in planets {
        return false;
      }
      var found := FindTier(planets[planetId].tiers, tierId);
      if found.None? {
        return false;
      }
      var completed := CompletedOf(planets[planetId]);
      var topics := found.value.topics;
      var tierAchievements: seq<string> := [];
      var j := 0;
      while j < |topics|
        invariant 0 <= j <= |topics|
        invariant tierAchievements == TopicIds(topics[..j])
      {
        tierAchievements := tierAchievements + Ids(topics[j].1);
        assert topics[..j + 1][..j] == topics[..j];
        j := j + 1;
      }
      assert topics[..j] == topics;
      var k := 0;
      while k < |tierAchievements|
        invariant 0 <= k <= |tierAchievements|
        invariant forall m :: 0 <= m < k ==> tierAchievements[m] in completed
      {
        if tierAchievements[k] !in completed {
          return false;
        }
        k := k + 1;
      }
      return true;
    }
  }

  // ---- properties of the commands ----

  /** `completeAchievement` on a known planet appends the id at the end when it
      is absent and keeps the list otherwise; it keeps the tiers, adds no
      duplicate, leaves every other planet alone, and the id then reads
      `Completed`. On an unknown planet it changes nothing. */
  lemma CompleteEffect(g: Planets, planetId: string, id: string)
    ensures planetId !in g ==> Complete(g, planetId, id) == g
    ensures Complete(g, planetId, id).Keys == g.Keys
    ensures forall q :: q in g && q != planetId ==> Complete(g, planetId, id)[q] == g[q]
    ensures planetId in g ==>
      var before := CompletedOf(g[planetId]);
      var after := Complete(g, planetId, id)[planetId];
      && after.tiers == g[planetId].tiers
      && after.completed.Some?
      && CompletedOf(after) == (if id in before then before else before + [id])
      && (NoDuplicates(before) ==> NoDuplicates(CompletedOf(after)))
      && AchievementStatus(Complete(g, planetId, id), planetId, id) == Completed
  {
  }

  /** Completing the same id twice is completing it once. */
  lemma CompleteIdempotent(g: Planets, planetId: string, id: string)
    ensures Complete(Complete(g, planetId, id), planetId, id) == Complete(g, planetId, id)
  {
  }

  /** Completing an available achievement makes it completed and moves no other
      achievement of any planet backward; achievements of later tiers may move
      from locked to available. */
  lemma CompleteAdvances(g: Planets, planetId: string, id: string, other: string, q: string)
    requires AchievementStatus(g, planetId, id) == Available
    ensures AchievementStatus(Complete(g, planetId, id), planetId, id) == Completed
    ensures Rank(AchievementStatus(g, q, other)) <= Rank(AchievementStatus(Complete(g, planetId, id), q, other))
  {
    var c := AddId(CompletedOf(g[planetId]), id);
    var g' := WithCompleted(g, planetId, c);
    assert Complete(g, planetId, id) == g';
    CompletedOverridesLock(g', planetId, id);
    if q == planetId {
      StatusMonotone(g, planetId, c, other);
    } else {
      StatusIsPerPlanet(g, g', q, other);
    }
  }

  /** After `bulkUnlock`, on every planet: the tiers are kept, every
      achievement id of its tiers is in `completed`, nothing else was added,
      the earlier entries keep their order at the front, and a duplicate-free
      list stays duplicate-free. */
  lemma UnlockAllEffect(g: Planets)
    ensures UnlockAll(g).Keys == g.Keys
    ensures forall q :: q in g ==>
      var before := CompletedOf(g[q]);
      var after := CompletedOf(UnlockAll(g)[q]);
      && UnlockAll(g)[q].tiers == g[q].tiers
      && before <= after
      && (forall x :: PlanetHas(g[q], x) ==> x in after)
      && (forall x :: x in after ==> x in before || PlanetHas(g[q], x))
      && (NoDuplicates(before) ==> NoDuplicates(after))
  {
    forall q, x | q in g
      ensures x in AllIds(g[q].tiers) <==> PlanetHas(g[q], x)
    {
      AllIdsHas(g[q].tiers, x);
    }
  }

  /** After `bulkUnlock` every achievement reads `Completed` and every tier of
      every planet is completed. */
  lemma UnlockAllCompletesEverything(g: Planets, q: string, id: string, tierId: string)
    requires q in g
    ensures PlanetHas(g[q], id) ==> AchievementStatus(UnlockAll(g), q, id) == Completed
    ensures tierId in Keys(g[q].tiers) ==> TierCompleted(UnlockAll(g), q, tierId)
  {
    UnlockAllEffect(g);
    var u := UnlockAll(g);
    if tierId in Keys(g[q].tiers) {
      TierCompletedIff(u, q, tierId);
      var t := FindTier(u[q].tiers, tierId).value;
      var i :| 0 <= i < |g[q].tiers| && g[q].tiers[i] == (tierId, t);
      forall x | TierHas(t, x) ensures x in CompletedOf(u[q]) {
        assert TierHas(g[q].tiers[i].1, x);
      }
    }
  }

  /** After `bulkReset` every planet has an empty, present `completed` list and
      the same tiers. */
  lemma ResetAllEffect(g: Planets)
    ensures ResetAll(g).Keys == g.Keys
    ensures forall q :: q in g ==>
      && ResetAll(g)[q].completed == Some([])
      && ResetAll(g)[q].tiers == g[q].tiers
  {
  }

  /** After `bulkReset` a tier is completed exactly when it exists and holds no
      achievement. */
  lemma ResetTierCompletedIff(g: Planets, q: string, tierId: string)
    requires q in g
    ensures TierCompleted(ResetAll(g), q, tierId) <==>
      tierId in Keys(g[q].tiers) && forall x :: !TierHas(FindTier(g[q].tiers, tierId).value, x)
  {
    TierCompletedIff(ResetAll(g), q, tierId);
  }

  /** After `bulkReset`, an achievement whose first owning tier is `"tier1"` is
      available, and one whose first owning tier has, as its sorted
      predecessor, a tier that holds some achievement is locked. */
  lemma ResetStatus(g: Planets, q: string, id: string, i: int)
    requires q in g && IsFirstOwner(g[q].tiers, i, id)
    ensures g[q].tiers[i].0 == "tier1" ==> AchievementStatus(ResetAll(g), q, id) == Available
    ensures forall k ::
      (&& g[q].tiers[i].0 != "tier1"
       && IsPredecessor(Keys(g[q].tiers), k, g[q].tiers[i].0)
       && exists x :: TierHas(FindTier(g[q].tiers, k).value, x))
      ==> AchievementStatus(ResetAll(g), q, id) == Locked
  {
    var r := ResetAll(g);
    var tierId := g[q].tiers[i].0;
    assert r[q].tiers == g[q].tiers;
    AvailableIff(r, q, id);
    forall j | IsFirstOwner(r[q].tiers, j, id) ensures j == i {
      FirstOwnerUnique(r[q].tiers, i, j, id);
    }
    forall k | tierId != "tier1" && IsPredecessor(Keys(g[q].tiers), k, tierId)
                 && exists x :: TierHas(FindTier(g[q].tiers, k).value, x)
      ensures AchievementStatus(r, q, id) == Locked
    {
      TierUnlockedByOrder(r, q, tierId);
      assert tierId in Keys(g[q].tiers);
      forall k' | IsPredecessor(Keys(g[q].tiers), k', tierId) && TierCompleted(r, q, k') ensures false {
        PredecessorUnique(Keys(g[q].tiers), k, k', tierId);
        ResetTierCompletedIff(g, q, k');
      }
    }
  }

  /** A planet with `tier1` holding `a1` and `a2` and `tier2` holding `b1`,
      and no `completed` list. */
  function ScenarioPlanet(): Planet
  {
    Planet(
      [ ("tier1", Tier([("basics", [Achievement("a1", "First", ""), Achievement("a2", "Second", "")])])),
        ("tier2", Tier([("advanced", [Achievement("b1", "Third", "")])])) ],
      None)
  }

  /** The scenario's tiers, and where `a1`, `a2` and `b1` live. */
  lemma ScenarioShape(g: Planets)
    requires "P" in g && g["P"].tiers == ScenarioPlanet().tiers
    ensures Keys(g["P"].tiers) == ["tier1", "tier2"]
    ensures IsPredecessor(Keys(g["P"].tiers), "tier1", "tier2")
    ensures IsFirstOwner(g["P"].tiers, 0, "a1")
    ensures IsFirstOwner(g["P"].tiers, 1, "b1")
    ensures TierIds(g["P"].tiers[0].1) == ["a1", "a2"]
    ensures FindTier(g["P"].tiers, "tier1") == Some(g["P"].tiers[0].1)
  {
    var t1 := g["P"].tiers[0].1;
    var t2 := g["P"].tiers[1].1;
    assert Less("tier1", "tier2");
    LessIrreflexive("tier2");
    LessAsymmetric("tier1", "tier2");
    assert TierHas(t1, "a1") by { assert t1.topics[0].1[0].id == "a1"; }
    assert TierHas(t2, "b1") by { assert t2.topics[0].1[0].id == "b1"; }
    assert !TierHas(t1, "b1") by { assert |t1.topics| == 1; }
    assert Ids(t1.topics[0].1) == ["a1", "a2"];
  }

  /** In the scenario, `b1` is available exactly when `tier1` is completed. */
  lemma ScenarioGate(g: Planets)
    requires "P" in g && g["P"].tiers == ScenarioPlanet().tiers
    requires "b1" !in CompletedOf(g["P"])
    ensures AchievementStatus(g, "P", "b1") == Available <==> TierCompleted(g, "P", "tier1")
  {
    ScenarioShape(g);
    AvailableIff(g, "P", "b1");
    FirstOwnerUnique(g["P"].tiers, 1, 1, "b1");
    TierUnlockedByOrder(g, "P", "tier2");
    if exists k :: IsPredecessor(Keys(g["P"].tiers), k, "tier2") && TierCompleted(g, "P", k) {
      var k :| IsPredecessor(Keys(g["P"].tiers), k, "tier2") && TierCompleted(g, "P", k);
      PredecessorUnique(Keys(g["P"].tiers), k, "tier1", "tier2");
    }
    if AchievementStatus(g, "P", "b1") == Available {
      var i :| IsFirstOwner(g["P"].tiers, i, "b1") && TierUnlocked(g, "P", g["P"].tiers[i].0);
      FirstOwnerUnique(g["P"].tiers, i, 1, "b1");
    }
  }

  /** With nothing completed, `a1` is available and `b1` locked. */
  lemma ScenarioStart(g: Planets)
    requires g == map["P" := ScenarioPlanet()]
    ensures AchievementStatus(g, "P", "a1") == Available
    ensures AchievementStatus(g, "P", "b1") == Locked
  {
    ScenarioShape(g);
    AvailableIff(g, "P", "a1");
    TierCompletedIff(g, "P", "tier1");
    assert !TierCompleted(g, "P", "tier1");
    ScenarioGate(g);
  }

  /** With `a1` and `a2` completed, `tier1` is completed and `b1` available. */
  lemma ScenarioDone(g: Planets)
    requires g == map["P" := ScenarioPlanet().(completed := Some(["a1", "a2"]))]
    ensures TierCompleted(g, "P", "tier1")
    ensures AchievementStatus(g, "P", "b1") == Available
  {
    ScenarioShape(g);
    assert TierCompleted(g, "P", "tier1");
    ScenarioGate(g);
  }

  /** Completing `a1` and then `a2` on the fresh planet leaves exactly those two
      ids in `completed`, in that order. */
  lemma ScenarioSteps(g: Planets)
    requires g == map["P" := ScenarioPlanet()]
    ensures Complete(Complete(g, "P", "a1"), "P", "a2")
            == map["P" := ScenarioPlanet().(completed := Some(["a1", "a2"]))]
  {
    assert CompletedOf(g["P"]) == [];
    assert AddId([], "a1") == ["a1"];
    var g1 := Complete(g, "P", "a1");
    assert g1 == map["P" := ScenarioPlanet().(completed := Some(["a1"]))];
    assert AddId(["a1"], "a2") == ["a1", "a2"];
  }

  /** After completing `a1` and then `a2`, `tier1` is completed and `b1`
      available. */
  lemma ScenarioEnd(g: Planets)
    requires g == map["P" := ScenarioPlanet()]
    ensures TierCompleted(Complete(Complete(g, "P", "a1"), "P", "a2"), "P", "tier1")
    ensures AchievementStatus(Complete(Complete(g, "P", "a1"), "P", "a2"), "P", "b1") == Available
  {
    ScenarioSteps(g);
    ScenarioDone(Complete(Complete(g, "P", "a1"), "P", "a2"));
  }
}
