/** The integer part of the star chart's planet layout (script.js,
    `createPlanetContent`): for every tier and every topic a branch, one node
    per achievement, and a junction toward the next tier, each at a radius from
    the planet's centre. The angles and the cos/sin coordinates are floating
    point and are not part of this model; an item keeps the tier, topic and
    achievement indices the angles are computed from. */
module Layout {
  import opened Graph
  import opened Evaluator

  /** `80 + tierIndex * 30`. */
  function BranchRadius(tierIndex: nat): (r: int)
    ensures r >= 80
  {
    80 + tierIndex * 30
  }

  /** `branchRadius + (achIndex % 2) * 15`. */
  function NodeRadius(tierIndex: nat, achIndex: nat): (r: int)
    ensures r == BranchRadius(tierIndex) || r == BranchRadius(tierIndex) + 15
    ensures r == BranchRadius(tierIndex) <==> achIndex % 2 == 0
  {
    BranchRadius(tierIndex) + (achIndex % 2) * 15
  }

  /** `branchRadius + 40`. */
  function JunctionRadius(tierIndex: nat): (r: int)
    ensures r > BranchRadius(tierIndex) + 15
  {
    BranchRadius(tierIndex) + 40
  }

  /** One element that `createPlanetContent` creates, in creation order, with
      the indices its angle is computed from. A node carries the status it is
      drawn with; a junction carries the id and the unlock flag of the tier it
      belongs to. */
  datatype Item =
    | Branch(tierIndex: nat, topicIndex: nat, radius: int)
    | Node(tierIndex: nat, topicIndex: nat, achIndex: nat, id: string, radius: int, status: Status)
    | Junction(tierIndex: nat, topicIndex: nat, tierId: string, radius: int, unlocked: bool)

  /** The nodes of the first `k` achievements of topic `tj` of tier `ti`. */
  function NodeItems(g: Planets, planetId: string, ti: nat, tj: nat, achievements: seq<Achievement>, k: nat): seq<Item>
    requires k <= |achievements|
  {
    if k == 0 then []
    else NodeItems(g, planetId, ti, tj, achievements, k - 1)
         + [Node(ti, tj, k - 1, achievements[k - 1].id, NodeRadius(ti, k - 1), AchievementStatus(g, planetId, achievements[k - 1].id))]
  }

  /** Topic `tj` of tier `ti`: its branch, its nodes, and a junction unless the
      tier is the last. */
  function TopicItems(g: Planets, planetId: string, tiers: seq<(string, Tier)>, ti: nat, tj: nat): seq<Item>
    requires ti < |tiers| && tj < |tiers[ti].1.topics|
  {
    var achievements := tiers[ti].1.topics[tj].1;
    [Branch(ti, tj, BranchRadius(ti))]
    + NodeItems(g, planetId, ti, tj, achievements, |achievements|)
    + (if ti < |tiers| - 1
       then [Junction(ti, tj, tiers[ti].0, JunctionRadius(ti), TierUnlocked(g, planetId, tiers[ti].0))]
       else [])
  }

  /** The first `m` topics of tier `ti`. */
  function TopicsItems(g: Planets, planetId: string, tiers: seq<(string, Tier)>, ti: nat, m: nat): seq<Item>
    requires ti < |tiers| && m <= |tiers[ti].1.topics|
  {
    if m == 0 then []
    else TopicsItems(g, planetId, tiers, ti, m - 1) + TopicItems(g, planetId, tiers, ti, m - 1)
  }

  /** The first `n` tiers. */
  function TiersItems(g: Planets, planetId: string, tiers: seq<(string, Tier)>, n: nat): seq<Item>
    requires n <= |tiers|
  {
    if n == 0 then []
    else TiersItems(g, planetId, tiers, n - 1) + TopicsItems(g, planetId, tiers, n - 1, |tiers[n - 1].1.topics|)
  }

  /** Everything `createPlanetContent` creates for a planet; nothing for an
      unknown planet. */
  function PlanetContent(g: Planets, planetId: string): seq<Item>
  {
    if planetId !in g then []
    else TiersItems(g, planetId, g[planetId].tiers, |g[planetId].tiers|)
  }

  /** The body of the topic loop of `createPlanetContent`: the branch, the
      achievement loop, and the junction unless the tier is the last. */
  method CreateTopicContent(g: Planets, planetId: string, tiers: seq<(string, Tier)>, i: nat, j: nat)
    returns (items: seq<Item>)
    requires i < |tiers| && j < |tiers[i].1.topics|
    ensures items == TopicItems(g, planetId, tiers, i, j)
  {
    var branchRadius := 80 + i * 30;
    var achievements := tiers[i].1.topics[j].1;
    var nodes: seq<Item> := [];
    var k := 0;
    while k < |achievements|
      invariant 0 <= k <= |achievements|
      invariant nodes == NodeItems(g, planetId, i, j, achievements, k)
    {
      var nodeRadius := branchRadius + (k % 2) * 15;
      var status := AchievementStatus(g, planetId, achievements[k].id);
      nodes := nodes + [Node(i, j, k, achievements[k].id, nodeRadius, status)];
      k := k + 1;
    }
    items := [Branch(i, j, branchRadius)] + nodes;
    if i < |tiers| - 1 {
      var tierId := tiers[i].0;
      var junctionRadius := branchRadius + 40;
      items := items + [Junction(i, j, tierId, junctionRadius, TierUnlocked(g, planetId, tierId))];
    }
  }

  /** The body of the tier loop of `createPlanetContent`: every topic of tier
      `i`, in key-enumeration order. */
  method CreateTierContent(g: Planets, planetId: string, tiers: seq<(string, Tier)>, i: nat)
    returns (items: seq<Item>)
    requires i < |tiers|
    ensures items == TopicsItems(g, planetId, tiers, i, |tiers[i].1.topics|)
  {
    items := [];
    var j := 0;
    while j < |tiers[i].1.topics|
      invariant 0 <= j <= |tiers[i].1.topics|
      invariant items == TopicsItems(g, planetId, tiers, i, j)
    {
      var topicItems := CreateTopicContent(g, planetId, tiers, i, j);
      items := items + topicItems;
      j := j + 1;
    }
  }

  /** `createPlanetContent`: for each tier, in key-enumeration order, the elements of
      its topics; nothing for an unknown planet. */
  method CreatePlanetContent(g: Planets, planetId: string) returns (items: seq<Item>)
    ensures items == PlanetContent(g, planetId)
  {
    items := [];
    if planetId !in g {
      return;
    }
    var tiers := g[planetId].tiers;
    var i := 0;
    while i < |tiers|
      invariant 0 <= i <= |tiers|
      invariant items == TiersItems(g, planetId, tiers, i)
    {
      var tierItems := CreateTierContent(g, planetId, tiers, i);
      items := items + tierItems;
      i := i + 1;
    }
  }

  // ---- properties of the layout ----

  /** Branch radii grow strictly with the tier index, consecutive nodes of a
      topic alternate between two radii, and the node bands of two tiers never
      share a radius, so the tiers form disjoint concentric rings. */
  lemma TierBandsDisjoint(i: nat, j: nat, a: nat, b: nat)
    ensures i < j ==> BranchRadius(i) < BranchRadius(j)
    ensures NodeRadius(i, a) == NodeRadius(j, b) ==> i == j
    ensures NodeRadius(i, a) == NodeRadius(i, b) <==> a % 2 == b % 2
    ensures NodeRadius(i, a) == BranchRadius(i) || NodeRadius(i, a) == BranchRadius(i) + 15
    ensures JunctionRadius(i) == BranchRadius(i) + 40
  {
  }

  /** The rule each created element obeys: it belongs to an existing tier and
      topic, a node is the achievement at its index and sits at
      `branchRadius + (achIndex % 2) * 15` with its current status, and a
      junction belongs to a tier that is not the last and carries that tier's
      id and unlock flag. */
  ghost predicate RadiusRule(g: Planets, planetId: string, tiers: seq<(string, Tier)>, it: Item)
  {
    match it
    case Branch(t, j, r) =>
      && t < |tiers| && j < |tiers[t].1.topics|
      && r == BranchRadius(t)
    case Node(t, j, k, id, r, s) =>
      && t < |tiers| && j < |tiers[t].1.topics| && k < |tiers[t].1.topics[j].1|
      && id == tiers[t].1.topics[j].1[k].id
      && r == NodeRadius(t, k)
      && s == AchievementStatus(g, planetId, id)
    case Junction(t, j, tid, r, u) =>
      && t < |tiers| - 1 && j < |tiers[t].1.topics|
      && tid == tiers[t].0
      && r == JunctionRadius(t)
      && u == TierUnlocked(g, planetId, tid)
  }

  ghost predicate AllFollowRule(g: Planets, planetId: string, tiers: seq<(string, Tier)>, items: seq<Item>)
  {
    forall k :: 0 <= k < |items| ==> RadiusRule(g, planetId, tiers, items[k])
  }

  lemma {:induction false} NodeItemsRule(g: Planets, planetId: string, tiers: seq<(string, Tier)>, ti: nat, tj: nat, k: nat)
    requires ti < |tiers| && tj < |tiers[ti].1.topics| && k <= |tiers[ti].1.topics[tj].1|
    ensures AllFollowRule(g, planetId, tiers, NodeItems(g, planetId, ti, tj, tiers[ti].1.topics[tj].1, k))
  {
    if k > 0 {
      NodeItemsRule(g, planetId, tiers, ti, tj, k - 1);
    }
  }

  lemma {:induction false} TopicsItemsRule(g: Planets, planetId: string, tiers: seq<(string, Tier)>, ti: nat, m: nat)
    requires ti < |tiers| && m <= |tiers[ti].1.topics|
    ensures AllFollowRule(g, planetId, tiers, TopicsItems(g, planetId, tiers, ti, m))
  {
    if m > 0 {
      TopicsItemsRule(g, planetId, tiers, ti, m - 1);
      var achievements := tiers[ti].1.topics[m - 1].1;
      NodeItemsRule(g, planetId, tiers, ti, m - 1, |achievements|);
    }
  }

  lemma {:induction false} TiersItemsRule(g: Planets, planetId: string, tiers: seq<(string, Tier)>, n: nat)
    requires n <= |tiers|
    ensures AllFollowRule(g, planetId, tiers, TiersItems(g, planetId, tiers, n))
  {
    if n > 0 {
      TiersItemsRule(g, planetId, tiers, n - 1);
      TopicsItemsRule(g, planetId, tiers, n - 1, |tiers[n - 1].1.topics|);
    }
  }

  /** Every element of a planet's layout obeys its rule: branches at
      `80 + 30 * tierIndex`, each node at that radius plus 15 for an odd
      achievement index and drawn with its current status, junctions 40
      further out, never on the last tier, with their own tier's id and unlock
      flag. */
  lemma LayoutRadii(g: Planets, planetId: string)
    requires planetId in g
    ensures AllFollowRule(g, planetId, g[planetId].tiers, PlanetContent(g, planetId))
  {
    TiersItemsRule(g, planetId, g[planetId].tiers, |g[planetId].tiers|);
  }

  // ---- how many junctions, and which nodes ----

  function JunctionCount(items: seq<Item>): nat
  {
    if items == [] then 0
    else (if items[0].Junction? then 1 else 0) + JunctionCount(items[1..])
  }

  function NodeIds(items: seq<Item>): seq<string>
  {
    if items == [] then []
    else (if items[0].Node? then [items[0].id] else []) + NodeIds(items[1..])
  }

  lemma {:induction false} CountsOfConcat(a: seq<Item>, b: seq<Item>)
    ensures JunctionCount(a + b) == JunctionCount(a) + JunctionCount(b)
    ensures NodeIds(a + b) == NodeIds(a) + NodeIds(b)
  {
    if a == [] {
      assert a + b == b;
    } else {
      CountsOfConcat(a[1..], b);
      assert (a + b)[1..] == a[1..] + b;
    }
  }

  /** The number of topics of the first `n` tiers. */
  function TopicCount(tiers: seq<(string, Tier)>, n: nat): nat
    requires n <= |tiers|
  {
    if n == 0 then 0 else TopicCount(tiers, n - 1) + |tiers[n - 1].1.topics|
  }

  lemma {:induction false} NodeItemsCounts(g: Planets, planetId: string, ti: nat, tj: nat, achievements: seq<Achievement>, k: nat)
    requires k <= |achievements|
    ensures JunctionCount(NodeItems(g, planetId, ti, tj, achievements, k)) == 0
    ensures NodeIds(NodeItems(g, planetId, ti, tj, achievements, k)) == Ids(achievements[..k])
  {
    if k > 0 {
      var front := NodeItems(g, planetId, ti, tj, achievements, k - 1);
      var id := achievements[k - 1].id;
      var last := Node(ti, tj, k - 1, id, NodeRadius(ti, k - 1), AchievementStatus(g, planetId, id));
      assert NodeItems(g, planetId, ti, tj, achievements, k) == front + [last];
      NodeItemsCounts(g, planetId, ti, tj, achievements, k - 1);
      CountsOfConcat(front, [last]);
      assert [last][1..] == [];
      assert Ids(achievements[..k]) == Ids(achievements[..k - 1]) + [achievements[k - 1].id];
    }
  }

  lemma TopicItemsCounts(g: Planets, planetId: string, tiers: seq<(string, Tier)>, ti: nat, tj: nat)
    requires ti < |tiers| && tj < |tiers[ti].1.topics|
    ensures JunctionCount(TopicItems(g, planetId, tiers, ti, tj)) == if ti < |tiers| - 1 then 1 else 0
    ensures NodeIds(TopicItems(g, planetId, tiers, ti, tj)) == Ids(tiers[ti].1.topics[tj].1)
  {
    var achievements := tiers[ti].1.topics[tj].1;
    var branch := [Branch(ti, tj, BranchRadius(ti))];
    var nodes := NodeItems(g, planetId, ti, tj, achievements, |achievements|);
    var junction := if ti < |tiers| - 1
      then [Junction(ti, tj, tiers[ti].0, JunctionRadius(ti), TierUnlocked(g, planetId, tiers[ti].0))]
      else [];
    assert TopicItems(g, planetId, tiers, ti, tj) == branch + nodes + junction;
    NodeItemsCounts(g, planetId, ti, tj, achievements, |achievements|);
    assert achievements[..|achievements|] == achievements;
    CountsOfConcat(branch, nodes);
    CountsOfConcat(branch + nodes, junction);
    assert JunctionCount(branch) == 0 && NodeIds(branch) == [] by {
      assert branch[1..] == [];
    }
    assert NodeIds(junction) == [] && JunctionCount(junction) == |junction| by {
      if junction != [] {
        assert junction[1..] == [];
      }
    }
  }

  lemma {:induction false} TopicsItemsCounts(g: Planets, planetId: string, tiers: seq<(string, Tier)>, ti: nat, m: nat)
    requires ti < |tiers| && m <= |tiers[ti].1.topics|
    ensures JunctionCount(TopicsItems(g, planetId, tiers, ti, m)) == if ti < |tiers| - 1 then m else 0
    ensures NodeIds(TopicsItems(g, planetId, tiers, ti, m)) == TopicIds(tiers[ti].1.topics[..m])
  {
    if m > 0 {
      var topics := tiers[ti].1.topics;
      TopicsItemsCounts(g, planetId, tiers, ti, m - 1);
      TopicItemsCounts(g, planetId, tiers, ti, m - 1);
      CountsOfConcat(TopicsItems(g, planetId, tiers, ti, m - 1), TopicItems(g, planetId, tiers, ti, m - 1));
      assert topics[..m][..m - 1] == topics[..m - 1];
    }
  }

  lemma {:induction false} TiersItemsCounts(g: Planets, planetId: string, tiers: seq<(string, Tier)>, n: nat)
    requires n <= |tiers|
    ensures JunctionCount(TiersItems(g, planetId, tiers, n)) == TopicCount(tiers, if n < |tiers| || n == 0 then n else n - 1)
    ensures NodeIds(TiersItems(g, planetId, tiers, n)) == AllIds(tiers[..n])
  {
    if n > 0 {
      TiersItemsCounts(g, planetId, tiers, n - 1);
      TopicsItemsCounts(g, planetId, tiers, n - 1, |tiers[n - 1].1.topics|);
      CountsOfConcat(TiersItems(g, planetId, tiers, n - 1), TopicsItems(g, planetId, tiers, n - 1, |tiers[n - 1].1.topics|));
      assert tiers[n - 1].1.topics[..|tiers[n - 1].1.topics|] == tiers[n - 1].1.topics;
      assert tiers[..n][..n - 1] == tiers[..n - 1];
    }
  }

  /** A planet's layout has one junction per topic of every tier but the last,
      and one node per achievement, in tier, topic and achievement order. */
  lemma LayoutCounts(g: Planets, planetId: string)
    requires planetId in g
    ensures var tiers := g[planetId].tiers;
      && JunctionCount(PlanetContent(g, planetId)) == (if tiers == [] then 0 else TopicCount(tiers, |tiers| - 1))
      && NodeIds(PlanetContent(g, planetId)) == AllIds(tiers)
  {
    var tiers := g[planetId].tiers;
    TiersItemsCounts(g, planetId, tiers, |tiers|);
    assert tiers[..|tiers|] == tiers;
  }
}
