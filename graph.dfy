/** The progression graph of the star chart: planets keyed by id, each with an
    ordered map of tiers, each tier an ordered map of topics, each topic an
    ordered list of achievements, and the planet's list of completed ids.
    A JSON object is enumerated in a fixed key order (`Object.keys`: integer-like
    keys ascending, then the other keys in insertion order), so the ordered maps
    are sequences of (key, value) pairs in that order. */
module Graph {
  import opened StringOrder

  datatype Option<T> = None | Some(value: T)

  datatype Achievement = Achievement(id: string, title: string, description: string)

  /** A tier: topic id mapped to the topic's achievements, in key-enumeration order. */
  datatype Tier = Tier(topics: seq<(string, seq<Achievement>)>)

  /** A planet: tier id mapped to tier, in key-enumeration order, and the `completed`
      list, which the loaded JSON may leave out (`None`). */
  datatype Planet = Planet(tiers: seq<(string, Tier)>, completed: Option<seq<string>>)

  /** `this.achievements.planets`: planet id mapped to planet. */
  type Planets = map<string, Planet>

  /** `planetData.completed || []`. */
  function CompletedOf(p: Planet): seq<string>
  {
    match p.completed
    case Some(c) => c
    case None => []
  }

  /** The keys of an ordered map, in key-enumeration order (`Object.keys`). */
  function Keys<T>(entries: seq<(string, T)>): (r: seq<string>)
    ensures |r| == |entries|
    ensures forall i :: 0 <= i < |entries| ==> r[i] == entries[i].0
  {
    seq(|entries|, i requires 0 <= i < |entries| => entries[i].0)
  }

  /** `tiers[tierId]`: the value of the first entry under that key. */
  function FindTier(tiers: seq<(string, Tier)>, tierId: string): (r: Option<Tier>)
    ensures r.None? <==> tierId !in Keys(tiers)
    ensures r.Some? ==> (tierId, r.value) in tiers
  {
    var i := IndexOf(Keys(tiers), tierId);
    if i < 0 then None else Some(tiers[i].1)
  }

  // ---- membership, as the `find` scans of the source test it ----

  /** Some achievement of the topic has this id (`topic.find(a => a.id === id)`). */
  ghost predicate TopicHas(achievements: seq<Achievement>, id: string)
  {
    exists i :: 0 <= i < |achievements| && achievements[i].id == id
  }

  ghost predicate TierHas(t: Tier, id: string)
  {
    exists j :: 0 <= j < |t.topics| && TopicHas(t.topics[j].1, id)
  }

  ghost predicate PlanetHas(p: Planet, id: string)
  {
    exists i :: 0 <= i < |p.tiers| && TierHas(p.tiers[i].1, id)
  }

  // ---- flattening, as the `push` loops of the source build it ----

  /** `topic.map(a => a.id)`. */
  function Ids(achievements: seq<Achievement>): seq<string>
  {
    seq(|achievements|, i requires 0 <= i < |achievements| => achievements[i].id)
  }

  /** The ids of every topic, topic after topic. */
  function TopicIds(topics: seq<(string, seq<Achievement>)>): seq<string>
  {
    if topics == [] then []
    else TopicIds(topics[..|topics| - 1]) + Ids(topics[|topics| - 1].1)
  }

  function TierIds(t: Tier): seq<string>
  {
    TopicIds(t.topics)
  }

  /** The ids of every tier, tier after tier, in key-enumeration order. */
  function AllIds(tiers: seq<(string, Tier)>): seq<string>
  {
    if tiers == [] then []
    else AllIds(tiers[..|tiers| - 1]) + TierIds(tiers[|tiers| - 1].1)
  }

  lemma {:induction false} TopicIdsHas(topics: seq<(string, seq<Achievement>)>, id: string)
    ensures id in TopicIds(topics) <==> exists j :: 0 <= j < |topics| && TopicHas(topics[j].1, id)
  {
    if topics != [] {
      var n := |topics| - 1;
      var front := topics[..n];
      TopicIdsHas(front, id);
      assert forall j :: 0 <= j < n ==> front[j] == topics[j];
      if TopicHas(topics[n].1, id) {
        var i :| 0 <= i < |topics[n].1| && topics[n].1[i].id == id;
        assert Ids(topics[n].1)[i] == id;
      }
    }
  }

  lemma TierIdsHas(t: Tier, id: string)
    ensures id in TierIds(t) <==> TierHas(t, id)
  {
    TopicIdsHas(t.topics, id);
  }

  lemma {:induction false} AllIdsHas(tiers: seq<(string, Tier)>, id: string)
    ensures id in AllIds(tiers) <==> exists i :: 0 <= i < |tiers| && TierHas(tiers[i].1, id)
  {
    if tiers != [] {
      var n := |tiers| - 1;
      var front := tiers[..n];
      AllIdsHas(front, id);
      assert forall i :: 0 <= i < n ==> front[i] == tiers[i];
      TierIdsHas(tiers[n].1, id);
    }
  }

  // ---- the completed list as a duplicate-free list ----

  predicate NoDuplicates(xs: seq<string>)
  {
    forall i, j :: 0 <= i < j < |xs| ==> xs[i] != xs[j]
  }

  /** `if (!completed.includes(id)) completed.push(id)`. */
  function AddId(xs: seq<string>, id: string): (r: seq<string>)
    ensures id in r
    ensures forall x :: x in r <==> x in xs || x == id
    ensures xs <= r
    ensures NoDuplicates(xs) ==> NoDuplicates(r)
    ensures id in xs ==> |r| == |xs|
    ensures id !in xs ==> |r| == |xs| + 1
  {
    if id in xs then xs else xs + [id]
  }

  /** `AddId` of every id of `ids`, left to right. */
  function AddAll(xs: seq<string>, ids: seq<string>): (r: seq<string>)
    ensures forall x :: x in r <==> x in xs || x in ids
    ensures xs <= r
    ensures NoDuplicates(xs) ==> NoDuplicates(r)
  {
    if ids == [] then xs
    else
      var front := ids[..|ids| - 1];
      assert ids == front + [ids[|ids| - 1]];
      AddId(AddAll(xs, front), ids[|ids| - 1])
  }

  /** Adding two runs of ids is adding their concatenation. */
  lemma {:induction false} AddAllAppend(xs: seq<string>, a: seq<string>, b: seq<string>)
    ensures AddAll(xs, a + b) == AddAll(AddAll(xs, a), b)
  {
    if b == [] {
      assert a + b == a;
    } else {
      var front := b[..|b| - 1];
      AddAllAppend(xs, a, front);
      assert (a + b)[..|a + b| - 1] == a + front;
      assert (a + b)[|a + b| - 1] == b[|b| - 1];
    }
  }
}
