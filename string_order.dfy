/** The lexicographic order that JavaScript's default `Array.prototype.sort` puts
    on strings, a sort over that order, and the first-index search of
    `Array.prototype.indexOf`. The tier unlock rule of the star chart looks up a
    tier's predecessor in the sorted list of tier ids. */
module StringOrder {

  /** `a` sorts strictly before `b`: the first differing character decides, and a
      proper prefix sorts before the longer string. */
  predicate Less(a: string, b: string)
  {
    if b == [] then false
    else if a == [] then true
    else if a[0] != b[0] then a[0] < b[0]
    else Less(a[1..], b[1..])
  }

  predicate LessEq(a: string, b: string)
  {
    a == b || Less(a, b)
  }

  lemma {:induction false} LessIrreflexive(a: string)
    ensures !Less(a, a)
  {
    if a != [] {
      LessIrreflexive(a[1..]);
    }
  }

  lemma {:induction false} LessAsymmetric(a: string, b: string)
    requires Less(a, b)
    ensures !Less(b, a)
  {
    if a != [] && a[0] == b[0] {
      LessAsymmetric(a[1..], b[1..]);
    }
  }

  lemma {:induction false} LessTransitive(a: string, b: string, c: string)
    requires Less(a, b) && Less(b, c)
    ensures Less(a, c)
  {
    if a != [] && a[0] == b[0] && b[0] == c[0] {
      LessTransitive(a[1..], b[1..], c[1..]);
    }
  }

  /** Any two strings are comparable: the order is total. */
  lemma {:induction false} LessTrichotomy(a: string, b: string)
    ensures Less(a, b) || a == b || Less(b, a)
  {
    if a != [] && b != [] && a[0] == b[0] {
      LessTrichotomy(a[1..], b[1..]);
      if a[1..] == b[1..] {
        assert a == [a[0]] + a[1..] && b == [b[0]] + b[1..];
      }
    }
  }

  lemma LessEqTransitive(a: string, b: string, c: string)
    requires LessEq(a, b) && LessEq(b, c)
    ensures LessEq(a, c)
  {
    if Less(a, b) && Less(b, c) {
      LessTransitive(a, b, c);
    }
  }

  lemma LessEqAntisymmetric(a: string, b: string)
    requires LessEq(a, b) && LessEq(b, a)
    ensures a == b
  {
    if a != b {
      LessAsymmetric(a, b);
    }
  }

  ghost predicate Sorted(s: seq<string>)
  {
    forall i, j :: 0 <= i < j < |s| ==> LessEq(s[i], s[j])
  }

  /** Putting an element that sorts no later than every element of a sorted
      sequence in front keeps it sorted. */
  lemma ConsSorted(h: string, t: seq<string>)
    requires Sorted(t)
    requires forall j :: 0 <= j < |t| ==> LessEq(h, t[j])
    ensures Sorted([h] + t)
  {
    var r := [h] + t;
    forall i, j | 0 <= i < j < |r|
      ensures LessEq(r[i], r[j])
    {
      assert r[j] == t[j - 1];
      if i > 0 {
        assert r[i] == t[i - 1];
      }
    }
  }

  /** The head of a sorted sequence sorts no later than anything in a sequence
      holding its tail and one element that does not sort before the head. */
  lemma HeadBelowAll(x: string, s: seq<string>, rest: seq<string>)
    requires Sorted(s) && s != []
    requires LessEq(s[0], x)
    requires multiset(rest) == multiset(s[1..]) + multiset{x}
    ensures forall j :: 0 <= j < |rest| ==> LessEq(s[0], rest[j])
  {
    forall j | 0 <= j < |rest|
      ensures LessEq(s[0], rest[j])
    {
      var e := rest[j];
      assert e in multiset(rest);
      if e != x {
        assert e in multiset(s[1..]);
        var k :| 0 <= k < |s[1..]| && s[1..][k] == e;
        assert s[k + 1] == e;
      }
    }
  }

  /** Inserts `x` into the sorted `s` before the first element it does not follow. */
  function InsertSorted(x: string, s: seq<string>): (r: seq<string>)
    requires Sorted(s)
    ensures multiset(r) == multiset(s) + multiset{x}
    ensures Sorted(r)
  {
    if s == [] then [x]
    else if LessEq(x, s[0]) then
      assert forall j :: 0 <= j < |s| ==> LessEq(x, s[j]) by {
        forall j | 0 < j < |s| ensures LessEq(x, s[j]) { LessEqTransitive(x, s[0], s[j]); }
      }
      ConsSorted(x, s);
      [x] + s
    else
      var rest := InsertSorted(x, s[1..]);
      assert LessEq(s[0], x) by { LessTrichotomy(x, s[0]); }
      HeadBelowAll(x, s, rest);
      ConsSorted(s[0], rest);
      assert s == [s[0]] + s[1..];
      [s[0]] + rest
  }

  /** The ascending order of `s` (JavaScript's `.sort()` with no comparator). */
  function SortStrings(s: seq<string>): (r: seq<string>)
    ensures Sorted(r)
    ensures multiset(r) == multiset(s)
  {
    if s == [] then []
    else
      assert s == [s[0]] + s[1..];
      InsertSorted(s[0], SortStrings(s[1..]))
  }

  /** The first index of `x` in `s`, or -1 (JavaScript's `indexOf`). */
  function IndexOf(s: seq<string>, x: string): (r: int)
    ensures -1 <= r < |s|
    ensures r == -1 <==> x !in s
    ensures 0 <= r ==> s[r] == x && x !in s[..r]
  {
    if s == [] then -1
    else if s[0] == x then 0
    else
      var k := IndexOf(s[1..], x);
      if k == -1 then -1
      else
        assert s[..k + 1] == [s[0]] + s[1..][..k];
        k + 1
  }

  /** `k` is the greatest element of `keys` that sorts strictly before `x`. */
  ghost predicate IsPredecessor(keys: seq<string>, k: string, x: string)
  {
    && k in keys
    && Less(k, x)
    && forall k' :: k' in keys && Less(k', x) ==> LessEq(k', k)
  }

  /** In a sorted sequence, the element just before the first occurrence of `x`
      is the greatest element that sorts before `x`, and when `x` comes first
      nothing sorts before it. */
  lemma SortedPredecessor(s: seq<string>, x: string)
    requires Sorted(s)
    requires x in s
    ensures IndexOf(s, x) == 0 ==> forall k :: k in s ==> !Less(k, x)
    ensures IndexOf(s, x) > 0 ==> IsPredecessor(s, s[IndexOf(s, x) - 1], x)
  {
    var i := IndexOf(s, x);
    forall j | 0 <= j < |s| && i <= j
      ensures !Less(s[j], x)
    {
      if j == i {
        LessIrreflexive(x);
      } else if Less(s[j], x) {
        LessAsymmetric(s[j], x);
      }
    }
    if i > 0 {
      assert s[i - 1] in s[..i];
      assert s[i - 1] != x;
      forall k' | k' in s && Less(k', x)
        ensures LessEq(k', s[i - 1])
      {
        var j :| 0 <= j < |s| && s[j] == k';
      }
    }
  }

  /** At most one element of `keys` is the predecessor of `x`. */
  lemma PredecessorUnique(keys: seq<string>, k1: string, k2: string, x: string)
    requires IsPredecessor(keys, k1, x) && IsPredecessor(keys, k2, x)
    ensures k1 == k2
  {
    LessEqAntisymmetric(k1, k2);
  }
}
