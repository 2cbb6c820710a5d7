/** Sums grouped by a key, as SQL's GROUP BY and pandas' groupby make them. */
module Tallies {
  import opened Sums

  datatype Point<K> = Point(key: K, value: real)

  /** The sum of the values under one key. */
  function TallyAt<K(==)>(points: seq<Point<K>>, k: K): real {
    if points == [] then 0.0
    else
      var last := points[|points| - 1];
      TallyAt(points[..|points| - 1], k) + if last.key == k then last.value else 0.0
  }

  function Values<K>(points: seq<Point<K>>): (v: seq<real>)
    ensures |v| == |points|
  {
    seq(|points|, i requires 0 <= i < |points| => points[i].value)
  }

  function TallyAll<K(==)>(points: seq<Point<K>>, keys: seq<K>): (t: seq<real>)
    ensures |t| == |keys|
  {
    seq(|keys|, i requires 0 <= i < |keys| => TallyAt(points, keys[i]))
  }

  predicate Distinct<K(==)>(keys: seq<K>) {
    forall i, j :: 0 <= i < j < |keys| ==> keys[i] != keys[j]
  }

  predicate Covers<K(==)>(keys: seq<K>, points: seq<Point<K>>) {
    forall i :: 0 <= i < |points| ==> points[i].key in keys
  }

  /** One value at one place, zero elsewhere. */
  lemma {:induction false} SumOfOne(xs: seq<real>, place: nat)
    requires place < |xs| && forall i :: 0 <= i < |xs| && i != place ==> xs[i] == 0.0
    ensures Sum(xs) == xs[place]
  {
    if place == |xs| - 1 {
      SumZero(xs[..|xs| - 1]);
    } else {
      SumOfOne(xs[..|xs| - 1], place);
    }
  }

  /** Grouped by keys that are distinct and leave no point out, the sums add up to the whole. */
  lemma {:induction false} TalliesAddUp<K>(points: seq<Point<K>>, keys: seq<K>)
    requires Distinct(keys) && Covers(keys, points)
    ensures Sum(TallyAll(points, keys)) == Sum(Values(points))
  {
    if points == [] {
      SumZero(TallyAll(points, keys));
    } else {
      var front, last := points[..|points| - 1], points[|points| - 1];
      TalliesAddUp(front, keys);
      var place :| 0 <= place < |keys| && keys[place] == last.key;
      var added := seq(|keys|, i requires 0 <= i < |keys| => if keys[i] == last.key then last.value else 0.0);
      SumOfOne(added, place);
      SumPlus(TallyAll(front, keys), added, TallyAll(points, keys));
      assert Values(points)[..|front|] == Values(front);
    }
  }

  lemma {:induction false} TallyRemove<K>(points: seq<Point<K>>, i: nat, k: K)
    requires i < |points|
    ensures TallyAt(points, k) == TallyAt(points[..i] + points[i + 1..], k) + if points[i].key ==
        k then points[i].value else 0.0
    decreases |points|
  {
    var front, last := points[..|points| - 1], points[|points| - 1];
    if i == |points| - 1 {
      assert points[..i] + points[i + 1..] == front;
    } else {
      TallyRemove(front, i, k);
      var rest := front[..i] + front[i + 1..];
      assert points[..i] + points[i + 1..] == rest + [last];
      assert (rest + [last])[..|rest|] == rest;
    }
  }

  /** A tally does not depend on the order of the points. */
  lemma {:induction false} TallyReordered<K>(a: seq<Point<K>>, b: seq<Point<K>>, k: K)
    requires multiset(a) == multiset(b)
    ensures TallyAt(a, k) == TallyAt(b, k)
    decreases |a|
  {
    if a == [] {
      assert |multiset(b)| == 0;
    } else {
      var i := Unplace(a, b);
      TallyReordered(a[..|a| - 1], b[..i] + b[i + 1..], k);
      TallyRemove(b, i, k);
    }
  }

  function MapSeq<A, B>(xs: seq<A>, f: A -> B): (ys: seq<B>)
    ensures |ys| == |xs| && forall i :: 0 <= i < |xs| ==> ys[i] == f(xs[i])
  {
    seq(|xs|, i requires 0 <= i < |xs| => f(xs[i]))
  }

  lemma MapWithout<A, B>(xs: seq<A>, i: nat, f: A -> B)
    requires i < |xs|
    ensures multiset(MapSeq(xs, f)) == multiset(MapSeq(xs[..i] + xs[i + 1..], f)) + multiset{f(xs[i])}
  {
    var ys := MapSeq(xs, f);
    assert ys == ys[..i] + [ys[i]] + ys[i + 1..];
    assert MapSeq(xs[..i] + xs[i + 1..], f) == ys[..i] + ys[i + 1..];
  }

  /** Rearranged lists have rearranged images. */
  lemma {:induction false} MapRearranged<A, B>(a: seq<A>, b: seq<A>, f: A -> B)
    requires multiset(a) == multiset(b)
    ensures multiset(MapSeq(a, f)) == multiset(MapSeq(b, f))
    decreases |a|
  {
    if a == [] {
      assert |multiset(b)| == 0;
    } else {
      var last := |a| - 1;
      var i := Unplace(a, b);
      MapRearranged(a[..last], b[..i] + b[i + 1..], f);
      MapWithout(a, last, f);
      MapWithout(b, i, f);
      assert a[..last] + a[last + 1..] == a[..last];
    }
  }

  /** How many elements of a list are in a set. */
  function CountIn<K(==)>(keys: seq<K>, s: set<K>): nat {
    if keys == [] then 0 else CountIn(keys[..|keys| - 1], s) + if keys[|keys| - 1] in s then 1 else 0
  }

  lemma OneMore<K>(s: set<K>, front: seq<K>, last: K)
    requires last !in front
    ensures |s * Members(front + [last])| == |s * Members(front)| + if last in s then 1 else 0
  {
    if last in s {
      assert s * Members(front + [last]) == s * Members(front) + {last};
    } else {
      assert s * Members(front + [last]) == s * Members(front);
    }
  }

  function Members<K(==)>(keys: seq<K>): set<K> {
    set k | k in keys
  }

  lemma {:induction false} CountInDistinct<K>(keys: seq<K>, s: set<K>)
    requires Distinct(keys)
    ensures CountIn(keys, s) == |s * Members(keys)|
  {
    if keys == [] {
      assert s * Members(keys) == {};
    } else {
      var front, last := keys[..|keys| - 1], keys[|keys| - 1];
      CountInDistinct(front, s);
      assert keys == front + [last];
      OneMore(s, front, last);
    }
  }

  /** A list has as many members as elements exactly when none repeats. */
  lemma {:induction false} MembersOfDistinct<K>(keys: seq<K>)
    ensures |Members(keys)| <= |keys|
    ensures |Members(keys)| == |keys| <==> Distinct(keys)
  {
    if keys != [] {
      var front, last := keys[..|keys| - 1], keys[|keys| - 1];
      MembersOfDistinct(front);
      assert keys == front + [last];
      if last in front {
        assert Members(keys) == Members(front);
      } else {
        assert Members(keys) == Members(front) + {last};
      }
    }
  }
}
