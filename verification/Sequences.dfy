/** Facts about sequences that proofs call by name, to keep extensionality out of larger goals. */
module Sequences {
  lemma Unsnoc<T>(s: seq<T>)
    requires s != []
    ensures s == s[..|s| - 1] + [s[|s| - 1]]
  {
  }

  lemma SnocFront<T>(s: seq<T>, x: T)
    ensures (s + [x])[..|s|] == s
  {
  }

  lemma Assoc<T>(a: seq<T>, b: seq<T>, c: seq<T>)
    ensures a + (b + c) == a + b + c
  {
  }

  lemma TakeOne<T>(s: seq<T>, i: nat)
    requires i < |s|
    ensures s[..i + 1] == s[..i] + [s[i]]
  {
  }

  lemma ToEnd<T>(s: seq<T>, i: nat)
    requires i <= |s|
    ensures s[i..|s|] == s[i..]
  {
  }

  lemma AssocThree<T>(a: seq<T>, b: seq<T>, c: seq<T>, d: seq<T>)
    ensures a + (b + c + d) == a + b + c + d
  {
  }

  lemma NothingAfter<T>(s: seq<T>)
    ensures s + [] == s
  {
  }

  lemma PrefixOf<T>(a: seq<T>, b: seq<T>, c: seq<T>)
    ensures a <= a + b + c
  {
  }

  lemma DropAppend<T>(a: seq<T>, b: seq<T>, n: nat)
    requires n <= |a|
    ensures (a + b)[n..] == a[n..] + b
  {
  }

  lemma NothingBefore<T>(s: seq<T>)
    ensures [] + s == s
  {
  }

  // ---- Selections ----

  /** The places of the elements kept, in order. */
  predicate Selects(places: seq<nat>, kept: seq<bool>) {
    && (forall k :: 0 <= k < |places| ==> places[k] < |kept| && kept[places[k]])
    && (forall k, l :: 0 <= k < l < |places| ==> places[k] < places[l])
    && forall i :: 0 <= i < |kept| && kept[i] ==> exists k :: 0 <= k < |places| && places[k] == i
  }

  lemma SelectsSnoc(places: seq<nat>, kept: seq<bool>, keep: bool)
    requires Selects(places, kept)
    ensures Selects(if keep then places + [|kept|] else places, kept + [keep])
  {
    var after := if keep then places + [|kept|] else places;
    forall i | 0 <= i < |kept| + 1 && (kept + [keep])[i] ensures exists k :: 0 <= k < |after| && after[k] == i {
      if i < |kept| {
        var k :| 0 <= k < |places| && places[k] == i;
        assert after[k] == i;
      } else {
        assert after[|places|] == i;
      }
    }
  }

  /** The elements at these places. */
  predicate IsTakenFrom<T(==)>(taken: seq<T>, s: seq<T>, places: seq<nat>) {
    |taken| == |places| && forall k :: 0 <= k < |taken| ==> places[k] < |s| && taken[k] == s[places[k]]
  }

  lemma TakenSnoc<T>(taken: seq<T>, s: seq<T>, places: seq<nat>, x: T, keep: bool)
    requires IsTakenFrom(taken, s, places)
    ensures IsTakenFrom(if keep then taken + [x] else taken, s + [x], if keep then places + [|s|] else places)
  {
  }

  lemma NothingTaken<T>(s: seq<T>)
    requires s == []
    ensures Selects([], []) && IsTakenFrom([], s, [])
  {
  }
}
