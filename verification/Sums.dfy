/** Finite sums of reals, by series and by column of a matrix. */
module Sums {
  type Matrix = seq<seq<real>>

  function Sum(xs: seq<real>): real {
    if xs == [] then 0.0 else Sum(xs[..|xs| - 1]) + xs[|xs| - 1]
  }

  /** Every row has one value per timestep. */
  predicate Rectangular(m: Matrix, timesteps: nat) {
    forall j :: 0 <= j < |m| ==> |m[j]| == timesteps
  }

  function Column(m: Matrix, t: nat): seq<real>
    requires forall j :: 0 <= j < |m| ==> t < |m[j]|
  {
    seq(|m|, j requires 0 <= j < |m| => m[j][t])
  }

  /** `m.sum(axis=0)` */
  function ColumnSums(m: Matrix, timesteps: nat): (s: seq<real>)
    requires Rectangular(m, timesteps)
    ensures |s| == timesteps
    ensures forall t :: 0 <= t < timesteps ==> s[t] == Sum(Column(m, t))
  {
    seq(timesteps, t requires 0 <= t < timesteps => Sum(Column(m, t)))
  }

  lemma SumSnoc(xs: seq<real>, x: real)
    ensures Sum(xs + [x]) == Sum(xs) + x
  {
    assert (xs + [x])[..|xs|] == xs;
  }

  /** Sums of pointwise related series. */
  lemma {:induction false} SumPlus(xs: seq<real>, ys: seq<real>, zs: seq<real>)
    requires |xs| == |ys| == |zs|
    requires forall i :: 0 <= i < |xs| ==> zs[i] == xs[i] + ys[i]
    ensures Sum(zs) == Sum(xs) + Sum(ys)
  {
    if xs != [] {
      SumPlus(xs[..|xs| - 1], ys[..|ys| - 1], zs[..|zs| - 1]);
    }
  }

  lemma {:induction false} SumScale(factor: real, xs: seq<real>, ys: seq<real>)
    requires |xs| == |ys|
    requires forall i :: 0 <= i < |xs| ==> ys[i] == factor * xs[i]
    ensures Sum(ys) == factor * Sum(xs)
  {
    if xs != [] {
      SumScale(factor, xs[..|xs| - 1], ys[..|ys| - 1]);
    }
  }

  lemma {:induction false} SumAtMost(xs: seq<real>, ys: seq<real>)
    requires |xs| == |ys|
    requires forall i :: 0 <= i < |xs| ==> xs[i] <= ys[i]
    ensures Sum(xs) <= Sum(ys)
  {
    if xs != [] {
      SumAtMost(xs[..|xs| - 1], ys[..|ys| - 1]);
    }
  }

  /** A sum of nonnegative terms is nonnegative, at least each term, and zero only when every term is. */
  lemma {:induction false} SumNonnegative(xs: seq<real>)
    requires forall i :: 0 <= i < |xs| ==> xs[i] >= 0.0
    ensures Sum(xs) >= 0.0
    ensures forall i :: 0 <= i < |xs| ==> xs[i] <= Sum(xs)
  {
    if xs != [] {
      var front := xs[..|xs| - 1];
      SumNonnegative(front);
      forall i | 0 <= i < |xs| ensures xs[i] <= Sum(xs) {
        if i < |front| {
          assert front[i] == xs[i];
        }
      }
    }
  }

  lemma {:induction false} SumZero(xs: seq<real>)
    requires forall i :: 0 <= i < |xs| ==> xs[i] == 0.0
    ensures Sum(xs) == 0.0
  {
    if xs != [] {
      SumZero(xs[..|xs| - 1]);
    }
  }

  lemma ColumnSnoc(m: Matrix, row: seq<real>, t: nat)
    requires forall j :: 0 <= j < |m| ==> t < |m[j]|
    requires t < |row|
    ensures Column(m + [row], t) == Column(m, t) + [row[t]]
  {
  }

  function RowSums(m: Matrix): seq<real> {
    seq(|m|, j requires 0 <= j < |m| => Sum(m[j]))
  }

  /** Summing a matrix by columns or by rows gives the same total. */
  lemma {:induction false} SumByRows(m: Matrix, timesteps: nat)
    requires Rectangular(m, timesteps)
    ensures Sum(ColumnSums(m, timesteps)) == Sum(RowSums(m))
  {
    if m == [] {
      SumZero(ColumnSums(m, timesteps));
    } else {
      var front, row := m[..|m| - 1], m[|m| - 1];
      SumByRows(front, timesteps);
      assert m == front + [row];
      forall t | 0 <= t < timesteps
        ensures ColumnSums(m, timesteps)[t] == ColumnSums(front, timesteps)[t] + row[t]
      {
        ColumnSnoc(front, row, t);
        SumSnoc(Column(front, t), row[t]);
      }
      SumPlus(ColumnSums(front, timesteps), row, ColumnSums(m, timesteps));
      assert RowSums(m) == RowSums(front) + [Sum(row)];
      SumSnoc(RowSums(front), Sum(row));
    }
  }

  // ---- Order does not matter ----

  lemma {:induction false} SumRemove(xs: seq<real>, i: nat)
    requires i < |xs|
    ensures Sum(xs) == Sum(xs[..i] + xs[i + 1..]) + xs[i]
    decreases |xs|
  {
    if i == |xs| - 1 {
      assert xs[..i] + xs[i + 1..] == xs[..|xs| - 1];
    } else {
      var front, last := xs[..|xs| - 1], xs[|xs| - 1];
      SumRemove(front, i);
      assert xs[..i] + xs[i + 1..] == (front[..i] + front[i + 1..]) + [last];
      SumSnoc(front[..i] + front[i + 1..], last);
    }
  }

  /** Removing one occurrence of the last element of `xs` from a rearrangement `ys` of it. */
  lemma Unplace<T>(xs: seq<T>, ys: seq<T>) returns (i: nat)
    requires xs != [] && multiset(xs) == multiset(ys)
    ensures i < |ys| && ys[i] == xs[|xs| - 1]
    ensures multiset(xs[..|xs| - 1]) == multiset(ys[..i] + ys[i + 1..])
  {
    var front, last := xs[..|xs| - 1], xs[|xs| - 1];
    assert xs == front + [last];
    assert last in multiset(ys);
    i :| 0 <= i < |ys| && ys[i] == last;
    assert ys == ys[..i] + [ys[i]] + ys[i + 1..];
    assert multiset(ys) == multiset(ys[..i] + ys[i + 1..]) + multiset{last};
    assert multiset(xs) == multiset(front) + multiset{last};
    assert multiset(front) == multiset(xs) - multiset{last};
  }

  function Indices(n: nat): seq<nat> {
    seq(n, i => i)
  }

  /** `order` lists every index below `n` exactly once. */
  ghost predicate IsOrder(order: seq<nat>, n: nat) {
    multiset(order) == multiset(Indices(n))
  }

  lemma OrderInRange(order: seq<nat>, n: nat)
    requires IsOrder(order, n)
    ensures |order| == n && forall i :: 0 <= i < |order| ==> order[i] < n
  {
    assert |multiset(order)| == |multiset(Indices(n))|;
    forall i | 0 <= i < |order| ensures order[i] < n {
      assert order[i] in multiset(order);
      assert order[i] in Indices(n);
    }
  }

  function Reorder<T>(xs: seq<T>, order: seq<nat>): (ys: seq<T>)
    requires forall i :: 0 <= i < |order| ==> order[i] < |xs|
    ensures |ys| == |order| && forall i :: 0 <= i < |ys| ==> ys[i] == xs[order[i]]
  {
    seq(|order|, i requires 0 <= i < |order| => xs[order[i]])
  }

  lemma {:induction false} SumOfReorders(xs: seq<real>, a: seq<nat>, b: seq<nat>)
    requires multiset(a) == multiset(b)
    requires forall i :: 0 <= i < |a| ==> a[i] < |xs|
    requires forall i :: 0 <= i < |b| ==> b[i] < |xs|
    ensures Sum(Reorder(xs, a)) == Sum(Reorder(xs, b))
    decreases |a|
  {
    if a == [] {
      assert |multiset(b)| == 0;
    } else {
      var i := Unplace(a, b);
      var rest := b[..i] + b[i + 1..];
      SumOfReorders(xs, a[..|a| - 1], rest);
      SumRemove(Reorder(xs, b), i);
      assert Reorder(xs, b)[..i] + Reorder(xs, b)[i + 1..] == Reorder(xs, rest);
      assert Reorder(xs, a)[..|a| - 1] == Reorder(xs, a[..|a| - 1]);
    }
  }

  lemma SumOfOrder(xs: seq<real>, order: seq<nat>)
    requires IsOrder(order, |xs|)
    requires forall i :: 0 <= i < |order| ==> order[i] < |xs|
    ensures Sum(Reorder(xs, order)) == Sum(xs)
  {
    SumOfReorders(xs, order, Indices(|xs|));
    assert Reorder(xs, Indices(|xs|)) == xs;
  }
}
