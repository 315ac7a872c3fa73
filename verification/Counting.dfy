/**
 How many elements of a sequence satisfy a predicate.
 */
module Counting {
  function One(b: bool): nat {
    if b then 1 else 0
  }

  function Count<T>(xs: seq<T>, p: T -> bool): (n: nat)
    ensures n <= |xs|
  {
    if xs == [] then 0 else Count(xs[..|xs| - 1], p) + One(p(xs[|xs| - 1]))
  }

  lemma {:induction false} CountAppend<T>(xs: seq<T>, ys: seq<T>, p: T -> bool)
    ensures Count(xs + ys, p) == Count(xs, p) + Count(ys, p)
    decreases |ys|
  {
    if ys == [] {
      assert xs + ys == xs;
    } else {
      assert (xs + ys)[..|xs + ys| - 1] == xs + ys[..|ys| - 1];
      CountAppend(xs, ys[..|ys| - 1], p);
    }
  }

  lemma CountSnoc<T>(xs: seq<T>, x: T, p: T -> bool)
    ensures Count(xs + [x], p) == Count(xs, p) + One(p(x))
  {
    assert (xs + [x])[..|xs|] == xs;
  }

  lemma CountFirst<T>(xs: seq<T>, p: T -> bool)
    requires xs != []
    ensures Count(xs, p) == One(p(xs[0])) + Count(xs[1..], p)
  {
    assert xs == [xs[0]] + xs[1..];
    CountAppend([xs[0]], xs[1..], p);
    assert [xs[0]][..0] == [];
  }

  lemma {:induction false} CountUpdate<T>(xs: seq<T>, i: nat, x: T, p: T -> bool)
    requires i < |xs|
    ensures Count(xs[i := x], p) + One(p(xs[i])) == Count(xs, p) + One(p(x))
    decreases |xs|
  {
    var front := xs[..|xs| - 1];
    if i == |xs| - 1 {
      assert xs[i := x] == front + [x];
      assert xs[i := x][..|xs| - 1] == front;
    } else {
      assert xs[i := x][..|xs| - 1] == front[i := x];
      CountUpdate(front, i, x, p);
    }
  }

  lemma {:induction false} CountNone<T>(xs: seq<T>, p: T -> bool)
    ensures Count(xs, p) == 0 <==> forall x | x in xs :: !p(x)
  {
    if xs != [] {
      var front := xs[..|xs| - 1];
      CountNone(front, p);
      assert xs == front + [xs[|xs| - 1]];
      assert forall x | x in xs :: x in front || x == xs[|xs| - 1];
    }
  }

  /** An element that is counted, when there is one. */
  lemma {:induction false} CountWitness<T>(xs: seq<T>, p: T -> bool) returns (i: nat)
    requires Count(xs, p) > 0
    ensures i < |xs| && p(xs[i])
  {
    if p(xs[|xs| - 1]) {
      i := |xs| - 1;
    } else {
      i := CountWitness(xs[..|xs| - 1], p);
    }
  }

  lemma {:induction false} CountSame<T>(xs: seq<T>, ys: seq<T>, p: T -> bool)
    requires |xs| == |ys| && forall i | 0 <= i < |xs| :: p(xs[i]) == p(ys[i])
    ensures Count(xs, p) == Count(ys, p)
  {
    if xs != [] {
      CountSame(xs[..|xs| - 1], ys[..|ys| - 1], p);
    }
  }

  lemma {:induction false} CountTwo<T>(xs: seq<T>, i: nat, j: nat, p: T -> bool)
    requires i < j < |xs| && p(xs[i]) && p(xs[j])
    ensures Count(xs, p) >= 2
  {
    CountAppend(xs[..j], xs[j..], p);
    assert xs == xs[..j] + xs[j..];
    CountNone(xs[..j], p);
    assert xs[..j][i] in xs[..j];
    CountNone(xs[j..], p);
    assert xs[j..][0] in xs[j..];
  }
}
