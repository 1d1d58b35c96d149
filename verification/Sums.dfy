/** Sums and extrema over finite sets, visited in no particular order. */
module Sums {

  ghost function Sum<T>(s: set<T>, f: T -> real): real {
    if s == {} then 0.0
    else
      var x :| x in s;
      f(x) + Sum(s - {x}, f)
  }

  lemma {:induction false} SumPick<T>(s: set<T>, f: T -> real, x: T)
    requires x in s
    ensures Sum(s, f) == f(x) + Sum(s - {x}, f)
    decreases |s|
  {
    var y :| y in s && Sum(s, f) == f(y) + Sum(s - {y}, f);
    if y != x {
      SumPick(s - {y}, f, x);
      SumPick(s - {x}, f, y);
      assert s - {y} - {x} == s - {x} - {y};
    }
  }

  lemma {:induction false} SumCongruent<T>(s: set<T>, f: T -> real, g: T -> real)
    requires forall x :: x in s ==> f(x) == g(x)
    ensures Sum(s, f) == Sum(s, g)
    decreases |s|
  {
    if s != {} {
      var x :| x in s;
      SumPick(s, f, x);
      SumPick(s, g, x);
      SumCongruent(s - {x}, f, g);
    }
  }

  lemma {:induction false} SumNonnegative<T>(s: set<T>, f: T -> real)
    requires forall x :: x in s ==> f(x) >= 0.0
    ensures Sum(s, f) >= 0.0
    ensures forall x :: x in s ==> f(x) <= Sum(s, f)
    decreases |s|
  {
    forall x | x in s
      ensures f(x) <= Sum(s, f)
    {
      SumNonnegative(s - {x}, f);
      SumPick(s, f, x);
    }
    if s != {} {
      var x :| x in s;
      assert f(x) >= 0.0;
    }
  }

  function Times(k: real, x: real): real {
    k * x
  }

  lemma TimesSum(k: real, a: real, b: real)
    ensures Times(k, a + b) == Times(k, a) + Times(k, b)
    ensures Times(k, 0.0) == 0.0
  {
  }

  lemma {:induction false} SumScaled<T>(s: set<T>, f: T -> real, g: T -> real, k: real)
    requires forall x :: x in s ==> g(x) == Times(k, f(x))
    ensures Sum(s, g) == Times(k, Sum(s, f))
    decreases |s|
  {
    hide Times;
    if s == {} {
      TimesSum(k, 0.0, 0.0);
    } else {
      var x :| x in s;
      SumPick(s, f, x);
      SumPick(s, g, x);
      SumScaled(s - {x}, f, g, k);
      TimesSum(k, f(x), Sum(s - {x}, f));
    }
  }

  /** The same over whole numbers. */
  ghost function Whole<T>(s: set<T>, f: T -> int): int {
    if s == {} then 0
    else
      var x :| x in s;
      f(x) + Whole(s - {x}, f)
  }

  lemma {:induction false} WholePick<T>(s: set<T>, f: T -> int, x: T)
    requires x in s
    ensures Whole(s, f) == f(x) + Whole(s - {x}, f)
    decreases |s|
  {
    var y :| y in s && Whole(s, f) == f(y) + Whole(s - {y}, f);
    if y != x {
      WholePick(s - {y}, f, x);
      WholePick(s - {x}, f, y);
      assert s - {y} - {x} == s - {x} - {y};
    }
  }

  lemma {:induction false} WholeCongruent<T>(s: set<T>, f: T -> int, g: T -> int)
    requires forall x :: x in s ==> f(x) == g(x)
    ensures Whole(s, f) == Whole(s, g)
    decreases |s|
  {
    if s != {} {
      var x :| x in s;
      WholePick(s, f, x);
      WholePick(s, g, x);
      WholeCongruent(s - {x}, f, g);
    }
  }

  /** Changing one term changes the sum by as much. */
  lemma WholeChanged<T>(s: set<T>, f: T -> int, g: T -> int, x: T)
    requires x in s && forall y :: y in s && y != x ==> f(y) == g(y)
    ensures Whole(s, g) == Whole(s, f) - f(x) + g(x)
  {
    WholePick(s, f, x);
    WholePick(s, g, x);
    WholeCongruent(s - {x}, f, g);
  }

  lemma {:induction false} WholeNonnegative<T>(s: set<T>, f: T -> int)
    requires forall x :: x in s ==> f(x) >= 0
    ensures Whole(s, f) >= 0
    decreases |s|
  {
    if s != {} {
      var x :| x in s;
      WholePick(s, f, x);
      WholeNonnegative(s - {x}, f);
    }
  }

  ghost function Greatest(s: set<nat>): (m: nat)
    requires s != {}
    ensures m in s && forall x :: x in s ==> x <= m
  {
    var x :| x in s;
    if s == {x} then x
    else
      assert s == {x} + (s - {x});
      var m := Greatest(s - {x});
      if m < x then x else m
  }

  ghost function Least(s: set<nat>): (m: nat)
    requires s != {}
    ensures m in s && forall x :: x in s ==> m <= x
  {
    var x :| x in s;
    if s == {x} then x
    else
      assert s == {x} + (s - {x});
      var m := Least(s - {x});
      if x < m then x else m
  }

  // ---------------------------------------------------------------- over sequences

  ghost function Total<T>(xs: seq<T>, f: T -> nat): nat {
    if xs == [] then 0 else Total(xs[..|xs| - 1], f) + f(xs[|xs| - 1])
  }

  lemma {:induction false} TotalConcat<T>(xs: seq<T>, ys: seq<T>, f: T -> nat)
    ensures Total(xs + ys, f) == Total(xs, f) + Total(ys, f)
  {
    if ys == [] {
      assert xs + ys == xs;
    } else {
      TotalConcat(xs, ys[..|ys| - 1], f);
      assert (xs + ys)[..|xs + ys| - 1] == xs + ys[..|ys| - 1];
    }
  }

  lemma {:induction false} TotalCongruent<T>(xs: seq<T>, f: T -> nat, g: T -> nat)
    requires forall x :: x in xs ==> f(x) == g(x)
    ensures Total(xs, f) == Total(xs, g)
  {
    if xs != [] {
      TotalCongruent(xs[..|xs| - 1], f, g);
    }
  }

  lemma TotalRemove<T>(xs: seq<T>, j: nat, f: T -> nat)
    requires j < |xs|
    ensures Total(xs, f) == Total(xs[..j] + xs[j + 1..], f) + f(xs[j])
  {
    var front, back := xs[..j], xs[j + 1..];
    var one := [xs[j]];
    assert xs == front + one + back;
    assert Total(one, f) == f(xs[j]) by {
      assert one[..0] == [];
    }
    hide Total;
    TotalConcat(front, back, f);
    TotalConcat(front + one, back, f);
    TotalConcat(front, one, f);
  }

  lemma MultisetRemove<T>(xs: seq<T>, j: nat)
    requires j < |xs|
    ensures multiset(xs[..j] + xs[j + 1..]) == multiset(xs) - multiset{xs[j]}
  {
    assert xs == xs[..j] + [xs[j]] + xs[j + 1..];
  }

  /** The order of a sequence does not affect its total. */
  lemma {:induction false} TotalPermutation<T>(xs: seq<T>, ys: seq<T>, f: T -> nat)
    requires multiset(xs) == multiset(ys)
    ensures Total(xs, f) == Total(ys, f)
  {
    if xs == [] {
      assert |multiset(ys)| == 0;
    } else {
      hide Total;
      var x := xs[0];
      assert x in multiset(ys);
      var j :| 0 <= j < |ys| && ys[j] == x;
      MultisetRemove(xs, 0);
      MultisetRemove(ys, j);
      TotalRemove(xs, 0, f);
      TotalRemove(ys, j, f);
      TotalPermutation(xs[..0] + xs[1..], ys[..j] + ys[j + 1..], f);
    }
  }
}
