/** The in-place shuffle, its value, and why it is an exact one. */
module FisherYates {
  import opened Lists

  /** The random numbers of one shuffle of n elements: the draw at slot i lies in 0..i. */
  predicate ValidDraws(draws: seq<nat>, n: nat) {
    |draws| == n && forall i :: 0 <= i < n ==> draws[i] <= i
  }

  /** What one shuffle with the given draws returns: the last slot is settled first. */
  function Shuffled<T>(s: seq<T>, draws: seq<nat>): (r: seq<T>)
    requires ValidDraws(draws, |s|)
    ensures |r| == |s|
    decreases |s|
  {
    if s == [] then []
    else
      var i := |s| - 1;
      var t := Swap(s, i, draws[i]);
      Shuffled(t[..i], draws[..i]) + [t[i]]
  }

  /** The order still to be reached when slots i+1.. are settled. */
  ghost function Pending<T>(s: seq<T>, draws: seq<nat>, i: nat): seq<T>
    requires i < |s| && ValidDraws(draws, |s|)
  {
    Shuffled(s[..i + 1], draws[..i + 1]) + s[i + 1..]
  }

  lemma PendingStep<T>(s: seq<T>, draws: seq<nat>, i: nat)
    requires 0 < i < |s| && ValidDraws(draws, |s|)
    ensures Pending(Swap(s, i, draws[i]), draws, i - 1) == Pending(s, draws, i)
  {
    var t := Swap(s, i, draws[i]);
    var u := Swap(s[..i + 1], i, draws[i]);
    assert u[..i] == t[..i] && u[i] == t[i] && draws[..i + 1][..i] == draws[..i];
    assert Shuffled(s[..i + 1], draws[..i + 1]) == Shuffled(t[..i], draws[..i]) + [t[i]];
    assert t[i..] == [t[i]] + s[i + 1..];
  }

  method ShuffleArray<T>(a: array<T>, draws: seq<nat>)
    requires ValidDraws(draws, a.Length)
    modifies a
    ensures a[..] == Shuffled(old(a[..]), draws)
  {
    if a.Length == 0 { return; }
    var i := a.Length - 1;
    assert a[..i + 1] == a[..] && draws[..i + 1] == draws;
    while i > 0
      invariant 0 <= i < a.Length
      invariant Pending(a[..], draws, i) == Shuffled(old(a[..]), draws)
    {
      var j := draws[i];
      ghost var before := a[..];
      PendingStep(before, draws, i);
      a[i], a[j] := a[j], a[i];
      assert a[..] == Swap(before, i, j);
      i := i - 1;
    }
    assert Pending(a[..], draws, 0) == a[..];
  }

  /** shuffleTracks: the same loop on a copy. */
  method ShuffledCopy<T>(s: seq<T>, draws: seq<nat>) returns (r: seq<T>)
    requires ValidDraws(draws, |s|)
    ensures r == Shuffled(s, draws)
  {
    var a := new T[|s|](i requires 0 <= i < |s| => s[i]);
    assert a[..] == s;
    ShuffleArray(a, draws);
    r := a[..];
  }

  lemma {:induction false} ShuffledIsPermutation<T>(s: seq<T>, draws: seq<nat>)
    requires ValidDraws(draws, |s|)
    ensures multiset(Shuffled(s, draws)) == multiset(s)
    decreases |s|
  {
    if s != [] {
      var i := |s| - 1;
      var t := Swapped(s, i, draws[i]);
      var front := Shuffled(t[..i], draws[..i]);
      assert Shuffled(s, draws) == front + [t[i]];
      ShuffledIsPermutation(t[..i], draws[..i]);
      SettleBag(s, t, front);
    }
  }

  /** A swap, known by its bag only. */
  lemma Swapped<T>(s: seq<T>, i: nat, j: nat) returns (t: seq<T>)
    requires i < |s| && j < |s|
    ensures t == Swap(s, i, j) && |t| == |s| && t[i] == s[j] && multiset(t) == multiset(s)
  {
    t := Swap(s, i, j);
    SwapKeepsBag(s, i, j);
  }

  lemma SettleBag<T>(s: seq<T>, t: seq<T>, front: seq<T>)
    requires t != [] && multiset(t) == multiset(s) && multiset(front) == multiset(t[..|t| - 1])
    ensures multiset(front + [t[|t| - 1]]) == multiset(s)
  {
    assert t == t[..|t| - 1] + [t[|t| - 1]];
  }

  lemma SwapKeepsDistinct<T>(s: seq<T>, i: nat, j: nat)
    requires i < |s| && j < |s| && Distinct(s)
    ensures Distinct(Swap(s, i, j))
  {
  }

  /** The last slot shows the last draw; the other slots show a shuffle of what is left. */
  lemma ShuffledUnfold<T>(s: seq<T>, d: seq<nat>)
    requires s != [] && ValidDraws(d, |s|)
    ensures var i := |s| - 1; var t := Swap(s, i, d[i]);
            && Shuffled(s, d)[i] == s[d[i]]
            && Shuffled(s, d)[..i] == Shuffled(t[..i], d[..i])
  {
  }

  /** Different draws give different orders. */
  lemma {:induction false} ShuffledInjective<T>(s: seq<T>, d: seq<nat>, e: seq<nat>)
    requires Distinct(s) && ValidDraws(d, |s|) && ValidDraws(e, |s|)
    requires Shuffled(s, d) == Shuffled(s, e)
    ensures d == e
    decreases |s|
  {
    if s != [] {
      var i := |s| - 1;
      SameLastDraw(s, d, e);
      var t := Swap(s, i, d[i]);
      SwapKeepsDistinct(s, i, d[i]);
      DistinctTake(t, i);
      ShuffledInjective(t[..i], d[..i], e[..i]);
      assert d == d[..i] + [d[i]] && e == e[..i] + [e[i]];
    }
  }

  lemma SameLastDraw<T>(s: seq<T>, d: seq<nat>, e: seq<nat>)
    requires s != [] && Distinct(s) && ValidDraws(d, |s|) && ValidDraws(e, |s|)
    requires Shuffled(s, d) == Shuffled(s, e)
    ensures var i := |s| - 1; var t := Swap(s, i, d[i]);
            && d[i] == e[i]
            && Shuffled(t[..i], d[..i]) == Shuffled(t[..i], e[..i])
  {
    ShuffledUnfold(s, d);
    ShuffledUnfold(s, e);
    DistinctIndex(s, d[|s| - 1], e[|s| - 1]);
  }

  lemma DistinctIndex<T>(s: seq<T>, i: nat, j: nat)
    requires Distinct(s) && i < |s| && j < |s| && s[i] == s[j]
    ensures i == j
  {
  }

  lemma DistinctTake<T>(s: seq<T>, k: nat)
    requires Distinct(s) && k <= |s|
    ensures Distinct(s[..k])
  {
  }

  /** The draws that lead from s to a given rearrangement p of it. */
  lemma {:induction false} ShuffledSurjective<T>(s: seq<T>, p: seq<T>) returns (draws: seq<nat>)
    requires multiset(s) == multiset(p)
    ensures ValidDraws(draws, |s|) && Shuffled(s, draws) == p
    decreases |s|
  {
    BagLength(s, p);
    if s == [] {
      draws := [];
    } else {
      var i := |s| - 1;
      var j := IndexInBag(s, p[i]);
      var t := Swap(s, i, j);
      BagWithoutLast(s, p, j);
      var ds := ShuffledSurjective(t[..i], p[..i]);
      draws := ds + [j];
      assert draws[..i] == ds;
      ShuffledUnfold(s, draws);
      assert Shuffled(s, draws) == p[..i] + [p[i]];
    }
  }

  lemma BagLength<T>(s: seq<T>, p: seq<T>)
    requires multiset(s) == multiset(p)
    ensures |s| == |p|
  {
    assert |multiset(s)| == |s| && |multiset(p)| == |p|;
  }

  lemma IndexInBag<T>(s: seq<T>, x: T) returns (j: nat)
    requires x in multiset(s)
    ensures j < |s| && s[j] == x
  {
    j :| 0 <= j < |s| && s[j] == x;
  }

  lemma BagWithoutLast<T>(s: seq<T>, p: seq<T>, j: nat)
    requires |s| == |p| > 0 && multiset(s) == multiset(p) && j < |s| && s[j] == p[|s| - 1]
    ensures multiset(Swap(s, |s| - 1, j)[..|s| - 1]) == multiset(p[..|s| - 1])
  {
    var t := Swapped(s, |s| - 1, j);
    SameLast(t, p);
  }

  lemma SameLast<T>(t: seq<T>, p: seq<T>)
    requires |t| == |p| > 0 && multiset(t) == multiset(p) && t[|t| - 1] == p[|p| - 1]
    ensures multiset(t[..|t| - 1]) == multiset(p[..|p| - 1])
  {
    LastOff(t);
    LastOff(p);
  }

  lemma LastOff<T>(s: seq<T>)
    requires s != []
    ensures multiset(s[..|s| - 1]) == multiset(s) - multiset{s[|s| - 1]}
  {
    assert s == s[..|s| - 1] + [s[|s| - 1]];
  }

  /** Relabelling the elements commutes with shuffling them. */
  lemma {:induction false} ShuffledNatural<T, U>(s: seq<T>, draws: seq<nat>, f: T -> U)
    requires ValidDraws(draws, |s|)
    ensures Mapped(Shuffled(s, draws), f) == Shuffled(Mapped(s, f), draws)
    decreases |s|
  {
    if s != [] {
      var i := |s| - 1;
      var t := Swap(s, i, draws[i]);
      ShuffledNatural(t[..i], draws[..i], f);
      MappedSwap(s, i, draws[i], f);
      MappedAppend(Shuffled(t[..i], draws[..i]), t[i], f);
      ShuffledStep(s, draws);
      ShuffledStep(Mapped(s, f), draws);
    }
  }

  lemma ShuffledStep<T>(s: seq<T>, draws: seq<nat>)
    requires s != [] && ValidDraws(draws, |s|)
    ensures
      var i := |s| - 1;
      var t := Swap(s, i, draws[i]);
      Shuffled(s, draws) == Shuffled(t[..i], draws[..i]) + [t[i]]
  {
  }

  lemma MappedSwap<T, U>(s: seq<T>, i: nat, j: nat, f: T -> U)
    requires i < |s| && j < |s|
    ensures Mapped(Swap(s, i, j), f) == Swap(Mapped(s, f), i, j)
    ensures Mapped(Swap(s, i, j)[..i], f) == Swap(Mapped(s, f), i, j)[..i]
  {
  }

  lemma MappedAppend<T, U>(s: seq<T>, x: T, f: T -> U)
    ensures Mapped(s + [x], f) == Mapped(s, f) + [f(x)]
  {
  }

  function Mapped<T, U>(s: seq<T>, f: T -> U): (r: seq<U>)
    ensures |r| == |s| && forall i :: 0 <= i < |s| ==> r[i] == f(s[i])
  {
    seq(|s|, i requires 0 <= i < |s| => f(s[i]))
  }

  // ---- Counting: n! draw vectors, n! orders, one for one.

  function Factorial(n: nat): (r: nat)
    ensures r >= 1
  {
    if n == 0 then 1 else n * Factorial(n - 1)
  }

  /** Every draw vector of length n. */
  ghost function AllDraws(n: nat): (r: set<seq<nat>>)
    ensures forall d :: d in r <==> ValidDraws(d, n)
  {
    if n == 0 then {[]}
    else
      var r := set d, j: nat | d in AllDraws(n - 1) && 0 <= j < n :: d + [j];
      assert forall d :: ValidDraws(d, n) ==> d == d[..n - 1] + [d[n - 1]] && ValidDraws(d[..n - 1], n - 1);
      r
  }

  /** The draw vectors of length n whose last draw is below m. */
  ghost function LastBelow(n: nat, m: nat): set<seq<nat>>
    requires n > 0 && m <= n
  {
    set d | d in AllDraws(n) && d[n - 1] < m
  }

  ghost function LastIs(n: nat, j: nat): set<seq<nat>>
    requires j < n
  {
    set d | d in AllDraws(n) && d[n - 1] == j
  }

  lemma LastIsCount(n: nat, j: nat)
    requires j < n
    ensures |LastIs(n, j)| == |AllDraws(n - 1)|
  {
    forall d
      ensures d in LastIs(n, j) <==> |d| == n && d[n - 1] == j && d[..n - 1] in AllDraws(n - 1)
    {
      if |d| == n && d[n - 1] == j && d[..n - 1] in AllDraws(n - 1) {
        assert forall i :: 0 <= i < n - 1 ==> d[i] == d[..n - 1][i];
        assert ValidDraws(d, n);
      }
    }
    SliceCount(n, j, LastIs(n, j), AllDraws(n - 1));
  }

  lemma {:induction false} LastBelowCount(n: nat, m: nat)
    requires n > 0 && m <= n
    ensures |LastBelow(n, m)| == m * |AllDraws(n - 1)|
    decreases m
  {
    if m == 0 {
      assert LastBelow(n, m) == {};
    } else {
      LastBelowCount(n, m - 1);
      LastIsCount(n, m - 1);
      LastBelowSplit(n, m);
      OneMoreTime(m - 1, |AllDraws(n - 1)|);
    }
  }

  lemma OneMoreTime(m: nat, a: nat)
    ensures m * a + a == (m + 1) * a
  {
  }

  lemma LastBelowSplit(n: nat, m: nat)
    requires 0 < m <= n
    ensures |LastBelow(n, m)| == |LastBelow(n, m - 1)| + |LastIs(n, m - 1)|
  {
    var a, b := LastBelow(n, m - 1), LastIs(n, m - 1);
    assert LastBelow(n, m) == a + b && a !! b;
  }

  /** Fixing the last draw leaves a copy of the shorter vectors. */
  lemma {:induction false} SliceCount(n: nat, j: nat, long: set<seq<nat>>, short: set<seq<nat>>)
    requires n > 0 && j < n
    requires forall d :: d in long <==> |d| == n && d[n - 1] == j && d[..n - 1] in short
    requires forall d :: d in short ==> |d| == n - 1
    ensures |long| == |short|
    decreases short
  {
    if short == {} {
      assert long == {};
    } else {
      var d :| d in short;
      assert (d + [j])[..n - 1] == d;
      assert d + [j] in long;
      forall e | e in long && e[..n - 1] == d
        ensures e == d + [j]
      {
        assert e == e[..n - 1] + [e[n - 1]];
      }
      SliceCount(n, j, long - {d + [j]}, short - {d});
    }
  }

  lemma {:induction false} AllDrawsCount(n: nat)
    ensures |AllDraws(n)| == Factorial(n)
  {
    if n > 0 {
      AllDrawsCount(n - 1);
      LastBelowCount(n, n);
      assert LastBelow(n, n) == AllDraws(n);
    }
  }

  /** The draw vectors that turn s into p. */
  ghost function DrawsReaching<T>(s: seq<T>, p: seq<T>): set<seq<nat>> {
    set d | d in AllDraws(|s|) && Shuffled(s, d) == p
  }

  /**
   * Exactness: of the n! equally likely draw vectors, each order of the n distinct
   * elements is reached by exactly one, and nothing else is reached.
   */
  lemma {:induction false} ShuffleIsExact<T>(s: seq<T>, p: seq<T>)
    requires Distinct(s)
    ensures |AllDraws(|s|)| == Factorial(|s|)
    ensures |DrawsReaching(s, p)| == if multiset(p) == multiset(s) then 1 else 0
  {
    AllDrawsCount(|s|);
    if multiset(p) == multiset(s) {
      var d0 := ShuffledSurjective(s, p);
      ReachedOnce(s, p, d0);
    } else {
      forall d | d in AllDraws(|s|)
        ensures Shuffled(s, d) != p
      {
        ShuffledIsPermutation(s, d);
      }
      assert DrawsReaching(s, p) == {};
    }
  }

  lemma ReachedOnce<T>(s: seq<T>, p: seq<T>, d0: seq<nat>)
    requires Distinct(s) && ValidDraws(d0, |s|) && Shuffled(s, d0) == p
    ensures DrawsReaching(s, p) == {d0}
  {
    forall d | d in DrawsReaching(s, p)
      ensures d == d0
    {
      ShuffledInjective(s, d, d0);
    }
  }
}
