/** Sequence and option vocabulary shared by the models. */
module Lists {

  datatype Option<+T> = None | Some(value: T)

  ghost predicate Distinct<T>(s: seq<T>) {
    forall i, j :: 0 <= i < j < |s| ==> s[i] != s[j]
  }

  function Swap<T>(s: seq<T>, i: nat, j: nat): (r: seq<T>)
    requires i < |s| && j < |s|
  {
    s[i := s[j]][j := s[i]]
  }

  function RemoveAt<T>(s: seq<T>, i: nat): (r: seq<T>)
    requires i < |s|
  {
    s[..i] + s[i + 1..]
  }

  function InsertAt<T>(s: seq<T>, i: nat, x: T): (r: seq<T>)
    requires i <= |s|
  {
    s[..i] + [x] + s[i..]
  }

  lemma SwapKeepsBag<T>(s: seq<T>, i: nat, j: nat)
    requires i < |s| && j < |s|
    ensures multiset(Swap(s, i, j)) == multiset(s)
  {
  }

  lemma RemoveAtBag<T>(s: seq<T>, i: nat)
    requires i < |s|
    ensures multiset(RemoveAt(s, i)) == multiset(s) - multiset{s[i]}
    ensures multiset(s) == multiset(RemoveAt(s, i)) + multiset{s[i]}
  {
    assert s == s[..i] + [s[i]] + s[i + 1..];
    MiddleBag(s[..i], s[i], s[i + 1..]);
  }

  lemma MiddleBag<T>(a: seq<T>, x: T, b: seq<T>)
    ensures multiset(a + [x] + b) == multiset(a + b) + multiset{x}
    ensures multiset(a + b) == multiset(a + [x] + b) - multiset{x}
  {
    assert multiset(a + [x] + b) == multiset(a) + multiset{x} + multiset(b);
    assert multiset(a + b) == multiset(a) + multiset(b);
  }

  lemma RemoveAtTail<T>(s: seq<T>, i: nat)
    requires 0 < i < |s|
    ensures RemoveAt(s, i) == [s[0]] + RemoveAt(s[1..], i - 1)
  {
    assert s[..i] == [s[0]] + s[1..][..i - 1] && s[i + 1..] == s[1..][i..];
  }

  lemma InsertAtBag<T>(s: seq<T>, i: nat, x: T)
    requires i <= |s|
    ensures multiset(InsertAt(s, i, x)) == multiset(s) + multiset{x}
  {
    assert s == s[..i] + s[i..];
  }

  lemma Regroup<T>(a: seq<T>, b: seq<T>, c: seq<T>)
    ensures a + (b + c) == (a + b) + c
  {
  }

  /** What holds at c, and from each place at the next, holds at k. */
  lemma {:induction false} Chain(holds: seq<bool>, c: nat, k: nat)
    requires c <= k < |holds| && holds[c]
    requires forall j :: c <= j < k && holds[j] ==> holds[j + 1]
    ensures holds[k]
    decreases k
  {
    if c < k {
      Chain(holds, c, k - 1);
      assert holds[k - 1 + 1];
    }
  }

  function Least(x: nat, y: nat): (r: nat)
    ensures r <= x && r <= y && (r == x || r == y)
  {
    if x < y then x else y
  }

  /** The lists, one after another. */
  function Flatten<T>(lists: seq<seq<T>>): seq<T> {
    if lists == [] then [] else lists[0] + Flatten(lists[1..])
  }

  lemma FlattenCons<T>(first: seq<T>, rest: seq<seq<T>>)
    ensures Flatten([first] + rest) == first + Flatten(rest)
  {
    assert ([first] + rest)[1..] == rest;
  }

  lemma {:induction false} FlattenSnoc<T>(lists: seq<seq<T>>, k: nat)
    requires k < |lists|
    ensures Flatten(lists[..k + 1]) == Flatten(lists[..k]) + lists[k]
  {
    if k == 0 {
      assert lists[..1] == [lists[0]] + [] && lists[..0] == [];
      FlattenCons(lists[0], []);
    } else {
      FlattenSnoc(lists[1..], k - 1);
      assert lists[..k + 1] == [lists[0]] + lists[1..][..k] && lists[..k] == [lists[0]] + lists[1..][..k - 1];
      FlattenCons(lists[0], lists[1..][..k]);
      FlattenCons(lists[0], lists[1..][..k - 1]);
      Regroup(lists[0], Flatten(lists[1..][..k - 1]), lists[k]);
    }
  }

  /**
   * A first field without the separator, and what begins with the separator or is empty, are
   * determined by the whole.
   */
  lemma FirstField(sep: char, x: string, s: string, y: string, t: string)
    requires sep !in x && sep !in y && x + s == y + t
    requires (s == [] || s[0] == sep) && (t == [] || t[0] == sep)
    ensures x == y && s == t
  {
    if |x| < |y| {
      FieldOverlap(x, s, y, t);
      assert false;
    }
    if |y| < |x| {
      FieldOverlap(y, t, x, s);
      assert false;
    }
    assert x == (x + s)[..|x|] && y == (y + t)[..|y|];
    assert s == (x + s)[|x|..] && t == (y + t)[|y|..];
  }

  lemma FieldOverlap(x: string, s: string, y: string, t: string)
    requires x + s == y + t && |x| < |y|
    ensures s != [] && s[0] in y
  {
    assert |x + s| == |y + t|;
    assert (x + s)[|x|] == s[0] && (y + t)[|x|] == y[|x|];
  }
}
