/** Which stream of a track to try first: a four-pass ordering that is one total order. */
module Transcodings {
  import opened Lists

  datatype Transcoding = Transcoding(
    url: string,
    preset: Option<string>,
    snipped: Option<bool>,
    protocol: Option<string>)

  const PRESET_ORDER: seq<string> := ["mp3_1_0", "aac_160k", "opus_0_0", "abr_sq"]

  predicate Contains(s: string, part: string) {
    part <= s || (s != [] && Contains(s[1..], part))
  }

  predicate Usable(t: Transcoding) {
    && !Contains(if t.protocol.Some? then t.protocol.value else "", "encrypted")
    && !(t.snipped.Some? && t.snipped.value)
    && !Contains(t.url, "/preview")
  }

  predicate IsProgressive(t: Transcoding) {
    t.protocol == Some("progressive")
  }

  // ---- The order, told without the passes

  /** Progressive streams come first. */
  function Half(t: Transcoding): nat {
    if IsProgressive(t) then 0 else 1
  }

  /** A preset's place in the preference list; 4 for none of them. */
  function PresetPlace(preset: Option<string>): (p: nat)
    ensures p <= 4
    ensures p < 4 <==> preset.Some? && preset.value in PRESET_ORDER
    ensures p < 4 ==> PRESET_ORDER[p] == preset.value
  {
    if preset == Some(PRESET_ORDER[0]) then 0
    else if preset == Some(PRESET_ORDER[1]) then 1
    else if preset == Some(PRESET_ORDER[2]) then 2
    else if preset == Some(PRESET_ORDER[3]) then 3
    else 4
  }

  /** No usable earlier entry of the same half has the same preset. */
  predicate IsFirst(ts: seq<Transcoding>, x: nat)
    requires x < |ts|
  {
    forall y :: 0 <= y < x && Usable(ts[y]) && Half(ts[y]) == Half(ts[x]) ==> ts[y].preset != ts[x].preset
  }

  /** Firsts of a preferred preset rank by preference; all others share the last rank. */
  function Rank(ts: seq<Transcoding>, x: nat): (r: nat)
    requires x < |ts|
    ensures r <= 4
  {
    if IsFirst(ts, x) then PresetPlace(ts[x].preset) else 4
  }

  predicate Lex(a: nat, b: nat, c: nat, x: nat, y: nat, z: nat) {
    a < x || (a == x && (b < y || (b == y && c < z)))
  }

  /** Entry x belongs before entry y: by half, then rank, then original position. */
  predicate Before(ts: seq<Transcoding>, x: nat, y: nat)
    requires x < |ts| && y < |ts|
  {
    Lex(Half(ts[x]), Rank(ts, x), x, Half(ts[y]), Rank(ts, y), y)
  }

  /** Entry x belongs before the point (half h, rank p, position k). */
  predicate Below(ts: seq<Transcoding>, x: nat, h: nat, p: nat, k: nat)
    requires x < |ts|
  {
    Lex(Half(ts[x]), Rank(ts, x), x, h, p, k)
  }

  ghost predicate Sorted(ts: seq<Transcoding>, order: seq<nat>) {
    && (forall i :: 0 <= i < |order| ==> order[i] < |ts|)
    && forall i, j :: 0 <= i < j < |order| ==> Before(ts, order[i], order[j])
  }

  /** The usable entries before the given point, in order, and nothing else. */
  ghost predicate RankedUpTo(ts: seq<Transcoding>, order: seq<nat>, h: nat, p: nat, k: nat) {
    && Sorted(ts, order)
    && forall x: nat :: x in order <==> x < |ts| && Usable(ts[x]) && Below(ts, x, h, p, k)
  }

  /** A complete ranking: every usable entry exactly once, sorted. */
  ghost predicate IsRanking(ts: seq<Transcoding>, order: seq<nat>) {
    && Sorted(ts, order)
    && forall x: nat :: x in order <==> x < |ts| && Usable(ts[x])
  }

  /** There is only one ranking, so the conditions above say what the code returns. */
  lemma {:induction false} RankingUnique(ts: seq<Transcoding>, a: seq<nat>, b: seq<nat>)
    requires Sorted(ts, a) && Sorted(ts, b) && forall x: nat :: x in a <==> x in b
    ensures a == b
    decreases |a|
  {
    if a == [] {
      NothingIn(b);
    } else {
      assert a[0] in a && a[0] in b;
      assert b[0] in b && b[0] in a;
      HeadIsLeast(ts, a, b[0]);
      HeadIsLeast(ts, b, a[0]);
      assert a[0] == b[0];
      SortedTail(ts, a);
      SortedTail(ts, b);
      RankingUnique(ts, a[1..], b[1..]);
      assert a == [a[0]] + a[1..] && b == [b[0]] + b[1..];
    }
  }

  lemma NothingIn(b: seq<nat>)
    ensures b == [] || exists x: nat :: x in b
  {
    if b != [] {
      assert b[0] in b;
    }
  }

  lemma HeadIsLeast(ts: seq<Transcoding>, a: seq<nat>, x: nat)
    requires Sorted(ts, a) && x in a
    ensures x < |ts| && a[0] < |ts| && (x == a[0] || Before(ts, a[0], x))
  {
    var i :| 0 <= i < |a| && a[i] == x;
  }

  lemma SortedTail(ts: seq<Transcoding>, a: seq<nat>)
    requires Sorted(ts, a) && a != []
    ensures Sorted(ts, a[1..])
    ensures forall x: nat :: x in a[1..] <==> x in a && x != a[0]
  {
    forall x | x in a[1..]
      ensures x != a[0]
    {
      var i :| 0 <= i < |a[1..]| && a[1..][i] == x;
      assert Before(ts, a[0], a[i + 1]);
    }
  }

  /** A ranking read off: no repeats, progressive first, and firsts of presets by preference. */
  lemma RankingReads(ts: seq<Transcoding>, order: seq<nat>, i: nat, j: nat)
    requires IsRanking(ts, order) && i < j < |order|
    ensures order[i] != order[j]
    ensures IsProgressive(ts[order[j]]) ==> IsProgressive(ts[order[i]])
    ensures Half(ts[order[i]]) == Half(ts[order[j]]) ==> Rank(ts, order[i]) <= Rank(ts, order[j])
    ensures Half(ts[order[i]]) == Half(ts[order[j]]) && Rank(ts, order[i]) == Rank(ts, order[j]) ==> order[i] < order[j]
  {
    assert Before(ts, order[i], order[j]);
  }

  /** The part stands somewhere in the text. */
  lemma {:induction false} ContainsIff(s: string, part: string)
    ensures Contains(s, part) <==> exists a, b :: s == a + part + b
  {
    if part <= s {
      assert s == [] + part + s[|part|..];
    } else if s != [] {
      ContainsIff(s[1..], part);
      if a, b :| s[1..] == a + part + b {
        assert s == ([s[0]] + a) + part + b;
      }
      if a, b :| s == a + part + b {
        NotAtFront(s, a, part, b);
        assert s[1..] == a[1..] + part + b;
      }
    }
  }

  lemma NotAtFront(s: string, a: string, part: string, b: string)
    requires s == a + part + b
    ensures a == [] ==> part <= s
  {
    assert a == [] ==> s == part + b;
  }

  /** What is ranked at all: neither encrypted, nor snipped, nor a preview. */
  lemma RankedIff(ts: seq<Transcoding>, order: seq<nat>, x: nat)
    requires IsRanking(ts, order) && x < |ts|
    ensures x in order <==>
              && (ts[x].protocol.Some? ==> !exists a, b :: ts[x].protocol.value == a + "encrypted" + b)
              && ts[x].snipped != Some(true)
              && !exists a, b :: ts[x].url == a + "/preview" + b
  {
    ContainsIff(ts[x].url, "/preview");
    if ts[x].protocol.Some? {
      ContainsIff(ts[x].protocol.value, "encrypted");
    } else {
      assert !Contains("", "encrypted");
    }
  }

  /** Entry x is the first ranked one of its half with preset p of the preference list. */
  ghost predicate FirstOf(ts: seq<Transcoding>, order: seq<nat>, x: nat, p: nat) {
    && x in order && x < |ts| && p < 4 && ts[x].preset == Some(PRESET_ORDER[p])
    && forall y: nat :: y in order && y < x && y < |ts| && (IsProgressive(ts[y]) <==> IsProgressive(ts[x])) ==>
         ts[y].preset != ts[x].preset
  }

  lemma FirstOfIsRank(ts: seq<Transcoding>, order: seq<nat>, x: nat, p: nat)
    requires IsRanking(ts, order) && x in order && x < |ts| && p < 4
    ensures FirstOf(ts, order, x, p) <==> Rank(ts, x) == p
  {
    if ts[x].preset == Some(PRESET_ORDER[p]) {
      assert IsFirst(ts, x) <==> FirstOf(ts, order, x, p) by {
        forall y: nat | y < x && Usable(ts[y])
          ensures y in order
        {
        }
      }
    }
  }

  /**
   * Entry x alone is progressive; or, both or neither being so, it is the first of a preset and
   * y the first of a less preferred one or of none; or neither is such a first and x came
   * earlier.
   */
  ghost predicate Outranks(ts: seq<Transcoding>, order: seq<nat>, x: nat, y: nat)
    requires x < |ts| && y < |ts|
  {
    || (IsProgressive(ts[x]) && !IsProgressive(ts[y]))
    || ((IsProgressive(ts[x]) <==> IsProgressive(ts[y])) &&
        if exists p: nat :: p < 4 && FirstOf(ts, order, x, p) then
          exists p: nat :: p < 4 && FirstOf(ts, order, x, p) && forall q: nat :: q <= p ==> !FirstOf(ts, order, y, q)
        else x < y && forall q: nat :: q < 4 ==> !FirstOf(ts, order, y, q))
  }

  /** The ranking told by presets and positions: an entry stands before exactly those it outranks. */
  lemma RankingTells(ts: seq<Transcoding>, order: seq<nat>, i: nat, j: nat)
    requires IsRanking(ts, order) && i < |order| && j < |order| && i != j
    ensures order[i] < |ts| && order[j] < |ts|
    ensures i < j <==> Outranks(ts, order, order[i], order[j])
  {
    var x, y := order[i], order[j];
    assert x in order && y in order;
    forall p: nat | p < 4
      ensures FirstOf(ts, order, x, p) <==> Rank(ts, x) == p
      ensures FirstOf(ts, order, y, p) <==> Rank(ts, y) == p
    {
      FirstOfIsRank(ts, order, x, p);
      FirstOfIsRank(ts, order, y, p);
    }
    PlacesTell(ts, order, i, j);
    TellByRank(ts, order, x, y);
  }

  lemma PlacesTell(ts: seq<Transcoding>, order: seq<nat>, i: nat, j: nat)
    requires IsRanking(ts, order) && i < |order| && j < |order| && i != j
    ensures order[i] < |ts| && order[j] < |ts| && (i < j <==> Before(ts, order[i], order[j]))
    ensures Rank(ts, order[i]) == Rank(ts, order[j]) < 4 ==> Half(ts[order[i]]) != Half(ts[order[j]])
  {
    assert order[i] in order && order[j] in order;
    if i < j {
      assert Before(ts, order[i], order[j]);
    } else {
      assert Before(ts, order[j], order[i]);
    }
    if Half(ts[order[i]]) == Half(ts[order[j]]) && Rank(ts, order[i]) == Rank(ts, order[j]) < 4 {
      RankHolder(ts, order[i], order[j]);
      assert false;
    }
  }

  lemma TellByRank(ts: seq<Transcoding>, order: seq<nat>, x: nat, y: nat)
    requires x < |ts| && y < |ts|
    requires forall p: nat :: p < 4 ==> (FirstOf(ts, order, x, p) <==> Rank(ts, x) == p)
    requires forall p: nat :: p < 4 ==> (FirstOf(ts, order, y, p) <==> Rank(ts, y) == p)
    requires Rank(ts, x) == Rank(ts, y) < 4 ==> Half(ts[x]) != Half(ts[y])
    ensures Before(ts, x, y) <==> Outranks(ts, order, x, y)
  {
    var r := Rank(ts, x);
    assert r < 4 ==> FirstOf(ts, order, x, r);
    assert Rank(ts, y) < 4 ==> FirstOf(ts, order, y, Rank(ts, y));
  }

  lemma Push(ts: seq<Transcoding>, order: seq<nat>, x: nat, h: nat, p: nat, k: nat)
    requires Sorted(ts, order) && x < |ts|
    requires forall y :: y in order ==> y < |ts| && Below(ts, y, h, p, k)
    requires !Below(ts, x, h, p, k)
    ensures Sorted(ts, order + [x])
  {
    forall i | 0 <= i < |order|
      ensures Before(ts, order[i], x)
    {
      assert order[i] in order;
    }
  }

  // ---- The passes

  method RankedTranscodings(ts: seq<Transcoding>) returns (ordered: seq<nat>)
    ensures IsRanking(ts, ordered)
  {
    var candidates := Candidates(ts);
    if |candidates| == 0 { return []; }
    ordered := [];
    ordered := PushPresets(ts, candidates, ordered, 0);
    ordered := PushRest(ts, candidates, ordered, 0);
    ordered := PushPresets(ts, candidates, ordered, 1);
    ordered := PushRest(ts, candidates, ordered, 1);
  }

  ghost predicate AreCandidates(ts: seq<Transcoding>, candidates: seq<nat>, n: nat) {
    && (forall i :: 0 <= i < |candidates| ==> candidates[i] < n)
    && (forall i, j :: 0 <= i < j < |candidates| ==> candidates[i] < candidates[j])
    && n <= |ts|
    && forall x: nat :: x in candidates <==> x < n && Usable(ts[x])
  }

  method Candidates(ts: seq<Transcoding>) returns (candidates: seq<nat>)
    ensures AreCandidates(ts, candidates, |ts|)
  {
    candidates := [];
    for i := 0 to |ts|
      invariant AreCandidates(ts, candidates, i)
    {
      if Usable(ts[i]) {
        candidates := candidates + [i];
      }
    }
  }

  /** find: the first candidate of the half with the preset, or none. */
  method FindPreset(ts: seq<Transcoding>, candidates: seq<nat>, half: nat, preset: string) returns (found: Option<nat>)
    requires AreCandidates(ts, candidates, |ts|)
    ensures found.Some? ==>
      && found.value < |ts| && Usable(ts[found.value])
      && Half(ts[found.value]) == half && ts[found.value].preset == Some(preset) && IsFirst(ts, found.value)
    ensures found.None? ==> forall x :: 0 <= x < |ts| && Usable(ts[x]) && Half(ts[x]) == half ==>
              ts[x].preset != Some(preset)
  {
    var i := 0;
    while i < |candidates|
      invariant 0 <= i <= |candidates|
      invariant forall k :: 0 <= k < i ==> Half(ts[candidates[k]]) != half || ts[candidates[k]].preset != Some(preset)
    {
      var c := candidates[i];
      if Half(ts[c]) == half && ts[c].preset == Some(preset) {
        EarlierAreCandidates(ts, candidates, i);
        assert c in candidates;
        return Some(c);
      }
      i := i + 1;
    }
    forall x | 0 <= x < |ts| && Usable(ts[x]) && Half(ts[x]) == half
      ensures ts[x].preset != Some(preset)
    {
      assert x in candidates;
    }
    found := None;
  }

  /** Usable entries before candidate i are candidates before it. */
  lemma EarlierAreCandidates(ts: seq<Transcoding>, candidates: seq<nat>, i: nat)
    requires AreCandidates(ts, candidates, |ts|) && i < |candidates|
    ensures forall y :: 0 <= y < candidates[i] && Usable(ts[y]) ==> exists k :: 0 <= k < i && candidates[k] == y
  {
    forall y | 0 <= y < candidates[i] && Usable(ts[y])
      ensures exists k :: 0 <= k < i && candidates[k] == y
    {
      assert y in candidates;
      var k :| 0 <= k < |candidates| && candidates[k] == y;
      assert k < i;
    }
  }

  /** Only the first of a preset holds its rank. */
  lemma RankHolder(ts: seq<Transcoding>, x: nat, y: nat)
    requires x < |ts| && y < |ts| && Usable(ts[x]) && Usable(ts[y])
    requires Half(ts[x]) == Half(ts[y]) && Rank(ts, x) == Rank(ts, y) < 4
    ensures x == y
  {
    assert ts[x].preset == ts[y].preset;
  }

  /** The preset loop of one half. */
  method PushPresets(ts: seq<Transcoding>, candidates: seq<nat>, before: seq<nat>, half: nat)
    returns (ordered: seq<nat>)
    requires AreCandidates(ts, candidates, |ts|) && half <= 1
    requires RankedUpTo(ts, before, half, 0, 0)
    ensures RankedUpTo(ts, ordered, half, 4, 0)
  {
    ordered := before;
    for p := 0 to 4
      invariant RankedUpTo(ts, ordered, half, p, 0)
    {
      var found := FindPreset(ts, candidates, half, PRESET_ORDER[p]);
      PresetStep(ts, ordered, half, p, found);
      if found.Some? {
        ordered := ordered + [found.value];
      }
    }
  }

  lemma PresetStep(ts: seq<Transcoding>, order: seq<nat>, half: nat, p: nat, found: Option<nat>)
    requires p < 4 && RankedUpTo(ts, order, half, p, 0)
    requires found.Some? ==>
      && found.value < |ts| && Usable(ts[found.value])
      && Half(ts[found.value]) == half && ts[found.value].preset == Some(PRESET_ORDER[p]) && IsFirst(ts, found.value)
    requires found.None? ==> forall x :: 0 <= x < |ts| && Usable(ts[x]) && Half(ts[x]) == half ==>
               ts[x].preset != Some(PRESET_ORDER[p])
    ensures RankedUpTo(ts, if found.Some? then order + [found.value] else order, half, p + 1, 0)
  {
    if found.Some? {
      PresetPushed(ts, order, half, p, found.value);
    } else {
      forall x: nat | x < |ts| && Usable(ts[x])
        ensures Below(ts, x, half, p + 1, 0) <==> Below(ts, x, half, p, 0)
      {
        assert Half(ts[x]) == half ==> Rank(ts, x) != p;
      }
    }
  }

  lemma PresetPushed(ts: seq<Transcoding>, order: seq<nat>, half: nat, p: nat, f: nat)
    requires p < 4 && RankedUpTo(ts, order, half, p, 0)
    requires f < |ts| && Usable(ts[f]) && Half(ts[f]) == half && ts[f].preset == Some(PRESET_ORDER[p]) && IsFirst(ts, f)
    ensures RankedUpTo(ts, order + [f], half, p + 1, 0)
  {
    FirstsRank(ts, f, p);
    Push(ts, order, f, half, p, 0);
    forall x: nat | x < |ts| && Usable(ts[x])
      ensures Below(ts, x, half, p + 1, 0) <==> Below(ts, x, half, p, 0) || x == f
    {
      if Half(ts[x]) == half && Rank(ts, x) == p { RankHolder(ts, x, f); }
    }
    forall x: nat
      ensures x in order + [f] <==> x < |ts| && Usable(ts[x]) && Below(ts, x, half, p + 1, 0)
    {
    }
  }

  lemma FirstsRank(ts: seq<Transcoding>, f: nat, p: nat)
    requires p < 4 && f < |ts| && ts[f].preset == Some(PRESET_ORDER[p]) && IsFirst(ts, f)
    ensures Rank(ts, f) == p
  {
    assert PresetPlace(ts[f].preset) == p;
  }

  /**
   * The loop over all candidates that appends the ones not yet placed; the second half's does not
   * test the half again.
   */
  method PushRest(ts: seq<Transcoding>, candidates: seq<nat>, before: seq<nat>, half: nat) returns (ordered: seq<nat>)
    requires AreCandidates(ts, candidates, |ts|) && half <= 1
    requires RankedUpTo(ts, before, half, 4, 0)
    ensures half == 0 ==> RankedUpTo(ts, ordered, 1, 0, 0)
    ensures half == 1 ==> IsRanking(ts, ordered)
  {
    ordered := before;
    NoCandidateBelow(ts, candidates);
    RestShift(ts, ordered, half, 0, Bound(ts, candidates, 0));
    for i := 0 to |candidates|
      invariant RankedUpTo(ts, ordered, half, 4, Bound(ts, candidates, i))
    {
      var c := candidates[i];
      RestTurn(ts, candidates, ordered, half, i);
      if (half == 1 || IsProgressive(ts[c])) && c !in ordered {
        ordered := ordered + [c];
      }
    }
    RestDone(ts, ordered, half);
  }

  /** One turn takes the order past candidate i, up to the next one. */
  lemma RestTurn(ts: seq<Transcoding>, candidates: seq<nat>, order: seq<nat>, half: nat, i: nat)
    requires AreCandidates(ts, candidates, |ts|) && half <= 1 && i < |candidates| && candidates[i] < |ts|
    requires RankedUpTo(ts, order, half, 4, candidates[i])
    ensures
      var c := candidates[i];
      RankedUpTo(ts, if (half == 1 || IsProgressive(ts[c])) && c !in order then order + [c] else order, half, 4,
                 Bound(ts, candidates, i + 1))
  {
    var c := candidates[i];
    assert c in candidates;
    RestStep(ts, order, half, c);
    NextCandidate(ts, candidates, i);
    RestShift(ts, if (half == 1 || IsProgressive(ts[c])) && c !in order then order + [c] else order, half, c + 1,
              Bound(ts, candidates, i + 1));
  }

  /** Where candidate i stands, or the end. */
  ghost function Bound(ts: seq<Transcoding>, candidates: seq<nat>, i: nat): nat {
    if i < |candidates| then candidates[i] else |ts|
  }

  lemma NoCandidateBelow(ts: seq<Transcoding>, candidates: seq<nat>)
    requires AreCandidates(ts, candidates, |ts|)
    ensures forall x :: 0 <= x < Bound(ts, candidates, 0) ==> !Usable(ts[x])
  {
    if candidates != [] {
      EarlierAreCandidates(ts, candidates, 0);
    }
  }

  lemma NextCandidate(ts: seq<Transcoding>, candidates: seq<nat>, i: nat)
    requires AreCandidates(ts, candidates, |ts|) && i < |candidates|
    ensures candidates[i] < Bound(ts, candidates, i + 1) <= |ts|
    ensures forall x :: candidates[i] < x < Bound(ts, candidates, i + 1) ==> !Usable(ts[x])
  {
    forall x | candidates[i] < x < Bound(ts, candidates, i + 1)
      ensures !Usable(ts[x])
    {
      forall k | 0 <= k < |candidates|
        ensures candidates[k] != x
      {
        assert k <= i ==> candidates[k] <= candidates[i];
        assert k > i ==> candidates[i + 1] <= candidates[k];
      }
      assert x !in candidates;
    }
  }

  lemma RestShift(ts: seq<Transcoding>, order: seq<nat>, half: nat, from: nat, to: nat)
    requires from <= to <= |ts| && RankedUpTo(ts, order, half, 4, from)
    requires forall x :: from <= x < to ==> !Usable(ts[x])
    ensures RankedUpTo(ts, order, half, 4, to)
  {
  }

  lemma RestStep(ts: seq<Transcoding>, order: seq<nat>, half: nat, c: nat)
    requires c < |ts| && Usable(ts[c]) && half <= 1 && RankedUpTo(ts, order, half, 4, c)
    ensures RankedUpTo(ts, if (half == 1 || IsProgressive(ts[c])) && c !in order then order + [c] else order,
                       half, 4, c + 1)
  {
    if (half == 1 || IsProgressive(ts[c])) && c !in order {
      Push(ts, order, c, half, 4, c);
      PushedNext(ts, order, half, c);
    } else {
      SkippedNext(ts, order, half, c);
    }
  }

  lemma PushedNext(ts: seq<Transcoding>, order: seq<nat>, half: nat, c: nat)
    requires c < |ts| && Usable(ts[c]) && half <= 1 && RankedUpTo(ts, order, half, 4, c)
    requires (half == 1 || IsProgressive(ts[c])) && c !in order && Sorted(ts, order + [c])
    ensures RankedUpTo(ts, order + [c], half, 4, c + 1)
  {
    assert !Below(ts, c, half, 4, c) && Below(ts, c, half, 4, c + 1);
    forall x: nat | x < |ts| && Usable(ts[x])
      ensures Below(ts, x, half, 4, c + 1) <==> Below(ts, x, half, 4, c) || x == c
    {
    }
  }

  lemma SkippedNext(ts: seq<Transcoding>, order: seq<nat>, half: nat, c: nat)
    requires c < |ts| && Usable(ts[c]) && half <= 1 && RankedUpTo(ts, order, half, 4, c)
    requires !((half == 1 || IsProgressive(ts[c])) && c !in order)
    ensures RankedUpTo(ts, order, half, 4, c + 1)
  {
    SkippedIsPlaced(ts, order, half, c);
    forall x: nat | x < |ts| && Usable(ts[x])
      ensures Below(ts, x, half, 4, c + 1) <==> Below(ts, x, half, 4, c)
    {
      BelowNext(ts, half, c, x);
    }
    SameRanked(ts, order, half, c);
  }

  /** Moving the point on by one lets in only the entry passed. */
  lemma BelowNext(ts: seq<Transcoding>, half: nat, c: nat, x: nat)
    requires x < |ts| && c < |ts|
    ensures Below(ts, x, half, 4, c + 1) <==>
              Below(ts, x, half, 4, c) || (x == c && Half(ts[x]) == half && Rank(ts, x) == 4)
  {
  }

  /** An entry the loop skips is of the other half or stands in the order already. */
  lemma SkippedIsPlaced(ts: seq<Transcoding>, order: seq<nat>, half: nat, c: nat)
    requires c < |ts| && Usable(ts[c]) && half <= 1 && RankedUpTo(ts, order, half, 4, c)
    requires !((half == 1 || IsProgressive(ts[c])) && c !in order)
    ensures !(Half(ts[c]) == half && Rank(ts, c) == 4)
  {
    if c in order {
      assert Below(ts, c, half, 4, c);
    }
  }

  lemma SameRanked(ts: seq<Transcoding>, order: seq<nat>, half: nat, c: nat)
    requires RankedUpTo(ts, order, half, 4, c)
    requires forall x: nat :: x < |ts| && Usable(ts[x]) ==> (Below(ts, x, half, 4, c + 1) <==> Below(ts, x, half, 4, c))
    ensures RankedUpTo(ts, order, half, 4, c + 1)
  {
  }

  lemma RestDone(ts: seq<Transcoding>, order: seq<nat>, half: nat)
    requires half <= 1 && RankedUpTo(ts, order, half, 4, |ts|)
    ensures half == 0 ==> RankedUpTo(ts, order, 1, 0, 0)
    ensures half == 1 ==> IsRanking(ts, order)
  {
  }
}
