/** The endless-mix queue: shuffled buckets dealt round robin, then deduplicated. */
module VibeQueue {
  import opened Lists
  import opened FisherYates
  import opened PlayerModel
  import opened PlayerCoherence

  datatype Bucket = Bucket(urn: string, tracks: seq<Track>)

  /** One deal: the track at position round of bucket number bucket. */
  datatype Slot = Slot(round: nat, bucket: nat)

  // ---- Dealing

  function RoundSlots(bs: seq<seq<Track>>, r: nat, k: nat): (slots: seq<Slot>)
    requires k <= |bs|
    decreases |bs| - k
  {
    if k == |bs| then []
    else (if r < |bs[k]| then [Slot(r, k)] else []) + RoundSlots(bs, r, k + 1)
  }

  function MaxLength(bs: seq<seq<Track>>): nat {
    if bs == [] then 0
    else
      var n := MaxLength(bs[1..]);
      if |bs[0]| > n then |bs[0]| else n
  }

  /** There is something to deal at position r exactly while r is below the greatest length. */
  lemma {:induction false} MoreToDeal(bs: seq<seq<Track>>, r: nat)
    ensures r < MaxLength(bs) <==> exists b :: b in bs && r < |b|
  {
    if bs != [] {
      MoreToDeal(bs[1..], r);
      assert bs == [bs[0]] + bs[1..];
      if b :| b in bs && r < |b| {
        assert b == bs[0] || b in bs[1..];
      }
      if r < |bs[0]| {
        assert bs[0] in bs;
      }
    }
  }

  /** All deals from round r on. */
  function Slots(bs: seq<seq<Track>>, r: nat): (slots: seq<Slot>)
    decreases MaxLength(bs) - r
  {
    if r >= MaxLength(bs) then [] else RoundSlots(bs, r, 0) + Slots(bs, r + 1)
  }

  ghost predicate InBounds(bs: seq<seq<Track>>, slots: seq<Slot>) {
    forall x :: x in slots ==> x.bucket < |bs| && x.round < |bs[x.bucket]|
  }

  lemma InBoundsAppend(bs: seq<seq<Track>>, a: seq<Slot>, b: seq<Slot>)
    requires InBounds(bs, a) && InBounds(bs, b)
    ensures InBounds(bs, a + b)
  {
  }

  lemma {:induction false} RoundSlotsInBounds(bs: seq<seq<Track>>, r: nat, k: nat)
    requires k <= |bs|
    ensures InBounds(bs, RoundSlots(bs, r, k))
    decreases |bs| - k
  {
    if k < |bs| {
      RoundSlotsInBounds(bs, r, k + 1);
      InBoundsAppend(bs, if r < |bs[k]| then [Slot(r, k)] else [], RoundSlots(bs, r, k + 1));
    }
  }

  lemma {:induction false} SlotsInBounds(bs: seq<seq<Track>>, r: nat)
    ensures InBounds(bs, Slots(bs, r))
    decreases MaxLength(bs) - r
  {
    if r < MaxLength(bs) {
      RoundSlotsInBounds(bs, r, 0);
      SlotsInBounds(bs, r + 1);
    }
  }

  ghost function TracksAt(bs: seq<seq<Track>>, slots: seq<Slot>): (r: seq<Track>)
    requires InBounds(bs, slots)
    ensures |r| == |slots|
  {
    if slots == [] then []
    else
      assert slots[0] in slots;
      [bs[slots[0].bucket][slots[0].round]] + TracksAt(bs, slots[1..])
  }

  // ---- Nothing lost, nothing doubled

  function BagSum(bs: seq<seq<Track>>): multiset<Track> {
    if bs == [] then multiset{} else multiset(bs[0]) + BagSum(bs[1..])
  }

  /** How often a track occurs. */
  function Occ(s: seq<Track>, t: Track): nat {
    if s == [] then 0 else (if s[0] == t then 1 else 0) + Occ(s[1..], t)
  }

  lemma {:induction false} OccIsBag(s: seq<Track>, t: Track)
    ensures multiset(s)[t] == Occ(s, t)
  {
    if s != [] {
      OccIsBag(s[1..], t);
      assert s == [s[0]] + s[1..];
    }
  }

  function SumOcc(bs: seq<seq<Track>>, t: Track): nat {
    if bs == [] then 0 else Occ(bs[0], t) + SumOcc(bs[1..], t)
  }

  lemma {:induction false} OccConcat(a: seq<Track>, b: seq<Track>, t: Track)
    ensures Occ(a + b, t) == Occ(a, t) + Occ(b, t)
  {
    if a == [] {
      assert a + b == b;
    } else {
      OccConcat(a[1..], b, t);
      assert (a + b)[1..] == a[1..] + b;
    }
  }

  lemma {:induction false} BagSumOcc(bs: seq<seq<Track>>, t: Track)
    ensures BagSum(bs)[t] == SumOcc(bs, t)
  {
    if bs != [] {
      BagSumOcc(bs[1..], t);
      OccIsBag(bs[0], t);
    }
  }

  /** How often a track occurs from position r on. */
  function OccFrom(s: seq<Track>, r: nat, t: Track): nat
    decreases |s| - r
  {
    if r >= |s| then 0 else (if s[r] == t then 1 else 0) + OccFrom(s, r + 1, t)
  }

  lemma {:induction false} OccFromIsRest(s: seq<Track>, r: nat, t: Track)
    requires r <= |s|
    ensures OccFrom(s, r, t) == Occ(s[r..], t)
    decreases |s| - r
  {
    if r < |s| {
      OccFromIsRest(s, r + 1, t);
      assert s[r..][1..] == s[r + 1..];
    }
  }

  /** How often buckets k.. still hold the track when their first r tracks are dealt. */
  function Undealt(bs: seq<seq<Track>>, r: nat, k: nat, t: Track): nat
    requires k <= |bs|
    decreases |bs| - k
  {
    if k == |bs| then 0 else OccFrom(bs[k], r, t) + Undealt(bs, r, k + 1, t)
  }

  lemma {:induction false} TracksAtAppend(bs: seq<seq<Track>>, a: seq<Slot>, b: seq<Slot>)
    requires InBounds(bs, a) && InBounds(bs, b)
    ensures InBounds(bs, a + b) && TracksAt(bs, a + b) == TracksAt(bs, a) + TracksAt(bs, b)
  {
    InBoundsAppend(bs, a, b);
    if a == [] {
      assert a + b == b;
      assert [] + TracksAt(bs, b) == TracksAt(bs, b);
    } else {
      TracksAtAppend(bs, a[1..], b);
      assert (a + b)[1..] == a[1..] + b && (a + b)[0] == a[0];
      Regroup([bs[a[0].bucket][a[0].round]], TracksAt(bs, a[1..]), TracksAt(bs, b));
    }
  }

  /** What bucket b gives to round r. */
  function Given(b: seq<Track>, r: nat): seq<Track> {
    if r < |b| then [b[r]] else []
  }

  /** The tracks the round takes from buckets k.. on. */
  function RoundTracks(bs: seq<seq<Track>>, r: nat, k: nat): seq<Track>
    requires k <= |bs|
    decreases |bs| - k
  {
    if k == |bs| then [] else Given(bs[k], r) + RoundTracks(bs, r, k + 1)
  }

  lemma {:induction false} RoundBySlots(bs: seq<seq<Track>>, r: nat, k: nat)
    requires k <= |bs|
    ensures InBounds(bs, RoundSlots(bs, r, k)) && RoundTracks(bs, r, k) == TracksAt(bs, RoundSlots(bs, r, k))
    decreases |bs| - k
  {
    if k < |bs| {
      RoundBySlots(bs, r, k + 1);
      var here := if r < |bs[k]| then [Slot(r, k)] else [];
      GivenBySlot(bs, r, k, here);
      JoinedBySlots(bs, here, RoundSlots(bs, r, k + 1), RoundSlots(bs, r, k),
                    Given(bs[k], r), RoundTracks(bs, r, k + 1), RoundTracks(bs, r, k));
    }
  }

  /** Tracks read off two runs of slots, one after the other. */
  lemma JoinedBySlots(bs: seq<seq<Track>>, a: seq<Slot>, b: seq<Slot>, ab: seq<Slot>,
                      ta: seq<Track>, tb: seq<Track>, tab: seq<Track>)
    requires InBounds(bs, a) && InBounds(bs, b) && ab == a + b
    requires ta == TracksAt(bs, a) && tb == TracksAt(bs, b) && tab == ta + tb
    ensures InBounds(bs, ab) && tab == TracksAt(bs, ab)
  {
    TracksAtAppend(bs, a, b);
  }

  lemma GivenBySlot(bs: seq<seq<Track>>, r: nat, k: nat, here: seq<Slot>)
    requires k < |bs| && here == (if r < |bs[k]| then [Slot(r, k)] else [])
    ensures InBounds(bs, here) && TracksAt(bs, here) == Given(bs[k], r)
  {
    if r < |bs[k]| {
      assert here[1..] == [];
    }
  }

  /** How often the round deals the track from buckets k.. on. */
  function RoundOcc(bs: seq<seq<Track>>, r: nat, k: nat, t: Track): nat
    requires k <= |bs|
    decreases |bs| - k
  {
    if k == |bs| then 0 else (if r < |bs[k]| && bs[k][r] == t then 1 else 0) + RoundOcc(bs, r, k + 1, t)
  }

  lemma OccGiven(b: seq<Track>, r: nat, t: Track)
    ensures Occ(Given(b, r), t) == if r < |b| && b[r] == t then 1 else 0
  {
    if r < |b| {
      assert [b[r]][1..] == [];
    }
  }

  lemma {:induction false} RoundOccCounts(bs: seq<seq<Track>>, r: nat, k: nat, t: Track)
    requires k <= |bs|
    ensures RoundOcc(bs, r, k, t) == Occ(RoundTracks(bs, r, k), t)
    decreases |bs| - k
  {
    if k < |bs| {
      RoundOccCounts(bs, r, k + 1, t);
      OccGiven(bs[k], r, t);
      OccConcat(Given(bs[k], r), RoundTracks(bs, r, k + 1), t);
    }
  }

  lemma {:induction false} RoundDeals(bs: seq<seq<Track>>, r: nat, k: nat, t: Track)
    requires k <= |bs|
    ensures RoundOcc(bs, r, k, t) + Undealt(bs, r + 1, k, t) == Undealt(bs, r, k, t)
    decreases |bs| - k
  {
    if k < |bs| {
      RoundDeals(bs, r, k + 1, t);
    }
  }

  lemma {:induction false} UndealtEmpty(bs: seq<seq<Track>>, r: nat, k: nat, t: Track)
    requires k <= |bs| && r >= MaxLength(bs)
    ensures Undealt(bs, r, k, t) == 0
    decreases |bs| - k
  {
    if k < |bs| {
      assert bs[k] in bs;
      MoreToDeal(bs, r);
      UndealtEmpty(bs, r, k + 1, t);
    }
  }

  lemma {:induction false} UndealtAll(bs: seq<seq<Track>>, k: nat, t: Track)
    requires k <= |bs|
    ensures Undealt(bs, 0, k, t) == SumOcc(bs[k..], t)
    decreases |bs| - k
  {
    if k < |bs| {
      UndealtAll(bs, k + 1, t);
      OccFromIsRest(bs[k], 0, t);
      assert bs[k..][1..] == bs[k + 1..] && bs[k][0..] == bs[k];
    }
  }

  /** The tracks of all rounds from r on. */
  ghost function TracksFrom(bs: seq<seq<Track>>, r: nat): seq<Track>
    decreases MaxLength(bs) - r
  {
    if r >= MaxLength(bs) then [] else RoundTracks(bs, r, 0) + TracksFrom(bs, r + 1)
  }

  /** The dealt queue: what the two nested loops push. */
  ghost function Dealt(bs: seq<seq<Track>>): seq<Track> {
    TracksFrom(bs, 0)
  }

  /** The dealt queue shows, deal by deal, the track of each slot. */
  lemma {:induction false} DealtBySlots(bs: seq<seq<Track>>, r: nat)
    ensures InBounds(bs, Slots(bs, r)) && TracksFrom(bs, r) == TracksAt(bs, Slots(bs, r))
    decreases MaxLength(bs) - r
  {
    if r < MaxLength(bs) {
      DealtBySlots(bs, r + 1);
      RoundBySlots(bs, r, 0);
      JoinedBySlots(bs, RoundSlots(bs, r, 0), Slots(bs, r + 1), Slots(bs, r),
                    RoundTracks(bs, r, 0), TracksFrom(bs, r + 1), TracksFrom(bs, r));
    }
  }

  lemma {:induction false} RoundsDeal(bs: seq<seq<Track>>, r: nat, t: Track)
    ensures Occ(TracksFrom(bs, r), t) == Undealt(bs, r, 0, t)
    decreases MaxLength(bs) - r
  {
    if r < MaxLength(bs) {
      RoundDeals(bs, r, 0, t);
      RoundOccCounts(bs, r, 0, t);
      OccConcat(RoundTracks(bs, r, 0), TracksFrom(bs, r + 1), t);
      RoundsDeal(bs, r + 1, t);
    } else {
      UndealtEmpty(bs, r, 0, t);
    }
  }

  /** The dealt queue holds exactly the buckets' tracks, each as often as it occurs in them. */
  lemma {:induction false} DealtIsPermutation(bs: seq<seq<Track>>)
    ensures multiset(Dealt(bs)) == BagSum(bs)
  {
    forall t
      ensures multiset(Dealt(bs))[t] == BagSum(bs)[t]
    {
      RoundsDeal(bs, 0, t);
      UndealtAll(bs, 0, t);
      assert bs[0..] == bs;
      BagSumOcc(bs, t);
      OccIsBag(Dealt(bs), t);
    }
  }

  // ---- Fairness

  /** How many of the deals went to bucket b. */
  function Share(slots: seq<Slot>, b: nat): nat {
    if slots == [] then 0
    else Share(slots[..|slots| - 1], b) + if slots[|slots| - 1].bucket == b then 1 else 0
  }

  /** Shares of a queue dealt up to bucket k of round r. */
  ghost predicate DealtUpTo(bs: seq<seq<Track>>, slots: seq<Slot>, r: nat, k: nat) {
    forall b :: 0 <= b < |bs| ==> Share(slots, b) == Least(|bs[b]|, if b < k then r + 1 else r)
  }

  lemma ShareSnoc(slots: seq<Slot>, x: Slot, b: nat)
    ensures Share(slots + [x], b) == Share(slots, b) + if x.bucket == b then 1 else 0
  {
    assert (slots + [x])[..|slots|] == slots;
  }

  /** Every cut of what a round adds is dealt up to some bucket of that round. */
  ghost predicate FairCuts(bs: seq<seq<Track>>, done: seq<Slot>, more: seq<Slot>) {
    forall m :: |done| <= m <= |done + more| ==> Even(bs, (done + more)[..m])
  }

  /** No bucket is two ahead of another that still has tracks. */
  ghost predicate Even(bs: seq<seq<Track>>, slots: seq<Slot>) {
    forall a, b :: 0 <= a < |bs| && 0 <= b < |bs| ==>
      Share(slots, a) <= Share(slots, b) + 1 || Share(slots, b) == |bs[b]|
  }

  lemma DealtUpToEven(bs: seq<seq<Track>>, slots: seq<Slot>, r: nat, k: nat)
    requires DealtUpTo(bs, slots, r, k)
    ensures Even(bs, slots)
  {
  }

  lemma OneDeal(bs: seq<seq<Track>>, done: seq<Slot>, r: nat, k: nat)
    requires k < |bs| && DealtUpTo(bs, done, r, k)
    ensures DealtUpTo(bs, if r < |bs[k]| then done + [Slot(r, k)] else done, r, k + 1)
  {
    forall b | 0 <= b < |bs|
      ensures Share(done + [Slot(r, k)], b) == Share(done, b) + if k == b then 1 else 0
    {
      ShareSnoc(done, Slot(r, k), b);
    }
  }

  lemma {:induction false} RoundIsFair(bs: seq<seq<Track>>, done: seq<Slot>, r: nat, k: nat)
    requires k <= |bs| && DealtUpTo(bs, done, r, k)
    ensures FairCuts(bs, done, RoundSlots(bs, r, k))
    ensures DealtUpTo(bs, done + RoundSlots(bs, r, k), r + 1, 0)
    decreases |bs| - k
  {
    DealtUpToEven(bs, done, r, k);
    if k == |bs| {
      assert done + [] == done;
      assert forall m :: |done| <= m <= |done| ==> done[..m] == done;
    } else {
      OneDeal(bs, done, r, k);
      var next := if r < |bs[k]| then done + [Slot(r, k)] else done;
      var more := RoundSlots(bs, r, k + 1);
      RoundIsFair(bs, next, r, k + 1);
      assert done + RoundSlots(bs, r, k) == next + more;
      assert (next + more)[..|done|] == done;
    }
  }

  lemma {:induction false} RoundsAreFair(bs: seq<seq<Track>>, done: seq<Slot>, r: nat)
    requires DealtUpTo(bs, done, r, 0)
    ensures FairCuts(bs, done, Slots(bs, r))
    decreases MaxLength(bs) - r
  {
    DealtUpToEven(bs, done, r, 0);
    if r >= MaxLength(bs) {
      assert done + [] == done;
      assert forall m :: |done| <= m <= |done| ==> done[..m] == done;
    } else {
      var round, later := RoundSlots(bs, r, 0), Slots(bs, r + 1);
      RoundIsFair(bs, done, r, 0);
      RoundsAreFair(bs, done + round, r + 1);
      JoinFairCuts(bs, done, round, later);
    }
  }

  lemma JoinFairCuts(bs: seq<seq<Track>>, done: seq<Slot>, a: seq<Slot>, b: seq<Slot>)
    requires FairCuts(bs, done, a) && FairCuts(bs, done + a, b)
    ensures FairCuts(bs, done, a + b)
  {
    assert done + (a + b) == (done + a) + b;
    forall m | |done| <= m <= |done + (a + b)|
      ensures Even(bs, (done + (a + b))[..m])
    {
      if m <= |done + a| {
        assert ((done + a) + b)[..m] == (done + a)[..m];
      }
    }
  }

  /** At every moment of the mix no bucket has had two more tracks than another unexhausted one. */
  lemma {:induction false} MixIsFair(bs: seq<seq<Track>>, m: nat)
    requires m <= |Slots(bs, 0)|
    ensures Even(bs, Slots(bs, 0)[..m])
    ensures InBounds(bs, Slots(bs, 0)) && Dealt(bs) == TracksAt(bs, Slots(bs, 0))
  {
    DealtBySlots(bs, 0);
    RoundsAreFair(bs, [], 0);
    assert [] + Slots(bs, 0) == Slots(bs, 0);
  }

  // ---- Dedupe and head

  /** Keeping the first track of each urn not seen yet. */
  function Deduped(q: seq<Track>, seen: set<string>): (r: seq<Track>) {
    if q == [] then []
    else if q[0].urn in seen then Deduped(q[1..], seen)
    else [q[0]] + Deduped(q[1..], seen + {q[0].urn})
  }

  lemma {:induction false} DedupedUrns(q: seq<Track>, seen: set<string>)
    ensures Distinct(Urns(Deduped(q, seen)))
    ensures forall u :: u in Urns(Deduped(q, seen)) <==> u in Urns(q) && u !in seen
  {
    if q != [] {
      HeadUrn(q);
      if q[0].urn in seen {
        DedupedUrns(q[1..], seen);
      } else {
        DedupedUrns(q[1..], seen + {q[0].urn});
        var r := Deduped(q[1..], seen + {q[0].urn});
        HeadUrn([q[0]] + r);
        assert ([q[0]] + r)[1..] == r;
        DistinctCons(q[0].urn, Urns(r));
      }
    }
  }

  lemma HeadUrn(q: seq<Track>)
    requires q != []
    ensures Urns(q) == [q[0].urn] + Urns(q[1..])
  {
  }

  lemma DistinctCons<T>(x: T, s: seq<T>)
    requires Distinct(s) && x !in s
    ensures Distinct([x] + s)
  {
  }

  /** Of the tracks that share an urn, the one kept is the first. */
  lemma {:induction false} DedupedKeepsFirst(q: seq<Track>, seen: set<string>, i: nat)
    requires i < |q| && q[i].urn !in seen
    requires forall k :: 0 <= k < i ==> q[k].urn != q[i].urn
    ensures q[i] in Deduped(q, seen)
  {
    if i > 0 {
      var seen' := if q[0].urn in seen then seen else seen + {q[0].urn};
      assert q[1..][i - 1] == q[i];
      DedupedKeepsFirst(q[1..], seen', i - 1);
    }
  }

  method DedupeTracks(tracks: seq<Track>) returns (r: seq<Track>)
    ensures r == Deduped(tracks, {})
  {
    var seen := {};
    r := [];
    var i := 0;
    while i < |tracks|
      invariant 0 <= i <= |tracks|
      invariant r + Deduped(tracks[i..], seen) == Deduped(tracks, {})
    {
      assert tracks[i..][0] == tracks[i] && tracks[i..][1..] == tracks[i + 1..];
      if tracks[i].urn !in seen {
        ghost var rest := Deduped(tracks[i + 1..], seen + {tracks[i].urn});
        assert r + ([tracks[i]] + rest) == (r + [tracks[i]]) + rest;
        seen := seen + {tracks[i].urn};
        r := r + [tracks[i]];
      }
      i := i + 1;
    }
  }

  function Excluding(q: seq<Track>, urn: string): (r: seq<Track>)
    ensures forall t :: t in r <==> t in q && t.urn != urn
  {
    if q == [] then []
    else (if q[0].urn == urn then [] else [q[0]]) + Excluding(q[1..], urn)
  }

  lemma {:induction false} ExcludingUrns(q: seq<Track>, urn: string)
    requires Distinct(Urns(q))
    ensures Distinct(Urns(Excluding(q, urn)))
    ensures forall u :: u in Urns(Excluding(q, urn)) <==> u in Urns(q) && u != urn
  {
    if q != [] {
      HeadUrn(q);
      assert Distinct(Urns(q[1..])) by { assert Urns(q[1..]) == Urns(q)[1..]; }
      ExcludingUrns(q[1..], urn);
      if q[0].urn != urn {
        var r := Excluding(q[1..], urn);
        HeadUrn([q[0]] + r);
        assert ([q[0]] + r)[1..] == r;
        assert q[0].urn !in Urns(q[1..]);
        DistinctCons(q[0].urn, Urns(r));
      } else {
        assert [] + Excluding(q[1..], urn) == Excluding(q[1..], urn);
      }
    }
  }

  function HeadFirst(q: seq<Track>, head: Option<Track>): seq<Track> {
    if head.None? then q else [head.value] + Excluding(q, head.value.urn)
  }

  // ---- The whole build

  function TrackLists(bs: seq<Bucket>): (r: seq<seq<Track>>)
    ensures |r| == |bs| && forall i :: 0 <= i < |bs| ==> r[i] == bs[i].tracks
  {
    seq(|bs|, i requires 0 <= i < |bs| => bs[i].tracks)
  }

  predicate ValidTrackDraws(lists: seq<seq<Track>>, draws: seq<seq<nat>>) {
    |draws| == |lists| && forall i :: 0 <= i < |lists| ==> ValidDraws(draws[i], |lists[i]|)
  }

  /** Each list shuffled with its own draws, the empty ones left out. */
  function ShuffledLists(lists: seq<seq<Track>>, draws: seq<seq<nat>>): (r: seq<seq<Track>>)
    requires ValidTrackDraws(lists, draws)
  {
    if lists == [] then []
    else
      var rest := ShuffledLists(lists[1..], draws[1..]);
      if lists[0] == [] then rest else [Shuffled(lists[0], draws[0])] + rest
  }

  lemma {:induction false} ShuffledListsBag(lists: seq<seq<Track>>, draws: seq<seq<nat>>)
    requires ValidTrackDraws(lists, draws)
    ensures BagSum(ShuffledLists(lists, draws)) == BagSum(lists)
  {
    if lists != [] {
      ShuffledListsBag(lists[1..], draws[1..]);
      ShuffledIsPermutation(lists[0], draws[0]);
      var rest := ShuffledLists(lists[1..], draws[1..]);
      assert ([Shuffled(lists[0], draws[0])] + rest)[1..] == rest;
    }
  }

  lemma {:induction false} SumOccRemoveAt(bs: seq<seq<Track>>, j: nat, t: Track)
    requires j < |bs|
    ensures SumOcc(bs, t) == Occ(bs[j], t) + SumOcc(RemoveAt(bs, j), t)
  {
    if j == 0 {
      assert RemoveAt(bs, 0) == bs[1..];
    } else {
      SumOccRemoveAt(bs[1..], j - 1, t);
      RemoveAtTail(bs, j);
      SumOccCons(bs[0], RemoveAt(bs[1..], j - 1), t);
    }
  }

  lemma SumOccCons(b: seq<Track>, bs: seq<seq<Track>>, t: Track)
    ensures SumOcc([b] + bs, t) == Occ(b, t) + SumOcc(bs, t)
  {
    assert ([b] + bs)[1..] == bs;
  }

  lemma {:induction false} SumOccPermuted(a: seq<seq<Track>>, b: seq<seq<Track>>, t: Track)
    requires multiset(a) == multiset(b)
    ensures SumOcc(a, t) == SumOcc(b, t)
  {
    BagLength(a, b);
    if a != [] {
      assert a[0] in multiset(b);
      var j := IndexInBag(b, a[0]);
      SumOccRemoveAt(b, j, t);
      RemoveAtBag(b, j);
      RemoveAtBag(a, 0);
      assert RemoveAt(a, 0) == a[1..];
      SumOccPermuted(a[1..], RemoveAt(b, j), t);
    }
  }

  lemma BagSumPermuted(a: seq<seq<Track>>, b: seq<seq<Track>>)
    requires multiset(a) == multiset(b)
    ensures BagSum(a) == BagSum(b)
  {
    forall t
      ensures BagSum(a)[t] == BagSum(b)[t]
    {
      SumOccPermuted(a, b, t);
      BagSumOcc(a, t);
      BagSumOcc(b, t);
    }
  }

  lemma {:induction false} BagSumMembers(bs: seq<seq<Track>>, t: Track)
    ensures t in BagSum(bs) <==> exists b :: b in bs && t in b
  {
    if bs != [] {
      BagSumMembers(bs[1..], t);
      assert bs == [bs[0]] + bs[1..];
      if t in bs[0] {
        assert bs[0] in bs;
      }
      if b :| b in bs[1..] && t in b {
        assert b in bs;
      }
      if b :| b in bs && t in b {
        assert b == bs[0] || b in bs[1..];
      }
      assert t in multiset(bs[0]) <==> t in bs[0];
    }
  }

  ghost function BuiltFrom(buckets: seq<Bucket>, bucketDraws: seq<nat>, trackDraws: seq<seq<nat>>,
                           head: Option<Track>): seq<Track>
    requires ValidDraws(bucketDraws, |buckets|)
    requires ValidTrackDraws(TrackLists(Shuffled(buckets, bucketDraws)), trackDraws)
  {
    var lists := ShuffledLists(TrackLists(Shuffled(buckets, bucketDraws)), trackDraws);
    HeadFirst(Deduped(Dealt(lists), {}), head)
  }

  /** The mix before deduplication is a rearrangement of everything in the buckets. */
  lemma {:induction false} MixIsPermutation(buckets: seq<Bucket>, bucketDraws: seq<nat>, trackDraws: seq<seq<nat>>)
    requires ValidDraws(bucketDraws, |buckets|)
    requires ValidTrackDraws(TrackLists(Shuffled(buckets, bucketDraws)), trackDraws)
    ensures
      var lists := ShuffledLists(TrackLists(Shuffled(buckets, bucketDraws)), trackDraws);
      multiset(Dealt(lists)) == BagSum(TrackLists(buckets))
  {
    var shuffled := TrackLists(Shuffled(buckets, bucketDraws));
    DealtIsPermutation(ShuffledLists(shuffled, trackDraws));
    ShuffledListsBag(shuffled, trackDraws);
    ShuffledNatural(buckets, bucketDraws, (b: Bucket) => b.tracks);
    assert TrackLists(buckets) == Mapped(buckets, (b: Bucket) => b.tracks);
    assert shuffled == Mapped(Shuffled(buckets, bucketDraws), (b: Bucket) => b.tracks);
    ShuffledIsPermutation(TrackLists(buckets), bucketDraws);
    BagSumPermuted(shuffled, TrackLists(buckets));
  }

  ghost predicate InSomeBucket(buckets: seq<Bucket>, urn: string) {
    exists b, t :: b in buckets && t in b.tracks && t.urn == urn
  }

  lemma InSomeBucketBag(buckets: seq<Bucket>, urn: string)
    ensures InSomeBucket(buckets, urn) <==> exists t :: t in BagSum(TrackLists(buckets)) && t.urn == urn
  {
    var lists := TrackLists(buckets);
    if b, t :| b in buckets && t in b.tracks && t.urn == urn {
      var k :| 0 <= k < |buckets| && buckets[k] == b;
      assert lists[k] in lists;
      BagSumMembers(lists, t);
    }
    if t :| t in BagSum(lists) && t.urn == urn {
      BagSumMembers(lists, t);
      var l :| l in lists && t in l;
      var k :| 0 <= k < |lists| && lists[k] == l;
      assert buckets[k] in buckets;
    }
  }

  lemma UrnsMembers(q: seq<Track>, u: string)
    ensures u in Urns(q) <==> exists t :: t in q && t.urn == u
  {
    if u in Urns(q) {
      var k :| 0 <= k < |q| && Urns(q)[k] == u;
      assert q[k] in q;
    }
    if t :| t in q && t.urn == u {
      var k :| 0 <= k < |q| && q[k] == t;
      assert Urns(q)[k] == u;
    }
  }

  /** The head goes first, and its other copies go. */
  lemma HeadFirstUrns(q: seq<Track>, head: Option<Track>)
    requires Distinct(Urns(q))
    ensures
      var r := HeadFirst(q, head);
      && Distinct(Urns(r)) && (head.Some? ==> r != [] && r[0] == head.value)
      && forall u :: u in Urns(r) <==> u in Urns(q) || (head.Some? && u == head.value.urn)
  {
    if head.Some? {
      var h := head.value;
      ExcludingUrns(q, h.urn);
      var tail := Excluding(q, h.urn);
      HeadUrn([h] + tail);
      assert ([h] + tail)[1..] == tail;
      DistinctCons(h.urn, Urns(tail));
    }
  }

  /** The built queue repeats no urn, covers exactly the bucket urns and the head's, and starts with the head. */
  lemma {:induction false} BuiltCovers(buckets: seq<Bucket>, bucketDraws: seq<nat>, trackDraws: seq<seq<nat>>,
                                       head: Option<Track>)
    requires ValidDraws(bucketDraws, |buckets|)
    requires ValidTrackDraws(TrackLists(Shuffled(buckets, bucketDraws)), trackDraws)
    ensures
      var r := BuiltFrom(buckets, bucketDraws, trackDraws, head);
      && Distinct(Urns(r))
      && (head.Some? ==> r != [] && r[0] == head.value)
      && forall u :: u in Urns(r) <==> InSomeBucket(buckets, u) || (head.Some? && u == head.value.urn)
  {
    var lists := ShuffledLists(TrackLists(Shuffled(buckets, bucketDraws)), trackDraws);
    var q := Dealt(lists);
    var unique := Deduped(q, {});
    MixIsPermutation(buckets, bucketDraws, trackDraws);
    DedupedUrns(q, {});
    forall u
      ensures u in Urns(q) <==> InSomeBucket(buckets, u)
    {
      UrnsMembers(q, u);
      InSomeBucketBag(buckets, u);
      assert forall t :: t in q <==> t in multiset(q);
    }
    HeadFirstUrns(unique, head);
  }

  /** The buckets, or the one playlist's tracks when there are none. */
  function Chosen(vibeBuckets: seq<Bucket>, vibePlaylistUrn: string, vibeTracks: seq<Track>): (r: seq<Bucket>)
    ensures |r| > 0
  {
    if |vibeBuckets| > 0 then vibeBuckets else [Bucket(vibePlaylistUrn, vibeTracks)]
  }

  method BuildVibeQueue(vibeBuckets: seq<Bucket>, vibeTracks: seq<Track>, vibePlaylistUrn: string, head: Option<Track>,
                        bucketDraws: seq<nat>, trackDraws: seq<seq<nat>>)
    returns (r: seq<Track>)
    requires ValidDraws(bucketDraws, |Chosen(vibeBuckets, vibePlaylistUrn, vibeTracks)|)
    requires ValidTrackDraws(
               TrackLists(Shuffled(Chosen(vibeBuckets, vibePlaylistUrn, vibeTracks), bucketDraws)), trackDraws)
    ensures r == BuiltFrom(Chosen(vibeBuckets, vibePlaylistUrn, vibeTracks), bucketDraws, trackDraws, head)
  {
    var chosen := Chosen(vibeBuckets, vibePlaylistUrn, vibeTracks);
    var order := ShuffledCopy(chosen, bucketDraws);
    ghost var lists := TrackLists(order);
    var shuffled: seq<seq<Track>> := [];
    var k := |order|;
    while k > 0
      invariant 0 <= k <= |order|
      invariant ValidTrackDraws(lists[k..], trackDraws[k..])
      invariant shuffled == ShuffledLists(lists[k..], trackDraws[k..])
    {
      k := k - 1;
      assert lists[k..][1..] == lists[k + 1..] && trackDraws[k..][1..] == trackDraws[k + 1..];
      var tracks := ShuffledCopy(order[k].tracks, trackDraws[k]);
      if |tracks| > 0 {
        shuffled := [tracks] + shuffled;
      }
    }
    assert lists[0..] == lists && trackDraws[0..] == trackDraws;
    var queue := Deal(shuffled);
    r := DedupeTracks(queue);
    if head.Some? {
      r := [head.value] + Excluding(r, head.value.urn);
    }
  }

  /** The two nested loops. */
  method Deal(bs: seq<seq<Track>>) returns (queue: seq<Track>)
    ensures queue == Dealt(bs)
  {
    queue := [];
    var index := 0;
    while exists b :: b in bs && index < |b|
      invariant queue + TracksFrom(bs, index) == Dealt(bs)
      decreases MaxLength(bs) - index
    {
      MoreToDeal(bs, index);
      Regroup(queue, RoundTracks(bs, index, 0), TracksFrom(bs, index + 1));
      queue := DealRound(bs, index, queue);
      index := index + 1;
    }
    MoreToDeal(bs, index);
    assert queue + [] == queue;
  }

  method DealRound(bs: seq<seq<Track>>, index: nat, before: seq<Track>) returns (queue: seq<Track>)
    ensures queue == before + RoundTracks(bs, index, 0)
  {
    queue := before;
    var k := 0;
    while k < |bs|
      invariant 0 <= k <= |bs|
      invariant queue + RoundTracks(bs, index, k) == before + RoundTracks(bs, index, 0)
    {
      Regroup(queue, Given(bs[k], index), RoundTracks(bs, index, k + 1));
      assert queue + [] == queue;
      if index < |bs[k]| {
        queue := queue + [bs[k][index]];
      }
      k := k + 1;
    }
    assert queue + [] == queue;
  }
}
