/** The endless mix place by place: which track of which bucket is dealt when, and what survives deduplication. */
module VibeOrder {
  import opened Lists
  import opened FisherYates
  import opened PlayerModel
  import opened PlayerCoherence
  import opened VibeQueue

  /**
   * How many tracks buckets k.. have given when it is the turn of bucket b in round r: one more
   * from those before b than from the others, as far as they have so many.
   */
  function GivenBefore(bs: seq<seq<Track>>, r: nat, b: nat, k: nat): nat
    requires k <= |bs|
    decreases |bs| - k
  {
    if k == |bs| then 0 else Least(|bs[k]|, if k < b then r + 1 else r) + GivenBefore(bs, r, b, k + 1)
  }

  lemma {:induction false} RoundLength(bs: seq<seq<Track>>, r: nat, k: nat)
    requires k <= |bs|
    ensures GivenBefore(bs, r + 1, 0, k) == GivenBefore(bs, r, 0, k) + |RoundTracks(bs, r, k)|
    decreases |bs| - k
  {
    if k < |bs| {
      RoundLength(bs, r, k + 1);
    }
  }

  /** What round r deals before it comes to bucket b. */
  lemma {:induction false} RoundCut(bs: seq<seq<Track>>, r: nat, k: nat, b: nat)
    requires k <= b < |bs| && r < |bs[b]|
    ensures
      var n := GivenBefore(bs, r, b, k) - GivenBefore(bs, r, 0, k);
      0 <= n < |RoundTracks(bs, r, k)| && RoundTracks(bs, r, k)[n] == bs[b][r]
    decreases |bs| - k
  {
    if k < b {
      RoundCut(bs, r, k + 1, b);
    } else {
      SameBehind(bs, r, b, k);
    }
  }

  lemma {:induction false} SameBehind(bs: seq<seq<Track>>, r: nat, b: nat, k: nat)
    requires b <= k <= |bs|
    ensures GivenBefore(bs, r, b, k) == GivenBefore(bs, r, 0, k)
    decreases |bs| - k
  {
    if k < |bs| {
      SameBehind(bs, r, b, k + 1);
    }
  }

  /** The rounds before r, and then the others. */
  lemma {:induction false} RoundsBefore(bs: seq<seq<Track>>, r: nat) returns (before: seq<Track>)
    requires r <= MaxLength(bs)
    ensures Dealt(bs) == before + TracksFrom(bs, r) && |before| == GivenBefore(bs, r, 0, 0)
  {
    if r == 0 {
      before := [];
      NothingGiven(bs, 0);
      assert [] + TracksFrom(bs, 0) == TracksFrom(bs, 0);
    } else {
      var earlier := RoundsBefore(bs, r - 1);
      before := earlier + RoundTracks(bs, r - 1, 0);
      RoundLength(bs, r - 1, 0);
      Regroup(earlier, RoundTracks(bs, r - 1, 0), TracksFrom(bs, r));
    }
  }

  lemma {:induction false} NothingGiven(bs: seq<seq<Track>>, k: nat)
    requires k <= |bs|
    ensures GivenBefore(bs, 0, 0, k) == 0
    decreases |bs| - k
  {
    if k < |bs| {
      NothingGiven(bs, k + 1);
    }
  }

  /** Track r of bucket b is dealt in round r, in the buckets' order: its place is the count of all dealt before. */
  lemma {:induction false} DealtAt(bs: seq<seq<Track>>, b: nat, r: nat)
    requires b < |bs| && r < |bs[b]|
    ensures GivenBefore(bs, r, b, 0) < |Dealt(bs)| && Dealt(bs)[GivenBefore(bs, r, b, 0)] == bs[b][r]
  {
    assert bs[b] in bs;
    MoreToDeal(bs, r);
    var before := RoundsBefore(bs, r);
    RoundCut(bs, r, 0, b);
    var n := GivenBefore(bs, r, b, 0) - GivenBefore(bs, r, 0, 0);
    assert TracksFrom(bs, r) == RoundTracks(bs, r, 0) + TracksFrom(bs, r + 1);
    assert TracksFrom(bs, r)[n] == RoundTracks(bs, r, 0)[n];
  }

  // ---- Deduplication keeps the order of first occurrence

  /** Each track kept is the first with its urn, and they are in the order of those first occurrences. */
  ghost predicate FirstsInOrder(q: seq<Track>, r: seq<Track>) {
    && (forall i :: 0 <= i < |r| ==> FindUrn(q, r[i].urn) >= 0 && q[FindUrn(q, r[i].urn)] == r[i])
    && forall i, j :: 0 <= i < j < |r| ==> FindUrn(q, r[i].urn) < FindUrn(q, r[j].urn)
  }

  lemma FindFirst(q: seq<Track>, i: nat)
    requires i < |q| && forall k :: 0 <= k < i ==> q[k].urn != q[i].urn
    ensures FindUrn(q, q[i].urn) == i
  {
  }

  /** Where in q the tracks of Deduped(q[n..], seen) stand, when seen are the urns before n. */
  lemma {:induction false} DedupedPlaces(q: seq<Track>, n: nat, seen: set<string>) returns (at: seq<nat>)
    requires n <= |q| && forall u :: u in seen <==> exists k :: 0 <= k < n && q[k].urn == u
    ensures |at| == |Deduped(q[n..], seen)|
    ensures forall i :: 0 <= i < |at| ==> n <= at[i] < |q| && Deduped(q[n..], seen)[i] == q[at[i]]
    ensures forall i :: 0 <= i < |at| ==> forall k :: 0 <= k < at[i] ==> q[k].urn != q[at[i]].urn
    ensures forall i, j :: 0 <= i < j < |at| ==> at[i] < at[j]
    decreases |q| - n
  {
    if n == |q| {
      at := [];
    } else {
      assert q[n..][0] == q[n] && q[n..][1..] == q[n + 1..];
      if q[n].urn in seen {
        at := DedupedPlaces(q, n + 1, seen);
      } else {
        var rest := DedupedPlaces(q, n + 1, seen + {q[n].urn});
        at := [n] + rest;
      }
    }
  }

  /** Deduplication leaves the first track of every urn, in the order in which those first tracks stood. */
  lemma DedupedInOrder(q: seq<Track>)
    ensures FirstsInOrder(q, Deduped(q, {}))
    ensures forall u :: u in Urns(Deduped(q, {})) <==> u in Urns(q)
  {
    DedupedUrns(q, {});
    assert q[0..] == q;
    var r := Deduped(q, {});
    var at := DedupedPlaces(q, 0, {});
    forall i | 0 <= i < |r|
      ensures FindUrn(q, r[i].urn) == at[i] && q[at[i]] == r[i]
    {
      FindFirst(q, at[i]);
    }
  }

  lemma {:induction false} ExcludingInOrder(q: seq<Track>, r: seq<Track>, urn: string)
    requires FirstsInOrder(q, r)
    ensures FirstsInOrder(q, Excluding(r, urn))
    ensures forall t :: t in Excluding(r, urn) ==> t in r
    decreases |r|
  {
    if r != [] {
      TailInOrder(q, r);
      ExcludingInOrder(q, r[1..], urn);
      if r[0].urn != urn {
        var rest := Excluding(r[1..], urn);
        HeadInOrder(q, r, rest);
      } else {
        assert [] + Excluding(r[1..], urn) == Excluding(r[1..], urn);
      }
    }
  }

  lemma TailInOrder(q: seq<Track>, r: seq<Track>)
    requires r != [] && FirstsInOrder(q, r)
    ensures FirstsInOrder(q, r[1..])
  {
  }

  lemma HeadInOrder(q: seq<Track>, r: seq<Track>, rest: seq<Track>)
    requires r != [] && FirstsInOrder(q, r) && FirstsInOrder(q, rest)
    requires forall t :: t in rest ==> t in r[1..]
    ensures FirstsInOrder(q, [r[0]] + rest)
  {
    forall j | 0 <= j < |rest|
      ensures FindUrn(q, r[0].urn) < FindUrn(q, rest[j].urn)
    {
      assert rest[j] in rest;
      var k :| 0 <= k < |r[1..]| && r[1..][k] == rest[j];
      assert r[k + 1] == rest[j];
    }
  }

  // ---- The whole build

  /**
   * Behind the head the built queue has the other tracks of the deal, the first of each urn,
   * in the order of the deal.
   */
  lemma BuiltInOrder(buckets: seq<Bucket>, bucketDraws: seq<nat>, trackDraws: seq<seq<nat>>, head: Option<Track>)
    requires ValidDraws(bucketDraws, |buckets|)
    requires ValidTrackDraws(TrackLists(Shuffled(buckets, bucketDraws)), trackDraws)
    ensures
      var q := Dealt(ShuffledLists(TrackLists(Shuffled(buckets, bucketDraws)), trackDraws));
      var r := BuiltFrom(buckets, bucketDraws, trackDraws, head);
      if head.None? then FirstsInOrder(q, r)
      else r != [] && r[0] == head.value && FirstsInOrder(q, r[1..])
  {
    var q := Dealt(ShuffledLists(TrackLists(Shuffled(buckets, bucketDraws)), trackDraws));
    DedupedInOrder(q);
    if head.Some? {
      ExcludingInOrder(q, Deduped(q, {}), head.value.urn);
    }
  }

  /** Without buckets the mix is made of the playlist's own tracks. */
  lemma ChosenCovers(vibeBuckets: seq<Bucket>, vibePlaylistUrn: string, vibeTracks: seq<Track>,
                     bucketDraws: seq<nat>, trackDraws: seq<seq<nat>>, head: Option<Track>, u: string)
    requires ValidDraws(bucketDraws, |Chosen(vibeBuckets, vibePlaylistUrn, vibeTracks)|)
    requires ValidTrackDraws(
               TrackLists(Shuffled(Chosen(vibeBuckets, vibePlaylistUrn, vibeTracks), bucketDraws)), trackDraws)
    ensures u in Urns(BuiltFrom(Chosen(vibeBuckets, vibePlaylistUrn, vibeTracks), bucketDraws, trackDraws, head)) <==>
              || (vibeBuckets != [] && InSomeBucket(vibeBuckets, u))
              || (vibeBuckets == [] && exists t :: t in vibeTracks && t.urn == u)
              || (head.Some? && head.value.urn == u)
  {
    BuiltCovers(Chosen(vibeBuckets, vibePlaylistUrn, vibeTracks), bucketDraws, trackDraws, head);
    if vibeBuckets == [] {
      OneBucket(Bucket(vibePlaylistUrn, vibeTracks), u);
    }
  }

  lemma OneBucket(b: Bucket, u: string)
    ensures InSomeBucket([b], u) <==> exists t :: t in b.tracks && t.urn == u
  {
    assert b in [b];
  }

  lemma {:induction false} ListsReached(lists: seq<seq<Track>>, orders: seq<seq<Track>>) returns (draws: seq<seq<nat>>)
    requires |orders| == |lists|
    requires forall i :: 0 <= i < |lists| ==> orders[i] != [] && multiset(orders[i]) == multiset(lists[i])
    ensures ValidTrackDraws(lists, draws) && ShuffledLists(lists, draws) == orders
  {
    if lists == [] {
      draws := [];
    } else {
      var rest := ListsReached(lists[1..], orders[1..]);
      var first := ShuffledSurjective(lists[0], orders[0]);
      BagLength(lists[0], orders[0]);
      draws := [first] + rest;
      assert draws[1..] == rest && orders == [orders[0]] + orders[1..];
    }
  }

  /** Any order of the buckets, none of them empty, and any orders of their tracks can be drawn. */
  lemma EveryMixDrawn(buckets: seq<Bucket>, order: seq<Bucket>, orders: seq<seq<Track>>)
    returns (bucketDraws: seq<nat>, trackDraws: seq<seq<nat>>)
    requires multiset(order) == multiset(buckets) && |orders| == |order|
    requires forall i :: 0 <= i < |order| ==> orders[i] != [] && multiset(orders[i]) == multiset(order[i].tracks)
    ensures ValidDraws(bucketDraws, |buckets|)
    ensures ValidTrackDraws(TrackLists(Shuffled(buckets, bucketDraws)), trackDraws)
    ensures ShuffledLists(TrackLists(Shuffled(buckets, bucketDraws)), trackDraws) == orders
  {
    bucketDraws := ShuffledSurjective(buckets, order);
    trackDraws := ListsReached(TrackLists(order), orders);
  }
}
