/** What the playlists show, place by place: the newest match first, five hundred to a playlist. */
module ImportOrder {
  import opened Lists
  import opened Arithmetic
  import opened Playlists
  import opened ImportSync

  // ---- Chunks by index

  lemma {:induction false} ChunkShows<T>(items: seq<T>, size: nat, i: nat)
    requires size > 0 && size * i < |items|
    ensures i < |Chunks(items, size)|
    ensures Chunks(items, size)[i] == items[size * i..Least(size * i + size, |items|)]
    decreases |items|
  {
    if i > 0 {
      OneSizeLess(size, i);
      var rest := items[size..];
      ChunkShows(rest, size, i - 1);
      RestSlice(items, size, size * (i - 1));
    }
  }

  lemma OneSizeLess(size: nat, i: nat)
    requires i > 0
    ensures size * i == size * (i - 1) + size
  {
  }

  lemma RestSlice<T>(items: seq<T>, size: nat, start: nat)
    requires size + start < |items|
    ensures items[size..][start..Least(start + size, |items| - size)] ==
              items[size + start..Least(size + start + size, |items|)]
  {
  }

  /** There is a chunk i exactly when there is an item for it. */
  lemma {:induction false} ChunkThere<T>(items: seq<T>, size: nat, i: nat)
    requires size > 0
    ensures i < |Chunks(items, size)| <==> size * i < |items|
    decreases |items|
  {
    if i > 0 {
      OneSizeLess(size, i);
      if |items| > size {
        ChunkThere(items[size..], size, i - 1);
      } else {
        NotBelow(size, i - 1);
      }
    }
  }

  lemma NotBelow(size: nat, i: nat)
    ensures size * i >= 0
  {
  }

  // ---- The playlists

  /** The playlist of this title shows exactly these matches: the newest but `skip`, and so on, at most five hundred. */
  ghost predicate ShowsNewest(remote: map<string, seq<string>>, title: string, m: seq<string>, skip: nat) {
    && skip < |m| && title in remote
    && |remote[title]| == Least(500, |m| - skip)
    && forall p :: 0 <= p < |remote[title]| ==> remote[title][p] == m[|m| - 1 - (skip + p)]
  }

  /** Playlist i starts where the five hundreds before it end, as long as there are matches for it. */
  ghost predicate NewestFirst(remote: map<string, seq<string>>, m: seq<string>) {
    forall i: nat :: 500 * i < |m| ==> ShowsNewest(remote, GetPlaylistName(i), m, 500 * i)
  }

  lemma TargetShows(m: seq<string>, i: nat)
    requires 500 * i < |m|
    ensures i < |Target(m)| && |Target(m)[i]| == Least(500, |m| - 500 * i)
    ensures forall p :: 0 <= p < |Target(m)[i]| ==> Target(m)[i][p] == m[|m| - 1 - (500 * i + p)]
  {
    ChunkShows(Reverse(m), 500, i);
  }

  lemma HeldNewestFirst(s: State, m: seq<string>)
    requires forall i :: 0 <= i < |Target(m)| ==> Holds(s, i, Target(m)[i])
    ensures NewestFirst(s.remote, m)
  {
    forall i: nat | 500 * i < |m|
      ensures ShowsNewest(s.remote, GetPlaylistName(i), m, 500 * i)
    {
      TargetShows(m, i);
      assert Holds(s, i, Target(m)[i]);
    }
  }

  /** The matches so far, told by the events. */
  function Matches(events: seq<Event>): seq<string> {
    if events == [] then []
    else Matches(events[..|events| - 1]) + if events[|events| - 1].Match? then [events[|events| - 1].urn] else []
  }

  lemma {:induction false} MatchedInOrder(states: seq<State>, events: seq<Event>, k: nat)
    requires IsRun(states, events) && k < |states|
    ensures states[k].matched == Matches(events[..k])
  {
    if k > 0 {
      MatchedInOrder(states, events, k - 1);
      assert events[..k][..k - 1] == events[..k - 1] && events[..k][k - 1] == events[k - 1];
      StepMatches(states[k - 1], events[k - 1]);
    } else {
      assert events[..0] == [];
    }
  }

  lemma StepMatches(s: State, e: Event)
    requires Possible(s, e)
    ensures Happen(s, e).matched == s.matched + if e.Match? then [e.urn] else []
  {
  }

  /** Whenever a sync completes, the playlists show the matches it was started on, newest first, five hundred each. */
  lemma FinishNewestFirst(states: seq<State>, events: seq<Event>, k: nat)
    requires IsRun(states, events) && k < |events| && events[k] == Finish
    ensures NewestFirst(states[k + 1].remote, states[k].flight.value.snapshot)
    ensures states[k].flight.value.snapshot <= Matches(events[..k])
  {
    var m := states[k].flight.value.snapshot;
    forall i | 0 <= i < |Target(m)|
      ensures Holds(states[k + 1], i, Target(m)[i])
    {
      SyncIsExact(states, events, k, i);
    }
    HeldNewestFirst(states[k + 1], m);
    RunInv(states, events, k);
    MatchedInOrder(states, events, k);
  }

  /** Titles beyond the last playlist that matches are there for. */
  ghost predicate NoExcess(remote: map<string, seq<string>>, n: nat) {
    forall t, i: nat :: t in remote && GetPlaylistChunkIndex(t) == Some(i) ==> 500 * i < n
  }

  lemma NothingBeyond(s: State, m: seq<string>)
    requires forall t :: t in Ours(s.remote) ==> GetPlaylistChunkIndex(t).value < |Target(m)|
    ensures NoExcess(s.remote, |m|)
  {
    forall t, i: nat | t in s.remote && GetPlaylistChunkIndex(t) == Some(i)
      ensures 500 * i < |m|
    {
      assert t in Ours(s.remote);
      ChunkThere(Reverse(m), 500, i);
    }
  }

  /**
   * At rest after a request made past the last match, the playlists show all matches of the
   * run, newest first; and if that request was to delete stale playlists none is left over.
   */
  lemma RestNewestFirst(states: seq<State>, events: seq<Event>, k: nat, r: nat)
    requires IsRun(states, events) && k < |states| && states[k].flight.None?
    requires r < |states[k].asks| && states[k].asks[r].length == |Matches(events[..k])|
    ensures NewestFirst(states[k].remote, Matches(events[..k]))
    ensures states[k].asks[r].deleteStale && Matches(events[..k]) != [] ==>
              NoExcess(states[k].remote, |Matches(events[..k])|)
  {
    MatchedInOrder(states, events, k);
    RestMeansFullUpload(states, events, k, r);
    HeldNewestFirst(states[k], states[k].matched);
    if states[k].asks[r].deleteStale && states[k].matched != [] {
      NothingBeyond(states[k], states[k].matched);
    }
  }

  /** The same when a call made with nothing in flight returns, if no match came in meanwhile. */
  lemma WaitingCallNewestFirst(states: seq<State>, events: seq<Event>, c: nat, n: nat)
    requires IsRun(states, events) && ReturnsAt(states, events, c, n) && states[c].flight.None?
    requires forall i :: c < i < n ==> !events[i].Match?
    ensures NewestFirst(states[n].remote, Matches(events[..c]))
    ensures events[c].deleteStale && Matches(events[..c]) != [] ==> NoExcess(states[n].remote, |Matches(events[..c])|)
  {
    MatchedInOrder(states, events, c);
    WaitingCallUploads(states, events, c, n);
    HeldNewestFirst(states[n], states[c].matched);
    if events[c].deleteStale && states[c].matched != [] {
      NothingBeyond(states[n], states[c].matched);
    }
  }

  // ---- Which chunks are written

  function Newest(m: seq<string>, p: nat): string
    requires p < |m|
  {
    m[|m| - 1 - p]
  }

  /** The playlist's 500 places show the same matches in both. */
  ghost predicate SameChunk(a: seq<string>, b: seq<string>, i: nat) {
    && 500 * i < |a| && 500 * i < |b| && Least(500, |a| - 500 * i) == Least(500, |b| - 500 * i)
    && forall p :: 500 * i <= p < 500 * i + Least(500, |a| - 500 * i) ==> Newest(a, p) == Newest(b, p)
  }

  lemma SameChunkIff(a: seq<string>, b: seq<string>, i: nat)
    requires 500 * i < |a| && i < |Target(a)|
    ensures SameChunk(a, b, i) <==> i < |Target(b)| && Target(a)[i] == Target(b)[i]
  {
    TargetShows(a, i);
    ChunkThere(Reverse(b), 500, i);
    if 500 * i < |b| {
      TargetShows(b, i);
      if SameChunk(a, b, i) {
        forall p | 0 <= p < |Target(a)[i]|
          ensures Target(a)[i][p] == Target(b)[i][p]
        {
          assert Newest(a, 500 * i + p) == Newest(b, 500 * i + p);
        }
      }
      if Target(a)[i] == Target(b)[i] {
        forall p | 500 * i <= p < 500 * i + Least(500, |a| - 500 * i)
          ensures Newest(a, p) == Newest(b, p)
        {
          assert Target(a)[i][p - 500 * i] == Target(b)[i][p - 500 * i];
        }
      }
    }
  }

  /**
   * A sync leaves a playlist unwritten if and only if it does not finalize and the playlist's
   * matches are those of the last completed sync, place by place.
   */
  lemma SkipsIff(states: seq<State>, events: seq<Event>, k: nat)
    requires IsRun(states, events) && k < |events| && events[k] == Upload
    ensures
      var f := states[k].flight.value;
      Skips(states[k]) <==> !f.finalize && SameChunk(f.snapshot, Last(states[k]), f.at)
  {
    var s, f := states[k], states[k].flight.value;
    RunInv(states, events, k);
    ChunkThere(Reverse(f.snapshot), 500, f.at);
    SameChunkIff(f.snapshot, Last(s), f.at);
    if f.at < |Target(Last(s))| && Join(Target(f.snapshot)[f.at]) == Join(Target(Last(s))[f.at]) {
      assert forall u :: u in f.snapshot ==> u in s.matched;
      assert forall u :: u in Last(s) ==> u in s.matched;
      TargetIsClean(f.snapshot, f.at);
      TargetIsClean(Last(s), f.at);
      JoinInjective(Target(f.snapshot)[f.at], Target(Last(s))[f.at]);
    }
  }

  /** The first titles. */
  lemma FirstTitles()
    ensures GetPlaylistName(0) == "Yandex Music" && GetPlaylistName(1) == "Yandex Music 2"
    ensures GetPlaylistName(11) == "Yandex Music 12"
  {
    assert Decimal(2) == "2";
    assert Decimal(12) == Decimal(1) + "2" == "12";
  }
}
