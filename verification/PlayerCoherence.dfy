/** What every action of the player does to coherence, and to the bag of urns. */
module PlayerCoherence {
  import opened Lists
  import opened FisherYates
  import opened PlayerModel
  import opened Arithmetic

  lemma UrnsAppend(p: seq<Track>, q: seq<Track>)
    ensures Urns(p + q) == Urns(p) + Urns(q)
    ensures UrnBag(p + q) == UrnBag(p) + UrnBag(q)
  {
  }

  lemma UrnsRemoveAt(q: seq<Track>, i: nat)
    requires i < |q|
    ensures Urns(RemoveAt(q, i)) == RemoveAt(Urns(q), i)
    ensures UrnBag(q) == UrnBag(RemoveAt(q, i)) + multiset{q[i].urn}
    ensures UrnBag(RemoveAt(q, i)) == UrnBag(q) - multiset{q[i].urn}
  {
    assert Urns(RemoveAt(q, i)) == RemoveAt(Urns(q), i);
    RemoveAtBag(Urns(q), i);
  }

  lemma UrnsInsertAt(q: seq<Track>, i: nat, t: Track)
    requires i <= |q|
    ensures Urns(InsertAt(q, i, t)) == InsertAt(Urns(q), i, t.urn)
    ensures UrnBag(InsertAt(q, i, t)) == UrnBag(q) + multiset{t.urn}
  {
    assert Urns(InsertAt(q, i, t)) == InsertAt(Urns(q), i, t.urn);
    InsertAtBag(Urns(q), i, t.urn);
  }

  lemma UrnsShuffled(q: seq<Track>, draws: seq<nat>)
    requires ValidDraws(draws, |q|)
    ensures UrnBag(Shuffled(q, draws)) == UrnBag(q)
  {
    ShuffledNatural(q, draws, (t: Track) => t.urn);
    ShuffledIsPermutation(Urns(q), draws);
  }

  lemma UrnsSplit(q: seq<Track>, k: nat)
    requires k <= |q|
    ensures UrnBag(q[..k]) + UrnBag(q[k..]) == UrnBag(q)
  {
    assert q[..k] + q[k..] == q;
    UrnsAppend(q[..k], q[k..]);
  }

  lemma FindUrnInBag(q: seq<Track>, urn: string)
    ensures FindUrn(q, urn) >= 0 <==> urn in UrnBag(q)
  {
    if FindUrn(q, urn) >= 0 {
      assert Urns(q)[FindUrn(q, urn)] == urn;
    }
  }

  lemma {:induction false} UrnsScattered(q: seq<Track>, ts: seq<Track>, ps: seq<nat>)
    requires |ps| == |ts|
    ensures UrnBag(Scattered(q, ts, ps)) == UrnBag(q) + UrnBag(ts)
    decreases |ts|
  {
    if ts != [] {
      var p := Cut(ps[0], |q|);
      UrnsInsertAt(q, p, ts[0]);
      UrnsScattered(InsertAt(q, p, ts[0]), ts[1..], ps[1..]);
      assert ts == [ts[0]] + ts[1..];
      UrnsAppend([ts[0]], ts[1..]);
      assert Urns([ts[0]]) == [ts[0].urn];
    }
  }

  /** Scattered inserts land after the current track, so everything up to it stays. */
  lemma {:induction false} ScatteredKeepsPlayed(q: seq<Track>, ts: seq<Track>, ps: seq<nat>, index: int)
    requires |ps| == |ts| && 0 <= index < |q| && ValidPositions(ps, index, |q|)
    ensures |Scattered(q, ts, ps)| == |q| + |ts|
    ensures Scattered(q, ts, ps)[..index + 1] == q[..index + 1]
    decreases |ts|
  {
    if ts != [] {
      var q' := InsertAt(q, Cut(ps[0], |q|), ts[0]);
      assert q'[..index + 1] == q[..index + 1];
      forall k | 0 <= k < |ps[1..]|
        ensures index + 1 <= ps[1..][k] <= |q'| + k
      {
        assert ps[1..][k] == ps[k + 1];
      }
      ScatteredKeepsPlayed(q', ts[1..], ps[1..], index);
    }
  }

  // ---- What each action does to the bag of urns in the queue

  function Brought(s: State, a: Action): multiset<string> {
    match a
    case PlayAppended(t) => multiset{t.urn}
    case AddToQueue(ts, _) => UrnBag(ts)
    case AddToQueueNext(ts) => UrnBag(ts)
    case _ => multiset{}
  }

  function Taken(s: State, a: Action): multiset<string> {
    match a
    case RemoveFromQueue(i) => if 0 <= i < |s.queue| then multiset{s.queue[i].urn} else multiset{}
    case _ => multiset{}
  }

  predicate ReplacesQueue(s: State, a: Action) {
    a.Play? || a.SetQueue? || a.ClearQueue? || (a.ToggleShuffle? && s.shuffle)
  }

  // ---- Conservation

  lemma RemovalBag(s: State, i: int)
    ensures UrnBag(AfterRemoveFromQueue(s, i).queue) + Taken(s, RemoveFromQueue(i)) == UrnBag(s.queue)
  {
    if 0 <= i < |s.queue| {
      UrnsRemoveAt(s.queue, i);
    }
  }

  lemma MoveBag(q: seq<Track>, from: nat, to: nat)
    requires from < |q| && to < |q|
    ensures UrnBag(Moved(q, from, to)) == UrnBag(q)
  {
    UrnsRemoveAt(q, from);
    UrnsInsertAt(RemoveAt(q, from), to, q[from]);
  }

  lemma AddNextBag(s: State, ts: seq<Track>)
    ensures UrnBag(AfterAddToQueueNext(s, ts).queue) == UrnBag(s.queue) + UrnBag(ts)
  {
    SpliceBag(s.queue, Cut(if s.queueIndex >= 0 then s.queueIndex + 1 else 0, |s.queue|), ts);
  }

  lemma SpliceBag(q: seq<Track>, i: nat, ts: seq<Track>)
    requires i <= |q|
    ensures UrnBag(q[..i] + ts + q[i..]) == UrnBag(q) + UrnBag(ts)
  {
    calc {
      UrnBag(q[..i] + ts + q[i..]);
    == { UrnsAppend(q[..i] + ts, q[i..]); }
      UrnBag(q[..i] + ts) + UrnBag(q[i..]);
    == { UrnsAppend(q[..i], ts); }
      UrnBag(q[..i]) + UrnBag(ts) + UrnBag(q[i..]);
    == { UrnsSplit(q, i); }
      UrnBag(q) + UrnBag(ts);
    }
  }

  lemma AddBag(s: State, ts: seq<Track>, ps: seq<nat>)
    requires s.shuffle && s.queueIndex >= 0 ==> |ps| == |ts|
    ensures UrnBag(AfterAddToQueue(s, ts, ps).queue) == UrnBag(s.queue) + UrnBag(ts)
  {
    if s.shuffle && s.queueIndex >= 0 {
      UrnsScattered(s.queue, ts, ps);
    } else {
      UrnsAppend(s.queue, ts);
    }
  }

  lemma ShuffleOnBag(s: State, draws: seq<nat>)
    requires !s.shuffle && ValidDraws(draws, |s.queue| - PlayedEnd(s))
    ensures UrnBag(AfterToggleShuffle(s, draws).queue) == UrnBag(s.queue)
  {
    var k := PlayedEnd(s);
    UrnsShuffled(s.queue[k..], draws);
    UrnsAppend(s.queue[..k], Shuffled(s.queue[k..], draws));
    UrnsSplit(s.queue, k);
  }

  lemma MergedUrns(q: seq<Track>, t: Track)
    ensures Urns(Merged(q, t)) == Urns(q)
  {
  }

  lemma AppendedBag(q: seq<Track>, t: Track)
    ensures UrnBag(q + [t]) == UrnBag(q) + multiset{t.urn}
  {
    UrnsAppend(q, [t]);
    assert Urns([t]) == [t.urn];
  }

  /** No action but the ones that install another queue makes or loses a track. */
  lemma StepConservesTracks(s: State, a: Action)
    requires Enabled(s, a) && !ReplacesQueue(s, a)
    ensures UrnBag(Step(s, a).queue) + Taken(s, a) == UrnBag(s.queue) + Brought(s, a)
  {
    match a
    case PlayAppended(t) => AppendedBag(s.queue, t);
    case AddToQueue(ts, ps) => AddBag(s, ts, ps);
    case AddToQueueNext(ts) => AddNextBag(s, ts);
    case RemoveFromQueue(i) => RemovalBag(s, i);
    case MoveInQueue(from, to) => MoveStepBag(s, from, to);
    case ToggleShuffle(draws) => ShuffleOnBag(s, draws);
    case ReplaceTrackMetadata(t) => MergedUrns(s.queue, t);
    case _ =>
  }

  // ---- Coherence, action by action

  /** Taking the chosen track out, shuffling the rest and putting it first keeps the bag. */
  lemma HeadFirstBag(q: seq<Track>, i: nat, head: Track, draws: seq<nat>)
    requires i < |q| && head.urn == q[i].urn && ValidDraws(draws, |q| - 1)
    ensures UrnBag([head] + Shuffled(RemoveAt(q, i), draws)) == UrnBag(q)
  {
    UrnsRemoveAt(q, i);
    UrnsShuffled(RemoveAt(q, i), draws);
    UrnsAppend([head], Shuffled(RemoveAt(q, i), draws));
    assert Urns([head]) == [head.urn];
  }

  lemma PlayCoherent(s: State, t: Track, q: seq<Track>, vibe: bool, draws: seq<nat>)
    requires Enabled(s, Play(t, q, vibe, draws))
    ensures Coherent(AfterPlay(s, t, q, vibe, draws)) <==> FindUrn(q, t.urn) >= 0
    ensures FindUrn(q, t.urn) >= 0 ==> UrnBag(AfterPlay(s, t, q, vibe, draws).queue) == UrnBag(q)
    ensures !s.shuffle || vibe ==> AfterPlay(s, t, q, vibe, draws).queue == q
  {
    if s.shuffle && !vibe {
      var r := AfterPlay(s, t, q, vibe, draws);
      if FindUrn(q, t.urn) >= 0 {
        HeadFirstBag(q, FindUrn(q, t.urn), t, draws);
      } else {
        assert Urns(r.queue)[0] == t.urn;
        FindUrnInBag(q, t.urn);
      }
    }
  }

  lemma PlayAppendedCoherent(s: State, t: Track)
    requires Coherent(s)
    ensures Coherent(AfterPlayAppended(s, t)) <==> s.originalQueue.None?
  {
    UrnsAppend(s.queue, [t]);
    assert |UrnBag(s.queue + [t])| == |s.queue| + 1;
    if s.originalQueue.Some? {
      assert |UrnBag(s.originalQueue.value)| == |UrnBag(s.queue)| == |s.queue|;
    }
  }

  /** A replaced queue plays exactly the given tracks, in their order unless shuffling. */
  lemma SetQueueBag(s: State, q: seq<Track>, draws: seq<nat>)
    requires Enabled(s, SetQueue(q, draws))
    ensures UrnBag(AfterSetQueue(s, q, draws).queue) == UrnBag(q)
    ensures !s.shuffle ==> AfterSetQueue(s, q, draws).queue == q
  {
    var i := CurrentIn(s, q);
    if s.shuffle && i >= 0 {
      HeadFirstBag(q, i, q[i], draws);
    }
  }

  lemma SetQueueCoherent(s: State, q: seq<Track>, draws: seq<nat>)
    requires Coherent(s) && Enabled(s, SetQueue(q, draws))
    ensures Coherent(AfterSetQueue(s, q, draws)) <==> s.currentTrack.None? || CurrentIn(s, q) >= 0
  {
    SetQueueBag(s, q, draws);
    SetQueueSelectedIff(s, q, draws);
  }

  lemma SetQueueSelectedIff(s: State, q: seq<Track>, draws: seq<nat>)
    requires Selected(s) && Enabled(s, SetQueue(q, draws))
    ensures Selected(AfterSetQueue(s, q, draws)) <==> s.currentTrack.None? || CurrentIn(s, q) >= 0
  {
    if s.shuffle && CurrentIn(s, q) >= 0 {
      assert AfterSetQueue(s, q, draws).queue[0] == q[CurrentIn(s, q)];
    } else if CurrentIn(s, q) < 0 && s.currentTrack.Some? {
      NotCurrent(s, q);
    }
  }

  /** A queue without the current track does not show it at any index. */
  lemma NotCurrent(s: State, q: seq<Track>)
    requires s.currentTrack.Some? && CurrentIn(s, q) < 0
    ensures forall i :: 0 <= i < |q| ==> q[i].urn != s.currentTrack.value.urn
  {
  }

  lemma AddToQueueCoherent(s: State, ts: seq<Track>, ps: seq<nat>)
    requires Coherent(s) && Enabled(s, AddToQueue(ts, ps))
    ensures Coherent(AfterAddToQueue(s, ts, ps))
  {
    AddBag(s, ts, ps);
    if s.originalQueue.Some? {
      UrnsAppend(s.originalQueue.value, ts);
    }
    if s.shuffle && s.queueIndex >= 0 {
      ScatteredKeepsPlayed(s.queue, ts, ps, s.queueIndex);
      var q := Scattered(s.queue, ts, ps);
      assert q[s.queueIndex] == q[..s.queueIndex + 1][s.queueIndex] == s.queue[s.queueIndex];
    }
  }

  lemma AddToQueueNextCoherent(s: State, ts: seq<Track>)
    requires Coherent(s)
    ensures Coherent(AfterAddToQueueNext(s, ts))
  {
    AddNextBag(s, ts);
    if s.originalQueue.Some? {
      UrnsAppend(s.originalQueue.value, ts);
    }
  }

  lemma RemovalKeepsSameTracks(s: State, i: int)
    requires SameTracks(s)
    ensures SameTracks(AfterRemoveFromQueue(s, i))
  {
    if s.originalQueue.Some? && 0 <= i < |s.queue| {
      var original, urn := s.originalQueue.value, s.queue[i].urn;
      assert Urns(s.queue)[i] == urn;
      FindUrnInBag(original, urn);
      UrnsRemoveAt(original, FindUrn(original, urn));
      UrnsRemoveAt(s.queue, i);
    }
  }

  lemma RemovalCoherent(s: State, i: int)
    requires Coherent(s)
    ensures Coherent(AfterRemoveFromQueue(s, i)) <==> SafeRemoval(s, i)
  {
    RemovalKeepsSameTracks(s, i);
  }

  /**
   * Whatever the positions, a move rearranges the queue if it finds a row to take, and otherwise
   * grows it by a hole.
   */
  lemma MoveMakesHoleIff(s: State, from: int, to: int)
    ensures None in RawMoved(s.queue, from, to) <==> !TakesRow(s, from)
    ensures TakesRow(s, from) ==>
              RawMoved(s.queue, from, to) == Mapped(AfterMoveInQueue(s, from, to).queue, (t: Track) => Some(t))
    ensures !TakesRow(s, from) ==> |RawMoved(s.queue, from, to)| == |s.queue| + 1
  {
    var f := (t: Track) => Some(t);
    if TakesRow(s, from) {
      var row := Cut(from, |s.queue|);
      InsertMapped(RemoveAt(s.queue, row), Cut(to, |s.queue| - 1), s.queue[row], f);
      NoHole(AfterMoveInQueue(s, from, to).queue, f);
    } else {
      HoleAt(Mapped(s.queue, f), Cut(to, |s.queue|));
    }
  }

  lemma InsertMapped<T, U>(q: seq<T>, i: nat, x: T, f: T -> U)
    requires i <= |q|
    ensures Mapped(InsertAt(q, i, x), f) == InsertAt(Mapped(q, f), i, f(x))
  {
  }

  lemma NoHole(q: seq<Track>, f: Track -> Option<Track>)
    requires forall t :: f(t).Some?
    ensures None !in Mapped(q, f)
  {
  }

  lemma HoleAt(q: seq<Option<Track>>, i: nat)
    requires i <= |q|
    ensures None in InsertAt(q, i, None) && |InsertAt(q, i, None)| == |q| + 1
  {
    assert InsertAt(q, i, None)[i] == None;
  }

  lemma MovedRows(q: seq<Track>, from: nat, to: nat, p: nat)
    requires from < |q| && to < |q| && p < |q|
    ensures 0 <= RowBefore(from, to, p) < |q| && Moved(q, from, to)[p] == q[RowBefore(from, to, p)]
  {
  }

  /** Between rows, the index goes where its row goes. */
  lemma IndexFollows(from: nat, to: nat, index: nat, n: nat)
    requires from < n && to < n && index < n
    ensures 0 <= MovedIndex(index, from, to) < n && RowBefore(from, to, MovedIndex(index, from, to)) == index
  {
  }

  lemma MoveStepBag(s: State, from: int, to: int)
    requires TakesRow(s, from)
    ensures UrnBag(AfterMoveInQueue(s, from, to).queue) == UrnBag(s.queue)
  {
    MoveBag(s.queue, Cut(from, |s.queue|), Cut(to, |s.queue| - 1));
  }

  /** With a track current, a move is safe exactly when its row comes to stand at the index. */
  lemma SafeMoveRow(s: State, from: int, to: int)
    requires Selected(s) && TakesRow(s, from) && s.currentTrack.Some?
    ensures
      var n, index := |s.queue|, MovedIndex(s.queueIndex, from, to);
      SafeMove(s, from, to) <==>
        0 <= index < n && 0 <= RowBefore(Cut(from, n), Cut(to, n - 1), index) < n &&
        s.queue[RowBefore(Cut(from, n), Cut(to, n - 1), index)].urn == s.currentTrack.value.urn
  {
    if 0 <= from < |s.queue| && 0 <= to < |s.queue| {
      IndexFollows(from, to, s.queueIndex, |s.queue|);
    }
  }

  lemma MoveSelectedIff(s: State, from: int, to: int)
    requires Selected(s) && TakesRow(s, from)
    ensures Selected(AfterMoveInQueue(s, from, to)) <==> SafeMove(s, from, to)
  {
    if s.currentTrack.Some? {
      SafeMoveRow(s, from, to);
      if 0 <= MovedIndex(s.queueIndex, from, to) < |s.queue| {
        MovedRows(s.queue, Cut(from, |s.queue|), Cut(to, |s.queue| - 1), MovedIndex(s.queueIndex, from, to));
      }
    }
  }

  lemma MoveCoherent(s: State, from: int, to: int)
    requires Coherent(s) && TakesRow(s, from)
    ensures Coherent(AfterMoveInQueue(s, from, to)) <==> SafeMove(s, from, to)
  {
    MoveStepBag(s, from, to);
    MoveSelectedIff(s, from, to);
  }

  lemma ToggleShuffleCoherent(s: State, draws: seq<nat>)
    requires Coherent(s) && Enabled(s, ToggleShuffle(draws))
    ensures Coherent(AfterToggleShuffle(s, draws))
  {
    if !s.shuffle {
      ShuffleOnBag(s, draws);
    } else if s.originalQueue.Some? && s.currentTrack.Some? {
      var urn := s.currentTrack.value.urn;
      assert Urns(s.queue)[s.queueIndex] == urn;
      FindUrnInBag(s.originalQueue.value, urn);
    }
  }

  lemma ReplaceMetadataCoherent(s: State, t: Track)
    requires Coherent(s)
    ensures Coherent(AfterReplaceTrackMetadata(s, t))
  {
    MergedUrns(s.queue, t);
    if s.originalQueue.Some? {
      MergedUrns(s.originalQueue.value, t);
    }
  }

  /** For every action: a coherent player stays coherent exactly when the action is safe. */
  lemma StepCoherentIffSafe(s: State, a: Action)
    requires Coherent(s) && Enabled(s, a)
    ensures Coherent(Step(s, a)) <==> Safe(s, a)
  {
    match a
    case Play(t, q, vibe, draws) => PlayCoherent(s, t, q, vibe, draws);
    case PlayAppended(t) => PlayAppendedCoherent(s, t);
    case SetQueue(q, draws) => SetQueueCoherent(s, q, draws);
    case AddToQueue(ts, ps) => AddToQueueCoherent(s, ts, ps);
    case AddToQueueNext(ts) => AddToQueueNextCoherent(s, ts);
    case RemoveFromQueue(i) => RemovalCoherent(s, i);
    case MoveInQueue(from, to) => MoveCoherent(s, from, to);
    case ToggleShuffle(draws) => ToggleShuffleCoherent(s, draws);
    case ReplaceTrackMetadata(t) => ReplaceMetadataCoherent(s, t);
    case _ =>
  }

  // ---- Whole runs

  /** The states of a run, the first included. */
  ghost predicate IsRun(states: seq<State>, actions: seq<Action>) {
    && |states| == |actions| + 1
    && forall k :: 0 <= k < |actions| ==>
         Enabled(states[k], actions[k]) && states[k + 1] == Step(states[k], actions[k])
  }

  /** Over any run from the initial player, coherence holds throughout iff every action was safe. */
  lemma {:induction false} RunCoherentIffSafe(states: seq<State>, actions: seq<Action>)
    requires IsRun(states, actions) && states[0] == INITIAL
    ensures (forall k :: 0 <= k < |states| ==> Coherent(states[k]))
       <==> (forall k :: 0 <= k < |actions| ==> Safe(states[k], actions[k]))
  {
    if forall k :: 0 <= k < |states| ==> Coherent(states[k]) {
      forall k | 0 <= k < |actions|
        ensures Safe(states[k], actions[k])
      {
        assert Coherent(states[k]) && Coherent(states[k + 1]);
        StepCoherentIffSafe(states[k], actions[k]);
      }
    }
    if forall k :: 0 <= k < |actions| ==> Safe(states[k], actions[k]) {
      SafeRunCoherent(states, actions, |actions|);
    }
  }

  lemma {:induction false} SafeRunCoherent(states: seq<State>, actions: seq<Action>, n: nat)
    requires IsRun(states, actions) && Coherent(states[0]) && n <= |actions|
    requires forall k :: 0 <= k < n ==> Safe(states[k], actions[k])
    ensures forall k :: 0 <= k <= n ==> Coherent(states[k])
  {
    if n > 0 {
      SafeRunCoherent(states, actions, n - 1);
      StepCoherentIffSafe(states[n - 1], actions[n - 1]);
    }
  }

  // ---- Navigation

  function NextN(s: State, k: nat): (r: State)
    decreases k
  {
    if k == 0 then s else AfterNext(NextN(s, k - 1))
  }

  /** On repeat-all, next walks the queue cyclically: k presses land k entries on. */
  lemma {:induction false} NextCycles(s: State, k: nat)
    requires s.repeat == All && 0 <= s.queueIndex < |s.queue|
    ensures NextN(s, k).queue == s.queue && NextN(s, k).repeat == All
    ensures NextN(s, k).queueIndex == (s.queueIndex + k) % |s.queue|
    ensures k > 0 ==> NextN(s, k).currentTrack == Some(s.queue[(s.queueIndex + k) % |s.queue|]) && NextN(s, k).isPlaying
  {
    if k > 0 {
      NextCycles(s, k - 1);
      ModSuccessor(s.queueIndex + k - 1, |s.queue|);
    }
  }

  /** Without repeat-all, next stops on the last entry and pauses. */
  lemma {:induction false} NextStopsAtEnd(s: State, k: nat)
    requires s.repeat != All && 0 <= s.queueIndex < |s.queue|
    ensures NextN(s, k).queue == s.queue && NextN(s, k).repeat == s.repeat
    ensures NextN(s, k).queueIndex == if s.queueIndex + k < |s.queue| then s.queueIndex + k else |s.queue| - 1
    ensures s.queueIndex + k >= |s.queue| ==> !NextN(s, k).isPlaying
  {
    if k > 0 {
      NextStopsAtEnd(s, k - 1);
    }
  }

  /** prev after an unwrapped next is back at the entry it left. */
  lemma PrevUndoesNext(s: State)
    requires Selected(s) && 0 <= s.queueIndex && s.queueIndex + 1 < |s.queue|
    ensures AfterPrev(AfterNext(s)).queueIndex == s.queueIndex
    ensures AfterPrev(AfterNext(s)).currentTrack == Some(s.queue[s.queueIndex])
    ensures AfterNext(s).currentTrack == Some(s.queue[s.queueIndex + 1])
  {
  }

  /** Moving a row and moving it back restores the queue, and the index of the current row. */
  lemma MoveBackRestores(s: State, from: nat, to: nat)
    requires from < |s.queue| && to < |s.queue|
    ensures AfterMoveInQueue(AfterMoveInQueue(s, from, to), to, from) == s
    ensures AfterMoveInQueue(s, from, to).queue[to] == s.queue[from]
    ensures RemoveAt(AfterMoveInQueue(s, from, to).queue, to) == RemoveAt(s.queue, from)
  {
    var q := Moved(s.queue, from, to);
    assert RemoveAt(q, to) == RemoveAt(s.queue, from);
    assert Moved(q, to, from) == s.queue;
  }

  /** "Play next" puts the tracks, in order, right behind the current one and moves nothing before it. */
  lemma AddNextPlaysNext(s: State, ts: seq<Track>)
    requires Selected(s)
    ensures
      var k := s.queueIndex + 1;
      var q := AfterAddToQueueNext(s, ts).queue;
      |q| == |s.queue| + |ts| && q[..k] == s.queue[..k] && q[k..k + |ts|] == ts && q[k + |ts|..] == s.queue[k..]
  {
    SpliceShape(s.queue, s.queueIndex + 1, ts);
  }

  lemma SpliceShape<T>(q: seq<T>, k: nat, ts: seq<T>)
    requires k <= |q|
    ensures
      var r := q[..k] + ts + q[k..];
      |r| == |q| + |ts| && r[..k] == q[..k] && r[k..k + |ts|] == ts && r[k + |ts|..] == q[k..]
  {
  }

  /** A copy of the track shows every field of the update and keeps its others; another track is unchanged. */
  ghost predicate Shows(old_: Track, new_: Track, t: Track) {
    && new_.urn == old_.urn
    && (old_.urn != t.urn ==> new_ == old_)
    && (old_.urn == t.urn ==>
          forall f :: if f in t.fields then f in new_.fields && new_.fields[f] == t.fields[f]
                      else (f in new_.fields <==> f in old_.fields)
                           && (f in old_.fields ==> new_.fields[f] == old_.fields[f]))
  }

  lemma MergedShows(q: seq<Track>, t: Track)
    ensures |Merged(q, t)| == |q|
    ensures forall i :: 0 <= i < |q| ==> Shows(q[i], Merged(q, t)[i], t)
  {
  }

  /** New metadata reaches every copy of the track: the current one, the queued ones and those in the kept order. */
  lemma MetadataReaches(s: State, t: Track)
    ensures
      var after := AfterReplaceTrackMetadata(s, t);
      && |after.queue| == |s.queue| && (forall i :: 0 <= i < |s.queue| ==> Shows(s.queue[i], after.queue[i], t))
      && (after.currentTrack.Some? <==> s.currentTrack.Some?)
      && (s.currentTrack.Some? ==> Shows(s.currentTrack.value, after.currentTrack.value, t))
      && (after.originalQueue.Some? <==> s.originalQueue.Some?)
      && (s.originalQueue.Some? ==>
            && |after.originalQueue.value| == |s.originalQueue.value|
            && forall i :: 0 <= i < |s.originalQueue.value| ==>
                 Shows(s.originalQueue.value[i], after.originalQueue.value[i], t))
  {
    MergedShows(s.queue, t);
    if s.originalQueue.Some? {
      MergedShows(s.originalQueue.value, t);
    }
  }

  // ---- What is heard

  /** The actions that pick another track to play. */
  predicate Picks(a: Action) {
    a.Play? || a.PlayAppended? || a.PlayFromQueue? || a.Next? || a.Prev?
  }

  /** The listener picks the track with this urn, by itself, from a list or from the queue. */
  predicate Chooses(s: State, a: Action, urn: string) {
    match a
    case Play(t, _, _, _) => t.urn == urn
    case PlayAppended(t) => t.urn == urn
    case PlayFromQueue(i) => 0 <= i < |s.queue| && s.queue[i].urn == urn
    case _ => false
  }

  lemma ChoicePlays(s: State, a: Action, urn: string)
    requires Enabled(s, a) && Chooses(s, a, urn)
    ensures Step(s, a).currentTrack.Some? && Step(s, a).currentTrack.value.urn == urn
  {
  }

  /** Editing, shuffling and annotating leave the same urn current. */
  lemma EditKeepsCurrent(s: State, a: Action)
    requires Enabled(s, a) && !Picks(a) && s.currentTrack.Some?
    ensures Step(s, a).currentTrack.Some? && Step(s, a).currentTrack.value.urn == s.currentTrack.value.urn
  {
  }

  lemma {:induction false} ChosenUrnStays(states: seq<State>, actions: seq<Action>, c: nat, n: nat, urn: string)
    requires IsRun(states, actions) && c < n <= |actions|
    requires forall k :: c < k < n ==> !Picks(actions[k])
    requires Chooses(states[c], actions[c], urn)
    ensures states[n].currentTrack.Some? && states[n].currentTrack.value.urn == urn
    decreases n
  {
    if n > c + 1 {
      ChosenUrnStays(states, actions, c, n - 1, urn);
      EditKeepsCurrent(states[n - 1], actions[n - 1]);
    } else {
      ChoicePlays(states[c], actions[c], urn);
    }
  }

  /**
   * A track once chosen is heard until another is picked: through any safe run of adding,
   * moving, removing, replacing and shuffling it stays current, and the index stays on it.
   */
  lemma ChosenStaysCurrent(states: seq<State>, actions: seq<Action>, c: nat, n: nat, urn: string)
    requires IsRun(states, actions) && Coherent(states[0]) && c < n <= |actions|
    requires forall k :: 0 <= k < n ==> Safe(states[k], actions[k])
    requires forall k :: c < k < n ==> !Picks(actions[k])
    requires Chooses(states[c], actions[c], urn)
    ensures
      var s := states[n];
      && s.currentTrack.Some? && s.currentTrack.value.urn == urn
      && 0 <= s.queueIndex < |s.queue| && s.queue[s.queueIndex].urn == urn
  {
    ChosenUrnStays(states, actions, c, n, urn);
    SafeRunCoherent(states, actions, n);
    assert Coherent(states[n]);
  }
}
