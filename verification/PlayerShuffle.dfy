/**
 * Shuffling as a refinement: playing, moving, adding and removing in a shuffled
 * player, then unshuffling, gives the queue the unshuffled player would have.
 */
module PlayerShuffle {
  import opened Lists
  import opened FisherYates
  import opened PlayerModel
  import opened PlayerCoherence

  /** The actions a listener takes on a running queue. */
  predicate IsQueueAction(a: Action) {
    a.Next? || a.Prev? || a.PlayFromQueue? || a.MoveInQueue? || a.AddToQueue? || a.AddToQueueNext? || a.RemoveFromQueue?
  }

  ghost predicate RunnableFrom(s: State, actions: seq<Action>)
    decreases |actions|
  {
    actions != [] ==>
      && IsQueueAction(actions[0]) && Enabled(s, actions[0]) && Safe(s, actions[0])
      && RunnableFrom(Step(s, actions[0]), actions[1..])
  }

  function Run(s: State, actions: seq<Action>): State
    requires RunnableFrom(s, actions)
    decreases |actions|
  {
    if actions == [] then s else Run(Step(s, actions[0]), actions[1..])
  }

  /** Everything the run adds, in call order. */
  function Added(actions: seq<Action>): seq<Track> {
    if actions == [] then [] else AddedBy(actions[0]) + Added(actions[1..])
  }

  function AddedBy(a: Action): seq<Track> {
    match a
    case AddToQueue(ts, _) => ts
    case AddToQueueNext(ts) => ts
    case _ => []
  }

  function RemovedBy(s: State, a: Action): set<string> {
    if a.RemoveFromQueue? && 0 <= a.index < |s.queue| then {s.queue[a.index].urn} else {}
  }

  /** The urns the run removes, wherever the shuffle had put them. */
  ghost function Removed(s: State, actions: seq<Action>): set<string>
    requires RunnableFrom(s, actions)
    decreases |actions|
  {
    if actions == [] then {}
    else RemovedBy(s, actions[0]) + Removed(Step(s, actions[0]), actions[1..])
  }

  /** q without the tracks whose urn is gone, order kept. */
  function Without(q: seq<Track>, gone: set<string>): seq<Track> {
    if q == [] then []
    else Kept(q[0], gone) + Without(q[1..], gone)
  }

  function Kept(t: Track, gone: set<string>): seq<Track> {
    if t.urn in gone then [] else [t]
  }

  lemma {:induction false} WithoutAppend(p: seq<Track>, q: seq<Track>, gone: set<string>)
    ensures Without(p + q, gone) == Without(p, gone) + Without(q, gone)
  {
    if p == [] {
      assert p + q == q;
    } else {
      WithoutAppend(p[1..], q, gone);
      assert (p + q)[1..] == p[1..] + q;
      Regroup(Kept(p[0], gone), Without(p[1..], gone), Without(q, gone));
    }
  }

  lemma {:induction false} WithoutNone(q: seq<Track>, gone: set<string>)
    requires forall t :: t in q ==> t.urn !in gone
    ensures Without(q, gone) == q
  {
    if q != [] {
      WithoutNone(q[1..], gone);
    }
  }

  /** Removing one more urn from a list of distinct urns is dropping its first match. */
  lemma {:induction false} WithoutOneMore(q: seq<Track>, gone: set<string>, urn: string)
    requires Distinct(Urns(q))
    ensures Without(q, gone + {urn}) == WithoutFirst(Without(q, gone), urn)
  {
    if q != [] {
      UrnsTail(q);
      if q[0].urn !in gone && q[0].urn == urn {
        HeadIsOnly(q);
        WithoutAbsent(q[1..], gone, urn);
        DropHead(q[0], Without(q[1..], gone));
      } else {
        WithoutOneMore(q[1..], gone, urn);
        OneMoreStep(q[0], gone, urn, Without(q[1..], gone), Without(q[1..], gone + {urn}));
      }
    }
  }

  lemma OneMoreStep(t: Track, gone: set<string>, urn: string, rest: seq<Track>, fewer: seq<Track>)
    requires t.urn in gone || t.urn != urn
    requires fewer == WithoutFirst(rest, urn)
    ensures Kept(t, gone + {urn}) + fewer == WithoutFirst(Kept(t, gone) + rest, urn)
  {
    if t.urn in gone {
      assert [] + rest == rest;
    } else {
      WithoutFirstCons(t, rest, urn);
    }
  }

  lemma HeadIsOnly(q: seq<Track>)
    requires q != [] && Distinct(Urns(q))
    ensures forall t :: t in q[1..] ==> t.urn != q[0].urn
  {
    forall t | t in q[1..]
      ensures t.urn != q[0].urn
    {
      var k :| 0 <= k < |q[1..]| && q[1..][k] == t;
      assert Urns(q)[k + 1] == t.urn && Urns(q)[0] == q[0].urn;
    }
  }

  lemma DropHead(t: Track, rest: seq<Track>)
    ensures WithoutFirst([t] + rest, t.urn) == rest
  {
    assert RemoveAt([t] + rest, 0) == rest;
  }

  lemma UrnsTail(q: seq<Track>)
    requires q != [] && Distinct(Urns(q))
    ensures Distinct(Urns(q[1..]))
  {
    assert Urns(q[1..]) == Urns(q)[1..];
  }

  lemma {:induction false} WithoutAbsent(q: seq<Track>, gone: set<string>, urn: string)
    requires forall t :: t in q ==> t.urn != urn
    ensures Without(q, gone + {urn}) == Without(q, gone)
  {
    if q != [] {
      WithoutAbsent(q[1..], gone, urn);
    }
  }

  lemma WithoutFirstCons(t: Track, rest: seq<Track>, urn: string)
    requires t.urn != urn
    ensures WithoutFirst([t] + rest, urn) == [t] + WithoutFirst(rest, urn)
  {
    assert ([t] + rest)[1..] == rest;
    var i := FindUrn(rest, urn);
    if i >= 0 {
      assert RemoveAt([t] + rest, i + 1) == [t] + RemoveAt(rest, i);
    }
  }

  /** A shuffled player with its original order kept. */
  predicate Shuffling(s: State) {
    Coherent(s) && s.shuffle && s.originalQueue.Some?
  }

  lemma StepShuffling(s: State, a: Action)
    requires Shuffling(s) && IsQueueAction(a) && Enabled(s, a) && Safe(s, a)
    ensures Shuffling(Step(s, a))
  {
    StepCoherentIffSafe(s, a);
  }

  /** What one action makes of the original order, told by what it adds and removes. */
  lemma StepOriginal(s: State, a: Action, base: seq<Track>, gone: set<string>)
    requires Shuffling(s) && IsQueueAction(a) && Enabled(s, a)
    requires s.originalQueue == Some(Without(base, gone))
    requires Distinct(Urns(base + AddedBy(a)))
    requires forall u :: u in gone ==> u in Urns(base)
    ensures Step(s, a).originalQueue == Some(Without(base + AddedBy(a), gone + RemovedBy(s, a)))
    ensures forall u :: u in RemovedBy(s, a) ==> u in Urns(base)
  {
    OriginalAfter(s, a);
    assert base + [] == base && gone + {} == gone;
    if a.AddToQueue? || a.AddToQueueNext? {
      AddedOriginal(base, gone, AddedBy(a));
    } else if a.RemoveFromQueue? && 0 <= a.index < |s.queue| {
      RemovedOriginal(s, a.index, base, gone);
    }
  }

  /** Which actions touch the original order, and how. */
  lemma OriginalAfter(s: State, a: Action)
    requires s.originalQueue.Some? && IsQueueAction(a) && Enabled(s, a)
    ensures
      var before, after := s.originalQueue.value, Step(s, a).originalQueue;
      if a.AddToQueue? || a.AddToQueueNext? then after == Some(before + AddedBy(a))
      else if a.RemoveFromQueue? && 0 <= a.index < |s.queue| then
        after == Some(WithoutFirst(before, s.queue[a.index].urn))
      else after == Some(before)
  {
  }

  /** Tracks added at the end of the original order stand there whatever is gone from it. */
  lemma AddedOriginal(base: seq<Track>, gone: set<string>, ts: seq<Track>)
    requires Distinct(Urns(base + ts)) && forall u :: u in gone ==> u in Urns(base)
    ensures Without(base, gone) + ts == Without(base + ts, gone)
  {
    forall t | t in ts
      ensures t.urn !in gone
    {
      AppendedIsNew(base, ts, t);
    }
    WithoutNone(ts, gone);
    WithoutAppend(base, ts, gone);
  }

  lemma RemovedOriginal(s: State, index: nat, base: seq<Track>, gone: set<string>)
    requires Shuffling(s) && index < |s.queue| && s.originalQueue == Some(Without(base, gone)) && Distinct(Urns(base))
    ensures WithoutFirst(Without(base, gone), s.queue[index].urn) == Without(base, gone + {s.queue[index].urn})
    ensures s.queue[index].urn in Urns(base)
  {
    var urn := s.queue[index].urn;
    WithoutOneMore(base, gone, urn);
    assert Urns(s.queue)[index] == urn;
    FindUrnInBag(s.originalQueue.value, urn);
    WithoutUrn(base, gone, s.originalQueue.value[FindUrn(s.originalQueue.value, urn)]);
  }

  lemma AppendedIsNew(base: seq<Track>, ts: seq<Track>, t: Track)
    requires Distinct(Urns(base + ts)) && t in ts
    ensures t.urn !in Urns(base)
  {
    var k :| 0 <= k < |ts| && ts[k] == t;
    assert Urns(base + ts)[|base| + k] == t.urn;
    forall j | 0 <= j < |base|
      ensures Urns(base)[j] != t.urn
    {
      assert Urns(base + ts)[j] == Urns(base)[j];
    }
  }

  lemma {:induction false} WithoutUrn(q: seq<Track>, gone: set<string>, t: Track)
    requires t in Without(q, gone)
    ensures t.urn in Urns(q)
  {
    if t == q[0] {
      assert Urns(q)[0] == t.urn;
    } else {
      WithoutUrn(q[1..], gone, t);
      assert Urns(q[1..]) == Urns(q)[1..];
    }
  }

  lemma {:induction false} RunOriginal(s: State, actions: seq<Action>, base: seq<Track>, gone: set<string>)
    requires Shuffling(s) && RunnableFrom(s, actions)
    requires s.originalQueue == Some(Without(base, gone))
    requires Distinct(Urns(base + Added(actions)))
    requires forall u :: u in gone ==> u in Urns(base)
    ensures Shuffling(Run(s, actions))
    ensures Run(s, actions).originalQueue == Some(Without(base + Added(actions), gone + Removed(s, actions)))
    decreases |actions|
  {
    if actions == [] {
      assert base + [] == base && gone + {} == gone;
    } else {
      var a, rest := actions[0], actions[1..];
      var ts := AddedBy(a);
      assert Added(actions) == ts + Added(rest);
      assert base + Added(actions) == (base + ts) + Added(rest);
      DistinctUrnsPrefix(base + ts, Added(rest));
      StepShuffling(s, a);
      StepOriginal(s, a, base, gone);
      UrnsAppend(base, ts);
      RunOriginal(Step(s, a), rest, base + ts, gone + RemovedBy(s, a));
      assert gone + Removed(s, actions) == gone + RemovedBy(s, a) + Removed(Step(s, a), rest);
    }
  }

  lemma DistinctUrnsPrefix(p: seq<Track>, q: seq<Track>)
    requires Distinct(Urns(p + q))
    ensures Distinct(Urns(p))
  {
    UrnsAppend(p, q);
    assert Urns(p) == Urns(p + q)[..|p|];
  }

  /** What turning shuffle off makes of a shuffled player: q with a track current, else the queue as it stands. */
  predicate UnshufflesTo(listened: State, last: seq<nat>, q: seq<Track>)
    requires listened.shuffle
  {
    var off := AfterToggleShuffle(listened, last);
    && off.queue == (if listened.currentTrack.Some? then q else listened.queue)
    && off.currentTrack == listened.currentTrack
    && Coherent(off) && !off.shuffle && off.originalQueue == None
  }

  /**
   * From any shuffled player: listening and editing, then shuffle off. If a track is current
   * by then, the original order without the removed tracks, followed by the added ones in
   * call order, with that track current at the new index; if none is, the shuffled queue stays.
   */
  lemma {:induction false} RunThenUnshuffle(s: State, base: seq<Track>, actions: seq<Action>, last: seq<nat>)
    requires Shuffling(s) && s.originalQueue == Some(base) && RunnableFrom(s, actions)
    requires Distinct(Urns(base + Added(actions)))
    ensures Run(s, actions).shuffle
    ensures UnshufflesTo(Run(s, actions), last, Without(base + Added(actions), Removed(s, actions)))
    ensures s.currentTrack.Some? ==> Run(s, actions).currentTrack.Some?
  {
    WithoutNone(base, {});
    RunOriginal(s, actions, base, {});
    assert {} + Removed(s, actions) == Removed(s, actions);
    StepCoherentIffSafe(Run(s, actions), ToggleShuffle(last));
    if s.currentTrack.Some? {
      RunKeepsCurrent(s, actions);
    }
  }

  /** A player that has a track current always has one. */
  lemma {:induction false} RunKeepsCurrent(s: State, actions: seq<Action>)
    requires Shuffling(s) && s.currentTrack.Some? && RunnableFrom(s, actions)
    ensures Run(s, actions).currentTrack.Some?
    decreases |actions|
  {
    if actions != [] {
      StepShuffling(s, actions[0]);
      StepKeepsCurrent(s, actions[0]);
      RunKeepsCurrent(Step(s, actions[0]), actions[1..]);
    }
  }

  lemma StepKeepsCurrent(s: State, a: Action)
    requires Selected(s) && s.currentTrack.Some? && IsQueueAction(a) && Enabled(s, a)
    ensures Step(s, a).currentTrack.Some?
  {
  }

  /**
   * Shuffle on, a run, shuffle off: the queue from before, less the removed and plus the added
   * tracks, once a track is current.
   */
  lemma {:induction false} UnshuffleRestores(s: State, draws: seq<nat>, actions: seq<Action>, last: seq<nat>)
    requires Coherent(s) && !s.shuffle && Enabled(s, ToggleShuffle(draws))
    requires RunnableFrom(AfterToggleShuffle(s, draws), actions)
    requires Distinct(Urns(s.queue + Added(actions)))
    ensures
      var on := AfterToggleShuffle(s, draws);
      && Run(on, actions).shuffle
      && UnshufflesTo(Run(on, actions), last, Without(s.queue + Added(actions), Removed(on, actions)))
      && (s.currentTrack.Some? ==> Run(on, actions).currentTrack.Some?)
  {
    StepCoherentIffSafe(s, ToggleShuffle(draws));
    RunThenUnshuffle(AfterToggleShuffle(s, draws), s.queue, actions, last);
  }

  /** A list started while shuffling comes back in its own order, edits applied, when shuffle goes off. */
  lemma {:induction false} ShuffledStartRestores(s: State, t: Track, q: seq<Track>, draws: seq<nat>,
                                                 actions: seq<Action>, last: seq<nat>)
    requires s.shuffle && Enabled(s, Play(t, q, false, draws)) && FindUrn(q, t.urn) >= 0
    requires RunnableFrom(AfterPlay(s, t, q, false, draws), actions)
    requires Distinct(Urns(q + Added(actions)))
    ensures
      var started := AfterPlay(s, t, q, false, draws);
      && Run(started, actions).shuffle && Run(started, actions).currentTrack.Some?
      && UnshufflesTo(Run(started, actions), last, Without(q + Added(actions), Removed(started, actions)))
  {
    PlayCoherent(s, t, q, false, draws);
    RunThenUnshuffle(AfterPlay(s, t, q, false, draws), q, actions, last);
  }

  lemma ReplacedShuffling(s: State, q: seq<Track>, draws: seq<nat>)
    requires s.shuffle && Coherent(s) && Enabled(s, SetQueue(q, draws)) && Safe(s, SetQueue(q, draws))
    ensures
      var replaced := AfterSetQueue(s, q, draws);
      Shuffling(replaced) && replaced.originalQueue == Some(q) && replaced.currentTrack == s.currentTrack
  {
    SetQueueCoherent(s, q, draws);
  }

  /** The same for a queue replaced while shuffling, around the current track if there is one. */
  lemma {:induction false} ReplacedQueueRestores(s: State, q: seq<Track>, draws: seq<nat>, actions: seq<Action>,
                                                 last: seq<nat>)
    requires s.shuffle && Coherent(s) && Enabled(s, SetQueue(q, draws)) && Safe(s, SetQueue(q, draws))
    requires RunnableFrom(AfterSetQueue(s, q, draws), actions)
    requires Distinct(Urns(q + Added(actions)))
    ensures
      var replaced := AfterSetQueue(s, q, draws);
      && Run(replaced, actions).shuffle
      && UnshufflesTo(Run(replaced, actions), last, Without(q + Added(actions), Removed(replaced, actions)))
      && (s.currentTrack.Some? ==> Run(replaced, actions).currentTrack.Some?)
  {
    ReplacedShuffling(s, q, draws);
    RunThenUnshuffle(AfterSetQueue(s, q, draws), q, actions, last);
  }

  /** Shuffling keeps what was already played, current track included, in place. */
  lemma ShuffleKeepsPlayed(s: State, draws: seq<nat>, k: nat)
    requires Coherent(s) && !s.shuffle && Enabled(s, ToggleShuffle(draws))
    requires k <= s.queueIndex
    ensures AfterToggleShuffle(s, draws).queue[..s.queueIndex + 1] == s.queue[..s.queueIndex + 1]
    ensures AfterToggleShuffle(s, draws).queue[k] == s.queue[k]
  {
    assert PlayedEnd(s) == s.queueIndex + 1;
  }

  /** Shuffle on and off again: the order before, or with nothing current the shuffled one. */
  lemma TwiceToggled(s: State, draws: seq<nat>)
    requires Coherent(s) && !s.shuffle && Enabled(s, ToggleShuffle(draws))
    ensures
      AfterToggleShuffle(AfterToggleShuffle(s, draws), []).queue ==
      if s.currentTrack.Some? then s.queue else Shuffled(s.queue, draws)
  {
    if s.currentTrack.None? {
      assert s.queue[..0] == [] && s.queue[0..] == s.queue;
    }
  }

  /** All draws at slot 0: the last track is then one that was not last. */
  lemma FirstToLast(q: seq<Track>) returns (draws: seq<nat>)
    requires |q| > 1 && Distinct(q)
    ensures ValidDraws(draws, |q|) && Shuffled(q, draws) != q
  {
    draws := seq(|q|, _ => 0);
    ShuffledUnfold(q, draws);
    assert Shuffled(q, draws)[|q| - 1] == q[0] != q[|q| - 1];
  }

  /**
   * Shuffle off gives the order back whatever was drawn exactly when a track is current or there
   * was nothing to shuffle.
   */
  lemma {:induction false} OrderReturnsIff(s: State)
    requires Coherent(s) && !s.shuffle && Distinct(s.queue)
    ensures (forall draws :: Enabled(s, ToggleShuffle(draws)) ==>
               AfterToggleShuffle(AfterToggleShuffle(s, draws), []).queue == s.queue)
       <==> s.currentTrack.Some? || |s.queue| <= 1
  {
    forall draws | Enabled(s, ToggleShuffle(draws))
      ensures s.currentTrack.Some? || |s.queue| <= 1 ==>
        AfterToggleShuffle(AfterToggleShuffle(s, draws), []).queue == s.queue
    {
      TwiceToggled(s, draws);
      if |s.queue| == 1 && s.currentTrack.None? {
        ShuffledUnfold(s.queue, draws);
        assert Shuffled(s.queue, draws) == [s.queue[0]] == s.queue;
      }
    }
    if s.currentTrack.None? && |s.queue| > 1 {
      var draws := FirstToLast(s.queue);
      TwiceToggled(s, draws);
      assert Enabled(s, ToggleShuffle(draws));
    }
  }
  /** For instance: a queued pair, nothing playing, stays swapped. */
  lemma UnshuffleNeedsCurrent()
    ensures
      var a, b := Track("a", map[]), Track("b", map[]);
      var s := INITIAL.(queue := [a, b]);
      && Coherent(s) && Enabled(s, ToggleShuffle([0, 0]))
      && AfterToggleShuffle(AfterToggleShuffle(s, [0, 0]), []).queue == [b, a]
  {
    var a, b := Track("a", map[]), Track("b", map[]);
    var s := INITIAL.(queue := [a, b]);
    TwiceToggled(s, [0, 0]);
    PairSwapped(a, b);
  }

  lemma PairSwapped<T>(a: T, b: T)
    ensures Shuffled([a, b], [0, 0]) == [b, a]
  {
    assert Swap([a, b], 1, 0) == [b, a] && [b, a][..1] == [b] && [0, 0][..1] == [0];
    ShuffledUnfold([b], [0]);
    assert [] + [b] == [b];
  }
}
