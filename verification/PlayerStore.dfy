/** The player store as an object; each action is proved against its step on values. */
module PlayerStore {
  import opened Lists
  import opened FisherYates
  import opened PlayerModel

  class Store {
    var currentTrack: Option<Track>
    var queue: seq<Track>
    var originalQueue: Option<seq<Track>>
    var queueIndex: int
    var isPlaying: bool
    var shuffle: bool
    var repeat: Repeat

    function Now(): State
      reads this
    {
      State(currentTrack, queue, originalQueue, queueIndex, isPlaying, shuffle, repeat)
    }

    constructor ()
      ensures Now() == INITIAL
    {
      currentTrack, queue, originalQueue, queueIndex := None, [], None, -1;
      isPlaying, shuffle, repeat := false, false, Off;
    }

    method FindIndex(q: seq<Track>, urn: string) returns (i: int)
      ensures i == FindUrn(q, urn)
    {
      i := 0;
      while i < |q|
        invariant 0 <= i <= |q|
        invariant forall k :: 0 <= k < i ==> q[k].urn != urn
      {
        if q[i].urn == urn { return; }
        i := i + 1;
      }
      i := -1;
    }

    method Play(track: Track, tracks: seq<Track>, vibe: bool, draws: seq<nat>)
      requires Enabled(Now(), Action.Play(track, tracks, vibe, draws))
      modifies this
      ensures Now() == AfterPlay(old(Now()), track, tracks, vibe, draws)
    {
      var idx := FindIndex(tracks, track.urn);
      var realIdx := if idx >= 0 then idx else 0;
      if shuffle && !vibe {
        var rest := tracks[..Cut(realIdx, |tracks|)] + tracks[Cut(realIdx + 1, |tracks|)..];
        assert rest == Others(tracks, realIdx);
        rest := ShuffledCopy(rest, draws);
        originalQueue := Some(tracks);
        queue, queueIndex := [track] + rest, 0;
      } else {
        queue, queueIndex := tracks, realIdx;
        originalQueue := None;
      }
      currentTrack, isPlaying := Some(track), true;
    }

    method PlayAppended(track: Track)
      modifies this
      ensures Now() == AfterPlayAppended(old(Now()), track)
    {
      currentTrack, isPlaying := Some(track), true;
      queue, queueIndex := queue + [track], |queue|;
    }

    method PlayFromQueue(index: int)
      modifies this
      ensures Now() == AfterPlayFromQueue(old(Now()), index)
    {
      if index < 0 || index >= |queue| { return; }
      currentTrack, queueIndex, isPlaying := Some(queue[index]), index, true;
    }

    method Next()
      modifies this
      ensures Now() == AfterNext(old(Now()))
    {
      if |queue| == 0 { return; }
      var nextIdx := queueIndex + 1;
      if nextIdx >= |queue| {
        if repeat == All {
          nextIdx := 0;
        } else {
          isPlaying := false;
          return;
        }
      }
      currentTrack, queueIndex, isPlaying := At(queue, nextIdx), nextIdx, true;
    }

    method Prev()
      modifies this
      ensures Now() == AfterPrev(old(Now()))
    {
      var prevIdx := if 0 > queueIndex - 1 then 0 else queueIndex - 1;
      currentTrack, queueIndex, isPlaying := At(queue, prevIdx), prevIdx, true;
    }

    method SetQueue(tracks: seq<Track>, draws: seq<nat>)
      requires Enabled(Now(), Action.SetQueue(tracks, draws))
      modifies this
      ensures Now() == AfterSetQueue(old(Now()), tracks, draws)
    {
      var idx := -1;
      if currentTrack.Some? {
        idx := FindIndex(tracks, currentTrack.value.urn);
      }
      if shuffle && idx >= 0 {
        var after := tracks[..idx] + tracks[idx + 1..];
        after := ShuffledCopy(after, draws);
        queue, queueIndex, originalQueue := [tracks[idx]] + after, 0, Some(tracks);
        return;
      }
      queue, originalQueue := tracks, if shuffle then Some(tracks) else None;
      if idx >= 0 {
        queueIndex := idx;
      }
    }

    method AddToQueue(tracks: seq<Track>, positions: seq<nat>)
      requires Enabled(Now(), Action.AddToQueue(tracks, positions))
      modifies this
      ensures Now() == AfterAddToQueue(old(Now()), tracks, positions)
    {
      if shuffle && queueIndex >= 0 {
        var q := queue;
        var k := 0;
        while k < |tracks|
          invariant 0 <= k <= |tracks| == |positions|
          invariant Scattered(q, tracks[k..], positions[k..]) == Scattered(old(queue), tracks, positions)
        {
          var pos := Cut(positions[k], |q|);
          q := q[..pos] + [tracks[k]] + q[pos..];
          assert tracks[k..][1..] == tracks[k + 1..] && positions[k..][1..] == positions[k + 1..];
          k := k + 1;
        }
        queue := q;
      } else {
        queue := queue + tracks;
      }
      if originalQueue.Some? {
        originalQueue := Some(originalQueue.value + tracks);
      }
    }

    method AddToQueueNext(tracks: seq<Track>)
      modifies this
      ensures Now() == AfterAddToQueueNext(old(Now()), tracks)
    {
      var insertIndex := if queueIndex >= 0 then queueIndex + 1 else 0;
      var cut := Cut(insertIndex, |queue|);
      queue := queue[..cut] + tracks + queue[cut..];
      if originalQueue.Some? {
        originalQueue := Some(originalQueue.value + tracks);
      }
    }

    method DropFirst(q: seq<Track>, urn: string) returns (r: seq<Track>)
      ensures r == WithoutFirst(q, urn)
    {
      var oi := FindIndex(q, urn);
      r := if oi >= 0 then q[..oi] + q[oi + 1..] else q;
    }

    method RemoveFromQueue(index: int)
      modifies this
      ensures Now() == AfterRemoveFromQueue(old(Now()), index)
    {
      var removed := At(queue, index);
      if removed.Some? {
        queue := queue[..index] + queue[index + 1..];
      }
      if index < queueIndex {
        queueIndex := queueIndex - 1;
      } else if index == queueIndex {
        queueIndex := if |queue| - 1 < queueIndex then |queue| - 1 else queueIndex;
      }
      if originalQueue.Some? && removed.Some? {
        var oq := DropFirst(originalQueue.value, removed.value.urn);
        originalQueue := Some(oq);
      }
    }

    method MoveInQueue(from: int, to: int)
      requires Enabled(Now(), Action.MoveInQueue(from, to))
      modifies this
      ensures Now() == AfterMoveInQueue(old(Now()), from, to)
    {
      var moved := Spliced(queue, from, to);
      queue := moved;
      Follow(from, to);
    }

    /** The current index follows its row. */
    method Follow(from: int, to: int)
      modifies this`queueIndex
      ensures queueIndex == MovedIndex(old(queueIndex), from, to)
    {
      if queueIndex == from {
        queueIndex := to;
      } else if from < queueIndex && to >= queueIndex {
        queueIndex := queueIndex - 1;
      } else if from > queueIndex && to <= queueIndex {
        queueIndex := queueIndex + 1;
      }
    }

    /** The two splices of a move, on a copy. */
    method Spliced(q: seq<Track>, from: int, to: int) returns (r: seq<Track>)
      requires Cut(from, |q|) < |q|
      ensures r == Moved(q, Cut(from, |q|), Cut(to, |q| - 1))
    {
      var row := Cut(from, |q|);
      var item := q[row];
      r := q[..row] + q[row + 1..];
      var place := Cut(to, |r|);
      r := r[..place] + [item] + r[place..];
    }

    method ClearQueue()
      modifies this
      ensures Now() == Step(old(Now()), Action.ClearQueue)
    {
      queue, queueIndex, originalQueue := [], -1, None;
    }

    method ToggleShuffle(draws: seq<nat>)
      requires Enabled(Now(), Action.ToggleShuffle(draws))
      modifies this
      ensures Now() == AfterToggleShuffle(old(Now()), draws)
    {
      if !shuffle {
        var cut := Cut(queueIndex + 1, |queue|);
        var after := ShuffledCopy(queue[cut..], draws);
        shuffle, originalQueue := true, Some(queue);
        queue := queue[..cut] + after;
      } else {
        if originalQueue.Some? && currentTrack.Some? {
          var idx := FindIndex(originalQueue.value, currentTrack.value.urn);
          queue, queueIndex := originalQueue.value, if idx >= 0 then idx else 0;
        }
        shuffle, originalQueue := false, None;
      }
    }

    method ReplaceTrackMetadata(track: Track)
      modifies this
      ensures Now() == AfterReplaceTrackMetadata(old(Now()), track)
    {
      if currentTrack.Some? && currentTrack.value.urn == track.urn {
        currentTrack := Some(Merge(currentTrack.value, track));
      }
      queue := Merged(queue, track);
      if originalQueue.Some? {
        originalQueue := Some(Merged(originalQueue.value, track));
      }
    }
  }
}
