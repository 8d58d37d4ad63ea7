/**
 * The player store as a state machine on values: what each action makes of the
 * state, which states are coherent, and exactly which actions keep them so.
 */
module PlayerModel {
  import opened Lists
  import opened FisherYates

  datatype Track = Track(urn: string, fields: map<string, string>)

  datatype Repeat = Off | One | All

  datatype State = State(
    currentTrack: Option<Track>,
    queue: seq<Track>,
    originalQueue: Option<seq<Track>>,
    queueIndex: int,
    isPlaying: bool,
    shuffle: bool,
    repeat: Repeat)

  const INITIAL := State(None, [], None, -1, false, false, Off)

  /** Store actions; random draws are part of the action that makes them. */
  datatype Action =
    | Play(track: Track, tracks: seq<Track>, vibe: bool, draws: seq<nat>)
    | PlayAppended(track: Track)
    | PlayFromQueue(index: int)
    | Pause
    | Resume
    | TogglePlay
    | Next
    | Prev
    | SetQueue(tracks: seq<Track>, draws: seq<nat>)
    | AddToQueue(tracks: seq<Track>, positions: seq<nat>)
    | AddToQueueNext(tracks: seq<Track>)
    | RemoveFromQueue(index: int)
    | MoveInQueue(from: int, to: int)
    | ClearQueue
    | ToggleShuffle(draws: seq<nat>)
    | ToggleRepeat
    | SetCurrentTrackAccess(access: string)
    | ReplaceTrackMetadata(track: Track)

  // ---- Array operations as the language defines them

  /** Where slice and splice cut a sequence of length n when asked for position i. */
  function Cut(i: int, n: nat): (r: nat)
    ensures r <= n
    ensures 0 <= i <= n ==> r == i
  {
    if i < 0 then (if n + i < 0 then 0 else n + i) else if i < n then i else n
  }

  /** Element i, or nothing when there is none. */
  function At<T>(s: seq<T>, i: int): Option<T> {
    if 0 <= i < |s| then Some(s[i]) else None
  }

  /** findIndex by urn: the first match or -1. */
  function FindUrn(q: seq<Track>, urn: string): (i: int)
    ensures -1 <= i < |q|
    ensures i >= 0 ==> q[i].urn == urn && forall k :: 0 <= k < i ==> q[k].urn != urn
    ensures i < 0 ==> forall k :: 0 <= k < |q| ==> q[k].urn != urn
  {
    if q == [] then -1
    else if q[0].urn == urn then 0
    else
      var r := FindUrn(q[1..], urn);
      if r < 0 then -1 else r + 1
  }

  function Urns(q: seq<Track>): (r: seq<string>)
    ensures |r| == |q| && forall i :: 0 <= i < |q| ==> r[i] == q[i].urn
  {
    Mapped(q, (t: Track) => t.urn)
  }

  function UrnBag(q: seq<Track>): multiset<string> {
    multiset(Urns(q))
  }

  /** {...old, ...new}: the new fields win. */
  function Merge(old_: Track, new_: Track): Track {
    Track(new_.urn, old_.fields + new_.fields)
  }

  function Merged(q: seq<Track>, t: Track): seq<Track> {
    Mapped(q, (x: Track) => if x.urn == t.urn then Merge(x, t) else x)
  }

  // ---- The actions

  /** The tracks other than the chosen one that a shuffled start has to order. */
  function Others(q: seq<Track>, i: nat): (r: seq<Track>)
    requires i < |q| || i == 0
    ensures |r| == if q == [] then 0 else |q| - 1
  {
    if q == [] then [] else RemoveAt(q, i)
  }

  function StartIndex(track: Track, q: seq<Track>): (i: nat)
    ensures i < |q| || i == 0
  {
    var idx := FindUrn(q, track.urn);
    if idx >= 0 then idx else 0
  }

  function AfterPlay(s: State, track: Track, q: seq<Track>, vibe: bool, draws: seq<nat>): State
    requires s.shuffle && !vibe ==> ValidDraws(draws, if q == [] then 0 else |q| - 1)
  {
    var i := StartIndex(track, q);
    if s.shuffle && !vibe then
      s.(currentTrack := Some(track), queue := [track] + Shuffled(Others(q, i), draws), queueIndex := 0,
         isPlaying := true, originalQueue := Some(q))
    else
      s.(currentTrack := Some(track), queue := q, queueIndex := i, isPlaying := true, originalQueue := None)
  }

  function AfterPlayAppended(s: State, track: Track): State {
    s.(currentTrack := Some(track), queue := s.queue + [track], queueIndex := |s.queue|, isPlaying := true)
  }

  function AfterPlayFromQueue(s: State, i: int): State {
    if 0 <= i < |s.queue|
    then s.(currentTrack := Some(s.queue[i]), queueIndex := i, isPlaying := true)
    else s
  }

  function AfterNext(s: State): State {
    if s.queue == [] then s
    else if s.queueIndex + 1 < |s.queue| then
      s.(currentTrack := At(s.queue, s.queueIndex + 1), queueIndex := s.queueIndex + 1, isPlaying := true)
    else if s.repeat == All then
      s.(currentTrack := Some(s.queue[0]), queueIndex := 0, isPlaying := true)
    else s.(isPlaying := false)
  }

  function AfterPrev(s: State): State {
    var i := if s.queueIndex - 1 > 0 then s.queueIndex - 1 else 0;
    s.(currentTrack := At(s.queue, i), queueIndex := i, isPlaying := true)
  }

  function CurrentIn(s: State, q: seq<Track>): (i: int)
    ensures -1 <= i < |q|
  {
    if s.currentTrack.Some? then FindUrn(q, s.currentTrack.value.urn) else -1
  }

  function AfterSetQueue(s: State, q: seq<Track>, draws: seq<nat>): State
    requires s.shuffle && CurrentIn(s, q) >= 0 ==> ValidDraws(draws, |q| - 1)
  {
    var i := CurrentIn(s, q);
    if s.shuffle && i >= 0 then
      s.(queue := [q[i]] + Shuffled(RemoveAt(q, i), draws), queueIndex := 0, originalQueue := Some(q))
    else
      s.(queue := q, queueIndex := if i >= 0 then i else s.queueIndex,
         originalQueue := if s.shuffle then Some(q) else None)
  }

  /** Inserting each track in turn at its own position. */
  function Scattered(q: seq<Track>, ts: seq<Track>, ps: seq<nat>): seq<Track>
    requires |ps| == |ts|
    decreases |ts|
  {
    if ts == [] then q
    else Scattered(InsertAt(q, Cut(ps[0], |q|), ts[0]), ts[1..], ps[1..])
  }

  /** The positions a shuffled insert can draw: after the current track, up to the end. */
  predicate ValidPositions(ps: seq<nat>, index: int, n: nat) {
    forall k :: 0 <= k < |ps| ==>
      if index < n + k then index + 1 <= ps[k] <= n + k else n + k < ps[k] <= index + 1
  }

  function OriginalPlus(s: State, ts: seq<Track>): Option<seq<Track>> {
    if s.originalQueue.Some? then Some(s.originalQueue.value + ts) else None
  }

  function AfterAddToQueue(s: State, ts: seq<Track>, ps: seq<nat>): State
    requires s.shuffle && s.queueIndex >= 0 ==> |ps| == |ts|
  {
    s.(queue := if s.shuffle && s.queueIndex >= 0 then Scattered(s.queue, ts, ps) else s.queue + ts,
       originalQueue := OriginalPlus(s, ts))
  }

  function AfterAddToQueueNext(s: State, ts: seq<Track>): State {
    var i := Cut(if s.queueIndex >= 0 then s.queueIndex + 1 else 0, |s.queue|);
    s.(queue := s.queue[..i] + ts + s.queue[i..], originalQueue := OriginalPlus(s, ts))
  }

  /** Dropping the first track with the given urn, if any. */
  function WithoutFirst(q: seq<Track>, urn: string): seq<Track> {
    var i := FindUrn(q, urn);
    if i >= 0 then RemoveAt(q, i) else q
  }

  function AfterRemoveFromQueue(s: State, index: int): State {
    var queue := if 0 <= index < |s.queue| then RemoveAt(s.queue, index) else s.queue;
    s.(queue := queue,
       queueIndex :=
         if index < s.queueIndex then s.queueIndex - 1
         else if index == s.queueIndex && |queue| - 1 < s.queueIndex then |queue| - 1
         else s.queueIndex,
       originalQueue :=
         if s.originalQueue.Some? && 0 <= index < |s.queue|
         then Some(WithoutFirst(s.originalQueue.value, s.queue[index].urn))
         else s.originalQueue)
  }

  function Moved<T>(q: seq<T>, from: nat, to: nat): (r: seq<T>)
    requires from < |q| && to < |q|
    ensures |r| == |q|
  {
    InsertAt(RemoveAt(q, from), to, q[from])
  }

  /** The two splices of a move at any positions; taking a row where there is none inserts a hole. */
  function RawMoved(q: seq<Track>, from: int, to: int): seq<Option<Track>> {
    var row := Cut(from, |q|);
    var rest := if row < |q| then RemoveAt(q, row) else q;
    InsertAt(Mapped(rest, (t: Track) => Some(t)), Cut(to, |rest|), At(q, row))
  }

  /** There is a row to take at `from`; otherwise the splice would put a hole into the queue. */
  predicate TakesRow(s: State, from: int) {
    Cut(from, |s.queue|) < |s.queue|
  }

  /** The index after a move, worked out from the positions as they were given. */
  function MovedIndex(index: int, from: int, to: int): int {
    if index == from then to
    else if from < index && to >= index then index - 1
    else if from > index && to <= index then index + 1
    else index
  }

  function AfterMoveInQueue(s: State, from: int, to: int): State
    requires TakesRow(s, from)
  {
    s.(queue := Moved(s.queue, Cut(from, |s.queue|), Cut(to, |s.queue| - 1)),
       queueIndex := MovedIndex(s.queueIndex, from, to))
  }

  /** Where the played part of the queue ends, for a shuffle of the rest. */
  function PlayedEnd(s: State): (k: nat)
    ensures k <= |s.queue|
  {
    Cut(s.queueIndex + 1, |s.queue|)
  }

  function AfterToggleShuffle(s: State, draws: seq<nat>): State
    requires !s.shuffle ==> ValidDraws(draws, |s.queue| - PlayedEnd(s))
  {
    if !s.shuffle then
      var k := PlayedEnd(s);
      s.(shuffle := true, originalQueue := Some(s.queue), queue := s.queue[..k] + Shuffled(s.queue[k..], draws))
    else if s.originalQueue.Some? && s.currentTrack.Some? then
      s.(shuffle := false, queue := s.originalQueue.value,
         queueIndex := StartIndex(s.currentTrack.value, s.originalQueue.value), originalQueue := None)
    else
      s.(shuffle := false, originalQueue := None)
  }

  function AfterReplaceTrackMetadata(s: State, t: Track): State {
    s.(currentTrack :=
         if s.currentTrack.Some? && s.currentTrack.value.urn == t.urn
         then Some(Merge(s.currentTrack.value, t)) else s.currentTrack,
       queue := Merged(s.queue, t),
       originalQueue := if s.originalQueue.Some? then Some(Merged(s.originalQueue.value, t)) else None)
  }

  function AfterSetCurrentTrackAccess(s: State, access: string): State {
    if s.currentTrack.Some?
    then s.(currentTrack := Some(s.currentTrack.value.(fields := s.currentTrack.value.fields["access" := access])))
    else s
  }

  /** The action's draws are ones it can make in s, and a move finds a row to take. */
  predicate Enabled(s: State, a: Action) {
    match a
    case Play(_, q, vibe, draws) => s.shuffle && !vibe ==> ValidDraws(draws, if q == [] then 0 else |q| - 1)
    case SetQueue(q, draws) => s.shuffle && CurrentIn(s, q) >= 0 ==> ValidDraws(draws, |q| - 1)
    case AddToQueue(ts, ps) =>
      s.shuffle && s.queueIndex >= 0 ==> |ps| == |ts| && ValidPositions(ps, s.queueIndex, |s.queue|)
    case MoveInQueue(from, _) => TakesRow(s, from)
    case ToggleShuffle(draws) => !s.shuffle ==> ValidDraws(draws, |s.queue| - PlayedEnd(s))
    case _ => true
  }

  function Step(s: State, a: Action): State
    requires Enabled(s, a)
  {
    match a
    case Play(t, q, vibe, draws) => AfterPlay(s, t, q, vibe, draws)
    case PlayAppended(t) => AfterPlayAppended(s, t)
    case PlayFromQueue(i) => AfterPlayFromQueue(s, i)
    case Pause => s.(isPlaying := false)
    case Resume => s.(isPlaying := true)
    case TogglePlay => if s.currentTrack.Some? then s.(isPlaying := !s.isPlaying) else s
    case Next => AfterNext(s)
    case Prev => AfterPrev(s)
    case SetQueue(q, draws) => AfterSetQueue(s, q, draws)
    case AddToQueue(ts, ps) => AfterAddToQueue(s, ts, ps)
    case AddToQueueNext(ts) => AfterAddToQueueNext(s, ts)
    case RemoveFromQueue(i) => AfterRemoveFromQueue(s, i)
    case MoveInQueue(from, to) => AfterMoveInQueue(s, from, to)
    case ClearQueue => s.(queue := [], queueIndex := -1, originalQueue := None)
    case ToggleShuffle(draws) => AfterToggleShuffle(s, draws)
    case ToggleRepeat => s.(repeat := match s.repeat case Off => All case All => One case One => Off)
    case SetCurrentTrackAccess(access) => AfterSetCurrentTrackAccess(s, access)
    case ReplaceTrackMetadata(t) => AfterReplaceTrackMetadata(s, t)
  }

  // ---- Coherence

  /** Nothing selected and index -1, or the index points at a track with the current urn. */
  predicate Selected(s: State) {
    if s.currentTrack.None? then s.queueIndex == -1
    else 0 <= s.queueIndex < |s.queue| && s.queue[s.queueIndex].urn == s.currentTrack.value.urn
  }

  /** The kept original order lists the same urns, as often, as the queue in play. */
  predicate SameTracks(s: State) {
    s.originalQueue.Some? ==> UrnBag(s.originalQueue.value) == UrnBag(s.queue)
  }

  predicate Coherent(s: State) {
    Selected(s) && SameTracks(s)
  }

  /** What a caller can check beforehand: the actions that leave a coherent player coherent. */
  predicate Safe(s: State, a: Action)
    requires Enabled(s, a)
  {
    match a
    case Play(t, q, _, _) => FindUrn(q, t.urn) >= 0
    case PlayAppended(_) => s.originalQueue.None?
    case Prev => s.queue != []
    case SetQueue(q, _) => s.currentTrack.None? || CurrentIn(s, q) >= 0
    case RemoveFromQueue(i) => SafeRemoval(s, i)
    case MoveInQueue(from, to) => SafeMove(s, from, to)
    case ClearQueue => s.currentTrack.None?
    case _ => true
  }

  /** Which row stands at position p once the row at `from` has been put at `to`. */
  function RowBefore(from: nat, to: nat, p: int): int {
    if p == to then from
    else
      var q := if p < to then p else p - 1;
      if q < from then q else q + 1
  }

  /**
   * Moving between rows of the queue is safe. Positions outside them are clipped or counted
   * from the end for the row but not for the index, so the move is safe only when the row
   * that comes to stand at the index has the current urn, or the index stays at -1.
   */
  predicate SafeMove(s: State, from: int, to: int)
    requires TakesRow(s, from)
  {
    var n := |s.queue|;
    var index := MovedIndex(s.queueIndex, from, to);
    (0 <= from < n && 0 <= to < n) ||
    (if s.currentTrack.None? then index == -1
     else
       var row := RowBefore(Cut(from, n), Cut(to, n - 1), index);
       0 <= index < n && 0 <= row < n && s.queue[row].urn == s.currentTrack.value.urn)
  }

  /**
   * Removing another row is safe. Removing the current row is safe only when a row
   * with the same urn slides into its place, and a negative index (which removes
   * nothing but still moves the index back) only when the row before has that urn.
   */
  predicate SafeRemoval(s: State, i: int) {
    if i == s.queueIndex then
      i == -1 ||
      (0 <= i < |s.queue| && |s.queue| >= 2 &&
       s.queue[if i + 1 < |s.queue| then i + 1 else i - 1].urn == s.queue[i].urn)
    else if i < 0 && i < s.queueIndex then
      1 <= s.queueIndex < |s.queue| && s.queue[s.queueIndex - 1].urn == s.queue[s.queueIndex].urn
    else true
  }
}
