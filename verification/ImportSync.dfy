/**
 * The single-flight playlist sync of one import run: requests coalesce while a sync is
 * in flight, matches keep arriving, and unchanged chunks are skipped. Calls to the
 * service succeed and titles are unique.
 */
module ImportSync {
  import opened Lists
  import opened Arithmetic
  import opened Playlists

  /** A sync under way: looking up existing playlists, or part-way through its chunks. */
  datatype Flight =
    | Listing(finalize: bool, deleteStale: bool)
    | Uploading(finalize: bool, deleteStale: bool, snapshot: seq<string>, at: nat, known: set<string>)

  /** A request for a sync and how many matches there were when it was made. */
  datatype Ask = Ask(finalize: bool, deleteStale: bool, length: nat)

  /** A completed sync: its flags, the matches it was started on, and whether stale playlists were removed. */
  datatype Done = Done(finalize: bool, deleteStale: bool, snapshot: seq<string>, purged: bool)

  datatype State = State(
    matched: seq<string>,
    cached: Option<set<string>>,
    syncedKeys: seq<string>,
    flight: Option<Flight>,
    syncQueued: bool,
    queuedFinalize: bool,
    queuedDeleteStale: bool,
    remote: map<string, seq<string>>,
    asks: seq<Ask>,
    done: seq<Done>)

  datatype Event =
    | Match(urn: string)
    | Request(finalize: bool, deleteStale: bool)
    | List
    | Upload
    | Finish

  function Begin(remote: map<string, seq<string>>): State {
    State([], None, [], None, false, false, false, remote, [], [])
  }

  function Reverse<T>(s: seq<T>): (r: seq<T>)
    ensures |r| == |s| && forall i :: 0 <= i < |s| ==> r[i] == s[|s| - 1 - i]
  {
    seq(|s|, i requires 0 <= i < |s| => s[|s| - 1 - i])
  }

  /** The playlists a full upload of these matches would make: newest first, 500 at a time. */
  function Target(matched: seq<string>): seq<seq<string>> {
    Chunks(Reverse(matched), PLAYLIST_TRACK_LIMIT)
  }

  function Keys(chunks: seq<seq<string>>): (r: seq<string>)
    ensures |r| == |chunks| && forall i :: 0 <= i < |chunks| ==> r[i] == Join(chunks[i])
  {
    seq(|chunks|, i requires 0 <= i < |chunks| => Join(chunks[i]))
  }

  function Ours(remote: map<string, seq<string>>): set<string> {
    set t | t in remote && GetPlaylistChunkIndex(t).Some?
  }

  /** Titles of ours whose chunk no longer exists. */
  function Stale(titles: set<string>, count: nat): set<string> {
    set t | t in titles && GetPlaylistChunkIndex(t).Some? && GetPlaylistChunkIndex(t).value >= count
  }

  function TakeOff(s: State, finalize: bool, deleteStale: bool): State {
    s.(flight := Some(
         if s.cached.None? then Listing(finalize, deleteStale)
         else Uploading(finalize, deleteStale, s.matched, 0, s.cached.value)))
  }

  predicate IsUploading(s: State) {
    s.flight.Some? && s.flight.value.Uploading?
  }

  predicate Possible(s: State, e: Event) {
    match e
    case Match(urn) => NUL !in urn
    case Request(_, _) => true
    case List => s.flight.Some? && s.flight.value.Listing?
    case Upload => IsUploading(s) && s.flight.value.at < |Target(s.flight.value.snapshot)|
    case Finish => IsUploading(s) && s.flight.value.at >= |Target(s.flight.value.snapshot)|
  }

  function AfterRequest(s: State, finalize: bool, deleteStale: bool): State {
    var t := s.(asks := s.asks + [Ask(finalize, deleteStale, |s.matched|)]);
    if s.flight.Some? then
      t.(syncQueued := true, queuedFinalize := s.queuedFinalize || finalize,
         queuedDeleteStale := s.queuedDeleteStale || deleteStale)
    else TakeOff(t, finalize, deleteStale)
  }

  /** A chunk is skipped when nothing forces it and its key is the one last synced at its place. */
  predicate Skips(s: State)
    requires Possible(s, Upload)
  {
    var f := s.flight.value;
    !f.finalize && f.at < |s.syncedKeys| && Join(Target(f.snapshot)[f.at]) == s.syncedKeys[f.at]
  }

  function AfterUpload(s: State): State
    requires Possible(s, Upload)
  {
    var f := s.flight.value;
    if Skips(s) then s.(flight := Some(f.(at := f.at + 1)))
    else
      var title := GetPlaylistName(f.at);
      s.(remote := s.remote[title := Target(f.snapshot)[f.at]],
         flight := Some(f.(at := f.at + 1, known := f.known + {title})))
  }

  function AfterFinish(s: State): State
    requires Possible(s, Finish)
  {
    var f := s.flight.value;
    var chunks := Target(f.snapshot);
    var purge := f.deleteStale && s.matched != [];
    var stale := if purge then Stale(f.known, |chunks|) else {};
    var t := s.(
      cached := Some(f.known - stale), remote := s.remote - stale, syncedKeys := Keys(chunks), flight := None,
      done := s.done + [Done(f.finalize, f.deleteStale, f.snapshot, purge)]);
    if s.syncQueued then
      TakeOff(t.(syncQueued := false, queuedFinalize := false, queuedDeleteStale := false),
              s.queuedFinalize, s.queuedDeleteStale)
    else t
  }

  function Happen(s: State, e: Event): State
    requires Possible(s, e)
  {
    match e
    case Match(urn) => s.(matched := s.matched + [urn])
    case Request(finalize, deleteStale) => AfterRequest(s, finalize, deleteStale)
    case List =>
      var f, ours := s.flight.value, Ours(s.remote);
      s.(cached := Some(ours), flight := Some(Uploading(f.finalize, f.deleteStale, s.matched, 0, ours)))
    case Upload => AfterUpload(s)
    case Finish => AfterFinish(s)
  }

  // ---- Requests are not lost

  predicate Covers(d: Done, a: Ask) {
    (a.finalize ==> d.finalize) && (a.deleteStale ==> d.deleteStale) && a.length <= |d.snapshot|
  }

  predicate Queued(s: State, a: Ask) {
    s.syncQueued && (a.finalize ==> s.queuedFinalize) && (a.deleteStale ==> s.queuedDeleteStale)
  }

  predicate Flying(s: State, a: Ask) {
    && s.flight.Some? && (a.finalize ==> s.flight.value.finalize) && (a.deleteStale ==> s.flight.value.deleteStale)
    && (s.flight.value.Uploading? ==> a.length <= |s.flight.value.snapshot|)
  }

  /** A request has been served by a sync begun at or after it, is being served, or is queued with all its flags. */
  ghost predicate Served(s: State, a: Ask) {
    || (exists k :: 0 <= k < |s.done| && Covers(s.done[k], a))
    || Queued(s, a)
    || Flying(s, a)
  }

  ghost predicate NoneLost(s: State) {
    && (forall k :: 0 <= k < |s.asks| ==> s.asks[k].length <= |s.matched| && Served(s, s.asks[k]))
    && (s.syncQueued ==> s.flight.Some?)
  }

  lemma RequestServed(s: State, finalize: bool, deleteStale: bool, k: nat)
    requires NoneLost(s) && k < |AfterRequest(s, finalize, deleteStale).asks|
    ensures Served(AfterRequest(s, finalize, deleteStale), AfterRequest(s, finalize, deleteStale).asks[k])
  {
    var t := AfterRequest(s, finalize, deleteStale);
    var a := t.asks[k];
    if k < |s.asks| {
      assert a == s.asks[k] && Served(s, a);
      if !Queued(s, a) && !Flying(s, a) {
        var i :| 0 <= i < |s.done| && Covers(s.done[i], a);
        assert Covers(t.done[i], a);
      }
    }
  }

  lemma FinishServed(s: State, k: nat)
    requires NoneLost(s) && Possible(s, Finish) && k < |s.asks|
    ensures Served(AfterFinish(s), s.asks[k])
  {
    var t, a := AfterFinish(s), s.asks[k];
    assert t.done[..|s.done|] == s.done;
    if Flying(s, a) {
      assert Covers(t.done[|s.done|], a);
    } else if !Queued(s, a) {
      var i :| 0 <= i < |s.done| && Covers(s.done[i], a);
      assert Covers(t.done[i], a);
    }
  }

  lemma OtherServed(s: State, e: Event, k: nat)
    requires NoneLost(s) && Possible(s, e) && !e.Request? && !e.Finish? && k < |s.asks|
    ensures Served(Happen(s, e), s.asks[k])
  {
    var t, a := Happen(s, e), s.asks[k];
    if exists i :: 0 <= i < |s.done| && Covers(s.done[i], a) {
      var i :| 0 <= i < |s.done| && Covers(s.done[i], a);
      assert Covers(t.done[i], a);
    }
  }

  lemma StepLosesNone(s: State, e: Event)
    requires NoneLost(s) && Possible(s, e)
    ensures NoneLost(Happen(s, e))
  {
    var t := Happen(s, e);
    forall k | 0 <= k < |t.asks|
      ensures t.asks[k].length <= |t.matched| && Served(t, t.asks[k])
    {
      match e
      case Request(finalize, deleteStale) => RequestServed(s, finalize, deleteStale, k);
      case Finish => FinishServed(s, k);
      case _ => OtherServed(s, e, k);
    }
  }

  // ---- What the service holds

  /** The matches of the last completed sync. */
  function Last(s: State): seq<string> {
    if s.done == [] then [] else s.done[|s.done| - 1].snapshot
  }

  predicate Holds(s: State, i: nat, chunk: seq<string>) {
    GetPlaylistName(i) in s.remote && s.remote[GetPlaylistName(i)] == chunk
  }

  /** The chunks below this index have been brought up to the flight's snapshot. */
  function Reached(s: State): nat {
    if IsUploading(s) then s.flight.value.at else 0
  }

  ghost predicate Contents(s: State) {
    && (forall u :: u in s.matched ==> NUL !in u)
    && Last(s) <= s.matched
    && s.syncedKeys == Keys(Target(Last(s)))
    && (forall i :: Reached(s) <= i < |Target(Last(s))| ==> Holds(s, i, Target(Last(s))[i]))
    && (IsUploading(s) ==>
          var f := s.flight.value;
          && Last(s) <= f.snapshot <= s.matched
          && f.at <= |Target(f.snapshot)|
          && forall i :: 0 <= i < f.at ==> Holds(s, i, Target(f.snapshot)[i]))
  }

  lemma {:induction false} ChunkMembers(items: seq<string>, size: nat, i: nat)
    requires size > 0 && i < |Chunks(items, size)|
    ensures Chunks(items, size)[i] != []
    ensures forall u :: u in Chunks(items, size)[i] ==> u in items
    decreases |items|
  {
    if |items| > size && i > 0 {
      ChunkMembers(items[size..], size, i - 1);
    }
  }

  lemma TargetIsClean(matched: seq<string>, i: nat)
    requires (forall u :: u in matched ==> NUL !in u) && i < |Target(matched)|
    ensures Clean(Target(matched)[i])
  {
    ChunkMembers(Reverse(matched), PLAYLIST_TRACK_LIMIT, i);
    forall u | u in Reverse(matched)
      ensures u in matched
    {
    }
  }

  /** More matches never make fewer chunks. */
  lemma TargetGrows(a: seq<string>, b: seq<string>)
    requires |a| <= |b|
    ensures |Target(a)| <= |Target(b)|
  {
    ChunkSizes(Reverse(a), PLAYLIST_TRACK_LIMIT);
    ChunkSizes(Reverse(b), PLAYLIST_TRACK_LIMIT);
  }

  /** A skipped chunk is already there: equal keys are equal chunks. */
  lemma SkippedIsHeld(s: State)
    requires Contents(s) && Possible(s, Upload) && Skips(s)
    ensures Holds(s, s.flight.value.at, Target(s.flight.value.snapshot)[s.flight.value.at])
  {
    var f := s.flight.value;
    assert forall u :: u in f.snapshot ==> u in s.matched;
    assert forall u :: u in Last(s) ==> u in s.matched;
    TargetIsClean(f.snapshot, f.at);
    TargetIsClean(Last(s), f.at);
    JoinInjective(Target(f.snapshot)[f.at], Target(Last(s))[f.at]);
  }

  lemma WriteKeepsOthers(s: State, i: nat, chunk: seq<string>)
    requires Possible(s, Upload) && !Skips(s) && i != s.flight.value.at && Holds(s, i, chunk)
    ensures Holds(AfterUpload(s), i, chunk)
  {
    if GetPlaylistName(i) == GetPlaylistName(s.flight.value.at) {
      NamesDistinct(i, s.flight.value.at);
    }
  }

  lemma SkipContents(s: State)
    requires Contents(s) && Possible(s, Upload) && Skips(s)
    ensures Contents(AfterUpload(s))
  {
    SkippedIsHeld(s);
    assert Last(AfterUpload(s)) == Last(s);
  }

  lemma WriteContents(s: State)
    requires Contents(s) && Possible(s, Upload) && !Skips(s)
    ensures Contents(AfterUpload(s))
  {
    var t, f := AfterUpload(s), s.flight.value;
    var before, now := Target(Last(s)), Target(f.snapshot);
    assert Last(t) == Last(s);
    forall i | f.at + 1 <= i < |before|
      ensures Holds(t, i, before[i])
    {
      WriteKeepsOthers(s, i, before[i]);
    }
    forall i | 0 <= i < f.at + 1
      ensures Holds(t, i, now[i])
    {
      if i < f.at { WriteKeepsOthers(s, i, now[i]); }
    }
  }

  lemma FinishContents(s: State)
    requires Contents(s) && Possible(s, Finish)
    ensures Contents(AfterFinish(s))
    ensures forall i :: 0 <= i < |Target(s.flight.value.snapshot)| ==>
      Holds(AfterFinish(s), i, Target(s.flight.value.snapshot)[i])
  {
    var t, f := AfterFinish(s), s.flight.value;
    var chunks := Target(f.snapshot);
    assert Last(t) == f.snapshot;
    forall i | 0 <= i < |chunks|
      ensures Holds(t, i, chunks[i])
    {
      NameRoundTrips(i);
      assert Holds(s, i, chunks[i]);
      assert GetPlaylistName(i) !in Stale(f.known, |chunks|);
    }
  }

  lemma QuietContents(s: State, e: Event)
    requires Contents(s) && Possible(s, e) && (e.Match? || e.Request?)
    ensures Contents(Happen(s, e))
  {
    var t := Happen(s, e);
    assert Last(t) == Last(s);
    if e.Match? {
      assert s.matched <= t.matched;
    }
  }

  lemma ListContents(s: State)
    requires Contents(s) && Possible(s, List)
    ensures Contents(Happen(s, List))
  {
    assert Last(Happen(s, List)) == Last(s);
  }

  lemma StepContents(s: State, e: Event)
    requires Contents(s) && Possible(s, e)
    ensures Contents(Happen(s, e))
  {
    match e
    case Upload => if Skips(s) { SkipContents(s); } else { WriteContents(s); }
    case Finish => FinishContents(s);
    case List => ListContents(s);
    case _ => QuietContents(s, e);
  }

  // ---- Titles and stale playlists

  ghost predicate Titles(s: State) {
    && (IsUploading(s) ==> s.flight.value.known == Ours(s.remote) && s.cached.Some?)
    && (!IsUploading(s) && s.cached.Some? ==> s.cached.value == Ours(s.remote))
    && (s.flight.Some? && s.flight.value.Listing? ==> s.cached.None?)
  }

  lemma UploadTitles(s: State)
    requires Titles(s) && Possible(s, Upload)
    ensures Titles(AfterUpload(s))
  {
    var title := GetPlaylistName(s.flight.value.at);
    NameRoundTrips(s.flight.value.at);
    if !Skips(s) {
      assert Ours(AfterUpload(s).remote) == Ours(s.remote) + {title};
    }
  }

  lemma FinishTitles(s: State)
    requires Titles(s) && Possible(s, Finish)
    ensures Titles(AfterFinish(s))
  {
    var f := s.flight.value;
    var stale := if f.deleteStale && s.matched != [] then Stale(f.known, |Target(f.snapshot)|) else {};
    assert Ours(s.remote - stale) == Ours(s.remote) - stale;
  }

  lemma StepTitles(s: State, e: Event)
    requires Titles(s) && Possible(s, e)
    ensures Titles(Happen(s, e))
  {
    match e
    case Upload => UploadTitles(s);
    case Finish => FinishTitles(s);
    case _ =>
  }

  /** Once stale playlists have been removed, the numbering of ours has no excess. */
  ghost predicate Purged(s: State) {
    && (forall k :: 0 <= k < |s.done| ==> s.done[k].deleteStale && s.done[k].snapshot != [] ==> s.done[k].purged)
    && ((exists k :: 0 <= k < |s.done| && s.done[k].purged) ==>
          forall t :: t in Ours(s.remote) ==> GetPlaylistChunkIndex(t).value < Extent(s))
  }

  function Extent(s: State): nat {
    if Reached(s) > |s.syncedKeys| then Reached(s) else |s.syncedKeys|
  }

  lemma UploadPurged(s: State)
    requires Contents(s) && Purged(s) && Possible(s, Upload)
    ensures Purged(AfterUpload(s))
  {
    var t, at := AfterUpload(s), s.flight.value.at;
    NameRoundTrips(at);
    assert t.done == s.done && t.syncedKeys == s.syncedKeys && Extent(s) <= Extent(t) && at < Extent(t);
    if exists k :: 0 <= k < |t.done| && t.done[k].purged {
      forall x | x in Ours(t.remote)
        ensures GetPlaylistChunkIndex(x).value < Extent(t)
      {
        assert x in Ours(s.remote) || x == GetPlaylistName(at);
      }
    }
  }

  lemma FinishPurged(s: State)
    requires Contents(s) && Titles(s) && Purged(s) && Possible(s, Finish)
    ensures Purged(AfterFinish(s))
  {
    var t, f := AfterFinish(s), s.flight.value;
    TargetGrows(Last(s), f.snapshot);
    assert |t.syncedKeys| == |Target(f.snapshot)| && Extent(s) == |Target(f.snapshot)|;
    assert forall k :: 0 <= k < |s.done| ==> t.done[k] == s.done[k];
    if exists k :: 0 <= k < |t.done| && t.done[k].purged {
      forall x | x in Ours(t.remote)
        ensures GetPlaylistChunkIndex(x).value < Extent(t)
      {
        assert x in Ours(s.remote);
        if !(f.deleteStale && s.matched != []) {
          assert !t.done[|s.done|].purged;
          assert exists k :: 0 <= k < |s.done| && s.done[k].purged;
        }
      }
    }
    if f.snapshot != [] { PrefixEmpty(f.snapshot, s.matched); }
  }

  lemma PrefixEmpty(a: seq<string>, b: seq<string>)
    requires a <= b && a != []
    ensures b != []
  {
  }

  lemma QuietPurged(s: State, e: Event)
    requires Contents(s) && Purged(s) && Possible(s, e) && !e.Upload? && !e.Finish?
    ensures Purged(Happen(s, e))
  {
    var t := Happen(s, e);
    assert t.done == s.done && t.remote == s.remote && t.syncedKeys == s.syncedKeys;
  }

  // ---- Runs

  ghost predicate Inv(s: State) {
    NoneLost(s) && Contents(s) && Titles(s) && Purged(s)
  }

  lemma BeginInv(remote: map<string, seq<string>>)
    ensures Inv(Begin(remote))
  {
    assert Target([]) == [];
  }

  lemma StepInv(s: State, e: Event)
    requires Inv(s) && Possible(s, e)
    ensures Inv(Happen(s, e))
  {
    StepLosesNone(s, e);
    StepContents(s, e);
    StepTitles(s, e);
    match e
    case Upload => UploadPurged(s);
    case Finish => FinishPurged(s);
    case _ => QuietPurged(s, e);
  }

  ghost predicate IsRun(states: seq<State>, events: seq<Event>) {
    && |states| == |events| + 1 && states[0] == Begin(states[0].remote)
    && forall k :: 0 <= k < |events| ==> Possible(states[k], events[k]) && states[k + 1] == Happen(states[k], events[k])
  }

  lemma {:induction false} RunInv(states: seq<State>, events: seq<Event>, k: nat)
    requires IsRun(states, events) && k < |states|
    ensures Inv(states[k])
  {
    if k > 0 {
      RunInv(states, events, k - 1);
      StepInv(states[k - 1], events[k - 1]);
    } else {
      BeginInv(states[0].remote);
    }
  }

  /**
   * Whenever a sync completes, each chunk playlist holds the chunk of the reversed matches
   * as of the sync's start, the skipped ones included.
   */
  lemma SyncIsExact(states: seq<State>, events: seq<Event>, k: nat, i: nat)
    requires IsRun(states, events) && k < |events| && events[k] == Finish
    requires i < |Target(states[k].flight.value.snapshot)|
    ensures Holds(states[k + 1], i, Target(states[k].flight.value.snapshot)[i])
  {
    RunInv(states, events, k);
    FinishContents(states[k]);
  }

  /** At rest every request ever made has been met by a sync with its flags, begun no earlier. */
  lemma RestMeansServed(states: seq<State>, events: seq<Event>, k: nat, r: nat) returns (d: nat)
    requires IsRun(states, events) && k < |states| && states[k].flight.None? && r < |states[k].asks|
    ensures d < |states[k].done| && Covers(states[k].done[d], states[k].asks[r])
  {
    RunInv(states, events, k);
    assert Served(states[k], states[k].asks[r]);
    d :| 0 <= d < |states[k].done| && Covers(states[k].done[d], states[k].asks[r]);
  }

  /** Later syncs are begun on no fewer matches. */
  ghost predicate Ordered(s: State) {
    && (forall i, j :: 0 <= i < j < |s.done| ==> s.done[i].snapshot <= s.done[j].snapshot)
    && (forall i :: 0 <= i < |s.done| ==> s.done[i].snapshot <= s.matched)
    && (IsUploading(s) ==> s.flight.value.snapshot <= s.matched)
    && (IsUploading(s) ==> forall i :: 0 <= i < |s.done| ==> s.done[i].snapshot <= s.flight.value.snapshot)
  }

  lemma MatchOrdered(s: State, urn: string)
    requires Ordered(s)
    ensures Ordered(s.(matched := s.matched + [urn]))
  {
    assert s.matched <= s.matched + [urn];
  }

  /** Nothing but the flight is new, and a new flight starts on all matches. */
  lemma FlightOrdered(s: State, t: State)
    requires Ordered(s) && t.done == s.done && t.matched == s.matched
    requires IsUploading(t) ==>
               t.flight.value.snapshot == s.matched
               || (IsUploading(s) && t.flight.value.snapshot == s.flight.value.snapshot)
    ensures Ordered(t)
  {
  }

  lemma FinishOrdered(s: State)
    requires Ordered(s) && Possible(s, Finish)
    ensures Ordered(AfterFinish(s))
  {
    var t, snapshot := AfterFinish(s), s.flight.value.snapshot;
    assert t.done[..|s.done|] == s.done && t.done[|s.done|].snapshot == snapshot;
    forall i | 0 <= i < |t.done|
      ensures t.done[i].snapshot <= snapshot <= s.matched
    {
    }
  }

  lemma StepOrdered(s: State, e: Event)
    requires Ordered(s) && Possible(s, e)
    ensures Ordered(Happen(s, e))
  {
    match e
    case Match(urn) => MatchOrdered(s, urn);
    case Finish => FinishOrdered(s);
    case _ => FlightOrdered(s, Happen(s, e));
  }

  lemma {:induction false} RunOrdered(states: seq<State>, events: seq<Event>, k: nat)
    requires IsRun(states, events) && k < |states|
    ensures Ordered(states[k])
  {
    if k > 0 {
      RunOrdered(states, events, k - 1);
      StepOrdered(states[k - 1], events[k - 1]);
    }
  }

  /**
   * At rest, if a request was made after the last match, the service holds exactly a full
   * upload of all matches; and if that request was to delete stale playlists (and there
   * are matches), no playlist of ours is numbered beyond it.
   */
  lemma RestMeansFullUpload(states: seq<State>, events: seq<Event>, k: nat, r: nat)
    requires IsRun(states, events) && k < |states| && states[k].flight.None?
    requires r < |states[k].asks| && states[k].asks[r].length == |states[k].matched|
    ensures forall i :: 0 <= i < |Target(states[k].matched)| ==> Holds(states[k], i, Target(states[k].matched)[i])
    ensures states[k].asks[r].deleteStale && states[k].matched != [] ==>
      forall t :: t in Ours(states[k].remote) ==> GetPlaylistChunkIndex(t).value < |Target(states[k].matched)|
  {
    var s := states[k];
    var d := RestMeansServed(states, events, k, r);
    RunInv(states, events, k);
    RunOrdered(states, events, k);
    SamePrefix(s.done[d].snapshot, s.matched);
    if d < |s.done| - 1 {
      assert s.done[d].snapshot <= s.done[|s.done| - 1].snapshot;
    }
    SamePrefix(Last(s), s.matched);
    assert Last(s) == s.matched;
    if s.asks[r].deleteStale && s.matched != [] {
      assert s.done[d].purged;
      assert Extent(s) == |Target(s.matched)|;
    }
  }

  lemma SamePrefix(a: seq<string>, b: seq<string>)
    requires a <= b && |a| >= |b|
    ensures a == b
  {
  }

  /** Playlists whose titles are not of the import's form are never touched. */
  lemma ForeignUntouched(s: State, e: Event, title: string)
    requires Titles(s) && Possible(s, e) && GetPlaylistChunkIndex(title).None?
    ensures (title in Happen(s, e).remote <==> title in s.remote)
    ensures title in s.remote ==> Happen(s, e).remote[title] == s.remote[title]
  {
    if e.Upload? {
      NameRoundTrips(s.flight.value.at);
    }
  }

  /** A playlist disappears only at the end of a sync asked to delete stale ones, and only if its chunk is gone. */
  lemma DeletedOnlyWhenStale(s: State, e: Event, title: string)
    requires Titles(s) && Possible(s, e) && title in s.remote && title !in Happen(s, e).remote
    ensures e.Finish? && s.flight.value.deleteStale && s.matched != []
    ensures GetPlaylistChunkIndex(title).Some?
    ensures GetPlaylistChunkIndex(title).value >= |Target(s.flight.value.snapshot)|
  {
  }

  // ---- What finalize is for

  /** The rest of a sync's upload steps. */
  function UploadRest(s: State): State
    requires IsUploading(s) && s.flight.value.at <= |Target(s.flight.value.snapshot)|
    decreases |Target(s.flight.value.snapshot)| - s.flight.value.at
  {
    if s.flight.value.at == |Target(s.flight.value.snapshot)| then s else UploadRest(AfterUpload(s))
  }

  /** A finalizing sync writes every chunk, whatever earlier syncs left behind or believed. */
  lemma {:induction false} FinalizeRewritesAll(s: State, i: nat)
    requires IsUploading(s) && s.flight.value.finalize && s.flight.value.at <= |Target(s.flight.value.snapshot)|
    requires i < |Target(s.flight.value.snapshot)|
    requires i < s.flight.value.at ==> Holds(s, i, Target(s.flight.value.snapshot)[i])
    ensures Holds(UploadRest(s), i, Target(s.flight.value.snapshot)[i])
    decreases |Target(s.flight.value.snapshot)| - s.flight.value.at
  {
    if s.flight.value.at < |Target(s.flight.value.snapshot)| {
      if i < s.flight.value.at {
        WriteKeepsOthers(s, i, Target(s.flight.value.snapshot)[i]);
      }
      FinalizeRewritesAll(AfterUpload(s), i);
    }
  }

  // ---- When a request's call returns

  /**
   * The call made by event c returns at point n: at once when a sync is in flight, else
   * when its own sync, and those queued behind it, have left nothing in flight.
   */
  ghost predicate ReturnsAt(states: seq<State>, events: seq<Event>, c: nat, n: nat) {
    && c < |events| < |states| && events[c].Request? && c < n < |states|
    && if states[c].flight.Some? then n == c + 1
       else states[n].flight.None? && forall i :: c < i < n ==> states[i].flight.Some?
  }

  /** A sync with the request's flags, begun no earlier, has completed since there were `base` completed ones. */
  ghost predicate CompletedSince(s: State, base: nat, a: Ask) {
    exists k :: base <= k < |s.done| && Covers(s.done[k], a)
  }

  lemma StillServing(s: State, e: Event, base: nat, a: Ask)
    requires Possible(s, e) && base <= |s.done| && a.length <= |s.matched|
    requires Flying(s, a) || CompletedSince(s, base, a)
    ensures base <= |Happen(s, e).done| && a.length <= |Happen(s, e).matched|
    ensures Flying(Happen(s, e), a) || CompletedSince(Happen(s, e), base, a)
  {
    var t := Happen(s, e);
    if CompletedSince(s, base, a) {
      var k :| base <= k < |s.done| && Covers(s.done[k], a);
      assert t.done[k] == s.done[k];
    } else if e.Finish? {
      assert Covers(t.done[|s.done|], a);
    }
  }

  /** The request is being served, or has been since there were `base` completed syncs. */
  ghost predicate Serving(s: State, base: nat, a: Ask) {
    base <= |s.done| && a.length <= |s.matched| && (Flying(s, a) || CompletedSince(s, base, a))
  }

  lemma {:induction false} ServingUntilReturn(states: seq<State>, events: seq<Event>, c: nat, n: nat)
    requires IsRun(states, events) && c < n < |states| && events[c].Request? && states[c].flight.None?
    ensures Serving(states[n], |states[c].done|, Ask(events[c].finalize, events[c].deleteStale, |states[c].matched|))
    decreases n
  {
    if n > c + 1 {
      ServingUntilReturn(states, events, c, n - 1);
      var a := Ask(events[c].finalize, events[c].deleteStale, |states[c].matched|);
      RunStillServing(states, events, n - 1, |states[c].done|, a);
    } else {
      RunStartsServing(states, events, c);
    }
  }

  lemma RunStillServing(states: seq<State>, events: seq<Event>, k: nat, base: nat, a: Ask)
    requires IsRun(states, events) && k < |events| && Serving(states[k], base, a)
    ensures Serving(states[k + 1], base, a)
  {
    StillServing(states[k], events[k], base, a);
  }

  lemma RunStartsServing(states: seq<State>, events: seq<Event>, c: nat)
    requires IsRun(states, events) && c < |events| && events[c].Request? && states[c].flight.None?
    ensures Serving(states[c + 1], |states[c].done|,
              Ask(events[c].finalize, events[c].deleteStale, |states[c].matched|))
  {
    StartsServing(states[c], events[c].finalize, events[c].deleteStale);
  }

  lemma StartsServing(s: State, finalize: bool, deleteStale: bool)
    requires s.flight.None?
    ensures
      var t := AfterRequest(s, finalize, deleteStale);
      t.done == s.done && t.matched == s.matched && Flying(t, Ask(finalize, deleteStale, |s.matched|))
  {
  }

  /** The sync a request asks for is complete when its call returns if and only if no sync was in flight at the call. */
  lemma CallWaitsIff(states: seq<State>, events: seq<Event>, c: nat, n: nat)
    requires IsRun(states, events) && ReturnsAt(states, events, c, n)
    ensures CompletedSince(states[n], |states[c].done|,
              Ask(events[c].finalize, events[c].deleteStale, |states[c].matched|))
       <==> states[c].flight.None?
  {
    if states[c].flight.None? {
      ServingUntilReturn(states, events, c, n);
    }
  }

  /** From point m on, requests are only added and only matches change the matches. */
  ghost predicate OnlyGrowing(states: seq<State>, events: seq<Event>, m: nat) {
    && |states| == |events| + 1
    && forall i :: m <= i < |events| ==>
         states[i].asks <= states[i + 1].asks && (!events[i].Match? ==> states[i + 1].matched == states[i].matched)
  }

  lemma RunOnlyGrows(states: seq<State>, events: seq<Event>, m: nat)
    requires IsRun(states, events)
    ensures OnlyGrowing(states, events, m)
  {
    forall i | m <= i < |events|
      ensures states[i].asks <= states[i + 1].asks && (!events[i].Match? ==> states[i + 1].matched == states[i].matched)
    {
      StepKeepsAsks(states[i], events[i]);
    }
  }

  lemma {:induction false} AsksGrow(states: seq<State>, events: seq<Event>, m: nat, n: nat)
    requires OnlyGrowing(states, events, m) && m <= n < |states|
    ensures states[m].asks <= states[n].asks
    ensures (forall i :: m <= i < n ==> !events[i].Match?) ==> states[n].matched == states[m].matched
    decreases n
  {
    if m < n {
      AsksGrow(states, events, m, n - 1);
      LongerPrefix(states[m].asks, states[n - 1].asks, states[n].asks);
    }
  }

  lemma LongerPrefix<T>(a: seq<T>, b: seq<T>, c: seq<T>)
    requires a <= b <= c
    ensures a <= c
  {
  }

  lemma AsksKept(states: seq<State>, events: seq<Event>, c: nat, n: nat)
    requires IsRun(states, events) && c < n < |states| && events[c].Request?
    ensures |states[c].asks| < |states[n].asks|
    ensures states[n].asks[|states[c].asks|] == Ask(events[c].finalize, events[c].deleteStale, |states[c].matched|)
    ensures (forall i :: c < i < n ==> !events[i].Match?) ==> states[n].matched == states[c].matched
  {
    RequestAsks(states[c], events[c].finalize, events[c].deleteStale);
    RunOnlyGrows(states, events, c + 1);
    AsksGrow(states, events, c + 1, n);
  }

  lemma RequestAsks(s: State, finalize: bool, deleteStale: bool)
    ensures AfterRequest(s, finalize, deleteStale).asks == s.asks + [Ask(finalize, deleteStale, |s.matched|)]
    ensures AfterRequest(s, finalize, deleteStale).matched == s.matched
  {
  }

  lemma StepKeepsAsks(s: State, e: Event)
    requires Possible(s, e)
    ensures s.asks <= Happen(s, e).asks
    ensures !e.Match? ==> Happen(s, e).matched == s.matched
  {
    if e.Request? {
      RequestAsks(s, e.finalize, e.deleteStale);
    }
  }

  /**
   * A call made with nothing in flight returns with the queue drained and every request so
   * far met; if no match came in meanwhile the service then holds the full upload, and no
   * playlist of ours beyond it when the call was to delete stale ones.
   */
  lemma WaitingCallUploads(states: seq<State>, events: seq<Event>, c: nat, n: nat)
    requires IsRun(states, events) && ReturnsAt(states, events, c, n) && states[c].flight.None?
    ensures !states[n].syncQueued
    ensures forall r :: 0 <= r < |states[n].asks| ==>
              exists d :: 0 <= d < |states[n].done| && Covers(states[n].done[d], states[n].asks[r])
    ensures (forall i :: c < i < n ==> !events[i].Match?) ==>
              && (forall i :: 0 <= i < |Target(states[c].matched)| ==>
                   Holds(states[n], i, Target(states[c].matched)[i]))
              && (events[c].deleteStale && states[c].matched != [] ==>
                    forall t :: t in Ours(states[n].remote) ==>
                      GetPlaylistChunkIndex(t).value < |Target(states[c].matched)|)
  {
    RunInv(states, events, n);
    forall r | 0 <= r < |states[n].asks|
      ensures exists d :: 0 <= d < |states[n].done| && Covers(states[n].done[d], states[n].asks[r])
    {
      var d := RestMeansServed(states, events, n, r);
    }
    AsksKept(states, events, c, n);
    if forall i :: c < i < n ==> !events[i].Match? {
      RestMeansFullUpload(states, events, n, |states[c].asks|);
    }
  }

  /**
   * For instance, the final request returns at once when a sync is in flight, so the run
   * can be marked done with nothing uploaded yet: one match, its timed sync still listing, then the end.
   */
  lemma FinalRequestMayReturnEarly() returns (states: seq<State>, events: seq<Event>)
    ensures IsRun(states, events)
    ensures
      var s := states[|events|];
      && |events| > 0 && events[|events| - 1] == Request(true, true)
      && s.flight.Some? && !Flying(s, s.asks[|s.asks| - 1]) && Queued(s, s.asks[|s.asks| - 1])
      && |Target(s.matched)| == 1 && s.remote == map[]
  {
    var s0 := Begin(map[]);
    var s1 := Happen(s0, Match("a"));
    var s2 := Happen(s1, Request(false, false));
    var s3 := Happen(s2, Request(true, true));
    states, events := [s0, s1, s2, s3], [Match("a"), Request(false, false), Request(true, true)];
    ChunkSizes(Reverse(["a"]), PLAYLIST_TRACK_LIMIT);
    CeilOne(1, PLAYLIST_TRACK_LIMIT);
    assert s3.matched == ["a"];
  }
}
