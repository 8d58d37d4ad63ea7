/** Any interleaving of get_page requests, faults, expiry, invalidation and lock eviction. */
module ListCacheRuns {
  import opened Lists
  import opened ListCache

  datatype Request = Request(key: string, page: nat, limit: nat)

  /** Where a request stands between two of its awaits. */
  datatype Stage<+T> =
    | Arrived
    | Missed
    | Inserting
    | Waiting(lock: nat)
    | Locked(lock: nat)
    | Fetching(lock: nat, state: ListState<T>, chunks: nat)
    | Answered(reply: Page<T>, fetched: nat)
    | Errored

  datatype Handler<+T> = Handler(request: Request, stage: Stage<T>)

  datatype World<+T> = World(
    store: map<string, ListState<T>>,
    inflight: map<string, nat>,
    nextLock: nat,
    held: set<nat>,
    handlers: seq<Handler<T>>)

  /** Every upstream list by cache key. */
  type Upstreams<T> = string -> Upstream<T>

  function Need(r: Request): nat {
    (r.page + 1) * r.limit
  }

  function Start<T>(): World<T> {
    World(map[], map[], 0, {}, [])
  }

  datatype Event =
    | Arrive(request: Request)
    | FirstLoad(h: nat, fault: bool)
    | LookUpLock(h: nat)
    | InsertLock(h: nat)
    | AcquireLock(h: nat)
    | SecondLoad(h: nat, fault: bool)
    | Fetch(h: nat, fault: bool)
    | Finish(h: nat, saved: bool)
    | EvictLock(key: string)
    | DropKey(key: string)

  predicate At<T>(w: World<T>, h: nat) {
    h < |w.handlers|
  }

  function MoveTo<T>(w: World<T>, h: nat, stage: Stage<T>): World<T>
    requires At(w, h)
  {
    w.(handlers := w.handlers[h := w.handlers[h].(stage := stage)])
  }

  predicate WantsMore<T>(r: Request, st: ListState<T>, chunks: nat) {
    |st.items| < Need(r) && !st.exhausted && chunks < MAX_CHUNKS_PER_REQUEST
  }

  predicate Possible<T>(w: World<T>, e: Event) {
    match e
    case Arrive(_) => true
    case FirstLoad(h, _) => At(w, h) && w.handlers[h].stage.Arrived?
    case LookUpLock(h) => At(w, h) && w.handlers[h].stage.Missed?
    case InsertLock(h) => At(w, h) && w.handlers[h].stage.Inserting?
    case AcquireLock(h) => At(w, h) && w.handlers[h].stage.Waiting? && w.handlers[h].stage.lock !in w.held
    case SecondLoad(h, _) => At(w, h) && w.handlers[h].stage.Locked?
    case Fetch(h, _) =>
      At(w, h) && w.handlers[h].stage.Fetching? &&
      WantsMore(w.handlers[h].request, w.handlers[h].stage.state, w.handlers[h].stage.chunks)
    case Finish(h, _) =>
      At(w, h) && w.handlers[h].stage.Fetching? &&
      !WantsMore(w.handlers[h].request, w.handlers[h].stage.state, w.handlers[h].stage.chunks)
    case EvictLock(_) => true
    case DropKey(_) => true
  }

  function Happen<T>(ups: Upstreams<T>, w: World<T>, e: Event): World<T>
    requires Possible(w, e)
  {
    match e
    case Arrive(r) => w.(handlers := w.handlers + [Handler(r, Arrived)])
    case FirstLoad(h, fault) =>
      var r := w.handlers[h].request;
      var st := Loaded(w.store, r.key, fault);
      if |st.items| >= Need(r) || st.exhausted
      then MoveTo(w, h, Answered(SlicePage(st, r.page, r.limit), 0))
      else MoveTo(w, h, Missed)
    case LookUpLock(h) =>
      var key := w.handlers[h].request.key;
      MoveTo(w, h, if key in w.inflight then Waiting(w.inflight[key]) else Inserting)
    case InsertLock(h) =>
      var key := w.handlers[h].request.key;
      MoveTo(w, h, Waiting(w.nextLock)).(inflight := w.inflight[key := w.nextLock], nextLock := w.nextLock + 1)
    case AcquireLock(h) =>
      var lock := w.handlers[h].stage.lock;
      MoveTo(w, h, Locked(lock)).(held := w.held + {lock})
    case SecondLoad(h, fault) =>
      MoveTo(w, h, Fetching(w.handlers[h].stage.lock, Loaded(w.store, w.handlers[h].request.key, fault), 0))
    case Fetch(h, fault) =>
      var r, s := w.handlers[h].request, w.handlers[h].stage;
      if fault then MoveTo(w, h, Errored).(held := w.held - {s.lock})
      else MoveTo(w, h, Fetching(s.lock, Extend(s.state, ups(r.key)(s.state.nextCursor)), s.chunks + 1))
    case Finish(h, saved) =>
      var r, s := w.handlers[h].request, w.handlers[h].stage;
      MoveTo(w, h, Answered(SlicePage(s.state, r.page, r.limit), s.chunks)).(
        store := if s.chunks > 0 && saved then w.store[r.key := s.state] else w.store,
        held := w.held - {s.lock})
    case EvictLock(key) => w.(inflight := w.inflight - {key})
    case DropKey(key) => w.(store := w.store - {key})
  }

  // ---- The invariant

  /** What a request holds, or was cut from for its answer, is a prefix of its own list. */
  ghost predicate TrueHandler<T(!new)>(ups: Upstreams<T>, h: Handler<T>) {
    match h.stage
    case Fetching(_, st, _) => IsPrefix(ups(h.request.key), st)
    case Answered(p, fetched) => AnsweredTruly(ups(h.request.key), h.request, p, fetched)
    case _ => true
  }

  /** The answer is a page of some prefix, and of one that covers it unless the request used up its chunks. */
  ghost predicate AnsweredTruly<T(!new)>(up: Upstream<T>, r: Request, p: Page<T>, fetched: nat) {
    exists st ::
      && IsPrefix(up, st) && p == SlicePage(st, r.page, r.limit)
      && (|st.items| >= Need(r) || st.exhausted || fetched >= MAX_CHUNKS_PER_REQUEST)
  }

  ghost predicate Inv<T(!new)>(ups: Upstreams<T>, w: World<T>) {
    && (forall key :: key in w.store ==> IsPrefix(ups(key), w.store[key]))
    && (forall h :: 0 <= h < |w.handlers| ==> TrueHandler(ups, w.handlers[h]))
  }

  lemma LoadedIsPrefix<T(!new)>(ups: Upstreams<T>, w: World<T>, key: string, fault: bool)
    requires Inv(ups, w)
    ensures IsPrefix(ups(key), Loaded(w.store, key, fault))
  {
    assert After(ups(key), 0) == Empty();
  }

  lemma ExtendIsPrefix<T(!new)>(up: Upstream<T>, st: ListState<T>)
    requires IsPrefix(up, st) && !st.exhausted
    ensures IsPrefix(up, Extend(st, up(st.nextCursor)))
  {
    var k: nat :| st == After(up, k);
    assert After(up, k + 1) == Extend(st, up(st.nextCursor));
  }

  lemma MovedIsTrue<T(!new)>(ups: Upstreams<T>, w: World<T>, h: nat, stage: Stage<T>)
    requires Inv(ups, w) && At(w, h)
    requires TrueHandler(ups, Handler(w.handlers[h].request, stage))
    ensures Inv(ups, MoveTo(w, h, stage))
  {
  }

  lemma FinishIsTrue<T(!new)>(ups: Upstreams<T>, w: World<T>, h: nat, saved: bool)
    requires Inv(ups, w) && Possible(w, Finish(h, saved))
    ensures Inv(ups, Happen(ups, w, Finish(h, saved)))
  {
    var r, s := w.handlers[h].request, w.handlers[h].stage;
    assert TrueHandler(ups, w.handlers[h]);
    assert AnsweredTruly(ups(r.key), r, SlicePage(s.state, r.page, r.limit), s.chunks);
    MovedIsTrue(ups, w, h, Answered(SlicePage(s.state, r.page, r.limit), s.chunks));
  }

  lemma FirstLoadIsTrue<T(!new)>(ups: Upstreams<T>, w: World<T>, h: nat, fault: bool)
    requires Inv(ups, w) && Possible(w, FirstLoad(h, fault))
    ensures Inv(ups, Happen(ups, w, FirstLoad(h, fault)))
  {
    var r := w.handlers[h].request;
    var st := Loaded(w.store, r.key, fault);
    LoadedIsPrefix(ups, w, r.key, fault);
    if |st.items| >= Need(r) || st.exhausted {
      assert AnsweredTruly(ups(r.key), r, SlicePage(st, r.page, r.limit), 0);
      MovedIsTrue(ups, w, h, Answered(SlicePage(st, r.page, r.limit), 0));
    } else {
      MovedIsTrue(ups, w, h, Missed);
    }
  }

  /** Every event keeps the invariant, whoever holds whichever lock. */
  lemma StepKeepsInv<T(!new)>(ups: Upstreams<T>, w: World<T>, e: Event)
    requires Inv(ups, w) && Possible(w, e)
    ensures Inv(ups, Happen(ups, w, e))
  {
    match e
    case FirstLoad(h, fault) => FirstLoadIsTrue(ups, w, h, fault);
    case SecondLoad(h, fault) =>
      LoadedIsPrefix(ups, w, w.handlers[h].request.key, fault);
    case Fetch(h, fault) =>
      if !fault {
        assert TrueHandler(ups, w.handlers[h]);
        ExtendIsPrefix(ups(w.handlers[h].request.key), w.handlers[h].stage.state);
      }
    case Finish(h, saved) => FinishIsTrue(ups, w, h, saved);
    case _ =>
  }

  ghost predicate IsRun<T>(ups: Upstreams<T>, worlds: seq<World<T>>, events: seq<Event>) {
    && |worlds| == |events| + 1 && worlds[0] == Start()
    && forall i :: 0 <= i < |events| ==>
         Possible(worlds[i], events[i]) && worlds[i + 1] == Happen(ups, worlds[i], events[i])
  }

  lemma {:induction false} RunKeepsInv<T(!new)>(ups: Upstreams<T>, worlds: seq<World<T>>, events: seq<Event>, i: nat)
    requires IsRun(ups, worlds, events) && i < |worlds|
    ensures Inv(ups, worlds[i])
  {
    if i > 0 {
      RunKeepsInv(ups, worlds, events, i - 1);
      StepKeepsInv(ups, worlds[i - 1], events[i - 1]);
    }
  }

  /**
   * At every point of every run, for a key whose upstream list is the given chunks: the
   * stored state is the first k chunks with the next cursor and the right exhausted flag.
   */
  lemma StoredIsUpstreamPrefix<T(!new)>(ups: Upstreams<T>, worlds: seq<World<T>>, events: seq<Event>, i: nat,
                                        key: string, chunks: seq<seq<T>>, cursors: seq<Option<Cursor>>)
    returns (k: nat)
    requires IsRun(ups, worlds, events) && i < |worlds| && key in worlds[i].store
    requires Serves(ups(key), chunks, cursors)
    ensures k <= |chunks|
    ensures worlds[i].store[key] == ListState(Flatten(chunks[..k]), cursors[k], k == |chunks|)
  {
    RunKeepsInv(ups, worlds, events, i);
    k := PrefixServes(ups(key), chunks, cursors, worlds[i].store[key]);
  }

  /**
   * At every point of every run, an answer is the upstream list's own page, possibly cut
   * short after eight fetches, and denies more items only when its page ends the list.
   */
  lemma AnswersAreTrue<T(!new)>(ups: Upstreams<T>, worlds: seq<World<T>>, events: seq<Event>, i: nat, h: nat,
                                chunks: seq<seq<T>>, cursors: seq<Option<Cursor>>)
    requires IsRun(ups, worlds, events) && i < |worlds|
    requires At(worlds[i], h) && worlds[i].handlers[h].stage.Answered?
    requires Serves(ups(worlds[i].handlers[h].request.key), chunks, cursors)
    ensures
      var r, p := worlds[i].handlers[h].request, worlds[i].handlers[h].stage.reply;
      var all := Flatten(chunks);
      && p.collection <= TruePage(all, r.page, r.limit)
      && (worlds[i].handlers[h].stage.fetched < MAX_CHUNKS_PER_REQUEST ==>
           p.collection == TruePage(all, r.page, r.limit))
      && (!p.hasMore ==> p.collection == TruePage(all, r.page, r.limit) && Need(r) >= |all|)
  {
    RunKeepsInv(ups, worlds, events, i);
    var hd := worlds[i].handlers[h];
    assert TrueHandler(ups, hd);
    OneAnswerIsTrue(ups(hd.request.key), hd.request, hd.stage.reply, hd.stage.fetched, chunks, cursors);
  }

  lemma OneAnswerIsTrue<T(!new)>(up: Upstream<T>, r: Request, p: Page<T>, fetched: nat, chunks: seq<seq<T>>,
                                 cursors: seq<Option<Cursor>>)
    requires AnsweredTruly(up, r, p, fetched) && Serves(up, chunks, cursors)
    ensures
      var all := Flatten(chunks);
      && p.collection <= TruePage(all, r.page, r.limit)
      && (fetched < MAX_CHUNKS_PER_REQUEST ==> p.collection == TruePage(all, r.page, r.limit))
      && (!p.hasMore ==> p.collection == TruePage(all, r.page, r.limit) && Need(r) >= |all|)
  {
    var st :| IsPrefix(up, st) && p == SlicePage(st, r.page, r.limit)
           && (|st.items| >= Need(r) || st.exhausted || fetched >= MAX_CHUNKS_PER_REQUEST);
    NeedIsEnd(r);
    PageIsTrue(up, chunks, cursors, st, r.page, r.limit);
  }

  lemma NeedIsEnd(r: Request)
    ensures Need(r) == r.page * r.limit + r.limit
  {
  }
}
