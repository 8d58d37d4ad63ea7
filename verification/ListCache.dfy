/** The chunked list cache: a lazily extended prefix of a cursor-linked upstream list. */
module ListCache {
  import opened CacheKeys
  import opened Lists

  type Cursor = string

  datatype Chunk<+T> = Chunk(items: seq<T>, next: Option<Cursor>)

  datatype ListState<+T> = ListState(items: seq<T>, nextCursor: Option<Cursor>, exhausted: bool)

  datatype Page<+T> = Page(collection: seq<T>, page: nat, pageSize: nat, hasMore: bool)

  /** A stable upstream answers each cursor with one chunk; no cursor asks for the first. */
  type Upstream<T> = Option<Cursor> -> Chunk<T>

  const MAX_CHUNKS_PER_REQUEST: nat := 8

  function Empty<T>(): ListState<T> {
    ListState([], None, false)
  }

  function Extend<T>(st: ListState<T>, c: Chunk<T>): ListState<T> {
    ListState(st.items + c.items, c.next, c.next.None?)
  }

  /** At most `limit` items from position `start`. */
  function Window<T>(s: seq<T>, start: nat, limit: nat): seq<T> {
    if start >= |s| then [] else s[start..Least(start + limit, |s|)]
  }

  function SlicePage<T>(st: ListState<T>, page: nat, limit: nat): Page<T> {
    var start := page * limit;
    Page(Window(st.items, start, limit), page, limit, !st.exhausted || start + limit < |st.items|)
  }

  /** What is known after k chunks. */
  function After<T>(up: Upstream<T>, k: nat): ListState<T> {
    if k == 0 then Empty()
    else
      var st := After(up, k - 1);
      if st.exhausted then st else Extend(st, up(st.nextCursor))
  }

  /** The only states the cache may hold. */
  ghost predicate IsPrefix<T(!new)>(up: Upstream<T>, st: ListState<T>) {
    exists k: nat :: st == After(up, k)
  }

  /** The fetch loop of one request. */
  function Fill<T>(up: Upstream<T>, st: ListState<T>, need: nat, budget: nat): (r: ListState<T>)
    decreases budget, need
  {
    if |st.items| >= need || st.exhausted || budget == 0 then st
    else Fill(up, Extend(st, up(st.nextCursor)), need, budget - 1)
  }

  /** The cursors the loop asks for, in order. */
  function Cursors<T>(up: Upstream<T>, st: ListState<T>, need: nat, budget: nat): seq<Option<Cursor>>
    decreases budget, need
  {
    if |st.items| >= need || st.exhausted || budget == 0 then []
    else [st.nextCursor] + Cursors(up, Extend(st, up(st.nextCursor)), need, budget - 1)
  }

  lemma {:induction false} AfterGrows<T>(up: Upstream<T>, j: nat, k: nat)
    requires j <= k
    ensures After(up, j).items <= After(up, k).items
    ensures After(up, j).exhausted ==> After(up, k) == After(up, j)
    decreases k - j
  {
    if j < k {
      AfterGrows(up, j, k - 1);
    }
  }

  /** The loop stops at the first of the next chunks that satisfies the request, or after the last allowed one. */
  lemma {:induction false} FillIsAfter<T>(up: Upstream<T>, k: nat, need: nat, budget: nat) returns (n: nat)
    ensures k <= n <= k + budget
    ensures Fill(up, After(up, k), need, budget) == After(up, n)
    ensures n < k + budget ==> |After(up, n).items| >= need || After(up, n).exhausted
    ensures forall m :: k <= m < n ==> |After(up, m).items| < need && !After(up, m).exhausted
    decreases budget
  {
    var st := After(up, k);
    n := k;
    if !(|st.items| >= need || st.exhausted || budget == 0) {
      assert After(up, k + 1) == Extend(st, up(st.nextCursor));
      n := FillIsAfter(up, k + 1, need, budget - 1);
    }
  }

  /** A request falls short exactly when the chunks it may fetch do not reach its page's end. */
  lemma {:induction false} ShortExactlyWhenCapBinds<T>(up: Upstream<T>, k: nat, need: nat)
    ensures
      var r := Fill(up, After(up, k), need, MAX_CHUNKS_PER_REQUEST);
      var all := After(up, k + MAX_CHUNKS_PER_REQUEST);
      (|r.items| < need && !r.exhausted) <==> (|all.items| < need && !all.exhausted)
  {
    var n := FillIsAfter(up, k, need, MAX_CHUNKS_PER_REQUEST);
    AfterGrows(up, n, k + MAX_CHUNKS_PER_REQUEST);
  }

  // ---- The upstream list

  /** The upstream serves the given chunks, the i-th under the i-th cursor; only the last ends the list. */
  ghost predicate Serves<T>(up: Upstream<T>, chunks: seq<seq<T>>, cursors: seq<Option<Cursor>>) {
    && |chunks| > 0 && |cursors| == |chunks| + 1
    && cursors[0] == None && cursors[|chunks|] == None
    && (forall i :: 0 < i < |chunks| ==> cursors[i].Some?)
    && forall i :: 0 <= i < |chunks| ==> up(cursors[i]) == Chunk(chunks[i], cursors[i + 1])
  }

  /** After k chunks the state is their concatenation, the cursor of the next, and whether that was all. */
  lemma {:induction false} AfterServes<T>(up: Upstream<T>, chunks: seq<seq<T>>, cursors: seq<Option<Cursor>>, k: nat)
    requires Serves(up, chunks, cursors) && k <= |chunks|
    ensures After(up, k) == ListState(Flatten(chunks[..k]), cursors[k], k == |chunks|)
  {
    if k > 0 {
      AfterServes(up, chunks, cursors, k - 1);
      FlattenSnoc(chunks, k - 1);
    }
  }

  lemma {:induction false} PrefixServes<T(!new)>(up: Upstream<T>, chunks: seq<seq<T>>, cursors: seq<Option<Cursor>>,
                                                 st: ListState<T>) returns (k: nat)
    requires Serves(up, chunks, cursors) && IsPrefix(up, st)
    ensures k <= |chunks| && st == ListState(Flatten(chunks[..k]), cursors[k], k == |chunks|)
    ensures st.items <= Flatten(chunks)
  {
    var j: nat :| st == After(up, j);
    k := Least(j, |chunks|);
    AfterServes(up, chunks, cursors, |chunks|);
    AfterServes(up, chunks, cursors, k);
    AfterGrows(up, k, j);
    AfterGrows(up, k, |chunks|);
    assert chunks[..|chunks|] == chunks;
  }

  /** The page the upstream list itself has. */
  function TruePage<T>(all: seq<T>, page: nat, limit: nat): seq<T> {
    Window(all, page * limit, limit)
  }

  /**
   * A page cut from any cached prefix is the list's own page, cut short at most by the
   * prefix; and "no more" is said exactly when the whole list is known and ends by this page.
   */
  lemma PageIsTrue<T(!new)>(up: Upstream<T>, chunks: seq<seq<T>>, cursors: seq<Option<Cursor>>, st: ListState<T>,
                            page: nat, limit: nat)
    requires Serves(up, chunks, cursors) && IsPrefix(up, st)
    ensures
      var p, all := SlicePage(st, page, limit), Flatten(chunks);
      && p.collection <= TruePage(all, page, limit)
      && (!p.hasMore <==> st.exhausted && page * limit + limit >= |all|)
      && (!p.hasMore ==> p.collection == TruePage(all, page, limit))
      && (|st.items| >= page * limit + limit || st.exhausted ==> p.collection == TruePage(all, page, limit))
  {
    var k := PrefixServes(up, chunks, cursors, st);
    if k == |chunks| {
      assert chunks[..k] == chunks;
    }
    PrefixSlice(st.items, Flatten(chunks), page * limit, limit);
  }

  lemma PrefixSlice<T>(p: seq<T>, all: seq<T>, start: nat, limit: nat)
    requires p <= all
    ensures Window(p, start, limit) <= Window(all, start, limit)
    ensures |p| >= Least(start + limit, |all|) ==> Window(p, start, limit) == Window(all, start, limit)
    ensures |p| < Least(start + limit, |all|) && start < |all| && limit > 0 ==>
              |Window(p, start, limit)| < |Window(all, start, limit)|
  {
  }

  // ---- Keys

  function BuildRedisKey(key: string, scope: Scope, session: Option<string>): string {
    match scope
    case User => "user:" + SessionText(session) + ":" + key
    case Shared => "shared:" + key
  }

  /** What an invalidation deletes. */
  function InvalidatedKeys(cacheKeys: seq<string>, session: Option<string>): set<string> {
    (set k | k in TrimmedKeys(cacheKeys) :: BuildRedisKey(k, Shared, None)) +
    (if session.Some? then (set k | k in TrimmedKeys(cacheKeys) :: BuildRedisKey(k, User, session)) else {})
  }

  lemma SharedKeysDiffer(a: string, b: string, session: Option<string>)
    ensures BuildRedisKey(a, Shared, None) == BuildRedisKey(b, Shared, None) ==> a == b
    ensures BuildRedisKey(a, Shared, None) != BuildRedisKey(b, User, session)
  {
    assert ("shared:" + a)[7..] == a && ("shared:" + b)[7..] == b;
    assert ("shared:" + a)[0] == 's' && BuildRedisKey(b, User, session)[0] == 'u';
  }

  lemma OwnKeysDiffer(a: string, b: string, session: Option<string>)
    ensures BuildRedisKey(a, User, session) == BuildRedisKey(b, User, session) ==> a == b
  {
    var p := "user:" + SessionText(session) + ":";
    assert (p + a)[|p|..] == a && (p + b)[|p|..] == b;
  }

  /**
   * A list is dropped if and only if its key, trimmed spellings allowed for, was asked for:
   * a shared list always, one of the session's own when the session is given.
   */
  lemma InvalidatedIff(cacheKeys: seq<string>, session: Option<string>, key: string)
    ensures BuildRedisKey(key, Shared, None) in InvalidatedKeys(cacheKeys, session) <==> key in TrimmedKeys(cacheKeys)
    ensures BuildRedisKey(key, User, session) in InvalidatedKeys(cacheKeys, session) <==>
              session.Some? && key in TrimmedKeys(cacheKeys)
  {
    forall k: string
      ensures BuildRedisKey(k, Shared, None) == BuildRedisKey(key, Shared, None) ==> k == key
      ensures BuildRedisKey(k, User, session) == BuildRedisKey(key, User, session) ==> k == key
      ensures BuildRedisKey(k, Shared, None) != BuildRedisKey(key, User, session)
      ensures BuildRedisKey(key, Shared, None) != BuildRedisKey(k, User, session)
    {
      SharedKeysDiffer(k, key, session);
      SharedKeysDiffer(key, k, session);
      OwnKeysDiffer(k, key, session);
    }
  }

  // ---- The service

  /** What can go wrong around one request: either load, a fetch, or the save. */
  datatype Faults = Faults(firstLoad: bool, secondLoad: bool, failedFetch: Option<nat>, save: bool)

  const NO_FAULTS := Faults(false, false, None, false)

  datatype Reply<+T> = Replied(page: Page<T>) | FetchFailed

  function Loaded<T>(store: map<string, ListState<T>>, key: string, fault: bool): ListState<T> {
    if fault || key !in store then Empty() else store[key]
  }

  /** The fetch loop, having asked these cursors since `from`, stands at `st`. */
  ghost predicate Underway<T>(up: Upstream<T>, from: ListState<T>, need: nat, st: ListState<T>,
                              asked: seq<Option<Cursor>>) {
    var left := MAX_CHUNKS_PER_REQUEST - |asked|;
    && left >= 0
    && Fill(up, st, need, left) == Fill(up, from, need, MAX_CHUNKS_PER_REQUEST)
    && asked + Cursors(up, st, need, left) == Cursors(up, from, need, MAX_CHUNKS_PER_REQUEST)
  }

  lemma OneMoreChunk<T>(up: Upstream<T>, from: ListState<T>, need: nat, st: ListState<T>, asked: seq<Option<Cursor>>)
    requires Underway(up, from, need, st, asked)
    requires |st.items| < need && !st.exhausted && |asked| < MAX_CHUNKS_PER_REQUEST
    ensures Underway(up, from, need, Extend(st, up(st.nextCursor)), asked + [st.nextCursor])
    ensures asked + [st.nextCursor] <= Cursors(up, from, need, MAX_CHUNKS_PER_REQUEST)
  {
    Regroup(asked, [st.nextCursor],
      Cursors(up, Extend(st, up(st.nextCursor)), need, MAX_CHUNKS_PER_REQUEST - |asked| - 1));
  }

  class Service<T(!new)> {
    var store: map<string, ListState<T>>

    constructor ()
      ensures store == map[]
    {
      store := map[];
    }

    /**
     * get_page with nothing else running: the reply is a page of the filled-up state,
     * which is what is stored unless nothing was fetched or the save failed. A fetch that
     * is reached and fails ends the request there, with nothing stored.
     */
    method GetPage(key: string, page: nat, limit: nat, up: Upstream<T>, faults: Faults)
      returns (reply: Reply<T>, asked: seq<Option<Cursor>>)
      modifies this
      ensures
        var first := Loaded(old(store), key, faults.firstLoad);
        var from := Loaded(old(store), key, faults.secondLoad);
        var need := (page + 1) * limit;
        var full, wanted := Fill(up, from, need, MAX_CHUNKS_PER_REQUEST),
                              Cursors(up, from, need, MAX_CHUNKS_PER_REQUEST);
        if |first.items| >= need || first.exhausted then
          reply == Replied(SlicePage(first, page, limit)) && store == old(store) && asked == []
        else if faults.failedFetch.Some? && faults.failedFetch.value < |wanted| then
          reply == FetchFailed && store == old(store) && asked == wanted[..faults.failedFetch.value + 1]
        else
          && reply == Replied(SlicePage(full, page, limit))
          && asked == wanted
          && store == if asked == [] || faults.save then old(store) else old(store)[key := full]
    {
      asked := [];
      var need := (page + 1) * limit;
      var state := Loaded(store, key, faults.firstLoad);
      if |state.items| >= need || state.exhausted {
        reply := Replied(SlicePage(state, page, limit));
        return;
      }
      state := Loaded(store, key, faults.secondLoad);
      ghost var from := state;
      var chunks := 0;
      while |state.items| < need && !state.exhausted && chunks < MAX_CHUNKS_PER_REQUEST
        invariant |asked| == chunks
        invariant Underway(up, from, need, state, asked)
        invariant faults.failedFetch.Some? ==> chunks <= faults.failedFetch.value
        invariant store == old(store)
      {
        OneMoreChunk(up, from, need, state, asked);
        asked := asked + [state.nextCursor];
        if faults.failedFetch == Some(chunks) {
          reply := FetchFailed;
          return;
        }
        var fetched := up(state.nextCursor);
        state := ListState(state.items + fetched.items, fetched.next, fetched.next.None?);
        chunks := chunks + 1;
      }
      assert asked + [] == asked;
      if chunks > 0 && !faults.save {
        store := store[key := state];
      }
      reply := Replied(SlicePage(state, page, limit));
    }

    /** get_page when nothing goes wrong: the store and the reply show the same filled-up state. */
    method GetPageCalmly(key: string, page: nat, limit: nat, up: Upstream<T>, ghost need: nat)
      returns (reply: Page<T>, asked: seq<Option<Cursor>>)
      requires need == (page + 1) * limit
      modifies this
      ensures
        var from := Loaded(old(store), key, false);
        var full := Fill(up, from, need, MAX_CHUNKS_PER_REQUEST);
        && reply == SlicePage(full, page, limit)
        && asked == Cursors(up, from, need, MAX_CHUNKS_PER_REQUEST)
        && Loaded(store, key, false) == full
    {
      var r;
      r, asked := GetPage(key, page, limit, up, NO_FAULTS);
      reply := r.page;
    }

    /** invalidate_by_cache_keys: the shared entry of every key asked for, and the session's own if there is one. */
    method InvalidateByCacheKeys(cacheKeys: seq<string>, session: Option<string>)
      modifies this
      ensures store == old(store) - InvalidatedKeys(cacheKeys, session)
    {
      var seen := CollectTrimmed(cacheKeys);
      if seen == {} {
        assert InvalidatedKeys(cacheKeys, session) == {};
        return;
      }
      var keys := (set k | k in seen :: BuildRedisKey(k, Shared, None));
      if session.Some? {
        keys := keys + (set k | k in seen :: BuildRedisKey(k, User, session));
      }
      store := store - keys;
    }
  }
}
