/** The list cache's answers row by row, and what a saved list is good for. */
module ListCachePages {
  import opened Lists
  import opened ListCache
  import opened ListCacheRuns
  import K = CacheKeys
  import T = TaggedCache

  /** How many items a list of n has for the page. */
  function PageLength(n: nat, page: nat, limit: nat): nat {
    if page * limit >= n then 0 else Least(limit, n - page * limit)
  }

  /** Row i of a page is item page * limit + i of the list, and there are as many rows as asked for or left. */
  lemma PageRows<T>(st: ListState<T>, page: nat, limit: nat)
    ensures
      var p := SlicePage(st, page, limit);
      && p.page == page && p.pageSize == limit && |p.collection| == PageLength(|st.items|, page, limit)
      && forall i :: 0 <= i < |p.collection| ==>
           page * limit + i < |st.items| && p.collection[i] == st.items[page * limit + i]
  {
    PastTheRows(page * limit, limit, |st.items|);
  }

  lemma PastTheRows(start: nat, limit: nat, n: nat)
    ensures start < n ==> Least(start + limit, n) == start + Least(limit, n - start)
  {
  }

  lemma RowsOf<T>(s: seq<T>, all: seq<T>, start: nat, limit: nat)
    requires Window(s, start, limit) <= Window(all, start, limit)
    ensures forall i :: 0 <= i < |Window(s, start, limit)| ==>
              start + i < |all| && Window(s, start, limit)[i] == all[start + i]
  {
  }

  /** The rows of p are those of the list's page, all of them if `whole`. */
  ghost predicate ShowsPage<T>(all: seq<T>, r: Request, p: Page<T>, whole: bool) {
    && p.page == r.page && p.pageSize == r.limit && |p.collection| <= PageLength(|all|, r.page, r.limit)
    && (whole ==> |p.collection| == PageLength(|all|, r.page, r.limit))
    && forall i :: 0 <= i < |p.collection| ==>
         r.page * r.limit + i < |all| && p.collection[i] == all[r.page * r.limit + i]
  }

  /**
   * At every point of every run: row i of an answer is item page * limit + i of the upstream
   * list, and all rows of the page are there unless the request used up its eight chunks.
   */
  lemma AnswerRows<T(!new)>(ups: Upstreams<T>, worlds: seq<World<T>>, events: seq<Event>, k: nat, h: nat,
                            chunks: seq<seq<T>>, cursors: seq<Option<Cursor>>)
    requires IsRun(ups, worlds, events) && k < |worlds|
    requires At(worlds[k], h) && worlds[k].handlers[h].stage.Answered?
    requires Serves(ups(worlds[k].handlers[h].request.key), chunks, cursors)
    ensures ShowsPage(Flatten(chunks), worlds[k].handlers[h].request, worlds[k].handlers[h].stage.reply,
                      worlds[k].handlers[h].stage.fetched < MAX_CHUNKS_PER_REQUEST)
  {
    RunKeepsInv(ups, worlds, events, k);
    var hd := worlds[k].handlers[h];
    assert TrueHandler(ups, hd);
    OneAnswerRows(ups(hd.request.key), hd.request, hd.stage.reply, hd.stage.fetched, chunks, cursors);
  }

  lemma OneAnswerRows<T(!new)>(up: Upstream<T>, r: Request, p: Page<T>, fetched: nat, chunks: seq<seq<T>>,
                               cursors: seq<Option<Cursor>>)
    requires AnsweredTruly(up, r, p, fetched) && Serves(up, chunks, cursors)
    ensures ShowsPage(Flatten(chunks), r, p, fetched < MAX_CHUNKS_PER_REQUEST)
  {
    OneAnswerIsTrue(up, r, p, fetched, chunks, cursors);
    var st := AnsweredFrom(up, r, p, fetched);
    SlicedRows(st, Flatten(chunks), r, p, fetched < MAX_CHUNKS_PER_REQUEST);
  }

  lemma AnsweredFrom<T(!new)>(up: Upstream<T>, r: Request, p: Page<T>, fetched: nat) returns (st: ListState<T>)
    requires AnsweredTruly(up, r, p, fetched)
    ensures p == SlicePage(st, r.page, r.limit)
  {
    st :| IsPrefix(up, st) && p == SlicePage(st, r.page, r.limit);
  }

  lemma SlicedRows<T>(st: ListState<T>, all: seq<T>, r: Request, p: Page<T>, whole: bool)
    requires p == SlicePage(st, r.page, r.limit) && p.collection <= TruePage(all, r.page, r.limit)
    requires whole ==> p.collection == TruePage(all, r.page, r.limit)
    ensures ShowsPage(all, r, p, whole)
  {
    PageOfWindow(st.items, all, r.page * r.limit, r.limit);
  }

  lemma PageOfWindow<T>(s: seq<T>, all: seq<T>, start: nat, limit: nat)
    requires Window(s, start, limit) <= Window(all, start, limit)
    ensures
      var rows, n := Window(s, start, limit), if start >= |all| then 0 else Least(limit, |all| - start);
      && |rows| <= n && (rows == Window(all, start, limit) ==> |rows| == n)
      && forall i :: 0 <= i < |rows| ==> start + i < |all| && rows[i] == all[start + i]
  {
    RowsOf(s, all, start, limit);
    PastTheRows(start, limit, |all|);
  }

  // ---- Whose lists

  /** A list's key is the tag index's key without its mark. */
  lemma KeyOfIndex(key: string, scope: K.Scope, session: Option<string>)
    ensures T.BuildIndexKey(key, scope, session) == "idx:" + BuildRedisKey(key, scope, session)
  {
    assert "idx:" + "shared" + ":" + key == "idx:" + ("shared:" + key);
    assert "idx:" + "user" + ":" + K.SessionText(session) + ":" + key
        == "idx:" + ("user:" + K.SessionText(session) + ":" + key);
  }

  lemma SameKeyIff(a: string, s: Option<string>, b: string, t: Option<string>)
    ensures BuildRedisKey(a, K.User, s) == BuildRedisKey(b, K.User, t) <==>
              T.BuildIndexKey(a, K.User, s) == T.BuildIndexKey(b, K.User, t)
  {
    KeyOfIndex(a, K.User, s);
    KeyOfIndex(b, K.User, t);
    assert ("idx:" + BuildRedisKey(a, K.User, s))[4..] == BuildRedisKey(a, K.User, s);
    assert ("idx:" + BuildRedisKey(b, K.User, t))[4..] == BuildRedisKey(b, K.User, t);
  }

  /**
   * Some own lists of two sessions share a key if and only if one session's text is the
   * other's, or continues it after a colon.
   */
  lemma SessionsShareListsIff(s: Option<string>, t: Option<string>)
    ensures (exists a, b :: BuildRedisKey(a, K.User, s) == BuildRedisKey(b, K.User, t)) <==>
              || K.SessionText(s) == K.SessionText(t)
              || T.StartsWith(K.SessionText(t), K.SessionText(s) + ":")
              || T.StartsWith(K.SessionText(s), K.SessionText(t) + ":")
  {
    T.SessionsShareIff(s, t);
    forall a, b
      ensures BuildRedisKey(a, K.User, s) == BuildRedisKey(b, K.User, t) <==>
                T.BuildIndexKey(a, K.User, s) == T.BuildIndexKey(b, K.User, t)
    {
      SameKeyIff(a, s, b, t);
    }
  }

  // ---- What is saved is served

  predicate SavesKey<T>(w: World<T>, e: Event, key: string)
    requires Possible(w, e)
  {
    e.Finish? && w.handlers[e.h].request.key == key
  }

  /** Nothing drops the key or saves another state under it from m on. */
  ghost predicate Undisturbed<T>(worlds: seq<World<T>>, events: seq<Event>, m: nat, n: nat, key: string) {
    && m <= n <= |events| < |worlds|
    && forall i :: m <= i < n ==>
         Possible(worlds[i], events[i]) && events[i] != DropKey(key) && !SavesKey(worlds[i], events[i], key)
  }

  lemma StoreStep<T>(ups: Upstreams<T>, w: World<T>, e: Event, key: string)
    requires Possible(w, e) && e != DropKey(key) && !SavesKey(w, e, key)
    ensures key in Happen(ups, w, e).store <==> key in w.store
    ensures key in w.store ==> Happen(ups, w, e).store[key] == w.store[key]
  {
  }

  lemma {:induction false} StoredUntilDisturbed<T>(ups: Upstreams<T>, worlds: seq<World<T>>, events: seq<Event>,
                                                   m: nat, n: nat, key: string)
    requires IsRun(ups, worlds, events) && Undisturbed(worlds, events, m, n, key)
    ensures key in worlds[n].store <==> key in worlds[m].store
    ensures key in worlds[m].store ==> worlds[n].store[key] == worlds[m].store[key]
    decreases n
  {
    if m < n {
      StoredUntilDisturbed(ups, worlds, events, m, n - 1, key);
      StoreStep(ups, worlds[n - 1], events[n - 1], key);
    }
  }

  /** What a request has fetched is what it saves and answers from. */
  lemma FinishSaves<T>(ups: Upstreams<T>, w: World<T>, h: nat)
    requires Possible(w, Finish(h, true)) && w.handlers[h].stage.chunks > 0
    ensures
      var r, st, v := w.handlers[h].request, w.handlers[h].stage.state, Happen(ups, w, Finish(h, true));
      && r.key in v.store && v.store[r.key] == st
      && v.handlers[h].stage == Answered(SlicePage(st, r.page, r.limit), w.handlers[h].stage.chunks)
  {
  }

  /**
   * In every run: once a request has fetched and saved a list, and as long as nothing drops or
   * saves over it, a later request for any page the saved list covers is answered from the
   * store at its first load, with nothing fetched; and one it does not cover goes on to the lock.
   */
  lemma SavedIsServed<T>(ups: Upstreams<T>, worlds: seq<World<T>>, events: seq<Event>, m: nat, n: nat, h: nat, g: nat)
    requires IsRun(ups, worlds, events) && m < n < |events|
    requires events[m] == Finish(h, true) && worlds[m].handlers[h].stage.chunks > 0
    requires events[n] == FirstLoad(g, false)
    requires worlds[n].handlers[g].request.key == worlds[m].handlers[h].request.key
    requires Undisturbed(worlds, events, m + 1, n, worlds[m].handlers[h].request.key)
    ensures
      var r, next := worlds[n].handlers[g].request, worlds[n + 1].handlers[g].stage;
      var st := worlds[m].handlers[h].stage.state;
      if |st.items| >= (r.page + 1) * r.limit || st.exhausted
      then next == Answered(SlicePage(st, r.page, r.limit), 0)
      else next == Missed
  {
    FinishSaves(ups, worlds[m], h);
    StoredUntilDisturbed(ups, worlds, events, m + 1, n, worlds[m].handlers[h].request.key);
  }
}
