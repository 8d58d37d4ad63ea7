/** A client that reads page after page: what it gets, and what it costs upstream. */
module ListCacheClient {
  import opened Lists
  import opened ListCache

  /** Chunks large enough for eight of them to make a page; the last one may be smaller. */
  ghost predicate RoomyChunks<T>(chunks: seq<seq<T>>, limit: nat) {
    forall i :: 0 <= i < |chunks| - 1 ==> MAX_CHUNKS_PER_REQUEST * |chunks[i]| >= limit
  }

  lemma {:induction false} ChunksAddUp<T>(chunks: seq<seq<T>>, limit: nat, k: nat, m: nat)
    requires RoomyChunks(chunks, limit) && k + m < |chunks|
    ensures MAX_CHUNKS_PER_REQUEST * |Flatten(chunks[..k + m])|
         >= MAX_CHUNKS_PER_REQUEST * |Flatten(chunks[..k])| + m * limit
  {
    if m > 0 {
      ChunksAddUp(chunks, limit, k, m - 1);
      FlattenSnoc(chunks, k + m - 1);
      assert m * limit == (m - 1) * limit + limit;
    }
  }

  /** How many chunks are known after one request that needs `need` items and may fetch `budget` chunks. */
  function Next<T>(chunks: seq<seq<T>>, k: nat, need: nat, budget: nat): (n: nat)
    requires k <= |chunks|
    ensures k <= n <= |chunks| && n <= k + budget
    ensures n < k + budget ==> n == |chunks| || |Flatten(chunks[..n])| >= need
    decreases budget, need
  {
    if k == |chunks| || |Flatten(chunks[..k])| >= need || budget == 0 then k
    else Next(chunks, k + 1, need, budget - 1)
  }

  /** The fetch loop stops there, having asked for exactly the chunks in between. */
  lemma {:induction false} FillIsNext<T>(up: Upstream<T>, chunks: seq<seq<T>>, cursors: seq<Option<Cursor>>, k: nat,
                                         need: nat, budget: nat)
    requires Serves(up, chunks, cursors) && k <= |chunks|
    ensures Fill(up, After(up, k), need, budget) == After(up, Next(chunks, k, need, budget))
    ensures Cursors(up, After(up, k), need, budget) == cursors[k..Next(chunks, k, need, budget)]
    decreases budget
  {
    AfterServes(up, chunks, cursors, k);
    if Next(chunks, k, need, budget) > k {
      assert After(up, k + 1) == Extend(After(up, k), up(After(up, k).nextCursor));
      FillIsNext(up, chunks, cursors, k + 1, need, budget - 1);
      var n := Next(chunks, k, need, budget);
      assert cursors[k..n] == [cursors[k]] + cursors[k + 1..n];
    }
  }

  /** A finite upstream list never uses a cursor twice. */
  lemma {:induction false} CursorsDistinct<T>(up: Upstream<T>, chunks: seq<seq<T>>, cursors: seq<Option<Cursor>>,
                                              i: nat, j: nat)
    requires Serves(up, chunks, cursors) && i < j < |chunks|
    ensures cursors[i] != cursors[j]
    decreases |chunks| - j
  {
    if cursors[i] == cursors[j] {
      assert cursors[i + 1] == cursors[j + 1];
      if j + 1 < |chunks| {
        CursorsDistinct(up, chunks, cursors, i + 1, j + 1);
      }
      assert false;
    }
  }

  /** The client's next page continues the list where the last one ended. */
  lemma WindowContinues<T>(all: seq<T>, start: nat, limit: nat)
    ensures all[..Least(start, |all|)] + Window(all, start, limit) == all[..Least(start + limit, |all|)]
  {
    if start >= |all| {
      assert all[..|all|] + [] == all[..|all|];
    }
  }

  /** Where a page starts in the list. */
  function Start(page: nat, limit: nat): nat {
    if page == 0 then 0 else Start(page - 1, limit) + limit
  }

  lemma {:induction false} StartIsProduct(page: nat, limit: nat)
    ensures Start(page, limit) == page * limit
  {
    if page > 0 {
      StartIsProduct(page - 1, limit);
      assert page * limit == (page - 1) * limit + limit;
    }
  }

  /** Chunks known once the first pages have been read; a matter of chunk sizes alone. */
  function KnownAfter<T>(chunks: seq<seq<T>>, limit: nat, known: nat, pages: nat): (k: nat)
    requires known <= |chunks|
    ensures known <= k <= |chunks|
  {
    if pages == 0 then known
    else Next(chunks, KnownAfter(chunks, limit, known, pages - 1), Start(pages, limit), MAX_CHUNKS_PER_REQUEST)
  }

  /** The request for the page gets to the page's end, or to the list's. */
  predicate Reached<T>(chunks: seq<seq<T>>, limit: nat, known: nat, page: nat)
    requires known <= |chunks|
  {
    |Flatten(chunks[..KnownAfter(chunks, limit, known, page + 1)])| >= Least(Start(page + 1, limit), |Flatten(chunks)|)
  }

  predicate AllReached<T>(chunks: seq<seq<T>>, limit: nat, known: nat, pages: nat)
    requires known <= |chunks|
  {
    pages == 0 || (AllReached(chunks, limit, known, pages - 1) && Reached(chunks, limit, known, pages - 1))
  }

  lemma {:induction false} FlattenTake<T>(chunks: seq<seq<T>>, k: nat)
    requires k <= |chunks|
    ensures Flatten(chunks[..k]) <= Flatten(chunks)
    decreases |chunks| - k
  {
    if k < |chunks| {
      FlattenTake(chunks, k + 1);
      FlattenSnoc(chunks, k);
    } else {
      assert chunks[..k] == chunks;
    }
  }

  /** With roomy chunks every page is reached. */
  lemma {:induction false} RoomyReaches<T>(chunks: seq<seq<T>>, limit: nat, known: nat, pages: nat)
    requires RoomyChunks(chunks, limit) && known <= |chunks|
    ensures AllReached(chunks, limit, known, pages)
    ensures |Flatten(chunks[..KnownAfter(chunks, limit, known, pages)])|
         >= Least(Start(pages, limit), |Flatten(chunks)|)
  {
    if pages > 0 {
      RoomyReaches(chunks, limit, known, pages - 1);
      RoomyStep(chunks, limit, KnownAfter(chunks, limit, known, pages - 1), pages - 1);
    }
  }

  lemma RoomyStep<T>(chunks: seq<seq<T>>, limit: nat, k: nat, page: nat)
    requires RoomyChunks(chunks, limit) && k <= |chunks|
    requires |Flatten(chunks[..k])| >= Least(Start(page, limit), |Flatten(chunks)|)
    ensures |Flatten(chunks[..Next(chunks, k, Start(page + 1, limit), MAX_CHUNKS_PER_REQUEST)])|
         >= Least(Start(page + 1, limit), |Flatten(chunks)|)
  {
    var n := Next(chunks, k, Start(page + 1, limit), MAX_CHUNKS_PER_REQUEST);
    if n == |chunks| {
      assert chunks[..n] == chunks;
    } else if n == k + MAX_CHUNKS_PER_REQUEST {
      ChunksAddUp(chunks, limit, k, MAX_CHUNKS_PER_REQUEST);
    }
  }

  /** Where the reader stands after some pages, k chunks being known; `whole` while no page fell short. */
  ghost predicate Reading<T>(chunks: seq<seq<T>>, limit: nat, k: nat, pages: nat, out: seq<T>, whole: bool)
    requires k <= |chunks|
  {
    var all := Flatten(chunks);
    var end := Least(Start(pages, limit), |all|);
    if whole then out == all[..end] && |Flatten(chunks[..k])| >= end else |out| < end
  }

  /** One more page: the reader moves on, and stays whole exactly when the page was reached. */
  lemma OnePageRead<T>(chunks: seq<seq<T>>, limit: nat, k: nat, st: ListState<T>, n: nat, page: nat, out: seq<T>,
                       whole: bool)
    requires k <= n <= |chunks| && limit > 0 && st.items == Flatten(chunks[..n]) && (st.exhausted <==> n == |chunks|)
    requires Reading(chunks, limit, k, page, out, whole)
    ensures
      var p, all := SlicePage(st, page, limit), Flatten(chunks);
      && Reading(chunks, limit, n, page + 1, out + p.collection,
                 whole && |st.items| >= Least(Start(page + 1, limit), |all|))
      && (p.hasMore <==> n < |chunks| || Start(page + 1, limit) < |all|)
  {
    var all, start := Flatten(chunks), Start(page, limit);
    StartIsProduct(page, limit);
    FlattenTake(chunks, n);
    if n == |chunks| {
      assert chunks[..n] == chunks;
    }
    PrefixSlice(st.items, all, start, limit);
    WindowContinues(all, start, limit);
    FlattenMonotone(chunks, k, n);
  }

  lemma {:induction false} FlattenMonotone<T>(chunks: seq<seq<T>>, k: nat, n: nat)
    requires k <= n <= |chunks|
    ensures |Flatten(chunks[..k])| <= |Flatten(chunks[..n])|
  {
    FlattenTake(chunks[..n], k);
    assert chunks[..n][..k] == chunks[..k];
  }

  /**
   * Reading pages 0, 1, 2, ... until "no more" always ends, having asked upstream once,
   * in order, for each chunk not known beforehand. What was read is exactly the upstream
   * list, in order, if and only if every request reached the end of its page - as it
   * always does when eight chunks make a page.
   */
  method ReadAll<T(!new)>(service: Service<T>, key: string, limit: nat, up: Upstream<T>,
                          ghost chunks: seq<seq<T>>, ghost cursors: seq<Option<Cursor>>, ghost known: nat)
    returns (out: seq<T>, asked: seq<Option<Cursor>>, pages: nat)
    requires Serves(up, chunks, cursors) && limit > 0 && known <= |chunks|
    requires Loaded(service.store, key, false) == After(up, known)
    modifies service
    ensures out == Flatten(chunks) <==> forall p: nat :: Reached(chunks, limit, known, p)
    ensures RoomyChunks(chunks, limit) ==> out == Flatten(chunks)
    ensures asked == cursors[known..|chunks|]
    ensures Loaded(service.store, key, false) == After(up, |chunks|)
    ensures Start(pages, limit) >= |Flatten(chunks)|
  {
    out, asked := [], [];
    pages := 0;
    var more := true;
    while more
      invariant ReadSoFar(chunks, cursors, limit, known, pages, out, asked, more)
      invariant Loaded(service.store, key, false) == After(up, KnownAfter(chunks, limit, known, pages))
      decreases more, |chunks| - KnownAfter(chunks, limit, known, pages), |Flatten(chunks)| - Start(pages, limit)
    {
      out, asked, more := ReadPage(service, key, pages, limit, up, out, asked, chunks, cursors, known);
      pages := pages + 1;
    }
    ReadingDone(chunks, cursors, limit, known, pages, out, asked);
  }

  /** One more page through the surviving cache; when it fetches nothing there is list left beyond it. */
  method ReadPage<T(!new)>(service: Service<T>, key: string, page: nat, limit: nat, up: Upstream<T>,
                           out: seq<T>, asked: seq<Option<Cursor>>,
                           ghost chunks: seq<seq<T>>, ghost cursors: seq<Option<Cursor>>, ghost known: nat)
    returns (out': seq<T>, asked': seq<Option<Cursor>>, more: bool)
    requires Serves(up, chunks, cursors) && limit > 0 && known <= |chunks|
    requires Loaded(service.store, key, false) == After(up, KnownAfter(chunks, limit, known, page))
    requires ReadSoFar(chunks, cursors, limit, known, page, out, asked, true)
    modifies service
    ensures Loaded(service.store, key, false) == After(up, KnownAfter(chunks, limit, known, page + 1))
    ensures ReadSoFar(chunks, cursors, limit, known, page + 1, out', asked', more)
    ensures more && KnownAfter(chunks, limit, known, page + 1) == KnownAfter(chunks, limit, known, page) ==>
              Start(page + 1, limit) <= |Flatten(chunks)|
  {
    ghost var need := (page + 1) * limit;
    StartIsProduct(page + 1, limit);
    FillIsNext(up, chunks, cursors, KnownAfter(chunks, limit, known, page), need, MAX_CHUNKS_PER_REQUEST);
    ReadStep(up, chunks, cursors, limit, known, page, out, asked);
    var reply, cs := service.GetPageCalmly(key, page, limit, up, need);
    out', asked', more := out + reply.collection, asked + cs, reply.hasMore;
  }

  /** All that holds between two pages. */
  ghost predicate ReadSoFar<T>(chunks: seq<seq<T>>, cursors: seq<Option<Cursor>>, limit: nat, known: nat,
                               pages: nat, out: seq<T>, asked: seq<Option<Cursor>>, more: bool)
    requires known <= |chunks| < |cursors|
  {
    var k := KnownAfter(chunks, limit, known, pages);
    && asked == cursors[known..k]
    && Reading(chunks, limit, k, pages, out, AllReached(chunks, limit, known, pages))
    && (!more ==> k == |chunks| && Start(pages, limit) >= |Flatten(chunks)|)
  }

  /** What one turn of the reading loop does; when it fetches nothing there is list left beyond its page. */
  lemma ReadStep<T>(up: Upstream<T>, chunks: seq<seq<T>>, cursors: seq<Option<Cursor>>, limit: nat, known: nat,
                    pages: nat, out: seq<T>, asked: seq<Option<Cursor>>)
    requires Serves(up, chunks, cursors) && limit > 0 && known <= |chunks|
    requires ReadSoFar(chunks, cursors, limit, known, pages, out, asked, true)
    ensures
      var k, n := KnownAfter(chunks, limit, known, pages), KnownAfter(chunks, limit, known, pages + 1);
      var p := SlicePage(After(up, n), pages, limit);
      && n == Next(chunks, k, Start(pages + 1, limit), MAX_CHUNKS_PER_REQUEST)
      && ReadSoFar(chunks, cursors, limit, known, pages + 1, out + p.collection, asked + cursors[k..n], p.hasMore)
      && (p.hasMore && n == k ==> Start(pages + 1, limit) <= |Flatten(chunks)|)
  {
    var k, n := KnownAfter(chunks, limit, known, pages), KnownAfter(chunks, limit, known, pages + 1);
    AfterServes(up, chunks, cursors, n);
    OnePageRead(chunks, limit, k, After(up, n), n, pages, out, AllReached(chunks, limit, known, pages));
    SliceSplit(cursors, known, k, n);
    StillNeeded(chunks, k, Start(pages + 1, limit));
  }

  lemma ReadingDone<T>(chunks: seq<seq<T>>, cursors: seq<Option<Cursor>>, limit: nat, known: nat,
                       pages: nat, out: seq<T>, asked: seq<Option<Cursor>>)
    requires known <= |chunks| < |cursors| && ReadSoFar(chunks, cursors, limit, known, pages, out, asked, false)
    ensures out == Flatten(chunks) <==> forall p: nat :: Reached(chunks, limit, known, p)
    ensures RoomyChunks(chunks, limit) ==> out == Flatten(chunks)
    ensures asked == cursors[known..|chunks|] && KnownAfter(chunks, limit, known, pages) == |chunks|
    ensures Start(pages, limit) >= |Flatten(chunks)|
  {
    assert Flatten(chunks)[..|Flatten(chunks)|] == Flatten(chunks);
    ReachedForGood(chunks, limit, known, pages);
    if RoomyChunks(chunks, limit) {
      RoomyReaches(chunks, limit, known, pages);
    }
  }

  /** Once all chunks are known every later page is reached, so all pages are if those read were. */
  lemma ReachedForGood<T>(chunks: seq<seq<T>>, limit: nat, known: nat, pages: nat)
    requires known <= |chunks| && KnownAfter(chunks, limit, known, pages) == |chunks|
    ensures AllReached(chunks, limit, known, pages) <==> forall p: nat :: Reached(chunks, limit, known, p)
  {
    forall p: nat | AllReached(chunks, limit, known, pages)
      ensures Reached(chunks, limit, known, p)
    {
      if p < pages {
        ReachedBefore(chunks, limit, known, pages, p);
      } else {
        AllKnown(chunks, limit, known, pages, p + 1);
        assert chunks[..|chunks|] == chunks;
      }
    }
    if forall p: nat :: Reached(chunks, limit, known, p) {
      ReachedAlways(chunks, limit, known, pages);
    }
  }

  lemma {:induction false} AllKnown<T>(chunks: seq<seq<T>>, limit: nat, known: nat, pages: nat, later: nat)
    requires known <= |chunks| && KnownAfter(chunks, limit, known, pages) == |chunks| && pages <= later
    ensures KnownAfter(chunks, limit, known, later) == |chunks|
    decreases later
  {
    if pages < later {
      AllKnown(chunks, limit, known, pages, later - 1);
    }
  }

  lemma {:induction false} ReachedBefore<T>(chunks: seq<seq<T>>, limit: nat, known: nat, pages: nat, p: nat)
    requires known <= |chunks| && AllReached(chunks, limit, known, pages) && p < pages
    ensures Reached(chunks, limit, known, p)
    decreases pages
  {
    if p < pages - 1 {
      ReachedBefore(chunks, limit, known, pages - 1, p);
    }
  }

  lemma {:induction false} ReachedAlways<T>(chunks: seq<seq<T>>, limit: nat, known: nat, pages: nat)
    requires known <= |chunks| && forall p: nat :: Reached(chunks, limit, known, p)
    ensures AllReached(chunks, limit, known, pages)
    decreases pages
  {
    if pages > 0 {
      ReachedAlways(chunks, limit, known, pages - 1);
    }
  }

  lemma SliceSplit<T>(s: seq<T>, i: nat, j: nat, k: nat)
    requires i <= j <= k <= |s|
    ensures s[i..j] + s[j..k] == s[i..k]
  {
  }

  /** A request that fetches nothing knew enough for its page. */
  lemma StillNeeded<T>(chunks: seq<seq<T>>, k: nat, need: nat)
    requires k <= |chunks|
    ensures Next(chunks, k, need, MAX_CHUNKS_PER_REQUEST) == k && k < |chunks| ==> need <= |Flatten(chunks)|
  {
    FlattenTake(chunks, k);
  }

  // ---- Without roomy chunks

  /** A cursor that spells its position: twenty one-item chunks 0, 1, ..., 19. */
  function Dribble(c: Option<Cursor>): Chunk<nat> {
    var at := if c.None? then 0 else |c.value|;
    Chunk([at], if at < 19 then Some(Spell(at + 1)) else None)
  }

  function Spell(n: nat): (r: string)
    ensures |r| == n
  {
    seq(n, _ => 'x')
  }

  lemma {:induction false} DribbleAfter(k: nat)
    requires k <= 19
    ensures After(Dribble, k) == ListState(seq(k, i => i), if k == 0 then None else Some(Spell(k)), false)
  {
    if k > 0 {
      DribbleAfter(k - 1);
    }
  }

  /**
   * The cap can lose items: with one-item chunks, page 0 of size 10 stops after eight
   * items while promising more, and page 1 starts at item 10, so nobody ever shows 8 and 9.
   */
  lemma {:induction false} CapCanSkipItems()
    ensures
      var first := Fill(Dribble, Empty(), 10, MAX_CHUNKS_PER_REQUEST);
      var second := Fill(Dribble, first, 20, MAX_CHUNKS_PER_REQUEST);
      var p0, p1 := SlicePage(first, 0, 10), SlicePage(second, 1, 10);
      && p0.collection == [0, 1, 2, 3, 4, 5, 6, 7] && p0.hasMore
      && |p1.collection| > 0 && p1.collection[0] == 10
  {
    assert After(Dribble, 0) == Empty();
    DribbleFill(0, 10);
    DribbleFill(8, 20);
    DribblePages();
  }

  lemma DribblePages()
    ensures SlicePage(After(Dribble, 8), 0, 10) == Page([0, 1, 2, 3, 4, 5, 6, 7], 0, 10, true)
    ensures SlicePage(After(Dribble, 16), 1, 10).collection == [10, 11, 12, 13, 14, 15]
  {
    CountingSlices();
    DribbleAfter(8);
    DribbleAfter(16);
  }

  lemma CountingSlices()
    ensures seq(8, i => i)[0..8] == [0, 1, 2, 3, 4, 5, 6, 7]
    ensures seq(16, i => i)[10..16] == [10, 11, 12, 13, 14, 15]
  {
  }

  lemma DribbleFill(k: nat, need: nat)
    requires k + 8 < need && k <= 11
    ensures Fill(Dribble, After(Dribble, k), need, MAX_CHUNKS_PER_REQUEST) == After(Dribble, k + 8)
  {
    var n := FillIsAfter(Dribble, k, need, MAX_CHUNKS_PER_REQUEST);
    DribbleAfter(n);
  }
}
