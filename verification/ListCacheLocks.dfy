/** What the list cache's lock table excludes, and what it does not. */
module ListCacheLocks {
  import opened Lists
  import opened ListCache
  import opened ListCacheRuns

  /** Mutual exclusion per lock object. */
  ghost predicate LocksHeldOnce<T>(w: World<T>) {
    && (forall h :: 0 <= h < |w.handlers| && Holds(w.handlers[h].stage) ==> w.handlers[h].stage.lock in w.held)
    && (forall g, h :: 0 <= g < h < |w.handlers| && Holds(w.handlers[g].stage) && Holds(w.handlers[h].stage) ==>
          w.handlers[g].stage.lock != w.handlers[h].stage.lock)
  }

  predicate Holds<T>(s: Stage<T>) {
    s.Locked? || s.Fetching?
  }

  /** A request that moves to a stage keeps exclusion if its lock there is nobody else's. */
  lemma MoveHoldsOnce<T>(w: World<T>, h: nat, stage: Stage<T>)
    requires LocksHeldOnce(w) && At(w, h)
    requires Holds(stage) ==> stage.lock in w.held
    requires Holds(stage) ==> forall g :: 0 <= g < |w.handlers| && g != h && Holds(w.handlers[g].stage) ==>
               w.handlers[g].stage.lock != stage.lock
    ensures LocksHeldOnce(MoveTo(w, h, stage))
  {
  }

  lemma AcquireHoldsOnce<T>(w: World<T>, h: nat)
    requires LocksHeldOnce(w) && Possible(w, AcquireLock(h))
    ensures LocksHeldOnce(MoveTo(w, h, Locked(w.handlers[h].stage.lock)).(held := w.held + {w.handlers[h].stage.lock}))
  {
    var lock := w.handlers[h].stage.lock;
    var grown := w.(held := w.held + {lock});
    assert LocksHeldOnce(grown);
    MoveHoldsOnce(grown, h, Locked(lock));
  }

  lemma ReleaseHoldsOnce<T>(w: World<T>, h: nat, stage: Stage<T>)
    requires LocksHeldOnce(w) && At(w, h) && Holds(w.handlers[h].stage) && !Holds(stage)
    ensures LocksHeldOnce(MoveTo(w, h, stage).(held := w.held - {w.handlers[h].stage.lock}))
  {
    var v := MoveTo(w, h, stage);
    MoveHoldsOnce(w, h, stage);
    forall g | 0 <= g < |v.handlers| && Holds(v.handlers[g].stage)
      ensures v.handlers[g].stage.lock in w.held - {w.handlers[h].stage.lock}
    {
      assert g != h && v.handlers[g] == w.handlers[g];
    }
  }

  lemma StepHoldsOnce<T>(ups: Upstreams<T>, w: World<T>, e: Event)
    requires LocksHeldOnce(w) && Possible(w, e)
    ensures LocksHeldOnce(Happen(ups, w, e))
  {
    match e
    case FirstLoad(h, fault) => MoveHoldsOnce(w, h, Happen(ups, w, e).handlers[h].stage);
    case LookUpLock(h) => MoveHoldsOnce(w, h, Happen(ups, w, e).handlers[h].stage);
    case InsertLock(h) => MoveHoldsOnce(w, h, Waiting(w.nextLock));
    case AcquireLock(h) => AcquireHoldsOnce(w, h);
    case SecondLoad(h, fault) => MoveHoldsOnce(w, h, Happen(ups, w, e).handlers[h].stage);
    case Fetch(h, fault) =>
      if fault { ReleaseHoldsOnce(w, h, Errored); } else { MoveHoldsOnce(w, h, Happen(ups, w, e).handlers[h].stage); }
    case Finish(h, saved) => ReleaseHoldsOnce(w, h, Happen(ups, w, e).handlers[h].stage);
    case _ =>
  }

  lemma {:induction false} RunHoldsOnce<T>(ups: Upstreams<T>, worlds: seq<World<T>>, events: seq<Event>, i: nat)
    requires IsRun(ups, worlds, events) && i < |worlds|
    ensures LocksHeldOnce(worlds[i])
  {
    if i > 0 {
      RunHoldsOnce(ups, worlds, events, i - 1);
      StepHoldsOnce(ups, worlds[i - 1], events[i - 1]);
    }
  }

  // ---- Exclusion per key

  predicate Refers<T>(s: Stage<T>) {
    s.Waiting? || Holds(s)
  }

  function KeyOf<T>(w: World<T>, h: nat): string
    requires At(w, h)
  {
    w.handlers[h].request.key
  }

  /** Every held lock has its holder. */
  ghost predicate HeldByHolders<T>(w: World<T>) {
    forall l :: l in w.held ==>
      exists h :: 0 <= h < |w.handlers| && Holds(w.handlers[h].stage) && w.handlers[h].stage.lock == l
  }

  /** Who has got to a lock has the table's for its key; who is about to make one is alone with that and finds none. */
  ghost predicate AgreesWithTable<T>(w: World<T>) {
    && (forall h :: 0 <= h < |w.handlers| && Refers(w.handlers[h].stage) ==>
          KeyOf(w, h) in w.inflight && w.inflight[KeyOf(w, h)] == w.handlers[h].stage.lock)
    && (forall h :: 0 <= h < |w.handlers| && w.handlers[h].stage.Inserting? ==> KeyOf(w, h) !in w.inflight)
    && (forall g, h :: 0 <= g < h < |w.handlers| && w.handlers[g].stage.Inserting? && w.handlers[h].stage.Inserting? ==>
          KeyOf(w, g) != KeyOf(w, h))
    && (forall k :: k in w.inflight ==> w.inflight[k] < w.nextLock)
    && (forall k, l :: k in w.inflight && l in w.inflight && k != l ==> w.inflight[k] != w.inflight[l])
  }

  /** The requests of each key that have got to a lock share one. */
  ghost predicate SharesLock<T>(w: World<T>) {
    LocksHeldOnce(w) && HeldByHolders(w) && AgreesWithTable(w)
  }

  /**
   * What the lock table does not prevent: a lookup while another request of the key is
   * between its lookup and its insert, and an eviction while a request of the key has the lock.
   */
  predicate Orderly<T>(w: World<T>, e: Event)
    requires Possible(w, e)
  {
    match e
    case LookUpLock(h) =>
      forall g :: 0 <= g < |w.handlers| && g != h && w.handlers[g].stage.Inserting? ==> KeyOf(w, g) != KeyOf(w, h)
    case EvictLock(key) =>
      forall g :: 0 <= g < |w.handlers| && Refers(w.handlers[g].stage) ==> KeyOf(w, g) != key
    case _ => true
  }

  /** Two requests that share the table's lock and are past it are for different keys. */
  lemma SharingExcludes<T>(w: World<T>, g: nat, h: nat)
    requires SharesLock(w) && g < h < |w.handlers| && Holds(w.handlers[g].stage) && Holds(w.handlers[h].stage)
    ensures KeyOf(w, g) != KeyOf(w, h)
  {
    assert w.handlers[g].stage.lock != w.handlers[h].stage.lock;
  }

  lemma HeldKept<T>(w: World<T>, v: World<T>)
    requires HeldByHolders(w) && v.held <= w.held && |v.handlers| >= |w.handlers|
    requires forall h :: 0 <= h < |w.handlers| && Holds(w.handlers[h].stage) && w.handlers[h].stage.lock in v.held ==>
               Holds(v.handlers[h].stage) && v.handlers[h].stage.lock == w.handlers[h].stage.lock
    ensures HeldByHolders(v)
  {
    forall l | l in v.held
      ensures exists h :: 0 <= h < |v.handlers| && Holds(v.handlers[h].stage) && v.handlers[h].stage.lock == l
    {
      var h :| 0 <= h < |w.handlers| && Holds(w.handlers[h].stage) && w.handlers[h].stage.lock == l;
      assert Holds(v.handlers[h].stage);
    }
  }

  /** With the table as it was, and nobody new at a lock or about to make one, it still agrees. */
  lemma TableKept<T>(w: World<T>, v: World<T>)
    requires AgreesWithTable(w) && v.inflight == w.inflight && v.nextLock == w.nextLock
    requires forall h :: 0 <= h < |v.handlers| && (Refers(v.handlers[h].stage) || v.handlers[h].stage.Inserting?) ==>
               && h < |w.handlers| && v.handlers[h].request == w.handlers[h].request
               && (Refers(v.handlers[h].stage) ==>
                    Refers(w.handlers[h].stage) && v.handlers[h].stage.lock == w.handlers[h].stage.lock)
               && (v.handlers[h].stage.Inserting? ==> w.handlers[h].stage.Inserting?)
    ensures AgreesWithTable(v)
  {
  }

  lemma LookUpSharesIff<T>(ups: Upstreams<T>, w: World<T>, h: nat)
    requires SharesLock(w) && Possible(w, LookUpLock(h)) && LocksHeldOnce(Happen(ups, w, LookUpLock(h)))
    ensures SharesLock(Happen(ups, w, LookUpLock(h))) <==> Orderly(w, LookUpLock(h))
  {
    var v := Happen(ups, w, LookUpLock(h));
    HeldKept(w, v);
    if Orderly(w, LookUpLock(h)) {
      LookUpAgrees(ups, w, h);
    } else {
      var g :| 0 <= g < |w.handlers| && g != h && w.handlers[g].stage.Inserting? && KeyOf(w, g) == KeyOf(w, h);
      assert v.handlers[g] == w.handlers[g] && v.handlers[h].stage.Inserting?;
    }
  }

  lemma LookUpAgrees<T>(ups: Upstreams<T>, w: World<T>, h: nat)
    requires AgreesWithTable(w) && Possible(w, LookUpLock(h)) && Orderly(w, LookUpLock(h))
    ensures AgreesWithTable(Happen(ups, w, LookUpLock(h)))
  {
  }

  lemma InsertShares<T>(ups: Upstreams<T>, w: World<T>, h: nat)
    requires SharesLock(w) && Possible(w, InsertLock(h)) && LocksHeldOnce(Happen(ups, w, InsertLock(h)))
    ensures SharesLock(Happen(ups, w, InsertLock(h)))
  {
    HeldKept(w, Happen(ups, w, InsertLock(h)));
    InsertAgrees(ups, w, h);
  }

  lemma InsertAgrees<T>(ups: Upstreams<T>, w: World<T>, h: nat)
    requires AgreesWithTable(w) && Possible(w, InsertLock(h))
    ensures AgreesWithTable(Happen(ups, w, InsertLock(h)))
  {
    var v := Happen(ups, w, InsertLock(h));
    forall g | 0 <= g < |v.handlers| && v.handlers[g].stage.Inserting?
      ensures KeyOf(v, g) !in v.inflight
    {
      assert g != h && v.handlers[g] == w.handlers[g];
    }
  }

  lemma AcquireShares<T>(ups: Upstreams<T>, w: World<T>, h: nat)
    requires SharesLock(w) && Possible(w, AcquireLock(h)) && LocksHeldOnce(Happen(ups, w, AcquireLock(h)))
    ensures SharesLock(Happen(ups, w, AcquireLock(h)))
  {
    var v := Happen(ups, w, AcquireLock(h));
    TableKept(w, v);
    forall l | l in v.held
      ensures exists g :: 0 <= g < |v.handlers| && Holds(v.handlers[g].stage) && v.handlers[g].stage.lock == l
    {
      if l == w.handlers[h].stage.lock {
        assert Holds(v.handlers[h].stage);
      } else {
        var g :| 0 <= g < |w.handlers| && Holds(w.handlers[g].stage) && w.handlers[g].stage.lock == l;
        assert v.handlers[g] == w.handlers[g];
      }
    }
  }

  /** A request may move on with the lock it had, or let go of it. */
  lemma MovedShares<T>(w: World<T>, v: World<T>, h: nat, stage: Stage<T>)
    requires SharesLock(w) && At(w, h) && LocksHeldOnce(v)
    requires v.handlers == w.handlers[h := w.handlers[h].(stage := stage)]
    requires v.inflight == w.inflight && v.nextLock == w.nextLock
    requires !stage.Inserting?
    requires Refers(stage) ==> Refers(w.handlers[h].stage) && stage.lock == w.handlers[h].stage.lock
    requires v.held <= w.held
    requires Holds(w.handlers[h].stage) && w.handlers[h].stage.lock in v.held ==> Holds(stage)
    ensures SharesLock(v)
  {
    HeldKept(w, v);
    TableKept(w, v);
  }

  lemma ArriveShares<T>(w: World<T>, v: World<T>, r: Request)
    requires SharesLock(w) && LocksHeldOnce(v) && v == w.(handlers := w.handlers + [Handler(r, Arrived)])
    ensures SharesLock(v)
  {
    HeldKept(w, v);
    TableKept(w, v);
  }

  lemma EvictSharesIff<T>(ups: Upstreams<T>, w: World<T>, key: string)
    requires SharesLock(w) && LocksHeldOnce(Happen(ups, w, EvictLock(key)))
    ensures SharesLock(Happen(ups, w, EvictLock(key))) <==> Orderly(w, EvictLock(key))
  {
    var v := Happen(ups, w, EvictLock(key));
    HeldKept(w, v);
    if Orderly(w, EvictLock(key)) {
      EvictAgrees(ups, w, key);
    } else {
      var g :| 0 <= g < |w.handlers| && Refers(w.handlers[g].stage) && KeyOf(w, g) == key;
      assert Refers(v.handlers[g].stage) && KeyOf(v, g) !in v.inflight;
    }
  }

  lemma EvictAgrees<T>(ups: Upstreams<T>, w: World<T>, key: string)
    requires AgreesWithTable(w) && Orderly(w, EvictLock(key))
    ensures AgreesWithTable(Happen(ups, w, EvictLock(key)))
  {
  }

  /** One event keeps the requests of every key on one lock if and only if it is orderly. */
  lemma StepSharesIff<T>(ups: Upstreams<T>, w: World<T>, e: Event)
    requires SharesLock(w) && Possible(w, e)
    ensures SharesLock(Happen(ups, w, e)) <==> Orderly(w, e)
  {
    StepHoldsOnce(ups, w, e);
    match e
    case LookUpLock(h) => LookUpSharesIff(ups, w, h);
    case InsertLock(h) => InsertShares(ups, w, h);
    case AcquireLock(h) => AcquireShares(ups, w, h);
    case EvictLock(key) => EvictSharesIff(ups, w, key);
    case Arrive(r) => ArriveShares(w, Happen(ups, w, e), r);
    case DropKey(key) =>
    case _ => MovedShares(w, Happen(ups, w, e), e.h, Happen(ups, w, e).handlers[e.h].stage);
  }

  /**
   * In a run, the requests of each key stay on one lock up to point n if and only if every event
   * before it was orderly.
   */
  lemma RunSharesIff<T>(ups: Upstreams<T>, worlds: seq<World<T>>, events: seq<Event>, n: nat)
    requires IsRun(ups, worlds, events) && n < |worlds|
    ensures (forall i :: 0 <= i <= n ==> SharesLock(worlds[i])) <==>
              (forall i :: 0 <= i < n ==> Orderly(worlds[i], events[i]))
  {
    if forall i :: 0 <= i <= n ==> SharesLock(worlds[i]) {
      forall i | 0 <= i < n
        ensures Orderly(worlds[i], events[i])
      {
        assert SharesLock(worlds[i]) && SharesLock(worlds[i + 1]);
        StepSharesIff(ups, worlds[i], events[i]);
      }
    }
    if forall i :: 0 <= i < n ==> Orderly(worlds[i], events[i]) {
      OrderlyRunShares(ups, worlds, events, n);
    }
  }

  lemma {:induction false} OrderlyRunShares<T>(ups: Upstreams<T>, worlds: seq<World<T>>, events: seq<Event>, n: nat)
    requires IsRun(ups, worlds, events) && n < |worlds|
    requires forall i :: 0 <= i < n ==> Orderly(worlds[i], events[i])
    ensures forall i :: 0 <= i <= n ==> SharesLock(worlds[i])
  {
    if n > 0 {
      OrderlyRunShares(ups, worlds, events, n - 1);
      StepSharesIff(ups, worlds[n - 1], events[n - 1]);
    }
  }

  /** After orderly events only, no two requests for one key are past the lock. */
  lemma OrderlyRunsExclude<T>(ups: Upstreams<T>, worlds: seq<World<T>>, events: seq<Event>, n: nat, g: nat, h: nat)
    requires IsRun(ups, worlds, events) && n < |worlds|
    requires forall i :: 0 <= i < n ==> Orderly(worlds[i], events[i])
    requires g < h < |worlds[n].handlers| && Holds(worlds[n].handlers[g].stage) && Holds(worlds[n].handlers[h].stage)
    ensures KeyOf(worlds[n], g) != KeyOf(worlds[n], h)
  {
    OrderlyRunShares(ups, worlds, events, n);
    SharingExcludes(worlds[n], g, h);
  }

  // ---- Every disorderly event can end in two requests past the lock

  predicate Runnable<T>(ups: Upstreams<T>, w: World<T>, events: seq<Event>)
    decreases |events|
  {
    events == [] || (Possible(w, events[0]) && Runnable(ups, Happen(ups, w, events[0]), events[1..]))
  }

  function Outcome<T>(ups: Upstreams<T>, w: World<T>, events: seq<Event>): World<T>
    requires Runnable(ups, w, events)
    decreases |events|
  {
    if events == [] then w else Outcome(ups, Happen(ups, w, events[0]), events[1..])
  }

  lemma First<T>(ups: Upstreams<T>, w: World<T>, e: Event, rest: seq<Event>)
    requires Possible(w, e) && Runnable(ups, Happen(ups, w, e), rest)
    ensures Runnable(ups, w, [e] + rest) && Outcome(ups, w, [e] + rest) == Outcome(ups, Happen(ups, w, e), rest)
  {
    assert ([e] + rest)[1..] == rest;
  }

  /** Two requests for the key are past the lock. */
  ghost predicate TwoPast<T>(w: World<T>, key: string) {
    exists g, h :: 0 <= g < h < |w.handlers| && Holds(w.handlers[g].stage) && Holds(w.handlers[h].stage)
                && KeyOf(w, g) == key == KeyOf(w, h)
  }

  lemma PastTwo<T>(w: World<T>, g: nat, h: nat)
    requires At(w, g) && At(w, h) && g != h && Holds(w.handlers[g].stage) && Holds(w.handlers[h].stage)
    requires KeyOf(w, g) == KeyOf(w, h)
    ensures TwoPast(w, KeyOf(w, g))
  {
    if g < h {
      assert KeyOf(w, h) == KeyOf(w, g);
    } else {
      assert KeyOf(w, g) == KeyOf(w, h);
    }
  }

  lemma HeldBelowNext<T>(w: World<T>)
    requires SharesLock(w)
    ensures forall l :: l in w.held ==> l < w.nextLock
  {
    forall l | l in w.held
      ensures l < w.nextLock
    {
      var h :| 0 <= h < |w.handlers| && Holds(w.handlers[h].stage) && w.handlers[h].stage.lock == l;
    }
  }

  /** One request alone goes from inserting its lock to holding it. */
  lemma InsertAndHold<T>(ups: Upstreams<T>, w: World<T>, h: nat) returns (v: World<T>)
    requires At(w, h) && w.handlers[h].stage.Inserting? && forall l :: l in w.held ==> l < w.nextLock
    ensures Runnable(ups, w, [InsertLock(h), AcquireLock(h)]) && v == Outcome(ups, w, [InsertLock(h), AcquireLock(h)])
    ensures v.handlers == w.handlers[h := Handler(w.handlers[h].request, Locked(w.nextLock))]
    ensures v.held == w.held + {w.nextLock} && v.nextLock == w.nextLock + 1
  {
    var u := Happen(ups, w, InsertLock(h));
    v := Happen(ups, u, AcquireLock(h));
    First(ups, u, AcquireLock(h), []);
    First(ups, w, InsertLock(h), [AcquireLock(h)]);
    assert [InsertLock(h)] + [AcquireLock(h)] == [InsertLock(h), AcquireLock(h)];
    assert [AcquireLock(h)] + [] == [AcquireLock(h)];
  }

  lemma {:induction false} Joined<T>(ups: Upstreams<T>, w: World<T>, a: seq<Event>, b: seq<Event>)
    requires Runnable(ups, w, a) && Runnable(ups, Outcome(ups, w, a), b)
    ensures Runnable(ups, w, a + b) && Outcome(ups, w, a + b) == Outcome(ups, Outcome(ups, w, a), b)
    decreases |a|
  {
    if a == [] {
      assert a + b == b;
    } else {
      Joined(ups, Happen(ups, w, a[0]), a[1..], b);
      assert (a + b)[0] == a[0] && (a + b)[1..] == a[1..] + b;
    }
  }

  /** Two requests that both found no lock each make their own. */
  lemma BothInsert<T>(ups: Upstreams<T>, w: World<T>, g: nat, h: nat) returns (tail: seq<Event>)
    requires At(w, g) && At(w, h) && g != h && w.handlers[g].stage.Inserting? && w.handlers[h].stage.Inserting?
    requires KeyOf(w, g) == KeyOf(w, h) && forall l :: l in w.held ==> l < w.nextLock
    ensures Runnable(ups, w, tail) && TwoPast(Outcome(ups, w, tail), KeyOf(w, h))
  {
    var u := InsertAndHold(ups, w, g);
    var v := InsertAndHold(ups, u, h);
    tail := [InsertLock(g), AcquireLock(g)] + [InsertLock(h), AcquireLock(h)];
    Joined(ups, w, [InsertLock(g), AcquireLock(g)], [InsertLock(h), AcquireLock(h)]);
    PastTwo(v, g, h);
  }

  /** A newcomer for a key without a lock in the table gets to a lock of its own, past everybody. */
  lemma Newcomer<T>(ups: Upstreams<T>, w: World<T>, key: string) returns (tail: seq<Event>)
    requires key !in w.inflight && forall l :: l in w.held ==> l < w.nextLock
    ensures Runnable(ups, w, tail)
    ensures Outcome(ups, w, tail).handlers == w.handlers + [Handler(Request(key, 0, 1), Locked(w.nextLock))]
  {
    var q := |w.handlers|;
    var w1 := Happen(ups, w, Arrive(Request(key, 0, 1)));
    var w2 := Happen(ups, w1, FirstLoad(q, true));
    assert Need(Request(key, 0, 1)) == 1;
    var w3 := Happen(ups, w2, LookUpLock(q));
    assert w3.handlers == w.handlers + [Handler(Request(key, 0, 1), Inserting)];
    var v := InsertAndHold(ups, w3, q);
    First(ups, w2, LookUpLock(q), [InsertLock(q), AcquireLock(q)]);
    First(ups, w1, FirstLoad(q, true), [LookUpLock(q)] + [InsertLock(q), AcquireLock(q)]);
    First(ups, w, Arrive(Request(key, 0, 1)),
          [FirstLoad(q, true)] + ([LookUpLock(q)] + [InsertLock(q), AcquireLock(q)]));
    tail := [Arrive(Request(key, 0, 1))] + ([FirstLoad(q, true)] + ([LookUpLock(q)] + [InsertLock(q), AcquireLock(q)]));
  }

  /** A request that has the table's lock, or the one that holds it, is or can get past it. */
  lemma GetPast<T>(ups: Upstreams<T>, w: World<T>, g: nat, v: World<T>) returns (p: nat, first: seq<Event>)
    requires SharesLock(w) && At(w, g) && Refers(w.handlers[g].stage) && v == Happen(ups, w, EvictLock(KeyOf(w, g)))
    ensures Runnable(ups, v, first)
    ensures
      var u := Outcome(ups, v, first);
      && |u.handlers| == |w.handlers| && u.inflight == v.inflight && u.nextLock == v.nextLock
      && u.held <= v.held + {w.handlers[g].stage.lock}
      && At(u, p) && Holds(u.handlers[p].stage) && KeyOf(u, p) == KeyOf(w, g)
  {
    var lock := w.handlers[g].stage.lock;
    first := [];
    if lock in w.held {
      p :| 0 <= p < |w.handlers| && Holds(w.handlers[p].stage) && w.handlers[p].stage.lock == lock;
      assert w.inflight[KeyOf(w, p)] == w.inflight[KeyOf(w, g)];
    } else {
      p := g;
      First(ups, v, AcquireLock(g), []);
      first := [AcquireLock(g)] + [];
    }
  }

  /**
   * And the converse: while requests share their locks, any event that is not orderly can be
   * continued to a state with two requests for its key past the lock at the same time.
   */
  lemma DisorderAdmitsTwo<T>(ups: Upstreams<T>, w: World<T>, e: Event) returns (tail: seq<Event>, key: string)
    requires SharesLock(w) && Possible(w, e) && !Orderly(w, e)
    ensures key == if e.LookUpLock? then KeyOf(w, e.h) else e.key
    ensures Runnable(ups, Happen(ups, w, e), tail) && TwoPast(Outcome(ups, Happen(ups, w, e), tail), key)
  {
    var v := Happen(ups, w, e);
    HeldBelowNext(w);
    if e.LookUpLock? {
      var g :| 0 <= g < |w.handlers| && g != e.h && w.handlers[g].stage.Inserting? && KeyOf(w, g) == KeyOf(w, e.h);
      key := KeyOf(w, e.h);
      tail := BothInsert(ups, v, g, e.h);
    } else {
      key := e.key;
      var g :| 0 <= g < |w.handlers| && Refers(w.handlers[g].stage) && KeyOf(w, g) == key;
      var p, first := GetPast(ups, w, g, v);
      var u := Outcome(ups, v, first);
      var rest := Newcomer(ups, u, key);
      Joined(ups, v, first, rest);
      tail := first + rest;
      PastTwo(Outcome(ups, u, rest), p, |u.handlers|);
    }
  }

  lemma RunSnoc<T>(ups: Upstreams<T>, worlds: seq<World<T>>, events: seq<Event>, e: Event) returns (w: World<T>)
    requires IsRun(ups, worlds, events) && Possible(worlds[|events|], e)
    ensures w == Happen(ups, worlds[|events|], e)
    ensures IsRun(ups, worlds + [w], events + [e])
  {
    w := Happen(ups, worlds[|events|], e);
  }

  /** The same event for two requests that stand at the same point. */
  lemma BothDo<T>(ups: Upstreams<T>, worlds: seq<World<T>>, events: seq<Event>, e: Event, f: Event)
    returns (worlds': seq<World<T>>, events': seq<Event>)
    requires IsRun(ups, worlds, events) && Possible(worlds[|events|], e)
    requires Possible(Happen(ups, worlds[|events|], e), f)
    ensures IsRun(ups, worlds', events')
    ensures worlds'[|events'|] == Happen(ups, Happen(ups, worlds[|events|], e), f)
  {
    var v := RunSnoc(ups, worlds, events, e);
    assert (worlds + [v])[|events + [e]|] == v;
    var w := RunSnoc(ups, worlds + [v], events + [e], f);
    worlds', events' := worlds + [v] + [w], events + [e] + [f];
  }

  function Pair<T>(r: Request, s: Stage<T>, t: Stage<T>): seq<Handler<T>> {
    [Handler(r, s), Handler(r, t)]
  }

  /** For instance: two requests that both miss the table fetch the same list at once. */
  lemma TwoFetchAtOnce(ups: Upstreams<nat>) returns (worlds: seq<World<nat>>, events: seq<Event>)
    ensures IsRun(ups, worlds, events)
    ensures
      var hs := worlds[|events|].handlers;
      && |hs| == 2 && hs[0].request.key == hs[1].request.key
      && hs[0].stage.Fetching? && hs[1].stage.Fetching?
  {
    var r := Request("k", 0, 1);
    worlds, events := BothMiss(ups, r);
    worlds, events := BothDo(ups, worlds, events, InsertLock(0), InsertLock(1));
    assert worlds[|events|].handlers == Pair(r, Waiting(0), Waiting(1));
    worlds, events := BothDo(ups, worlds, events, AcquireLock(0), AcquireLock(1));
    assert worlds[|events|].handlers == Pair(r, Locked(0), Locked(1));
    worlds, events := BothDo(ups, worlds, events, SecondLoad(0, false), SecondLoad(1, false));
  }

  lemma BothMiss(ups: Upstreams<nat>, r: Request) returns (worlds: seq<World<nat>>, events: seq<Event>)
    requires Need(r) > 0
    ensures IsRun(ups, worlds, events)
    ensures worlds[|events|] == World(map[], map[], 0, {}, Pair(r, Inserting, Inserting))
  {
    worlds, events := [Start()], [];
    worlds, events := BothDo(ups, worlds, events, Arrive(r), Arrive(r));
    assert worlds[|events|] == World(map[], map[], 0, {}, Pair(r, Arrived, Arrived));
    worlds, events := BothDo(ups, worlds, events, FirstLoad(0, false), FirstLoad(1, false));
    assert worlds[|events|] == World(map[], map[], 0, {}, Pair(r, Missed, Missed));
    worlds, events := BothDo(ups, worlds, events, LookUpLock(0), LookUpLock(1));
    assert worlds[|events|] == World(map[], map[], 0, {}, Pair(r, Inserting, Inserting));
  }
}
