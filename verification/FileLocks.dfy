/** Per-filename upload locks: a table of weak references to mutexes, purged on a miss. */
module FileLocks {
  import opened Lists

  type Mutex = nat

  /** A lookup's outcome: the table afterwards and the mutex handed out. */
  datatype Found = Found(locks: map<string, Mutex>, mutex: Mutex)

  /** Only mutexes somebody still holds a strong reference to can be upgraded. */
  function LookUp(locks: map<string, Mutex>, alive: set<Mutex>, filename: string, next: Mutex): Found {
    if filename in locks && locks[filename] in alive then Found(locks, locks[filename])
    else
      var kept := map f | f in locks && locks[f] in alive :: locks[f];
      Found(kept[filename := next], next)
  }

  class AppState {
    var fileLocks: map<string, Mutex>
    var strong: map<Mutex, nat>
    var nextMutex: Mutex

    predicate Valid()
      reads this
    {
      (forall m :: m in strong ==> m < nextMutex && strong[m] > 0) &&
      (forall f :: f in fileLocks ==> fileLocks[f] < nextMutex)
    }

    constructor ()
      ensures Valid() && fileLocks == map[] && strong == map[]
    {
      fileLocks, strong, nextMutex := map[], map[], 0;
    }

    /** file_lock: the live mutex of the name, or a new one after purging dead entries. */
    method FileLock(filename: string) returns (lock: Mutex)
      requires Valid()
      modifies this
      ensures Valid()
      ensures
        var found := LookUp(old(fileLocks), old(strong).Keys, filename, old(nextMutex));
        && lock == found.mutex && fileLocks == found.locks
        && strong == old(strong)[lock := (if lock in old(strong) then old(strong)[lock] else 0) + 1]
    {
      if filename in fileLocks && fileLocks[filename] in strong {
        lock := fileLocks[filename];
        strong := strong[lock := strong[lock] + 1];
        return;
      }
      fileLocks := map f | f in fileLocks && fileLocks[f] in strong :: fileLocks[f];
      lock := nextMutex;
      nextMutex := nextMutex + 1;
      fileLocks := fileLocks[filename := lock];
      strong := strong[lock := 1];
    }

    /** Dropping one strong reference; the last one makes the weak entry dead. */
    method DropLock(lock: Mutex)
      requires Valid() && lock in strong
      modifies this`strong
      ensures Valid()
      ensures strong == if old(strong)[lock] == 1 then old(strong) - {lock}
                        else old(strong)[lock := old(strong)[lock] - 1]
    {
      if strong[lock] == 1 {
        strong := strong - {lock};
      } else {
        strong := strong[lock := strong[lock] - 1];
      }
    }
  }

  // ---- Handlers interleaved

  datatype Stage =
    | Arrived
    | HasLock(mutex: Mutex)
    | Inside(mutex: Mutex)
    | Done

  datatype Handler = Handler(filename: string, stage: Stage)

  datatype World = World(locks: map<string, Mutex>, next: Mutex, handlers: seq<Handler>)

  datatype Event =
    | Arrive(filename: string)
    | Find(h: nat)
    | Acquire(h: nat)
    | Release(h: nat)
    | DropRef(h: nat)

  predicate Refers(s: Stage) {
    s.HasLock? || s.Inside?
  }

  /** The mutexes with a strong reference. */
  function Alive(hs: seq<Handler>): (r: set<Mutex>)
    ensures forall h :: 0 <= h < |hs| && Refers(hs[h].stage) ==> hs[h].stage.mutex in r
    ensures forall m :: m in r ==> exists h :: 0 <= h < |hs| && Refers(hs[h].stage) && hs[h].stage.mutex == m
  {
    set h | 0 <= h < |hs| && Refers(hs[h].stage) :: hs[h].stage.mutex
  }

  predicate Possible(w: World, e: Event) {
    match e
    case Arrive(_) => true
    case Find(h) => h < |w.handlers| && w.handlers[h].stage.Arrived?
    case Acquire(h) =>
      h < |w.handlers| && w.handlers[h].stage.HasLock?
      && forall g :: 0 <= g < |w.handlers| ==> w.handlers[g].stage != Inside(w.handlers[h].stage.mutex)
    case Release(h) => h < |w.handlers| && w.handlers[h].stage.Inside?
    case DropRef(h) => h < |w.handlers| && w.handlers[h].stage.HasLock?
  }

  function Put(w: World, h: nat, s: Stage): World
    requires h < |w.handlers|
  {
    w.(handlers := w.handlers[h := w.handlers[h].(stage := s)])
  }

  function Happen(w: World, e: Event): World
    requires Possible(w, e)
  {
    match e
    case Arrive(f) => w.(handlers := w.handlers + [Handler(f, Arrived)])
    case Find(h) =>
      var found := LookUp(w.locks, Alive(w.handlers), w.handlers[h].filename, w.next);
      Put(w, h, HasLock(found.mutex)).(
        locks := found.locks, next := if found.mutex == w.next then w.next + 1 else w.next)
    case Acquire(h) => Put(w, h, Inside(w.handlers[h].stage.mutex))
    case Release(h) => Put(w, h, HasLock(w.handlers[h].stage.mutex))
    case DropRef(h) => Put(w, h, Done)
  }

  /** Live references agree with the table, the table shares no mutex, and a mutex lets one in. */
  ghost predicate Inv(w: World) {
    && (forall h :: 0 <= h < |w.handlers| && Refers(w.handlers[h].stage) ==>
          w.handlers[h].filename in w.locks && w.locks[w.handlers[h].filename] == w.handlers[h].stage.mutex)
    && (forall f :: f in w.locks ==> w.locks[f] < w.next)
    && (forall f, g :: f in w.locks && g in w.locks && f != g ==> w.locks[f] != w.locks[g])
    && (forall g, h :: 0 <= g < h < |w.handlers| && w.handlers[g].stage.Inside? && w.handlers[h].stage.Inside? ==>
          w.handlers[g].stage.mutex != w.handlers[h].stage.mutex)
  }

  lemma LookUpKeepsLive(w: World, h: nat)
    requires Inv(w) && Possible(w, Find(h))
    ensures
      var found := LookUp(w.locks, Alive(w.handlers), w.handlers[h].filename, w.next);
      && (forall g :: 0 <= g < |w.handlers| && Refers(w.handlers[g].stage) ==>
            w.handlers[g].filename in found.locks && found.locks[w.handlers[g].filename] == w.handlers[g].stage.mutex)
      && w.handlers[h].filename in found.locks && found.locks[w.handlers[h].filename] == found.mutex
  {
    var name := w.handlers[h].filename;
    forall g | 0 <= g < |w.handlers| && Refers(w.handlers[g].stage)
      ensures w.locks[w.handlers[g].filename] in Alive(w.handlers)
    {
    }
  }

  lemma FindKeepsInv(w: World, h: nat)
    requires Inv(w) && Possible(w, Find(h))
    ensures Inv(Happen(w, Find(h)))
  {
    LookUpKeepsLive(w, h);
  }

  /** A handler may move on while it keeps its mutex, alone inside if it goes inside, or lets go of it. */
  lemma PutKeepsInv(w: World, h: nat, s: Stage)
    requires Inv(w) && h < |w.handlers|
    requires Refers(s) ==> Refers(w.handlers[h].stage) && s.mutex == w.handlers[h].stage.mutex
    requires s.Inside? ==> forall g :: 0 <= g < |w.handlers| ==> w.handlers[g].stage != Inside(s.mutex)
    ensures Inv(Put(w, h, s))
  {
  }

  lemma StepKeepsInv(w: World, e: Event)
    requires Inv(w) && Possible(w, e)
    ensures Inv(Happen(w, e))
  {
    match e
    case Arrive(f) =>
    case Find(h) => FindKeepsInv(w, h);
    case Acquire(h) => PutKeepsInv(w, h, Inside(w.handlers[h].stage.mutex));
    case Release(h) => PutKeepsInv(w, h, HasLock(w.handlers[h].stage.mutex));
    case DropRef(h) => PutKeepsInv(w, h, Done);
  }

  ghost predicate IsRun(worlds: seq<World>, events: seq<Event>) {
    && |worlds| == |events| + 1 && worlds[0] == World(map[], 0, [])
    && forall k :: 0 <= k < |events| ==> Possible(worlds[k], events[k]) && worlds[k + 1] == Happen(worlds[k], events[k])
  }

  /** Two live references are to one mutex exactly when they are for one filename. */
  ghost predicate MutexPerFilename(w: World) {
    forall g, h :: 0 <= g < h < |w.handlers| && Refers(w.handlers[g].stage) && Refers(w.handlers[h].stage) ==>
      (w.handlers[g].stage.mutex == w.handlers[h].stage.mutex <==> w.handlers[g].filename == w.handlers[h].filename)
  }

  ghost predicate InsideOncePerFilename(w: World) {
    forall g, h :: 0 <= g < h < |w.handlers| && w.handlers[g].stage.Inside? && w.handlers[h].stage.Inside? ==>
      w.handlers[g].filename != w.handlers[h].filename
  }

  /**
   * In every run, however entries die and are purged: live holders share a mutex exactly
   * when they share a filename, and at most one of them per filename is inside.
   */
  lemma {:induction false} OneInsidePerFilename(worlds: seq<World>, events: seq<Event>, k: nat)
    requires IsRun(worlds, events) && k < |worlds|
    ensures Inv(worlds[k])
    ensures MutexPerFilename(worlds[k])
    ensures InsideOncePerFilename(worlds[k])
  {
    if k > 0 {
      OneInsidePerFilename(worlds, events, k - 1);
      StepKeepsInv(worlds[k - 1], events[k - 1]);
    }
  }

  /**
   * In every run a handler with its lock can go inside if and only if no handler for the same
   * filename is inside: uploads of other files never hold it up.
   */
  lemma GoesInsideIff(worlds: seq<World>, events: seq<Event>, k: nat, h: nat)
    requires IsRun(worlds, events) && k < |worlds| && h < |worlds[k].handlers| && worlds[k].handlers[h].stage.HasLock?
    ensures Possible(worlds[k], Acquire(h)) <==>
              forall g :: 0 <= g < |worlds[k].handlers| && worlds[k].handlers[g].stage.Inside? ==>
                worlds[k].handlers[g].filename != worlds[k].handlers[h].filename
  {
    OneInsidePerFilename(worlds, events, k);
    var w := worlds[k];
    forall g | 0 <= g < |w.handlers| && w.handlers[g].stage.Inside?
      ensures w.handlers[g].stage.mutex == w.handlers[h].stage.mutex <==>
                w.handlers[g].filename == w.handlers[h].filename
    {
      assert g != h && Refers(w.handlers[g].stage) && Refers(w.handlers[h].stage);
    }
  }

  /** A handler that has arrived gets a lock: the one a live handler for its filename has, or one nobody has. */
  lemma FoundLock(worlds: seq<World>, events: seq<Event>, k: nat)
    requires IsRun(worlds, events) && k < |events| && events[k].Find?
    ensures
      var w, h, v := worlds[k], events[k].h, worlds[k + 1];
      && v.handlers[h].stage.HasLock? && v.handlers[h].filename == w.handlers[h].filename
      && forall g :: 0 <= g < |w.handlers| && Refers(w.handlers[g].stage) ==>
           (w.handlers[g].stage.mutex == v.handlers[h].stage.mutex <==>
             w.handlers[g].filename == w.handlers[h].filename)
  {
    OneInsidePerFilename(worlds, events, k);
    OneInsidePerFilename(worlds, events, k + 1);
    var w, h, v := worlds[k], events[k].h, worlds[k + 1];
    forall g | 0 <= g < |w.handlers| && Refers(w.handlers[g].stage)
      ensures w.handlers[g].stage.mutex == v.handlers[h].stage.mutex <==>
                w.handlers[g].filename == w.handlers[h].filename
    {
      assert g != h && v.handlers[g] == w.handlers[g] && Refers(v.handlers[h].stage);
      assert MutexPerFilename(v);
    }
  }

  /** A miss leaves no dead entry behind: the table then names live uploads and the new one only. */
  lemma MissPurges(w: World, h: nat, f: string)
    requires Inv(w) && Possible(w, Find(h))
    requires !(w.handlers[h].filename in w.locks && w.locks[w.handlers[h].filename] in Alive(w.handlers))
    ensures
      var name := w.handlers[h].filename;
      f in Happen(w, Find(h)).locks <==>
        f == name || exists g :: 0 <= g < |w.handlers| && Refers(w.handlers[g].stage) && w.handlers[g].filename == f
  {
    if f in w.locks && w.locks[f] in Alive(w.handlers) {
      var g :| 0 <= g < |w.handlers| && Refers(w.handlers[g].stage) && w.handlers[g].stage.mutex == w.locks[f];
      assert w.handlers[g].filename == f;
    }
  }
}
