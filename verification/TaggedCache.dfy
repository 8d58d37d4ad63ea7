/** The response cache with its tag indexes: what an invalidation by tag can be relied on to remove. */
module TaggedCache {
  import opened CacheKeys
  import opened Lists

  /** A cached response; `tag` remembers which index, if any, the last write filed it under. */
  datatype Entry = Entry(payload: string, expireAt: nat, tag: Option<string>)

  /** A sorted set of data keys scored by expiry, itself expiring. */
  datatype Index = Index(members: map<string, nat>, expireAt: nat)

  /** Redis at one clock reading, in milliseconds. */
  datatype State = State(now: nat, data: map<string, Entry>, indexes: map<string, Index>)

  const DEL_CHUNK: nat := 500

  function BuildIndexKey(cacheKey: string, scope: Scope, session: Option<string>): string {
    match scope
    case User => "idx:" + "user" + ":" + SessionText(session) + ":" + cacheKey
    case Shared => "idx:" + "shared" + ":" + cacheKey
  }

  predicate Live(s: State, key: string) {
    key in s.data && s.now < s.data[key].expireAt
  }

  function GetRaw(s: State, key: string): Option<string> {
    if Live(s, key) then Some(s.data[key].payload) else None
  }

  /** An index's members as a command sees them: none once it has expired. */
  function Members(s: State, index: string): (r: map<string, nat>)
    ensures index in s.indexes && s.now < s.indexes[index].expireAt ==> r == s.indexes[index].members
  {
    if index in s.indexes && s.now < s.indexes[index].expireAt then s.indexes[index].members else map[]
  }

  /** cutOffraw's transaction. */
  function AfterSet(s: State, key: string, payload: string, ttlSec: nat, index: Option<string>): State {
    var expireAt := s.now + ttlSec * 1000;
    var data := s.data[key := Entry(payload, expireAt, index)];
    if index.None? then s.(data := data)
    else
      var added := Members(s, index.value)[key := expireAt];
      var kept := map m | m in added && added[m] > s.now :: added[m];
      s.(data := data, indexes := s.indexes[index.value := Index(kept, expireAt)])
  }

  /** clear_index on several indexes: none touches another's members. */
  function AfterClear(s: State, indexes: set<string>): State {
    s.(data := map k | k in s.data && !FiledUnder(s, indexes, k) :: s.data[k], indexes := s.indexes - indexes)
  }

  predicate FiledUnder(s: State, indexes: set<string>, key: string) {
    exists i :: i in indexes && key in Members(s, i)
  }

  function AfterTick(s: State, ms: nat): State {
    s.(now := s.now + ms)
  }

  // ---- Coverage

  /** Every live tagged entry is a member, with its expiry, of an index that lives at least as long. */
  ghost predicate Covered(s: State) {
    forall k :: Live(s, k) && s.data[k].tag.Some? ==> CoveredBy(s, k, s.data[k].tag.value)
  }

  predicate CoveredBy(s: State, k: string, i: string)
    requires k in s.data
  {
    && i in s.indexes && k in s.indexes[i].members
    && s.indexes[i].members[k] == s.data[k].expireAt
    && s.data[k].expireAt <= s.indexes[i].expireAt
  }

  /** What a writer can check: nothing else live under the index outlasts the new entry. */
  ghost predicate OutlastsRest(s: State, key: string, ttlSec: nat, index: Option<string>) {
    index.Some? ==>
      forall k :: k != key && Live(s, k) && s.data[k].tag == index ==> s.data[k].expireAt <= s.now + ttlSec * 1000
  }

  /** The index takes over the expiry of the latest write, so a write keeps coverage exactly when it lasts longest. */
  lemma SetKeepsCoverageIff(s: State, key: string, payload: string, ttlSec: nat, index: Option<string>)
    requires Covered(s) && ttlSec > 0
    ensures Covered(AfterSet(s, key, payload, ttlSec, index)) <==> OutlastsRest(s, key, ttlSec, index)
  {
    var t := AfterSet(s, key, payload, ttlSec, index);
    if OutlastsRest(s, key, ttlSec, index) {
      forall k | Live(t, k) && t.data[k].tag.Some?
        ensures CoveredBy(t, k, t.data[k].tag.value)
      {
        if k != key {
          assert Live(s, k) && CoveredBy(s, k, s.data[k].tag.value);
        }
      }
    }
    if Covered(t) && index.Some? {
      forall k | k != key && Live(s, k) && s.data[k].tag == index
        ensures s.data[k].expireAt <= s.now + ttlSec * 1000
      {
        assert Live(t, k) && CoveredBy(t, k, index.value);
      }
    }
  }

  lemma TickKeepsCoverage(s: State, ms: nat)
    requires Covered(s)
    ensures Covered(AfterTick(s, ms))
  {
    forall k | Live(AfterTick(s, ms), k) && s.data[k].tag.Some?
      ensures CoveredBy(s, k, s.data[k].tag.value)
    {
      assert Live(s, k);
    }
  }

  lemma LiveMember(s: State, k: string)
    requires Covered(s) && Live(s, k) && s.data[k].tag.Some?
    ensures k in Members(s, s.data[k].tag.value)
  {
    assert CoveredBy(s, k, s.data[k].tag.value);
  }

  /** Clearing removes every live entry filed under the indexes and nothing outside them. */
  lemma ClearRemovesTagged(s: State, indexes: set<string>)
    requires Covered(s)
    ensures Covered(AfterClear(s, indexes))
    ensures forall k, i :: i in indexes && Live(AfterClear(s, indexes), k) ==> s.data[k].tag != Some(i)
    ensures forall k :: !FiledUnder(s, indexes, k) ==> GetRaw(AfterClear(s, indexes), k) == GetRaw(s, k)
  {
    var t := AfterClear(s, indexes);
    forall k, i | i in indexes && Live(s, k) && s.data[k].tag == Some(i)
      ensures FiledUnder(s, indexes, k)
    {
      LiveMember(s, k);
    }
    forall k | Live(t, k) && t.data[k].tag.Some?
      ensures CoveredBy(t, k, t.data[k].tag.value)
    {
      assert CoveredBy(s, k, s.data[k].tag.value);
    }
  }

  // ---- Runs

  datatype Op =
    | Set(key: string, payload: string, ttlSec: nat, cacheKey: Option<string>, scope: Scope, session: Option<string>)
    | Clear(cacheKeys: seq<string>, clearSession: Option<string>)
    | Tick(ms: nat)

  function IndexOf(op: Op): Option<string>
    requires op.Set?
  {
    if op.cacheKey.Some? then Some(BuildIndexKey(op.cacheKey.value, op.scope, op.session)) else None
  }

  function Apply(s: State, op: Op): State {
    match op
    case Set(key, payload, ttl, _, _, _) => AfterSet(s, key, payload, ttl, IndexOf(op))
    case Clear(keys, session) => AfterClear(s, IndexKeys(keys, session))
    case Tick(ms) => AfterTick(s, ms)
  }

  /** No write under an index that expires before what is filed there. */
  ghost predicate WellTimed(s: State, op: Op) {
    op.Set? ==> OutlastsRest(s, op.key, op.ttlSec, IndexOf(op))
  }

  /** Any operations one after another from an empty cache, with positive TTLs. */
  ghost predicate IsRun(states: seq<State>, ops: seq<Op>) {
    && |states| == |ops| + 1 && states[0].data == map[] && states[0].indexes == map[]
    && forall k :: 0 <= k < |ops| ==> (ops[k].Set? ==> ops[k].ttlSec > 0) && states[k + 1] == Apply(states[k], ops[k])
  }

  ghost predicate AllWellTimed(states: seq<State>, ops: seq<Op>, n: nat)
    requires n <= |ops| < |states|
  {
    forall k :: 0 <= k < n ==> WellTimed(states[k], ops[k])
  }

  lemma StepCoveredIff(s: State, op: Op)
    requires Covered(s) && (op.Set? ==> op.ttlSec > 0)
    ensures Covered(Apply(s, op)) <==> WellTimed(s, op)
  {
    match op
    case Set(key, payload, ttl, _, _, _) => SetKeepsCoverageIff(s, key, payload, ttl, IndexOf(op));
    case Clear(keys, session) => ClearRemovesTagged(s, IndexKeys(keys, session));
    case Tick(ms) => TickKeepsCoverage(s, ms);
  }

  lemma {:induction false} RunCovered(states: seq<State>, ops: seq<Op>, n: nat)
    requires IsRun(states, ops) && n < |states| && AllWellTimed(states, ops, n)
    ensures Covered(states[n])
  {
    if n > 0 {
      RunCovered(states, ops, n - 1);
      StepCoveredIff(states[n - 1], ops[n - 1]);
    }
  }

  /** Over any run, every state is covered if and only if every write was well timed. */
  lemma RunCoveredIff(states: seq<State>, ops: seq<Op>)
    requires IsRun(states, ops)
    ensures (forall k :: 0 <= k < |states| ==> Covered(states[k])) <==> AllWellTimed(states, ops, |ops|)
  {
    if forall k :: 0 <= k < |states| ==> Covered(states[k]) {
      forall k | 0 <= k < |ops|
        ensures WellTimed(states[k], ops[k])
      {
        assert Covered(states[k]) && Covered(states[k + 1]);
        StepCoveredIff(states[k], ops[k]);
      }
    }
    if AllWellTimed(states, ops, |ops|) {
      forall k | 0 <= k < |states|
        ensures Covered(states[k])
      {
        RunCovered(states, ops, k);
      }
    }
  }

  /**
   * And every badly timed write does harm: once its index has run out, an entry it cut off
   * is alive under that tag and stays readable after the tag is cleared.
   */
  lemma BadWriteUncovers(s: State, key: string, payload: string, ttlSec: nat, i: string) returns (k: string)
    requires Covered(s) && ttlSec > 0 && !OutlastsRest(s, key, ttlSec, Some(i))
    ensures
      var later := AfterTick(AfterSet(s, key, payload, ttlSec, Some(i)), ttlSec * 1000);
      && Live(later, k) && later.data[k].tag == Some(i)
      && GetRaw(AfterClear(later, {i}), k) == Some(s.data[k].payload)
      && k in s.data
  {
    k :| k != key && Live(s, k) && s.data[k].tag == Some(i) && s.data[k].expireAt > s.now + ttlSec * 1000;
    var cutOff := AfterSet(s, key, payload, ttlSec, Some(i));
    assert cutOff.data[k] == s.data[k] && cutOff.indexes[i].expireAt == s.now + ttlSec * 1000;
    var later := AfterTick(cutOff, ttlSec * 1000);
    assert Members(later, i) == map[];
    assert !FiledUnder(later, {i}, k);
  }

  // ---- Tags

  /** The indexes a clear visits: shared for every non-blank trimmed key, the session's own if there is one. */
  function IndexKeys(cacheKeys: seq<string>, session: Option<string>): set<string> {
    ScopeKeys(cacheKeys, Shared, None) + (if session.Some? then ScopeKeys(cacheKeys, User, session) else {})
  }

  function ScopeKeys(cacheKeys: seq<string>, scope: Scope, session: Option<string>): set<string> {
    set k | k in TrimmedKeys(cacheKeys) :: BuildIndexKey(k, scope, session)
  }

  lemma SharedKeys(a: string, b: string, session: Option<string>)
    ensures BuildIndexKey(a, Shared, None) == BuildIndexKey(b, Shared, None) ==> a == b
    ensures BuildIndexKey(a, Shared, None) != BuildIndexKey(b, User, session)
  {
    var p := "idx:" + "shared" + ":";
    assert (p + a)[|p|..] == a && (p + b)[|p|..] == b;
    var q := "idx:" + "user" + ":" + SessionText(session) + ":";
    assert (p + a)[4] == 's' && (q + b)[4] == 'u';
  }

  /** Shared tags never collide; user tags do not as long as no session id contains a colon. */
  lemma IndexKeyInjective(a: string, b: string, s: Option<string>, t: Option<string>)
    ensures BuildIndexKey(a, Shared, None) == BuildIndexKey(b, Shared, None) ==> a == b
    ensures BuildIndexKey(a, Shared, None) != BuildIndexKey(b, User, t)
    ensures BuildIndexKey(a, User, s) == BuildIndexKey(b, User, s) ==> a == b
    ensures ':' !in SessionText(s) && ':' !in SessionText(t)
            && BuildIndexKey(a, User, s) == BuildIndexKey(b, User, t) ==>
              a == b && SessionText(s) == SessionText(t)
  {
    SharedKeys(a, b, t);
    UserKey(a, s);
    UserKey(b, t);
    UserKey(b, s);
    if BuildIndexKey(a, User, s) == BuildIndexKey(b, User, s) {
      assert (SessionText(s) + (":" + a))[|SessionText(s)| + 1..] == a;
      assert (SessionText(s) + (":" + b))[|SessionText(s)| + 1..] == b;
    }
    if ':' !in SessionText(s) && ':' !in SessionText(t) && BuildIndexKey(a, User, s) == BuildIndexKey(b, User, t) {
      FirstField(':', SessionText(s), ":" + a, SessionText(t), ":" + b);
      assert (":" + a)[1..] == a && (":" + b)[1..] == b;
    }
  }

  /** Behind its fixed start a user key is the session's part, a colon and the tag. */
  lemma UserKey(a: string, s: Option<string>)
    ensures
      var p := "idx:" + "user" + ":";
      |BuildIndexKey(a, User, s)| >= |p| && BuildIndexKey(a, User, s)[|p|..] == SessionText(s) + (":" + a)
  {
    var p := "idx:" + "user" + ":";
    assert BuildIndexKey(a, User, s) == p + (SessionText(s) + (":" + a));
  }

  predicate StartsWith(s: string, part: string) {
    part <= s
  }

  /**
   * Some tags of two sessions share an index if and only if one session's text is the other's, or
   * continues it after a colon.
   */
  lemma SessionsShareIff(s: Option<string>, t: Option<string>)
    ensures (exists a, b :: BuildIndexKey(a, User, s) == BuildIndexKey(b, User, t)) <==>
              SessionText(s) == SessionText(t)
              || StartsWith(SessionText(t), SessionText(s) + ":") || StartsWith(SessionText(s), SessionText(t) + ":")
  {
    var x, y := SessionText(s), SessionText(t);
    if a, b :| BuildIndexKey(a, User, s) == BuildIndexKey(b, User, t) {
      UserKey(a, s);
      UserKey(b, t);
      SharedStart(x, a, y, b);
    }
    if x == y {
      assert BuildIndexKey("k", User, s) == BuildIndexKey("k", User, t);
    } else if StartsWith(y, x + ":") {
      var a := ContinuedKey(s, t, "k");
    } else if StartsWith(x, y + ":") {
      var b := ContinuedKey(t, s, "k");
      assert BuildIndexKey("k", User, s) == BuildIndexKey(b, User, t);
    }
  }

  lemma SharedStart(x: string, a: string, y: string, b: string)
    requires x + (":" + a) == y + (":" + b)
    ensures x == y || x + ":" <= y || y + ":" <= x
  {
    var u, v := x + (":" + a), y + (":" + b);
    assert u[..|x|] == x && v[..|y|] == y && u[|x|] == ':' && v[|y|] == ':';
  }

  /** The tag of the shorter session that meets a tag of the longer one. */
  lemma ContinuedKey(s: Option<string>, t: Option<string>, b: string) returns (a: string)
    requires SessionText(s) + ":" <= SessionText(t)
    ensures BuildIndexKey(a, User, s) == BuildIndexKey(b, User, t)
  {
    var x, y := SessionText(s), SessionText(t);
    a := y[|x| + 1..] + (":" + b);
    assert y == x + ":" + y[|x| + 1..];
    assert x + (":" + a) == y + (":" + b);
    var p := "idx:" + "user" + ":";
    assert BuildIndexKey(a, User, s) == p + (x + (":" + a)) && BuildIndexKey(b, User, t) == p + (y + (":" + b));
  }

  /** For instance, session "a:b" shares an index with session "a". */
  lemma ColonCollides()
    ensures BuildIndexKey("b:k", User, Some("a")) == BuildIndexKey("k", User, Some("a:b"))
  {
    assert "idx:" + "user" + ":" + "a" + ":" + "b:k" == "idx:" + "user" + ":" + "a:b" + ":" + "k";
  }

  /**
   * A clear by the very key a response was written under reaches its index only if the key is
   * trimmed and not blank.
   */
  lemma OwnKeyReachedIff(cacheKey: string, session: Option<string>)
    ensures BuildIndexKey(cacheKey, Shared, None) in IndexKeys([cacheKey], session) <==>
              cacheKey != [] && Trim(cacheKey) == cacheKey
    ensures session.Some? ==>
      (BuildIndexKey(cacheKey, User, session) in IndexKeys([cacheKey], session) <==>
        cacheKey != [] && Trim(cacheKey) == cacheKey)
  {
    OneTrimmed(cacheKey);
    IndexKeyInjective(cacheKey, Trim(cacheKey), session, session);
    IndexKeyInjective(Trim(cacheKey), cacheKey, session, session);
  }

  lemma OneTrimmed(cacheKey: string)
    ensures TrimmedKeys([cacheKey]) == if Trim(cacheKey) == [] then {} else {Trim(cacheKey)}
  {
    assert cacheKey in [cacheKey];
  }

  /**
   * At any point of any well-timed run: after clear_by_cache_keys, however the keys are
   * padded, nothing last written under one of them trimmed, shared or of that session, can
   * be read.
   */
  lemma InvalidationIsComplete(states: seq<State>, ops: seq<Op>, n: nat, cacheKeys: seq<string>,
                               session: Option<string>, c: string, ck: string, k: string)
    requires IsRun(states, ops) && n < |states| && AllWellTimed(states, ops, n)
    requires c in cacheKeys && Trim(c) == ck && ck != [] && k in states[n].data
    requires states[n].data[k].tag == Some(BuildIndexKey(ck, Shared, None))
          || (session.Some? && states[n].data[k].tag == Some(BuildIndexKey(ck, User, session)))
    ensures GetRaw(Apply(states[n], Clear(cacheKeys, session)), k) == None
  {
    RunCovered(states, ops, n);
    ClearRemovesTagged(states[n], IndexKeys(cacheKeys, session));
    assert states[n].data[k].tag.value in IndexKeys(cacheKeys, session);
  }

  /** A short-lived write cuts its index's life: the longer-lived entry then survives a clear. */
  lemma ShortWriteUncovers()
    ensures
      var s0 := State(0, map[], map[]);
      var s1 := AfterSet(s0, "a", "long", 100, Some("i"));
      var s2 := AfterTick(AfterSet(s1, "b", "short", 1, Some("i")), 2000);
      && !OutlastsRest(s1, "b", 1, Some("i"))
      && GetRaw(AfterClear(s2, {"i"}), "a") == Some("long")
  {
    var s0 := State(0, map[], map[]);
    var s1 := AfterSet(s0, "a", "long", 100, Some("i"));
    assert s1.data["a"] == Entry("long", 100000, Some("i"));
    assert "a" != "b" && Live(s1, "a");
    var t := AfterSet(s1, "b", "short", 1, Some("i"));
    assert t.data["a"] == s1.data["a"];
    assert t.indexes["i"].expireAt == 1000;
    var s2 := AfterTick(t, 2000);
    assert s2.now == 2000 && Live(s2, "a");
    assert Members(s2, "i") == map[];
    assert !FiledUnder(s2, {"i"}, "a");
  }

  // ---- The service

  class CacheService {
    var now: nat
    var data: map<string, Entry>
    var indexes: map<string, Index>

    function Now(): State
      reads this
    {
      State(now, data, indexes)
    }

    method SetRaw(key: string, payload: string, ttlSec: nat, cacheKey: Option<string>, scope: Scope,
                  session: Option<string>)
      requires ttlSec > 0
      modifies this`data, this`indexes
      ensures Now() == Apply(old(Now()), Set(key, payload, ttlSec, cacheKey, scope, session))
    {
      var expireAt := now + ttlSec * 1000;
      if cacheKey.Some? {
        var indexKey := BuildIndexKey(cacheKey.value, scope, session);
        var members := Members(Now(), indexKey)[key := expireAt];
        members := map m | m in members && members[m] > now :: members[m];
        indexes := indexes[indexKey := Index(members, expireAt)];
        data := data[key := Entry(payload, expireAt, Some(indexKey))];
      } else {
        data := data[key := Entry(payload, expireAt, None)];
      }
    }

    /** zrange over the whole index. */
    method Range(indexKey: string) returns (members: seq<string>)
      ensures forall m :: m in members <==> m in Members(Now(), indexKey)
    {
      members := [];
      var left := Members(Now(), indexKey).Keys;
      while left != {}
        invariant left <= Members(Now(), indexKey).Keys
        invariant forall m :: m in Members(Now(), indexKey) <==> m in members || m in left
        invariant forall m :: m in members ==> m !in left
        decreases left
      {
        var m :| m in left;
        members := members + [m];
        left := left - {m};
      }
    }

    method ClearIndex(indexKey: string)
      modifies this`data, this`indexes
      ensures Now() == AfterClear(old(Now()), {indexKey})
    {
      var members := Range(indexKey);
      if |members| > 0 {
        DeleteChunks(members);
      }
      indexes := indexes - {indexKey};
      assert data == AfterClear(old(Now()), {indexKey}).data by {
        forall k | k in old(data)
          ensures k in members <==> FiledUnder(old(Now()), {indexKey}, k)
        {
        }
      }
    }

    method DeleteChunks(members: seq<string>)
      modifies this`data
      ensures data == old(data) - (set m | m in members)
    {
      var i := 0;
      while i < |members|
        invariant 0 <= i <= |members|
        invariant data == old(data) - (set m | m in members[..i])
      {
        var end := if i + DEL_CHUNK < |members| then i + DEL_CHUNK else |members|;
        var chunk := members[i..end];
        data := data - (set m | m in chunk);
        assert members[..end] == members[..i] + chunk;
        i := end;
      }
      assert members[..i] == members;
    }

    method ClearByCacheKeys(cacheKeys: seq<string>, session: Option<string>)
      modifies this`data, this`indexes
      ensures Now() == Apply(old(Now()), Clear(cacheKeys, session))
    {
      var indexKeys := CollectIndexKeys(cacheKeys, session);
      var done: set<string> := {};
      var left := indexKeys;
      AfterClearNone(Now());
      while left != {}
        invariant done + left == indexKeys && done !! left
        invariant Now() == AfterClear(old(Now()), done)
        decreases left
      {
        var idx :| idx in left;
        AfterClearMore(old(Now()), done, idx);
        ClearIndex(idx);
        done, left := done + {idx}, left - {idx};
      }
      assert done == indexKeys;
    }

    method CollectIndexKeys(cacheKeys: seq<string>, session: Option<string>) returns (r: set<string>)
      ensures r == IndexKeys(cacheKeys, session)
    {
      var seen := CollectTrimmed(cacheKeys);
      r := set k | k in seen :: BuildIndexKey(k, Shared, None);
      if session.Some? {
        r := r + (set k | k in seen :: BuildIndexKey(k, User, session));
      }
    }
  }

  lemma AfterClearNone(s: State)
    ensures AfterClear(s, {}) == s
  {
    assert forall k :: !FiledUnder(s, {}, k);
    assert s.indexes - {} == s.indexes;
  }

  lemma AfterClearMore(s: State, done: set<string>, idx: string)
    requires idx !in done
    ensures AfterClear(AfterClear(s, done), {idx}) == AfterClear(s, done + {idx})
  {
    var t := AfterClear(s, done);
    assert Members(t, idx) == Members(s, idx);
    forall k
      ensures FiledUnder(s, done + {idx}, k) <==> FiledUnder(s, done, k) || FiledUnder(t, {idx}, k)
    {
      if k in Members(s, idx) {
        assert idx in done + {idx} && idx in {idx};
      }
    }
    assert s.indexes - done - {idx} == s.indexes - (done + {idx});
  }
}
