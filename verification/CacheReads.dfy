/** The response cache as its readers see it: what was written is read back until it expires or is cleared. */
module CacheReads {
  import opened Lists
  import opened CacheKeys
  import opened TaggedCache

  predicate Writes(op: Op, key: string) {
    op.Set? && op.key == key
  }

  predicate Tags(op: Op, index: string) {
    op.Set? && IndexOf(op) == Some(index)
  }

  predicate Visits(op: Op, index: string) {
    op.Clear? && index in IndexKeys(op.cacheKeys, op.clearSession)
  }

  /** The milliseconds these operations let pass. */
  function Elapsed(ops: seq<Op>): nat {
    if ops == [] then 0
    else Elapsed(ops[..|ops| - 1]) + if ops[|ops| - 1].Tick? then ops[|ops| - 1].ms else 0
  }

  lemma ElapsedSnoc(ops: seq<Op>, i: nat, n: nat)
    requires i <= n < |ops|
    ensures Elapsed(ops[i..n + 1]) == Elapsed(ops[i..n]) + if ops[n].Tick? then ops[n].ms else 0
  {
    assert ops[i..n + 1][..n - i] == ops[i..n] && ops[i..n + 1][n - i] == ops[n];
  }

  lemma {:induction false} ClockIsElapsed(states: seq<State>, ops: seq<Op>, i: nat, n: nat)
    requires IsRun(states, ops) && i <= n <= |ops|
    ensures states[n].now == states[i].now + Elapsed(ops[i..n])
    decreases n
  {
    if i < n {
      ClockIsElapsed(states, ops, i, n - 1);
      ElapsedSnoc(ops, i, n - 1);
    } else {
      assert ops[i..i] == [];
    }
  }

  // ---- Who is filed where

  /** A key is in an index only if it was once written under that tag. */
  lemma {:induction false} FiledByWrite(states: seq<State>, ops: seq<Op>, n: nat, key: string, index: string)
    returns (m: nat)
    requires IsRun(states, ops) && n < |states| && key in Members(states[n], index)
    ensures m < n && Writes(ops[m], key) && Tags(ops[m], index)
  {
    if Writes(ops[n - 1], key) && Tags(ops[n - 1], index) {
      m := n - 1;
    } else {
      FiledBefore(states[n - 1], ops[n - 1], key, index);
      m := FiledByWrite(states, ops, n - 1, key, index);
    }
  }

  lemma FiledBefore(s: State, op: Op, key: string, index: string)
    requires key in Members(Apply(s, op), index) && !(Writes(op, key) && Tags(op, index))
    ensures key in Members(s, index)
  {
  }

  /** A write under an index leaves in it itself and the members that have not expired. */
  lemma FiledAfterWrite(s: State, op: Op, key: string, index: string)
    requires Tags(op, index) && op.ttlSec > 0
    ensures key in Members(Apply(s, op), index) <==>
              key == op.key || (key in Members(s, index) && Members(s, index)[key] > s.now)
  {
  }

  // ---- Reading back

  /** After write i nobody writes the key again. */
  ghost predicate LastWrite(ops: seq<Op>, i: nat, n: nat) {
    i < n <= |ops| && ops[i].Set? && forall j :: i < j < n ==> !Writes(ops[j], ops[i].key)
  }

  /** Some clear since write i visited an index the key was in. */
  ghost predicate Cleared(states: seq<State>, ops: seq<Op>, i: nat, n: nat) {
    && i < n <= |ops| && n < |states| && ops[i].Set?
    && exists j :: i < j < n && TakenBy(states[j], ops[j], ops[i].key)
  }

  predicate TakenBy(s: State, op: Op, key: string) {
    op.Clear? && FiledUnder(s, IndexKeys(op.cacheKeys, op.clearSession), key)
  }

  /** No clear since write i visited an index the key was ever written under. */
  ghost predicate NotCleared(ops: seq<Op>, i: nat, n: nat) {
    && i < n <= |ops| && ops[i].Set?
    && forall j, m, index :: i < j < n && 0 <= m <= i && Writes(ops[m], ops[i].key) && Tags(ops[m], index) ==>
         !Visits(ops[j], index)
  }

  lemma WriteStored(s: State, op: Op)
    requires op.Set?
    ensures op.key in Apply(s, op).data
    ensures Apply(s, op).data[op.key] == Entry(op.payload, s.now + op.ttlSec * 1000, IndexOf(op))
    ensures Apply(s, op).now == s.now
  {
  }

  /** What an operation that does not write the key does to its entry. */
  lemma OtherOpKeepsIff(s: State, op: Op, key: string)
    requires !Writes(op, key)
    ensures key in Apply(s, op).data <==> key in s.data && !TakenBy(s, op, key)
    ensures key in Apply(s, op).data ==> Apply(s, op).data[key] == s.data[key]
  {
  }

  /** The entry of write i is there exactly while no clear has taken it. */
  ghost predicate StoredSince(states: seq<State>, ops: seq<Op>, i: nat, n: nat) {
    && i < n <= |ops| && n < |states| && ops[i].Set?
    && (ops[i].key in states[n].data <==> !Cleared(states, ops, i, n))
    && (ops[i].key in states[n].data ==>
          states[n].data[ops[i].key] == Entry(ops[i].payload, states[i].now + ops[i].ttlSec * 1000, IndexOf(ops[i])))
  }

  lemma {:induction false} StoredIff(states: seq<State>, ops: seq<Op>, i: nat, n: nat)
    requires IsRun(states, ops) && LastWrite(ops, i, n)
    ensures StoredSince(states, ops, i, n)
    decreases n
  {
    if n == i + 1 {
      RunStores(states, ops, i);
    } else {
      StoredIff(states, ops, i, n - 1);
      StoredNext(states, ops, i, n - 1);
    }
  }

  lemma RunStores(states: seq<State>, ops: seq<Op>, i: nat)
    requires IsRun(states, ops) && i < |ops| && ops[i].Set?
    ensures StoredSince(states, ops, i, i + 1)
  {
    WriteStored(states[i], ops[i]);
  }

  lemma StoredNext(states: seq<State>, ops: seq<Op>, i: nat, n: nat)
    requires IsRun(states, ops) && StoredSince(states, ops, i, n) && n < |ops| && !Writes(ops[n], ops[i].key)
    ensures StoredSince(states, ops, i, n + 1)
  {
    OtherOpKeepsIff(states[n], ops[n], ops[i].key);
    ClearedNext(states, ops, i, n);
  }

  lemma ClearedNext(states: seq<State>, ops: seq<Op>, i: nat, n: nat)
    requires i < n < |ops| < |states| && ops[i].Set?
    ensures Cleared(states, ops, i, n + 1) <==> Cleared(states, ops, i, n) || TakenBy(states[n], ops[n], ops[i].key)
  {
  }

  /**
   * In every run, what was written last under a key is read back if and only if its lifetime
   * has not passed and no clear has visited an index it was in; nothing else is ever read.
   */
  lemma ReadsBackIff(states: seq<State>, ops: seq<Op>, i: nat, n: nat)
    requires IsRun(states, ops) && LastWrite(ops, i, n)
    ensures GetRaw(states[n], ops[i].key) ==
              if Elapsed(ops[i..n]) < ops[i].ttlSec * 1000 && !Cleared(states, ops, i, n) then Some(ops[i].payload)
              else None
  {
    StoredIff(states, ops, i, n);
    ClockIsElapsed(states, ops, i, n);
  }

  /** A clear reaches a key only through a tag it was written under. */
  lemma UnfiledAtClear(states: seq<State>, ops: seq<Op>, i: nat, j: nat)
    requires IsRun(states, ops) && i < j < |ops| && LastWrite(ops, i, j + 1) && NotCleared(ops, i, j + 1)
    ensures !TakenBy(states[j], ops[j], ops[i].key)
  {
    if TakenBy(states[j], ops[j], ops[i].key) {
      var index :| index in IndexKeys(ops[j].cacheKeys, ops[j].clearSession) && ops[i].key in Members(states[j], index);
      var m := FiledByWrite(states, ops, j, ops[i].key, index);
      assert m <= i && Visits(ops[j], index);
      assert false;
    }
  }

  /** So it is read back until its lifetime has passed as long as no clear names a tag the key ever had. */
  lemma ReadsBack(states: seq<State>, ops: seq<Op>, i: nat, n: nat)
    requires IsRun(states, ops) && LastWrite(ops, i, n) && NotCleared(ops, i, n)
    ensures GetRaw(states[n], ops[i].key) ==
              if Elapsed(ops[i..n]) < ops[i].ttlSec * 1000 then Some(ops[i].payload) else None
  {
    ReadsBackIff(states, ops, i, n);
    if Cleared(states, ops, i, n) {
      var j :| i < j < n && TakenBy(states[j], ops[j], ops[i].key);
      UnfiledAtClear(states, ops, i, j);
      assert false;
    }
  }

  lemma {:induction false} NeverWritten(states: seq<State>, ops: seq<Op>, n: nat, key: string)
    requires IsRun(states, ops) && n < |states| && forall j :: 0 <= j < n ==> !Writes(ops[j], key)
    ensures GetRaw(states[n], key) == None
    ensures key !in states[n].data
  {
    if n > 0 {
      NeverWritten(states, ops, n - 1, key);
      OtherOpKeepsIff(states[n - 1], ops[n - 1], key);
    }
  }

  /**
   * A clear visits the shared index of a tag if and only if the tag is a trimmed spelling of a
   * key asked for, and the session's own index if and only if, besides, a session is given.
   */
  lemma VisitsIff(cacheKeys: seq<string>, session: Option<string>, tag: string)
    ensures BuildIndexKey(tag, Shared, None) in IndexKeys(cacheKeys, session) <==> tag in TrimmedKeys(cacheKeys)
    ensures BuildIndexKey(tag, User, session) in IndexKeys(cacheKeys, session) <==>
              session.Some? && tag in TrimmedKeys(cacheKeys)
  {
    forall k: string
      ensures BuildIndexKey(k, Shared, None) == BuildIndexKey(tag, Shared, None) ==> k == tag
      ensures BuildIndexKey(k, User, session) == BuildIndexKey(tag, User, session) ==> k == tag
      ensures BuildIndexKey(k, Shared, None) != BuildIndexKey(tag, User, session)
      ensures BuildIndexKey(tag, Shared, None) != BuildIndexKey(k, User, session)
    {
      IndexKeyInjective(k, tag, session, session);
      IndexKeyInjective(tag, k, session, session);
    }
  }

  /** Writing one key changes no other key's answer. */
  lemma WriteLeavesOthers(s: State, op: Op, key: string)
    requires op.Set? && op.key != key
    ensures GetRaw(Apply(s, op), key) == GetRaw(s, key)
  {
  }
}
