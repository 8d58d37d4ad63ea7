/**
 * Quota and pipeline together: what the source files of uploads take up on disk against
 * what the live reservations hold, from the first chunk to the reply.
 */
module UploadSpace {
  import opened Lists
  import P = Pipeline
  import Q = TmpQuota

  /** Where an upload's handler stands, with the size of the source file it is about to hand over. */
  datatype Stage =
    | Receiving(file: Option<nat>, granted: nat)
    | Waiting(job: nat, size: nat)
    | Closing
    | Over

  /** An upload, and the bytes in source files of its that nobody will remove. */
  datatype Upload = Upload(stage: Stage, left: nat)

  /** Upload number u holds reservation number u. */
  datatype World = World(quota: Q.State, pipe: P.World, uploads: seq<Upload>)

  datatype Event =
    | Arrive
    | CreateFile(u: nat)
    | Reserve(u: nat, n: nat)
    | Settle(u: nat)
    | Write(u: nat)
    | Discard(u: nat)
    | Abandon(u: nat, part: nat)
    | Submit(u: nat)
    | Pipe(step: P.Event)
    | Answered(u: nat)
    | Close(u: nat)

  /** The configured limits, and what the pipeline meets. */
  datatype Setting = Setting(env: P.Env, batchSize: nat, permits: nat)

  function Size(file: Option<nat>): nat {
    if file.Some? then file.value else 0
  }

  predicate Quiet(w: World, u: nat) {
    && u < |w.uploads| && u < |w.quota.reservations|
    && w.uploads[u].stage.Receiving? && w.quota.reservations[u].pending.None?
  }

  predicate Trying(w: World, u: nat) {
    && u < |w.uploads| && u < |w.quota.reservations|
    && w.uploads[u].stage.Receiving? && w.quota.reservations[u].pending.Some? && w.quota.limit.Some?
  }

  predicate Possible(c: Setting, w: World, e: Event) {
    match e
    case Arrive => true
    case CreateFile(u) => Quiet(w, u) && w.uploads[u].stage.granted == 0
    case Reserve(u, n) =>
      Quiet(w, u) && w.uploads[u].stage.file.Some? && w.uploads[u].stage.granted == 0
      && Q.Possible(w.quota, Q.FetchAdd(u, n))
    case Settle(u) => Trying(w, u)
    case Write(u) => Quiet(w, u) && w.uploads[u].stage.file.Some?
    case Discard(u) => Quiet(w, u)
    case Abandon(u, part) => Quiet(w, u) && w.uploads[u].stage.file.Some? && part <= w.uploads[u].stage.granted
    case Submit(u) => Quiet(w, u) && Size(w.uploads[u].stage.file) > 0 && w.uploads[u].stage.granted == 0
    case Pipe(step) => !step.Submit? && P.Possible(c.batchSize, c.permits, w.pipe, step)
    case Answered(u) =>
      u < |w.uploads| && w.uploads[u].stage.Waiting? && exists s :: s in w.pipe.sent && s.job == w.uploads[u].stage.job
    case Close(u) =>
      u < |w.uploads| && w.uploads[u].stage.Closing? && Q.Possible(w.quota, Q.Drop(u))
  }

  /** The check after an atomic add: the chunk is let in, or the add is rolled back. */
  function Verdict(q: Q.State, u: nat): Q.Step
    requires u < |q.reservations| && q.reservations[u].pending.Some? && q.limit.Some?
  {
    if Q.Admitted(q.limit.value, q.reservations[u].pending.value) then Q.Accept(u) else Q.RollBack(u)
  }

  function Put(w: World, u: nat, up: Upload): World
    requires u < |w.uploads|
  {
    w.(uploads := w.uploads[u := up])
  }

  /**
   * A second file field forgets the first one's file. A failed write or flush and a failure
   * in a later field return without removing the file; all other returns remove it first.
   */
  function Happen(c: Setting, w: World, e: Event): World
    requires Possible(c, w, e)
  {
    match e
    case Arrive => w.(quota := Q.Do(w.quota, Q.Open), uploads := w.uploads + [Upload(Receiving(None, 0), 0)])
    case CreateFile(u) =>
      var up := w.uploads[u];
      Put(w, u, Upload(Receiving(Some(0), 0), up.left + Size(up.stage.file)))
    case Reserve(u, n) => w.(quota := Q.Do(w.quota, Q.FetchAdd(u, n)))
    case Settle(u) =>
      var up, n := w.uploads[u], w.quota.reservations[u].pending.value.n;
      var v := if Verdict(w.quota, u).Accept? then Put(w, u, up.(stage := up.stage.(granted := n))) else w;
      v.(quota := Q.Do(w.quota, Verdict(w.quota, u)))
    case Write(u) =>
      var up := w.uploads[u];
      Put(w, u, up.(stage := Receiving(Some(up.stage.file.value + up.stage.granted), 0)))
    case Discard(u) => Put(w, u, w.uploads[u].(stage := Closing))
    case Abandon(u, part) =>
      var up := w.uploads[u];
      Put(w, u, Upload(Closing, up.left + up.stage.file.value + part))
    case Submit(u) =>
      var up := w.uploads[u];
      Put(w, u, up.(stage := Waiting(w.pipe.submitted, up.stage.file.value))).(
        pipe := P.Happen(c.env, w.pipe, P.Submit))
    case Pipe(step) => w.(pipe := P.Happen(c.env, w.pipe, step))
    case Answered(u) => Put(w, u, w.uploads[u].(stage := Closing))
    case Close(u) => Put(w, u, w.uploads[u].(stage := Over)).(quota := Q.Do(w.quota, Q.Drop(u)))
  }

  // ---- Disk against holdings

  /** The bytes of upload u's source files on disk; the pipeline's are there until it removes them. */
  function OnDisk(w: World, u: nat): nat
    requires u < |w.uploads|
  {
    var up := w.uploads[u];
    up.left + match up.stage
              case Receiving(file, _) => Size(file)
              case Waiting(job, size) => if P.Source(job) in w.pipe.files then size else 0
              case _ => 0
  }

  function DiskUpTo(w: World, n: nat): nat
    requires n <= |w.uploads|
  {
    if n == 0 then 0 else DiskUpTo(w, n - 1) + OnDisk(w, n - 1)
  }

  function DiskBytes(w: World): nat {
    DiskUpTo(w, |w.uploads|)
  }

  /** What uploads that are over have left behind. */
  function LostUpTo(w: World, n: nat): nat
    requires n <= |w.uploads|
  {
    if n == 0 then 0 else LostUpTo(w, n - 1) + if w.uploads[n - 1].stage.Over? then w.uploads[n - 1].left else 0
  }

  function Lost(w: World): nat {
    LostUpTo(w, |w.uploads|)
  }

  /**
   * What an upload's files take, those left behind included, is exactly what it has reserved
   * until its source is handed back or abandoned, and no more than that until it is over.
   */
  predicate Covered(up: Upload, r: Q.Reservation, submitted: nat) {
    match up.stage
    case Receiving(file, granted) =>
      Size(file) + granted + up.left == r.bytes && (r.pending.Some? ==> granted == 0 && file.Some?)
    case Waiting(job, size) => size + up.left == r.bytes && r.pending.None? && job < submitted
    case Closing => up.left <= r.bytes && r.pending.None?
    case Over => r.bytes == 0 && r.pending.None?
  }

  ghost predicate AllCovered(w: World) {
    && |w.uploads| == |w.quota.reservations|
    && forall u :: 0 <= u < |w.uploads| ==> Covered(w.uploads[u], w.quota.reservations[u], w.pipe.submitted)
  }

  /** Every source file in the pipeline is counted with exactly one upload. */
  ghost predicate Counted(w: World) {
    && (forall j :: P.Source(j) in w.pipe.files ==>
          exists u :: 0 <= u < |w.uploads| && w.uploads[u].stage.Waiting? && w.uploads[u].stage.job == j)
    && (forall u, v :: 0 <= u < v < |w.uploads| && w.uploads[u].stage.Waiting? && w.uploads[v].stage.Waiting? ==>
          w.uploads[u].stage.job != w.uploads[v].stage.job)
  }

  ghost predicate Inv(c: Setting, initial: nat, w: World) {
    && Q.Exact(initial, w.quota) && Q.Within(initial, w.quota)
    && P.Inv(c.env, w.pipe)
    && AllCovered(w) && Counted(w)
  }

  /** What the quota step of an event is, if it has one. */
  function QuotaStep(w: World, e: Event): Option<Q.Step>
    requires e.Settle? ==> Trying(w, e.u)
  {
    match e
    case Arrive => Some(Q.Open)
    case Reserve(u, n) => Some(Q.FetchAdd(u, n))
    case Settle(u) => Some(Verdict(w.quota, u))
    case Close(u) => Some(Q.Drop(u))
    case _ => None
  }

  predicate NoWrap(w: World, e: Event) {
    e.Reserve? ==> Q.NoWrap(w.quota, Q.FetchAdd(e.u, e.n))
  }

  lemma StepKeepsQuota(c: Setting, initial: nat, w: World, e: Event)
    requires Q.Exact(initial, w.quota) && Q.Within(initial, w.quota) && Possible(c, w, e) && NoWrap(w, e)
    ensures Q.Exact(initial, Happen(c, w, e).quota) && Q.Within(initial, Happen(c, w, e).quota)
    ensures Happen(c, w, e).quota.limit == w.quota.limit
  {
    if QuotaStep(w, e).Some? {
      Q.StepKeepsQuotaIff(initial, w.quota, QuotaStep(w, e).value);
    }
  }

  lemma StepKeepsPipe(c: Setting, w: World, e: Event)
    requires P.Inv(c.env, w.pipe) && Possible(c, w, e)
    ensures P.Inv(c.env, Happen(c, w, e).pipe)
  {
    match e
    case Submit(u) => P.StepKeepsInv(c.env, c.batchSize, c.permits, w.pipe, P.Submit);
    case Pipe(step) => P.StepKeepsInv(c.env, c.batchSize, c.permits, w.pipe, step);
    case _ =>
  }

  /** One upload and its reservation change; all others are as they were, and no submission is taken back. */
  lemma OneChanges(w: World, v: World, u: nat)
    requires AllCovered(w) && u < |w.uploads|
    requires |v.uploads| == |w.uploads| && |v.quota.reservations| == |w.quota.reservations|
    requires w.pipe.submitted <= v.pipe.submitted
    requires forall k :: 0 <= k < |w.uploads| && k != u ==>
               v.uploads[k] == w.uploads[k] && v.quota.reservations[k] == w.quota.reservations[k]
    requires Covered(v.uploads[u], v.quota.reservations[u], v.pipe.submitted)
    ensures AllCovered(v)
  {
    forall k | 0 <= k < |v.uploads|
      ensures Covered(v.uploads[k], v.quota.reservations[k], v.pipe.submitted)
    {
      if k != u {
        assert Covered(w.uploads[k], w.quota.reservations[k], w.pipe.submitted);
      }
    }
  }

  /** An accepted chunk does not overflow the reservation's own count. */
  lemma AcceptedAddsUp(initial: nat, q: Q.State, u: nat)
    requires Q.Exact(initial, q) && u < |q.reservations| && q.reservations[u].pending.Some?
    ensures q.reservations[u].bytes + q.reservations[u].pending.value.n < Q.U64
  {
    Q.UpdateSums(q, u, q.reservations[u]);
  }

  lemma SettleKeepsCovered(c: Setting, initial: nat, w: World, u: nat)
    requires Q.Exact(initial, w.quota) && AllCovered(w) && Possible(c, w, Settle(u))
    ensures AllCovered(Happen(c, w, Settle(u)))
  {
    AcceptedAddsUp(initial, w.quota, u);
    assert Covered(w.uploads[u], w.quota.reservations[u], w.pipe.submitted);
    OneChanges(w, Happen(c, w, Settle(u)), u);
  }

  lemma HandlerKeepsCovered(c: Setting, w: World, e: Event)
    requires AllCovered(w) && Possible(c, w, e) && !e.Arrive? && !e.Settle? && !e.Pipe?
    requires e.Close? || e.Reserve? ==> w.quota.limit.Some?
    ensures AllCovered(Happen(c, w, e))
  {
    assert Covered(w.uploads[e.u], w.quota.reservations[e.u], w.pipe.submitted);
    OneChanges(w, Happen(c, w, e), e.u);
  }

  lemma PipeKeepsSubmitted(c: Setting, w: World, step: P.Event)
    requires Possible(c, w, Pipe(step))
    ensures P.Happen(c.env, w.pipe, step).submitted == w.pipe.submitted
    ensures forall j :: P.Source(j) in P.Happen(c.env, w.pipe, step).files ==> P.Source(j) in w.pipe.files
  {
    if step.RunTask? {
      P.MakesNoSource(c.env, w.pipe.tasks[step.i]);
    }
  }

  lemma StepKeepsCovered(c: Setting, initial: nat, w: World, e: Event)
    requires Inv(c, initial, w) && Possible(c, w, e) && NoWrap(w, e)
    ensures AllCovered(Happen(c, w, e))
  {
    match e
    case Arrive =>
    case Settle(u) => SettleKeepsCovered(c, initial, w, u);
    case Pipe(step) => PipeKeepsSubmitted(c, w, step);
    case _ => HandlerKeepsCovered(c, w, e);
  }

  lemma SubmitKeepsCounted(c: Setting, w: World, u: nat)
    requires AllCovered(w) && Counted(w) && Possible(c, w, Submit(u))
    ensures Counted(Happen(c, w, Submit(u)))
  {
    var v, job := Happen(c, w, Submit(u)), w.pipe.submitted;
    forall j | P.Source(j) in v.pipe.files
      ensures exists k :: 0 <= k < |v.uploads| && v.uploads[k].stage.Waiting? && v.uploads[k].stage.job == j
    {
      if j == job {
        assert v.uploads[u].stage.Waiting?;
      } else {
        var k :| 0 <= k < |w.uploads| && w.uploads[k].stage.Waiting? && w.uploads[k].stage.job == j;
        assert v.uploads[k] == w.uploads[k];
      }
    }
    forall k | 0 <= k < |w.uploads| && w.uploads[k].stage.Waiting?
      ensures w.uploads[k].stage.job != job
    {
      assert Covered(w.uploads[k], w.quota.reservations[k], w.pipe.submitted);
    }
  }

  lemma AnsweredKeepsCounted(c: Setting, w: World, u: nat)
    requires P.Inv(c.env, w.pipe) && Counted(w) && Possible(c, w, Answered(u))
    ensures Counted(Happen(c, w, Answered(u)))
  {
    var v := Happen(c, w, Answered(u));
    var s :| s in w.pipe.sent && s.job == w.uploads[u].stage.job;
    assert P.Gone(w.pipe.files, s.job);
    forall j | P.Source(j) in v.pipe.files
      ensures exists k :: 0 <= k < |v.uploads| && v.uploads[k].stage.Waiting? && v.uploads[k].stage.job == j
    {
      var k :| 0 <= k < |w.uploads| && w.uploads[k].stage.Waiting? && w.uploads[k].stage.job == j;
      assert k != u && v.uploads[k] == w.uploads[k];
    }
  }

  /** Events that neither start nor end a wait count as before. */
  lemma SameWaits(w: World, v: World)
    requires Counted(w) && |w.uploads| <= |v.uploads|
    requires forall j :: P.Source(j) in v.pipe.files ==> P.Source(j) in w.pipe.files
    requires forall k :: 0 <= k < |w.uploads| && w.uploads[k].stage.Waiting? ==>
               v.uploads[k].stage == w.uploads[k].stage
    requires forall k :: 0 <= k < |v.uploads| && v.uploads[k].stage.Waiting? ==>
               k < |w.uploads| && w.uploads[k].stage.Waiting?
    ensures Counted(v)
  {
    forall j | P.Source(j) in v.pipe.files
      ensures exists k :: 0 <= k < |v.uploads| && v.uploads[k].stage.Waiting? && v.uploads[k].stage.job == j
    {
      var k :| 0 <= k < |w.uploads| && w.uploads[k].stage.Waiting? && w.uploads[k].stage.job == j;
      assert v.uploads[k].stage.Waiting?;
    }
  }

  lemma HandlerKeepsCounted(c: Setting, w: World, e: Event)
    requires Counted(w) && Possible(c, w, e) && !e.Submit? && !e.Answered? && !e.Pipe?
    ensures Counted(Happen(c, w, e))
  {
    SameWaits(w, Happen(c, w, e));
  }

  lemma StepKeepsCounted(c: Setting, initial: nat, w: World, e: Event)
    requires Inv(c, initial, w) && Possible(c, w, e)
    ensures Counted(Happen(c, w, e))
  {
    match e
    case Submit(u) => SubmitKeepsCounted(c, w, u);
    case Answered(u) => AnsweredKeepsCounted(c, w, u);
    case Pipe(step) =>
      PipeKeepsSubmitted(c, w, step);
      SameWaits(w, Happen(c, w, e));
    case _ => HandlerKeepsCounted(c, w, e);
  }

  lemma StepKeepsInv(c: Setting, initial: nat, w: World, e: Event)
    requires Inv(c, initial, w) && Possible(c, w, e) && NoWrap(w, e)
    ensures Inv(c, initial, Happen(c, w, e)) && Happen(c, w, e).quota.limit == w.quota.limit
  {
    StepKeepsQuota(c, initial, w, e);
    StepKeepsPipe(c, w, e);
    StepKeepsCovered(c, initial, w, e);
    StepKeepsCounted(c, initial, w, e);
  }

  // ---- Runs

  function Start(initial: nat, limit: nat): World {
    World(Q.State(Some(limit), initial, []), P.START, [])
  }

  /** Any interleaving of handlers and pipeline in which no atomic add overflows. */
  ghost predicate IsRun(c: Setting, worlds: seq<World>, events: seq<Event>, initial: nat, limit: nat) {
    && |worlds| == |events| + 1 && worlds[0] == Start(initial, limit) && initial < Q.U64 && limit < Q.U64
    && forall k :: 0 <= k < |events| ==>
         Possible(c, worlds[k], events[k]) && NoWrap(worlds[k], events[k])
         && worlds[k + 1] == Happen(c, worlds[k], events[k])
  }

  lemma StartInv(c: Setting, initial: nat, limit: nat)
    requires initial < Q.U64 && limit < Q.U64
    ensures Inv(c, initial, Start(initial, limit))
  {
    assert P.Inv(c.env, P.START) by {
      forall x: nat
        ensures P.Places(P.START, x) == 0
      {
      }
    }
  }

  lemma {:induction false} RunKeepsInv(c: Setting, worlds: seq<World>, events: seq<Event>, initial: nat, limit: nat,
                                       k: nat)
    requires IsRun(c, worlds, events, initial, limit) && k < |worlds|
    ensures Inv(c, initial, worlds[k]) && worlds[k].quota.limit == Some(limit)
  {
    if k > 0 {
      RunKeepsInv(c, worlds, events, initial, limit, k - 1);
      StepKeepsInv(c, initial, worlds[k - 1], events[k - 1]);
    } else {
      StartInv(c, initial, limit);
    }
  }

  lemma {:induction false} DiskWithinHeld(w: World, n: nat)
    requires AllCovered(w) && n <= |w.uploads|
    ensures DiskUpTo(w, n) <= Q.Sum(w.quota.reservations[..n], Q.Bytes) + LostUpTo(w, n)
  {
    if n > 0 {
      DiskWithinHeld(w, n - 1);
      var rs := w.quota.reservations;
      assert rs[..n] == rs[..n - 1] + [rs[n - 1]];
      Q.SumSnoc(rs[..n - 1], rs[n - 1], Q.Bytes);
      assert Covered(w.uploads[n - 1], rs[n - 1], w.pipe.submitted);
    }
  }

  /**
   * At every moment of every run the source files on disk take no more than the live
   * reservations hold plus what finished uploads have left behind.
   */
  lemma SourcesWithinHoldings(c: Setting, worlds: seq<World>, events: seq<Event>, initial: nat, limit: nat, k: nat)
    requires IsRun(c, worlds, events, initial, limit) && k < |worlds|
    ensures DiskBytes(worlds[k]) <= Q.Held(worlds[k].quota) + Lost(worlds[k])
    ensures initial <= limit ==> initial + DiskBytes(worlds[k]) <= limit + Lost(worlds[k])
    ensures Counted(worlds[k])
  {
    RunKeepsInv(c, worlds, events, initial, limit, k);
    var w := worlds[k];
    DiskWithinHeld(w, |w.uploads|);
    assert w.quota.reservations[..|w.uploads|] == w.quota.reservations;
  }

  /** While an upload receives its file, disk and reservation differ by the chunk let in but not yet written. */
  lemma ReservedExactly(c: Setting, worlds: seq<World>, events: seq<Event>, initial: nat, limit: nat, k: nat, u: nat)
    requires IsRun(c, worlds, events, initial, limit) && k < |worlds| && u < |worlds[k].uploads|
    ensures u < |worlds[k].quota.reservations|
    ensures worlds[k].uploads[u].stage.Receiving? ==>
              OnDisk(worlds[k], u) + worlds[k].uploads[u].stage.granted == worlds[k].quota.reservations[u].bytes
    ensures worlds[k].uploads[u].stage.Waiting? && P.Source(worlds[k].uploads[u].stage.job) in worlds[k].pipe.files ==>
              OnDisk(worlds[k], u) == worlds[k].quota.reservations[u].bytes
  {
    RunKeepsInv(c, worlds, events, initial, limit, k);
    assert Covered(worlds[k].uploads[u], worlds[k].quota.reservations[u], worlds[k].pipe.submitted);
  }

  // ---- When something is left behind

  /** A file field after a file that holds bytes, or a return that leaves such a file. */
  predicate Leaks(c: Setting, w: World, e: Event)
    requires Possible(c, w, e)
  {
    match e
    case CreateFile(u) => Size(w.uploads[u].stage.file) > 0
    case Abandon(u, part) => w.uploads[u].stage.file.value + part > 0
    case _ => false
  }

  ghost predicate SomeLeft(w: World) {
    exists u :: 0 <= u < |w.uploads| && w.uploads[u].left > 0
  }

  lemma StepLeaves(c: Setting, w: World, e: Event)
    requires Possible(c, w, e)
    ensures SomeLeft(Happen(c, w, e)) <==> SomeLeft(w) || Leaks(c, w, e)
  {
    var v := Happen(c, w, e);
    if SomeLeft(w) {
      var u :| 0 <= u < |w.uploads| && w.uploads[u].left > 0;
      assert v.uploads[u].left >= w.uploads[u].left;
    }
    if Leaks(c, w, e) {
      assert v.uploads[e.u].left > 0;
    }
    if SomeLeft(v) {
      var u :| 0 <= u < |v.uploads| && v.uploads[u].left > 0;
      assert u < |w.uploads|;
      assert w.uploads[u].left > 0 || Leaks(c, w, e);
    }
  }

  lemma {:induction false} RunLeavesIff(c: Setting, worlds: seq<World>, events: seq<Event>, initial: nat, limit: nat,
                                        k: nat)
    requires IsRun(c, worlds, events, initial, limit) && k < |worlds|
    ensures SomeLeft(worlds[k]) <==> exists i :: 0 <= i < k && Leaks(c, worlds[i], events[i])
  {
    if k > 0 {
      RunLeavesIff(c, worlds, events, initial, limit, k - 1);
      StepLeaves(c, worlds[k - 1], events[k - 1]);
    }
  }

  lemma {:induction false} LostIff(w: World, n: nat)
    requires n <= |w.uploads|
    ensures LostUpTo(w, n) > 0 <==> exists u :: 0 <= u < n && w.uploads[u].stage.Over? && w.uploads[u].left > 0
  {
    if n > 0 {
      LostIff(w, n - 1);
    }
  }

  /**
   * In a run without a leaking event, the sources on disk never exceed what is held, nor the limit
   * the usage started within.
   */
  lemma CleanRunsFit(c: Setting, worlds: seq<World>, events: seq<Event>, initial: nat, limit: nat, k: nat)
    requires IsRun(c, worlds, events, initial, limit) && k < |worlds|
    requires forall i :: 0 <= i < k ==> !Leaks(c, worlds[i], events[i])
    ensures DiskBytes(worlds[k]) <= Q.Held(worlds[k].quota)
    ensures initial <= limit ==> initial + DiskBytes(worlds[k]) <= limit
  {
    SourcesWithinHoldings(c, worlds, events, initial, limit, k);
    RunLeavesIff(c, worlds, events, initial, limit, k);
    LostIff(worlds[k], |worlds[k].uploads|);
  }

  predicate AllOver(w: World) {
    forall u :: 0 <= u < |w.uploads| ==> w.uploads[u].stage.Over?
  }

  lemma {:induction false} DiskIsLost(w: World, n: nat)
    requires AllOver(w) && n <= |w.uploads|
    ensures DiskUpTo(w, n) == LostUpTo(w, n)
  {
    if n > 0 {
      DiskIsLost(w, n - 1);
    }
  }

  lemma NothingHeld(w: World)
    requires AllCovered(w) && AllOver(w)
    ensures Q.Held(w.quota) == 0
  {
    var rs := w.quota.reservations;
    forall i | 0 <= i < |rs|
      ensures rs[i] == Q.Reservation(0, None)
    {
      assert Covered(w.uploads[i], rs[i], w.pipe.submitted);
    }
    Q.IdleSums(rs);
  }

  /** Once every upload is over nothing is held, and files remain on disk if and only if some event leaked. */
  lemma RestLeavesFilesIff(c: Setting, worlds: seq<World>, events: seq<Event>, initial: nat, limit: nat, k: nat)
    requires IsRun(c, worlds, events, initial, limit) && k < |worlds| && AllOver(worlds[k])
    ensures Q.Held(worlds[k].quota) == 0
    ensures DiskBytes(worlds[k]) > Q.Held(worlds[k].quota) <==> exists i :: 0 <= i < k && Leaks(c, worlds[i], events[i])
  {
    RunKeepsInv(c, worlds, events, initial, limit, k);
    NothingHeld(worlds[k]);
    DiskIsLost(worlds[k], |worlds[k].uploads|);
    LostIff(worlds[k], |worlds[k].uploads|);
    RunLeavesIff(c, worlds, events, initial, limit, k);
  }
}
