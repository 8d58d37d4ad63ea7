/** What every upload is told, in terms of what the outside decided, and in which order batches take jobs. */
module PipelineReplies {
  import opened Lists
  import opened Pipeline

  /** The probe read a duration, and it is not more than thirty seconds. */
  predicate ProbedShort(env: Env, j: nat) {
    env.duration(j).Some? && 0.0 < env.duration(j).value <= 30.0
  }

  /** The jobs of the batch that are not short, in their order: `at` says where each stands in the batch. */
  ghost predicate NotShort(env: Env, batch: seq<nat>, inputs: seq<nat>, at: seq<nat>) {
    && |at| == |inputs|
    && (forall i :: 0 <= i < |at| ==> at[i] < |batch| && inputs[i] == batch[at[i]])
    && (forall i, k :: 0 <= i < k < |at| ==> at[i] < at[k])
    && (forall m :: 0 <= m < |batch| ==> (m in at <==> !ProbedShort(env, batch[m])))
  }

  lemma {:induction false} AcceptedPlaces(env: Env, batch: seq<nat>) returns (at: seq<nat>)
    ensures NotShort(env, batch, Accepted(env, batch), at)
  {
    if batch == [] {
      at := [];
    } else {
      var rest := AcceptedPlaces(env, batch[1..]);
      var moved := seq(|rest|, i requires 0 <= i < |rest| => rest[i] + 1);
      if ProbedShort(env, batch[0]) {
        at := moved;
        PlacesAfterShort(env, batch, Accepted(env, batch[1..]), rest, moved);
        assert [] + Accepted(env, batch[1..]) == Accepted(env, batch[1..]);
      } else {
        at := [0] + moved;
        PlacesAfterLong(env, batch, Accepted(env, batch[1..]), rest, moved);
      }
    }
  }

  lemma PlacesAfterShort(env: Env, batch: seq<nat>, inputs: seq<nat>, rest: seq<nat>, moved: seq<nat>)
    requires batch != [] && NotShort(env, batch[1..], inputs, rest) && ProbedShort(env, batch[0])
    requires |moved| == |rest| && forall i :: 0 <= i < |rest| ==> moved[i] == rest[i] + 1
    ensures NotShort(env, batch, inputs, moved)
  {
    MovedPlaces(env, batch, inputs, rest, moved);
  }

  lemma PlacesAfterLong(env: Env, batch: seq<nat>, inputs: seq<nat>, rest: seq<nat>, moved: seq<nat>)
    requires batch != [] && NotShort(env, batch[1..], inputs, rest) && !ProbedShort(env, batch[0])
    requires |moved| == |rest| && forall i :: 0 <= i < |rest| ==> moved[i] == rest[i] + 1
    ensures NotShort(env, batch, [batch[0]] + inputs, [0] + moved)
  {
    MovedPlaces(env, batch, inputs, rest, moved);
    PlacesConsed(batch, inputs, moved);
    forall m | 0 <= m < |batch|
      ensures m in [0] + moved <==> !ProbedShort(env, batch[m])
    {
      assert m in [0] + moved <==> m in moved || m == 0;
    }
  }

  lemma PlacesConsed(batch: seq<nat>, inputs: seq<nat>, moved: seq<nat>)
    requires batch != [] && |inputs| == |moved|
    requires forall i :: 0 <= i < |moved| ==> 0 < moved[i] < |batch| && inputs[i] == batch[moved[i]]
    requires forall i, k :: 0 <= i < k < |moved| ==> moved[i] < moved[k]
    ensures
      var at, all := [0] + moved, [batch[0]] + inputs;
      && |at| == |all| && (forall i :: 0 <= i < |at| ==> at[i] < |batch| && all[i] == batch[at[i]])
      && forall i, k :: 0 <= i < k < |at| ==> at[i] < at[k]
  {
  }

  /** The places in the rest of the batch, counted in the whole. */
  lemma MovedPlaces(env: Env, batch: seq<nat>, inputs: seq<nat>, rest: seq<nat>, moved: seq<nat>)
    requires batch != [] && NotShort(env, batch[1..], inputs, rest)
    requires |moved| == |rest| && forall i :: 0 <= i < |rest| ==> moved[i] == rest[i] + 1
    ensures forall i :: 0 <= i < |moved| ==> 0 < moved[i] < |batch| && inputs[i] == batch[moved[i]]
    ensures forall m :: 0 <= m < |batch| ==> (m in moved <==> m > 0 && !ProbedShort(env, batch[m]))
  {
    forall m | 0 <= m < |batch|
      ensures m in moved <==> m > 0 && !ProbedShort(env, batch[m])
    {
      if m > 0 {
        assert batch[m] == batch[1..][m - 1];
        ShiftedIn(rest, moved, m - 1);
      }
    }
  }

  lemma ShiftedIn(rest: seq<nat>, moved: seq<nat>, x: nat)
    requires |moved| == |rest| && forall i :: 0 <= i < |rest| ==> moved[i] == rest[i] + 1
    ensures x + 1 in moved <==> x in rest
  {
    if x in rest {
      var i :| 0 <= i < |rest| && rest[i] == x;
      assert moved[i] == x + 1;
    }
  }

  /** ffmpeg took the job, with the batch's inputs or by itself. */
  predicate Taken(env: Env, inputs: seq<nat>, j: nat) {
    !ProbedShort(env, j) && (env.transcodes(inputs) || env.transcodes([j]))
  }

  /**
   * In every run every reply is decided by its job's batch and the outside: too short if and
   * only if the probe says so; an ffmpeg failure if and only if ffmpeg refused the batch's
   * inputs and the job alone; otherwise the result of the commit, with the probed duration.
   */
  lemma ReplyTells(env: Env, batchSize: nat, permits: nat, worlds: seq<World>, events: seq<Event>, k: nat, s: Sent)
    returns (b: nat, inputs: seq<nat>, at: seq<nat>)
    requires IsRun(env, batchSize, permits, worlds, events) && k < |worlds| && s in worlds[k].sent
    ensures b < |worlds[k].batches| && s.job in worlds[k].batches[b] && NotShort(env, worlds[k].batches[b], inputs, at)
    ensures forall d :: s.reply == TooShort(d) <==> env.duration(s.job) == Some(d) && 0.0 < d <= 30.0
    ensures s.reply == FfmpegFailed <==>
              !ProbedShort(env, s.job) && !env.transcodes(inputs) && !env.transcodes([s.job])
    ensures s.reply == BackendFailed <==> Taken(env, inputs, s.job) && !env.stores(s.job)
    ensures forall d :: s.reply == Uploaded(d) <==>
              && Taken(env, inputs, s.job) && env.stores(s.job)
              && d == if env.duration(s.job).Some? then env.duration(s.job).value else 0.0
  {
    b := ReplyOfBatch(env, batchSize, permits, worlds, events, k, s);
    inputs := Accepted(env, worlds[k].batches[b]);
    at := AcceptedPlaces(env, worlds[k].batches[b]);
  }

  // ---- Staged outputs

  lemma {:induction false} TaskHolding(tasks: seq<Task>, x: nat) returns (t: Task)
    requires TaskCount(tasks, x) > 0
    ensures t in tasks && x in JobsOf(t)
  {
    CountIn(JobsOf(tasks[0]), x);
    if x in JobsOf(tasks[0]) {
      t := tasks[0];
    } else {
      t := TaskHolding(tasks[1..], x);
    }
  }

  /** A job with a staged output is in a task, and that task is its commit. */
  lemma StagedIsCommitting(env: Env, w: World, j: nat)
    requires Inv(env, w) && Staged(j) in w.files
    ensures Commit(j) in w.tasks
  {
    assert j < w.submitted && Places(w, j) == 1;
    CountIn(w.queue, j);
    CountIn(w.cut, j);
    if SentCount(w.sent, j) > 0 {
      var s := SentMember(w.sent, j);
      assert false;
    }
    var t := TaskHolding(w.tasks, j);
    assert Tidy(w.files, t);
  }

  ghost predicate CommitsStaged(w: World) {
    forall t :: t in w.tasks && t.Commit? ==> Staged(t.job) in w.files
  }

  lemma RunTaskKeepsStaged(env: Env, w: World, i: nat)
    requires Inv(env, w) && CommitsStaged(w) && i < |w.tasks|
    ensures CommitsStaged(Happen(env, w, RunTask(i)))
  {
    var v, f := Happen(env, w, RunTask(i)), EffectOf(env, w.tasks[i]);
    forall t | t in v.tasks && t.Commit?
      ensures Staged(t.job) in v.files
    {
      if t in f.next {
        NextCommitsStaged(env, w.tasks[i], t);
      } else {
        assert t in w.tasks[..i] || t in w.tasks[i + 1..];
        assert t in w.tasks && t.job in JobsOf(t);
        if t.job in JobsOf(w.tasks[i]) {
          HeldOnce(env, w, i, t.job);
          assert false;
        }
        OthersUntouched(env, w.files, w.tasks[i], t.job);
      }
    }
  }

  lemma NextCommitsStaged(env: Env, t: Task, u: Task)
    requires u in EffectOf(env, t).next && u.Commit?
    ensures Staged(u.job) in EffectOf(env, t).made && Staged(u.job) !in EffectOf(env, t).removed
  {
    if t.RunBatch? {
      var long := Accepted(env, t.jobs);
      if long != [] && env.transcodes(long) {
        var i :| 0 <= i < |long| && Commits(long)[i] == u;
        assert long[i] in long;
      }
    }
  }

  lemma {:induction false} RunKeepsStaged(env: Env, batchSize: nat, permits: nat, worlds: seq<World>,
                                          events: seq<Event>, k: nat)
    requires IsRun(env, batchSize, permits, worlds, events) && k < |worlds|
    ensures CommitsStaged(worlds[k])
  {
    if k > 0 {
      RunKeepsStaged(env, batchSize, permits, worlds, events, k - 1);
      if events[k - 1].RunTask? {
        RunKeepsInv(env, batchSize, permits, worlds, events, k - 1);
        RunTaskKeepsStaged(env, worlds[k - 1], events[k - 1].i);
      }
    }
  }

  /**
   * At every moment of every run a job has a staged output exactly while its commit is still to
   * be done: nothing that a failing ffmpeg leaves behind survives the step.
   */
  lemma StagedIff(env: Env, batchSize: nat, permits: nat, worlds: seq<World>, events: seq<Event>, k: nat, j: nat)
    requires IsRun(env, batchSize, permits, worlds, events) && k < |worlds|
    ensures Staged(j) in worlds[k].files <==> Commit(j) in worlds[k].tasks
  {
    RunKeepsInv(env, batchSize, permits, worlds, events, k);
    RunKeepsStaged(env, batchSize, permits, worlds, events, k);
    if Staged(j) in worlds[k].files {
      StagedIsCommitting(env, worlds[k], j);
    }
  }

  // ---- Sources

  /** What still needs a job's source file. */
  predicate NeedsSource(t: Task, j: nat) {
    !t.Answer? && j in JobsOf(t)
  }

  ghost predicate SourcesThere(w: World) {
    && (forall j :: j in w.queue || j in w.cut ==> Source(j) in w.files)
    && (forall t, j :: t in w.tasks && NeedsSource(t, j) ==> Source(j) in w.files)
  }

  /** A step removes no source that what comes after it needs. */
  lemma NextKeepsSource(env: Env, t: Task, u: Task, j: nat)
    requires u in EffectOf(env, t).next && NeedsSource(u, j)
    ensures NeedsSource(t, j) && Source(j) !in EffectOf(env, t).removed
  {
    if t.RunBatch? {
      var long, next := Accepted(env, t.jobs), EffectOf(env, t).next;
      var i :| 0 <= i < |next| && next[i] == u;
      assert next[i] == Commit(long[i]) || next[i] == RetryAlone(long[i]);
      assert long[i] in long && j == long[i];
    }
  }

  lemma RunTaskKeepsSources(env: Env, w: World, i: nat)
    requires Inv(env, w) && SourcesThere(w) && i < |w.tasks|
    ensures SourcesThere(Happen(env, w, RunTask(i)))
  {
    var v, f := Happen(env, w, RunTask(i)), EffectOf(env, w.tasks[i]);
    forall j | j in v.queue || j in v.cut
      ensures Source(j) in v.files
    {
      UntouchedByTask(env, w, i, j);
    }
    forall t, j | t in v.tasks && NeedsSource(t, j)
      ensures Source(j) in v.files
    {
      if t in f.next {
        assert w.tasks[i] in w.tasks;
        NextKeepsSource(env, w.tasks[i], t, j);
      } else {
        assert t in w.tasks[..i] || t in w.tasks[i + 1..];
        assert t in w.tasks;
        UntouchedByTask(env, w, i, j);
      }
    }
  }

  /** A job waiting, or held by another task, keeps its files. */
  lemma UntouchedByTask(env: Env, w: World, i: nat, j: nat)
    requires Inv(env, w) && i < |w.tasks|
    requires j in w.queue || j in w.cut
          || exists t :: (t in w.tasks[..i] || t in w.tasks[i + 1..]) && j in JobsOf(t)
    ensures Source(j) in Happen(env, w, RunTask(i)).files <==> Source(j) in w.files
  {
    if j in JobsOf(w.tasks[i]) {
      HeldOnce(env, w, i, j);
      assert false;
    }
    OthersUntouched(env, w.files, w.tasks[i], j);
  }

  lemma {:induction false} RunKeepsSources(env: Env, batchSize: nat, permits: nat, worlds: seq<World>,
                                           events: seq<Event>, k: nat)
    requires IsRun(env, batchSize, permits, worlds, events) && k < |worlds|
    ensures SourcesThere(worlds[k])
  {
    if k > 0 {
      RunKeepsSources(env, batchSize, permits, worlds, events, k - 1);
      RunKeepsInv(env, batchSize, permits, worlds, events, k - 1);
      StepKeepsSources(env, batchSize, permits, worlds[k - 1], events[k - 1]);
    }
  }

  lemma StepKeepsSources(env: Env, batchSize: nat, permits: nat, w: World, e: Event)
    requires Inv(env, w) && SourcesThere(w) && Possible(batchSize, permits, w, e)
    ensures SourcesThere(Happen(env, w, e))
  {
    match e
    case RunTask(i) => RunTaskKeepsSources(env, w, i);
    case SpawnBatch =>
      forall t, j | t in Happen(env, w, e).tasks && NeedsSource(t, j)
        ensures Source(j) in w.files
      {
        assert t in w.tasks || t == RunBatch(w.cut);
      }
    case _ =>
  }

  /**
   * At every moment of every run a submitted job's source is there until the step that removes
   * it before its reply: it is gone exactly when the reply is sent or the only step left.
   */
  lemma SourceIff(env: Env, batchSize: nat, permits: nat, worlds: seq<World>, events: seq<Event>, k: nat, j: nat)
    requires IsRun(env, batchSize, permits, worlds, events) && k < |worlds| && j < worlds[k].submitted
    ensures Source(j) !in worlds[k].files <==>
              (exists s :: s in worlds[k].sent && s.job == j) || (exists r :: Answer(j, r) in worlds[k].tasks)
  {
    var w := worlds[k];
    RunKeepsInv(env, batchSize, permits, worlds, events, k);
    RunKeepsSources(env, batchSize, permits, worlds, events, k);
    if r :| Answer(j, r) in w.tasks {
      assert Tidy(w.files, Answer(j, r));
    }
    if Source(j) !in w.files {
      SourceGone(env, w, j);
    }
  }

  lemma SourceGone(env: Env, w: World, j: nat)
    requires Inv(env, w) && SourcesThere(w) && j < w.submitted && Source(j) !in w.files
    ensures (exists s :: s in w.sent && s.job == j) || (exists r :: Answer(j, r) in w.tasks)
  {
    assert Places(w, j) == 1;
    CountIn(w.queue, j);
    CountIn(w.cut, j);
    if SentCount(w.sent, j) > 0 {
      var s := SentMember(w.sent, j);
    } else {
      var t := TaskHolding(w.tasks, j);
      assert !NeedsSource(t, j);
      assert t == Answer(j, t.reply);
    }
  }

  // ---- Order

  function Numbers(n: nat): (r: seq<nat>)
    ensures |r| == n && forall i :: 0 <= i < n ==> r[i] == i
  {
    seq(n, i => i)
  }

  lemma FlattenMore(batches: seq<seq<nat>>, more: seq<nat>)
    ensures Flatten(batches + [more]) == Flatten(batches) + more
  {
    FlattenSnoc(batches + [more], |batches|);
    assert (batches + [more])[..|batches| + 1] == batches + [more] && (batches + [more])[..|batches|] == batches;
  }

  /** All batches, the one being cut and the queue, one after another, are the jobs in the order of submission. */
  predicate InOrder(w: World) {
    Flatten(w.batches) + w.cut + w.queue == Numbers(w.submitted)
  }

  lemma SubmitInOrder(env: Env, w: World)
    requires InOrder(w)
    ensures InOrder(Happen(env, w, Submit))
  {
    assert Numbers(w.submitted + 1) == Numbers(w.submitted) + [w.submitted];
    Regroup(Flatten(w.batches) + w.cut, w.queue, [w.submitted]);
  }

  lemma CutInOrder(env: Env, w: World, n: nat)
    requires InOrder(w) && w.cut == [] && n <= |w.queue|
    ensures InOrder(Happen(env, w, CutBatch(n)))
  {
    assert w.queue[..n] + w.queue[n..] == w.queue;
    assert Flatten(w.batches) + [] == Flatten(w.batches);
    Regroup(Flatten(w.batches), w.queue[..n], w.queue[n..]);
  }

  lemma SpawnInOrder(env: Env, w: World)
    requires InOrder(w)
    ensures InOrder(Happen(env, w, SpawnBatch))
  {
    FlattenMore(w.batches, w.cut);
    assert Flatten(w.batches) + w.cut + [] == Flatten(w.batches) + w.cut;
  }

  predicate Sized(batchSize: nat, w: World) {
    && (forall b :: b in w.batches ==> 1 <= |b| <= batchSize)
    && (w.cut != [] ==> |w.cut| <= batchSize)
  }

  /** In every run the batches take the jobs in the order they were submitted, between one and batchSize at a time. */
  lemma {:induction false} BatchesInOrder(env: Env, batchSize: nat, permits: nat, worlds: seq<World>,
                                          events: seq<Event>, k: nat)
    requires IsRun(env, batchSize, permits, worlds, events) && k < |worlds|
    ensures InOrder(worlds[k]) && Sized(batchSize, worlds[k])
  {
    if k > 0 {
      BatchesInOrder(env, batchSize, permits, worlds, events, k - 1);
      StepInOrder(env, batchSize, permits, worlds[k - 1], events[k - 1]);
    }
  }

  lemma StepInOrder(env: Env, batchSize: nat, permits: nat, w: World, e: Event)
    requires InOrder(w) && Sized(batchSize, w) && Possible(batchSize, permits, w, e)
    ensures InOrder(Happen(env, w, e)) && Sized(batchSize, Happen(env, w, e))
  {
    match e
    case Submit => SubmitInOrder(env, w);
    case CutBatch(n) => CutInOrder(env, w, n);
    case SpawnBatch => SpawnInOrder(env, w);
    case RunTask(i) =>
  }
}
