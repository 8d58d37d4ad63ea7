/**
 * The upload pipeline from submit to reply: batches, the per-file fallback, commits and
 * replies as tasks that run in any order. Source and staged files carry fresh UUIDs, so
 * a job's number names them.
 */
module Pipeline {
  import opened Lists

  datatype Path = Source(id: nat) | Staged(id: nat)

  datatype Reply =
    | Uploaded(secs: real)
    | TooShort(secs: real)
    | FfmpegFailed
    | BackendFailed

  /**
   * What the outside decides: probed durations, whether ffmpeg takes these inputs, what output
   * it leaves when it fails, and whether the writer stores the job.
   */
  datatype Env = Env(duration: nat -> Option<real>, transcodes: seq<nat> -> bool, leaves: nat -> bool,
                     stores: nat -> bool)

  const MIN_UPLOAD_DURATION_SECS: real := 30.0

  function Secs(env: Env, id: nat): real {
    if env.duration(id).Some? then env.duration(id).value else 0.0
  }

  predicate IsShort(env: Env, id: nat) {
    0.0 < Secs(env, id) <= MIN_UPLOAD_DURATION_SECS
  }

  /** The reply a job gets when it is processed by itself. */
  function Alone(env: Env, id: nat): Reply {
    if IsShort(env, id) then TooShort(Secs(env, id))
    else if !env.transcodes([id]) then FfmpegFailed
    else Stored(env, id)
  }

  function Stored(env: Env, id: nat): Reply {
    if env.stores(id) then Uploaded(Secs(env, id)) else BackendFailed
  }

  ghost predicate BatchesSplit(env: Env) {
    forall batch, id :: env.transcodes(batch) && id in batch ==> env.transcodes([id])
  }

  // ---- Tasks

  datatype Task =
    | RunBatch(jobs: seq<nat>)
    | RetryAlone(job: nat)
    | Commit(job: nat)
    | DropSource(job: nat, reply: Reply)
    | Answer(job: nat, reply: Reply)

  datatype Sent = Sent(job: nat, reply: Reply)

  /** What one step of a task does: files made and then removed, replies sent, tasks it turns into. */
  datatype Effect = Effect(made: set<Path>, removed: set<Path>, sent: seq<Sent>, next: seq<Task>)

  function Shorts(env: Env, jobs: seq<nat>): (r: seq<nat>)
    ensures forall j :: j in r <==> j in jobs && IsShort(env, j)
  {
    if jobs == [] then [] else (if IsShort(env, jobs[0]) then [jobs[0]] else []) + Shorts(env, jobs[1..])
  }

  function Accepted(env: Env, jobs: seq<nat>): (r: seq<nat>)
    ensures forall j :: j in r <==> j in jobs && !IsShort(env, j)
  {
    if jobs == [] then [] else (if IsShort(env, jobs[0]) then [] else [jobs[0]]) + Accepted(env, jobs[1..])
  }

  /** The reply a job gets as one of a batch: ffmpeg sees the accepted jobs together first. */
  function InBatch(env: Env, jobs: seq<nat>, id: nat): Reply {
    if IsShort(env, id) then TooShort(Secs(env, id))
    else if env.transcodes(Accepted(env, jobs)) || env.transcodes([id]) then Stored(env, id)
    else FfmpegFailed
  }

  function Sources(jobs: seq<nat>): (r: set<Path>)
    ensures forall p :: p in r <==> p.Source? && p.id in jobs
  {
    set j | j in jobs :: Source(j)
  }

  function Outputs(jobs: seq<nat>): (r: set<Path>)
    ensures forall p :: p in r <==> p.Staged? && p.id in jobs
  {
    set j | j in jobs :: Staged(j)
  }

  /** The partial outputs of a failed run of ffmpeg. */
  function Leavings(env: Env, jobs: seq<nat>): (r: set<Path>)
    ensures r <= Outputs(jobs)
  {
    set j | j in jobs && env.leaves(j) :: Staged(j)
  }

  function Rejections(env: Env, jobs: seq<nat>): (r: seq<Sent>)
    ensures |r| == |jobs| && forall i :: 0 <= i < |jobs| ==> r[i] == Sent(jobs[i], TooShort(Secs(env, jobs[i])))
  {
    seq(|jobs|, i requires 0 <= i < |jobs| => Sent(jobs[i], TooShort(Secs(env, jobs[i]))))
  }

  function Commits(jobs: seq<nat>): (r: seq<Task>)
    ensures |r| == |jobs| && forall i :: 0 <= i < |jobs| ==> r[i] == Commit(jobs[i])
  {
    seq(|jobs|, i requires 0 <= i < |jobs| => Commit(jobs[i]))
  }

  function Retries(jobs: seq<nat>): (r: seq<Task>)
    ensures |r| == |jobs| && forall i :: 0 <= i < |jobs| ==> r[i] == RetryAlone(jobs[i])
  {
    seq(|jobs|, i requires 0 <= i < |jobs| => RetryAlone(jobs[i]))
  }

  function BatchEffect(env: Env, jobs: seq<nat>): Effect {
    var short, long := Shorts(env, jobs), Accepted(env, jobs);
    if long == [] then Effect({}, Sources(short), Rejections(env, short), [])
    else if env.transcodes(long) then Effect(Outputs(long), Sources(short), Rejections(env, short), Commits(long))
    else if |long| > 1 then
      Effect(Leavings(env, long), Sources(short) + Outputs(long), Rejections(env, short), Retries(long))
    else Effect(Leavings(env, long), Sources(short) + Outputs(long) + Sources(long),
                Rejections(env, short) + [Sent(long[0], FfmpegFailed)], [])
  }

  function EffectOf(env: Env, t: Task): Effect {
    match t
    case RunBatch(jobs) => BatchEffect(env, jobs)
    case RetryAlone(j) =>
      if env.transcodes([j]) then Effect({Staged(j)}, {}, [], [Commit(j)])
      else Effect(Leavings(env, [j]), {Staged(j)}, [], [DropSource(j, FfmpegFailed)])
    case Commit(j) => Effect({}, {Staged(j)}, [], [DropSource(j, Stored(env, j))])
    case DropSource(j, r) => Effect({}, {Source(j)}, [], [Answer(j, r)])
    case Answer(j, r) => Effect({}, {}, [Sent(j, r)], [])
  }

  // ---- The pipeline as a whole

  /** The pipeline between two steps; `batches` remembers every batch ever spawned. */
  datatype World = World(
    files: set<Path>,
    queue: seq<nat>,
    cut: seq<nat>,
    tasks: seq<Task>,
    sent: seq<Sent>,
    submitted: nat,
    batches: seq<seq<nat>>)

  datatype Event =
    | Submit
    | CutBatch(n: nat)
    | SpawnBatch
    | RunTask(i: nat)

  const START := World({}, [], [], [], [], 0, [])

  predicate IsBatch(t: Task) { t.RunBatch? }

  function RunningBatches(tasks: seq<Task>): nat {
    if tasks == [] then 0 else (if IsBatch(tasks[0]) then 1 else 0) + RunningBatches(tasks[1..])
  }

  predicate Possible(batchSize: nat, permits: nat, w: World, e: Event) {
    match e
    case Submit => true
    case CutBatch(n) => w.cut == [] && 1 <= n <= batchSize && n <= |w.queue|
    case SpawnBatch => w.cut != [] && RunningBatches(w.tasks) < permits
    case RunTask(i) => i < |w.tasks|
  }

  function Happen(env: Env, w: World, e: Event): World
    requires e.CutBatch? ==> e.n <= |w.queue|
    requires e.RunTask? ==> e.i < |w.tasks|
  {
    match e
    case Submit =>
      w.(files := w.files + {Source(w.submitted)}, queue := w.queue + [w.submitted], submitted := w.submitted + 1)
    case CutBatch(n) => w.(cut := w.queue[..n], queue := w.queue[n..])
    case SpawnBatch => w.(cut := [], tasks := w.tasks + [RunBatch(w.cut)], batches := w.batches + [w.cut])
    case RunTask(i) =>
      var f := EffectOf(env, w.tasks[i]);
      w.(files := w.files + f.made - f.removed, sent := w.sent + f.sent,
         tasks := w.tasks[..i] + f.next + w.tasks[i + 1..])
  }

  // ---- Where every job is

  function JobsOf(t: Task): seq<nat> {
    if t.RunBatch? then t.jobs else [t.job]
  }

  function Count(jobs: seq<nat>, x: nat): nat {
    if jobs == [] then 0 else (if jobs[0] == x then 1 else 0) + Count(jobs[1..], x)
  }

  function TaskCount(tasks: seq<Task>, x: nat): nat {
    if tasks == [] then 0 else Count(JobsOf(tasks[0]), x) + TaskCount(tasks[1..], x)
  }

  function SentCount(sent: seq<Sent>, x: nat): nat {
    if sent == [] then 0 else (if sent[0].job == x then 1 else 0) + SentCount(sent[1..], x)
  }

  /** How many times job x occurs anywhere between submission and reply. */
  function Places(w: World, x: nat): nat {
    Count(w.queue, x) + Count(w.cut, x) + TaskCount(w.tasks, x) + SentCount(w.sent, x)
  }

  lemma {:induction false} CountAppend(a: seq<nat>, b: seq<nat>, x: nat)
    ensures Count(a + b, x) == Count(a, x) + Count(b, x)
  {
    if a == [] {
      assert a + b == b;
    } else {
      CountAppend(a[1..], b, x);
      assert (a + b)[1..] == a[1..] + b;
    }
  }

  lemma CountOne(j: nat, x: nat)
    ensures Count([j], x) == if j == x then 1 else 0
  {
    assert [j][1..] == [];
  }

  lemma {:induction false} CountIn(a: seq<nat>, x: nat)
    ensures Count(a, x) > 0 <==> x in a
  {
    if a != [] {
      CountIn(a[1..], x);
    }
  }

  lemma {:induction false} TaskCountAppend(a: seq<Task>, b: seq<Task>, x: nat)
    ensures TaskCount(a + b, x) == TaskCount(a, x) + TaskCount(b, x)
  {
    if a == [] {
      assert a + b == b;
    } else {
      TaskCountAppend(a[1..], b, x);
      assert (a + b)[1..] == a[1..] + b;
    }
  }

  lemma {:induction false} TaskCountIn(a: seq<Task>, i: nat, x: nat)
    requires i < |a|
    ensures TaskCount(a, x) == TaskCount(a[..i], x) + Count(JobsOf(a[i]), x) + TaskCount(a[i + 1..], x)
  {
    TaskCountAppend(a[..i], a[i..], x);
    assert a[..i] + a[i..] == a && a[i..][0] == a[i] && a[i..][1..] == a[i + 1..];
  }

  lemma {:induction false} SentCountAppend(a: seq<Sent>, b: seq<Sent>, x: nat)
    ensures SentCount(a + b, x) == SentCount(a, x) + SentCount(b, x)
  {
    if a == [] {
      assert a + b == b;
    } else {
      SentCountAppend(a[1..], b, x);
      assert (a + b)[1..] == a[1..] + b;
    }
  }

  lemma {:induction false} SentCountIn(a: seq<Sent>, s: Sent)
    requires s in a
    ensures SentCount(a, s.job) > 0
  {
    if s != a[0] {
      SentCountIn(a[1..], s);
    }
  }

  lemma {:induction false} BatchPartition(env: Env, jobs: seq<nat>, x: nat)
    ensures Count(Shorts(env, jobs), x) + Count(Accepted(env, jobs), x) == Count(jobs, x)
  {
    if jobs != [] {
      BatchPartition(env, jobs[1..], x);
      CountAppend(if IsShort(env, jobs[0]) then [jobs[0]] else [], Shorts(env, jobs[1..]), x);
      CountAppend(if IsShort(env, jobs[0]) then [] else [jobs[0]], Accepted(env, jobs[1..]), x);
    }
  }

  lemma {:induction false} CommitsCount(jobs: seq<nat>, x: nat)
    ensures TaskCount(Commits(jobs), x) == Count(jobs, x)
  {
    if jobs != [] {
      CommitsCount(jobs[1..], x);
      CountOne(jobs[0], x);
      assert Commits(jobs)[1..] == Commits(jobs[1..]);
    }
  }

  lemma {:induction false} RetriesCount(jobs: seq<nat>, x: nat)
    ensures TaskCount(Retries(jobs), x) == Count(jobs, x)
  {
    if jobs != [] {
      RetriesCount(jobs[1..], x);
      CountOne(jobs[0], x);
      assert Retries(jobs)[1..] == Retries(jobs[1..]);
    }
  }

  lemma {:induction false} RejectionsCount(env: Env, jobs: seq<nat>, x: nat)
    ensures SentCount(Rejections(env, jobs), x) == Count(jobs, x)
  {
    if jobs != [] {
      RejectionsCount(env, jobs[1..], x);
      assert Rejections(env, jobs)[1..] == Rejections(env, jobs[1..]);
    }
  }

  lemma BatchKeepsJobs(env: Env, jobs: seq<nat>, x: nat)
    ensures TaskCount(BatchEffect(env, jobs).next, x) + SentCount(BatchEffect(env, jobs).sent, x) == Count(jobs, x)
  {
    BatchPartition(env, jobs, x);
    RejectionsCount(env, Shorts(env, jobs), x);
    AcceptedAreKept(env, jobs, x);
  }

  /** The accepted jobs go on to commits or retries, or the only one is answered with the rejections. */
  lemma AcceptedAreKept(env: Env, jobs: seq<nat>, x: nat)
    ensures
      var f := BatchEffect(env, jobs);
      TaskCount(f.next, x) + SentCount(f.sent, x)
      == Count(Accepted(env, jobs), x) + SentCount(Rejections(env, Shorts(env, jobs)), x)
  {
    var rejections, long := Rejections(env, Shorts(env, jobs)), Accepted(env, jobs);
    if long == [] {
    } else if env.transcodes(long) {
      CommitsCount(long, x);
    } else if |long| > 1 {
      RetriesCount(long, x);
    } else {
      SentCountAppend(rejections, [Sent(long[0], FfmpegFailed)], x);
      OneSent(Sent(long[0], FfmpegFailed), x);
      CountOne(long[0], x);
      assert long == [long[0]];
    }
  }

  lemma OneSent(s: Sent, x: nat)
    ensures SentCount([s], x) == if s.job == x then 1 else 0
  {
    assert [s][1..] == [];
  }

  /** No step loses a job or takes it twice: it is answered or handed to a later task. */
  lemma EffectKeepsJobs(env: Env, t: Task, x: nat)
    ensures TaskCount(EffectOf(env, t).next, x) + SentCount(EffectOf(env, t).sent, x) == Count(JobsOf(t), x)
  {
    if t.RunBatch? {
      BatchKeepsJobs(env, t.jobs, x);
    } else {
      var f := EffectOf(env, t);
      assert f.next != [] ==> f.next[1..] == [];
      assert f.sent != [] ==> f.sent[1..] == [];
    }
  }

  // ---- Replies and files

  /** The reply is the one job j gets in a batch that carried it. */
  ghost predicate Rode(env: Env, batches: seq<seq<nat>>, j: nat, r: Reply) {
    exists k :: 0 <= k < |batches| && j in batches[k] && r == InBatch(env, batches[k], j)
  }

  /** A task only carries jobs on the way to the reply their batch gives them. */
  ghost predicate OnTrack(env: Env, batches: seq<seq<nat>>, t: Task) {
    match t
    case RunBatch(jobs) => jobs != [] && exists k :: 0 <= k < |batches| && batches[k] == jobs
    case RetryAlone(j) => !IsShort(env, j) && Rode(env, batches, j, Alone(env, j))
    case Commit(j) => Rode(env, batches, j, Stored(env, j))
    case DropSource(j, r) => Rode(env, batches, j, r)
    case Answer(j, r) => Rode(env, batches, j, r)
  }

  /** The files a task may still find are the ones its later steps remove. */
  predicate Tidy(files: set<Path>, t: Task) {
    match t
    case RunBatch(jobs) => forall j :: j in jobs ==> Staged(j) !in files
    case RetryAlone(j) => Staged(j) !in files
    case Commit(j) => true
    case DropSource(j, _) => Staged(j) !in files
    case Answer(j, _) => Gone(files, j)
  }

  predicate Gone(files: set<Path>, j: nat) {
    Source(j) !in files && Staged(j) !in files
  }

  ghost predicate Inv(env: Env, w: World) {
    && (forall x: nat :: Places(w, x) == if x < w.submitted then 1 else 0)
    && (forall p :: p in w.files ==> p.id < w.submitted)
    && (forall t :: t in w.tasks ==> OnTrack(env, w.batches, t) && Tidy(w.files, t))
    && (forall j :: j in w.queue || j in w.cut ==> Staged(j) !in w.files)
    && (forall s :: s in w.sent ==> Rode(env, w.batches, s.job, s.reply) && Gone(w.files, s.job))
  }

  lemma EffectOnTrack(env: Env, batches: seq<seq<nat>>, t: Task, files: set<Path>)
    requires OnTrack(env, batches, t) && Tidy(files, t)
    ensures
      var f := EffectOf(env, t);
      var after := files + f.made - f.removed;
      && (forall u :: u in f.next ==> OnTrack(env, batches, u) && Tidy(after, u))
      && (forall s :: s in f.sent ==> Rode(env, batches, s.job, s.reply) && Gone(after, s.job))
  {
    if t.RunBatch? {
      BatchNextOnTrack(env, batches, t.jobs, files);
      BatchSentOnTrack(env, batches, t.jobs, files);
    }
  }

  lemma BatchNextOnTrack(env: Env, batches: seq<seq<nat>>, jobs: seq<nat>, files: set<Path>)
    requires OnTrack(env, batches, RunBatch(jobs)) && Tidy(files, RunBatch(jobs))
    ensures
      var f := BatchEffect(env, jobs);
      forall u :: u in f.next ==> OnTrack(env, batches, u) && Tidy(files + f.made - f.removed, u)
  {
    var long, f := Accepted(env, jobs), BatchEffect(env, jobs);
    forall u | u in f.next
      ensures OnTrack(env, batches, u) && Tidy(files + f.made - f.removed, u)
    {
      var i :| 0 <= i < |long| && f.next[i] == u;
      assert long[i] in long;
      RidesIn(env, batches, jobs, long[i]);
    }
  }

  lemma BatchSentOnTrack(env: Env, batches: seq<seq<nat>>, jobs: seq<nat>, files: set<Path>)
    requires OnTrack(env, batches, RunBatch(jobs)) && Tidy(files, RunBatch(jobs))
    ensures
      var f := BatchEffect(env, jobs);
      forall s :: s in f.sent ==> Rode(env, batches, s.job, s.reply) && Gone(files + f.made - f.removed, s.job)
  {
    var f := BatchEffect(env, jobs);
    forall s | s in f.sent
      ensures Rode(env, batches, s.job, s.reply) && Gone(files + f.made - f.removed, s.job)
    {
      SentByBatch(env, jobs, s);
      RidesIn(env, batches, jobs, s.job);
      assert Staged(s.job) !in files;
    }
  }

  /** What a batch answers is its own reply, to jobs whose source it removes and whose output it does not keep. */
  lemma SentByBatch(env: Env, jobs: seq<nat>, s: Sent)
    requires s in BatchEffect(env, jobs).sent
    ensures s.job in jobs && s.reply == InBatch(env, jobs, s.job)
    ensures
      var f := BatchEffect(env, jobs);
      Source(s.job) in f.removed && (Staged(s.job) in f.made ==> Staged(s.job) in f.removed)
  {
    var rejections, long := Rejections(env, Shorts(env, jobs)), Accepted(env, jobs);
    if s in rejections {
      var i :| 0 <= i < |rejections| && rejections[i] == s;
      assert Shorts(env, jobs)[i] in Shorts(env, jobs);
    } else {
      assert long == [long[0]] && long[0] in long && s == Sent(long[0], FfmpegFailed);
    }
  }

  lemma RidesIn(env: Env, batches: seq<seq<nat>>, jobs: seq<nat>, j: nat)
    requires j in jobs && exists k :: 0 <= k < |batches| && batches[k] == jobs
    ensures Rode(env, batches, j, InBatch(env, jobs, j))
  {
  }

  /** Sources are made by submissions only. */
  lemma MakesNoSource(env: Env, t: Task)
    ensures forall p :: p in EffectOf(env, t).made ==> p.Staged?
  {
  }

  /** A step touches no file of another task's job. */
  lemma EffectIsLocal(env: Env, t: Task, p: Path)
    requires p.id !in JobsOf(t)
    ensures p !in EffectOf(env, t).made && p !in EffectOf(env, t).removed
  {
  }

  // ---- Every step keeps the invariant

  lemma {:induction false} TaskCountMember(tasks: seq<Task>, t: Task, x: nat)
    requires t in tasks && x in JobsOf(t)
    ensures TaskCount(tasks, x) > 0
  {
    CountIn(JobsOf(tasks[0]), x);
    if t != tasks[0] {
      TaskCountMember(tasks[1..], t, x);
    }
  }

  /** A job somewhere in the pipeline has been submitted. */
  lemma PlacedIsSubmitted(env: Env, w: World, x: nat)
    requires Inv(env, w)
    ensures x in w.queue || x in w.cut ==> x < w.submitted
    ensures forall t :: t in w.tasks && x in JobsOf(t) ==> x < w.submitted
    ensures forall s :: s in w.sent && s.job == x ==> x < w.submitted
  {
    CountIn(w.queue, x);
    CountIn(w.cut, x);
    if t :| t in w.tasks && x in JobsOf(t) {
      TaskCountMember(w.tasks, t, x);
    }
    if s :| s in w.sent && s.job == x {
      SentCountIn(w.sent, s);
    }
    assert Places(w, x) == if x < w.submitted then 1 else 0;
  }

  /** A job held by task i is held nowhere else. */
  lemma HeldOnce(env: Env, w: World, i: nat, x: nat)
    requires Inv(env, w) && i < |w.tasks| && x in JobsOf(w.tasks[i])
    ensures x !in w.queue && x !in w.cut && x < w.submitted
    ensures forall t :: t in w.tasks[..i] || t in w.tasks[i + 1..] ==> x !in JobsOf(t)
    ensures forall s :: s in w.sent ==> s.job != x
  {
    assert Places(w, x) == if x < w.submitted then 1 else 0;
    TaskCountIn(w.tasks, i, x);
    CountIn(JobsOf(w.tasks[i]), x);
    CountIn(w.queue, x);
    CountIn(w.cut, x);
    if t :| t in w.tasks[..i] && x in JobsOf(t) { TaskCountMember(w.tasks[..i], t, x); }
    if t :| t in w.tasks[i + 1..] && x in JobsOf(t) { TaskCountMember(w.tasks[i + 1..], t, x); }
    if s :| s in w.sent && s.job == x { SentCountIn(w.sent, s); }
  }

  lemma RunTaskCounts(env: Env, w: World, i: nat, x: nat)
    requires i < |w.tasks|
    ensures Places(Happen(env, w, RunTask(i)), x) == Places(w, x)
  {
    var t := w.tasks[i];
    var f := EffectOf(env, t);
    EffectKeepsJobs(env, t, x);
    ReplacedTaskCount(w.tasks, i, f.next, x);
    SentCountAppend(w.sent, f.sent, x);
  }

  lemma ReplacedTaskCount(tasks: seq<Task>, i: nat, next: seq<Task>, x: nat)
    requires i < |tasks|
    ensures TaskCount(tasks[..i] + next + tasks[i + 1..], x) + Count(JobsOf(tasks[i]), x) ==
              TaskCount(tasks, x) + TaskCount(next, x)
  {
    TaskCountIn(tasks, i, x);
    TaskCountAppend(tasks[..i] + next, tasks[i + 1..], x);
    TaskCountAppend(tasks[..i], next, x);
  }

  /** Files of jobs the task does not hold are as before. */
  lemma OthersUntouched(env: Env, files: set<Path>, t: Task, x: nat)
    requires x !in JobsOf(t)
    ensures
      var f := EffectOf(env, t);
      var after := files + f.made - f.removed;
      && (Source(x) in after <==> Source(x) in files) && (Staged(x) in after <==> Staged(x) in files)
  {
    EffectIsLocal(env, t, Source(x));
    EffectIsLocal(env, t, Staged(x));
  }

  lemma OtherTaskUntouched(env: Env, files: set<Path>, t: Task, u: Task)
    requires forall x :: x in JobsOf(t) ==> x !in JobsOf(u)
    requires Tidy(files, u)
    ensures Tidy(files + EffectOf(env, t).made - EffectOf(env, t).removed, u)
  {
    forall x | x in JobsOf(u)
      ensures x !in JobsOf(t)
    {
    }
    match u
    case RunBatch(jobs) =>
      forall j | j in jobs
        ensures Staged(j) !in files + EffectOf(env, t).made - EffectOf(env, t).removed
      {
        OthersUntouched(env, files, t, j);
      }
    case _ =>
      assert u.job in JobsOf(u);
      OthersUntouched(env, files, t, u.job);
  }

  lemma RunTaskKeepsTasks(env: Env, w: World, i: nat)
    requires Inv(env, w) && i < |w.tasks|
    ensures
      var v := Happen(env, w, RunTask(i));
      forall t :: t in v.tasks ==> OnTrack(env, v.batches, t) && Tidy(v.files, t)
  {
    var v, f := Happen(env, w, RunTask(i)), EffectOf(env, w.tasks[i]);
    assert w.tasks[i] in w.tasks;
    EffectOnTrack(env, w.batches, w.tasks[i], w.files);
    forall u | u in v.tasks
      ensures OnTrack(env, v.batches, u) && Tidy(v.files, u)
    {
      if u !in f.next {
        assert u in w.tasks[..i] || u in w.tasks[i + 1..];
        assert u in w.tasks;
        forall x | x in JobsOf(w.tasks[i])
          ensures x !in JobsOf(u)
        {
          HeldOnce(env, w, i, x);
        }
        OtherTaskUntouched(env, w.files, w.tasks[i], u);
      }
    }
  }

  lemma RunTaskKeepsRest(env: Env, w: World, i: nat)
    requires Inv(env, w) && i < |w.tasks|
    ensures var v := Happen(env, w, RunTask(i));
            && (forall p :: p in v.files ==> p.id < v.submitted)
            && (forall j :: j in v.queue || j in v.cut ==> Staged(j) !in v.files)
            && (forall s :: s in v.sent ==> Rode(env, v.batches, s.job, s.reply) && Gone(v.files, s.job))
  {
    var v, t := Happen(env, w, RunTask(i)), w.tasks[i];
    assert t in w.tasks;
    forall x | x in JobsOf(t)
      ensures x !in w.queue && x !in w.cut && x < w.submitted && forall s :: s in w.sent ==> s.job != x
    {
      HeldOnce(env, w, i, x);
    }
    EffectOnTrack(env, w.batches, t, w.files);
    forall p | p in v.files
      ensures p.id < v.submitted
    {
      if p.id !in JobsOf(t) { EffectIsLocal(env, t, p); }
    }
    forall j | j in v.queue || j in v.cut
      ensures Staged(j) !in v.files
    {
      OthersUntouched(env, w.files, t, j);
    }
    forall s | s in v.sent
      ensures Rode(env, v.batches, s.job, s.reply) && Gone(v.files, s.job)
    {
      if s in w.sent { OthersUntouched(env, w.files, t, s.job); }
    }
  }

  lemma SubmitKeepsInv(env: Env, w: World)
    requires Inv(env, w)
    ensures Inv(env, Happen(env, w, Submit))
  {
    var v := Happen(env, w, Submit);
    forall x: nat
      ensures Places(v, x) == if x < v.submitted then 1 else 0
    {
      CountAppend(w.queue, [w.submitted], x);
      CountOne(w.submitted, x);
      assert Places(w, x) == if x < w.submitted then 1 else 0;
    }
    PlacedIsSubmitted(env, w, w.submitted);
    forall t | t in w.tasks
      ensures Tidy(v.files, t)
    {
      assert Tidy(w.files, t);
    }
  }

  lemma CutKeepsInv(env: Env, w: World, n: nat)
    requires Inv(env, w) && n <= |w.queue| && w.cut == []
    ensures Inv(env, Happen(env, w, CutBatch(n)))
  {
    var v := Happen(env, w, CutBatch(n));
    forall x: nat
      ensures Places(v, x) == Places(w, x)
    {
      CountAppend(w.queue[..n], w.queue[n..], x);
      assert w.queue[..n] + w.queue[n..] == w.queue;
    }
  }

  lemma StillRode(env: Env, batches: seq<seq<nat>>, more: seq<seq<nat>>, t: Task)
    requires OnTrack(env, batches, t)
    ensures OnTrack(env, batches + more, t)
  {
    if t.RunBatch? {
      var k :| 0 <= k < |batches| && batches[k] == t.jobs;
      assert (batches + more)[k] == t.jobs;
    } else {
      RodeLonger(env, batches, more, t.job);
    }
  }

  lemma RodeLonger(env: Env, batches: seq<seq<nat>>, more: seq<seq<nat>>, j: nat)
    ensures forall r :: Rode(env, batches, j, r) ==> Rode(env, batches + more, j, r)
  {
    forall r | Rode(env, batches, j, r)
      ensures Rode(env, batches + more, j, r)
    {
      var k :| 0 <= k < |batches| && j in batches[k] && r == InBatch(env, batches[k], j);
      assert (batches + more)[k] == batches[k];
    }
  }

  lemma SpawnKeepsInv(env: Env, w: World)
    requires Inv(env, w) && w.cut != []
    ensures Inv(env, Happen(env, w, SpawnBatch))
  {
    var v := Happen(env, w, SpawnBatch);
    forall x: nat
      ensures Places(v, x) == Places(w, x)
    {
      TaskCountAppend(w.tasks, [RunBatch(w.cut)], x);
      assert [RunBatch(w.cut)][1..] == [];
    }
    forall t | t in v.tasks
      ensures OnTrack(env, v.batches, t) && Tidy(v.files, t)
    {
      if t in w.tasks {
        StillRode(env, w.batches, [w.cut], t);
      } else {
        assert v.batches[|w.batches|] == w.cut;
      }
    }
    forall s | s in v.sent
      ensures Rode(env, v.batches, s.job, s.reply)
    {
      RodeLonger(env, w.batches, [w.cut], s.job);
    }
  }

  lemma StepKeepsInv(env: Env, batchSize: nat, permits: nat, w: World, e: Event)
    requires Inv(env, w) && Possible(batchSize, permits, w, e)
    ensures Inv(env, Happen(env, w, e))
  {
    match e
    case Submit => SubmitKeepsInv(env, w);
    case CutBatch(n) => CutKeepsInv(env, w, n);
    case SpawnBatch => SpawnKeepsInv(env, w);
    case RunTask(i) =>
      RunTaskKeepsTasks(env, w, i);
      RunTaskKeepsRest(env, w, i);
      forall x: nat
        ensures Places(Happen(env, w, e), x) == Places(w, x)
      {
        RunTaskCounts(env, w, i, x);
      }
  }

  ghost predicate IsRun(env: Env, batchSize: nat, permits: nat, worlds: seq<World>, events: seq<Event>) {
    && |worlds| == |events| + 1 && worlds[0] == START
    && forall k :: 0 <= k < |events| ==>
         Possible(batchSize, permits, worlds[k], events[k]) && worlds[k + 1] == Happen(env, worlds[k], events[k])
  }

  lemma {:induction false} RunKeepsInv(env: Env, batchSize: nat, permits: nat, worlds: seq<World>, events: seq<Event>,
                                       k: nat)
    requires IsRun(env, batchSize, permits, worlds, events) && k < |worlds|
    ensures Inv(env, worlds[k])
  {
    if k > 0 {
      RunKeepsInv(env, batchSize, permits, worlds, events, k - 1);
      StepKeepsInv(env, batchSize, permits, worlds[k - 1], events[k - 1]);
    } else {
      forall x: nat
        ensures Places(START, x) == 0
      {
      }
    }
  }

  /**
   * At every moment of every run: no job has been answered twice, an answered job's source
   * and staged files are gone, and if ffmpeg takes a batch only when it takes each input,
   * each answer is the one the job would get alone.
   */
  lemma AnsweredOnceAsAlone(env: Env, batchSize: nat, permits: nat, worlds: seq<World>, events: seq<Event>, k: nat,
                            x: nat)
    requires IsRun(env, batchSize, permits, worlds, events) && k < |worlds|
    ensures SentCount(worlds[k].sent, x) <= 1
    ensures forall s :: s in worlds[k].sent ==> Gone(worlds[k].files, s.job)
    ensures BatchesSplit(env) ==> forall s :: s in worlds[k].sent ==> s.reply == Alone(env, s.job)
  {
    RunKeepsInv(env, batchSize, permits, worlds, events, k);
    assert Places(worlds[k], x) == if x < worlds[k].submitted then 1 else 0;
    if BatchesSplit(env) {
      forall s | s in worlds[k].sent
        ensures s.reply == Alone(env, s.job)
      {
        var b := ReplyOfBatch(env, batchSize, permits, worlds, events, k, s);
      }
    }
  }

  // ---- Without assuming that batches split

  function BatchCount(batches: seq<seq<nat>>, x: nat): nat {
    if batches == [] then 0 else Count(batches[0], x) + BatchCount(batches[1..], x)
  }

  lemma {:induction false} BatchCountAppend(a: seq<seq<nat>>, b: seq<seq<nat>>, x: nat)
    ensures BatchCount(a + b, x) == BatchCount(a, x) + BatchCount(b, x)
  {
    if a == [] {
      assert a + b == b;
    } else {
      BatchCountAppend(a[1..], b, x);
      assert (a + b)[1..] == a[1..] + b;
    }
  }

  lemma {:induction false} RidesOnce(batches: seq<seq<nat>>, x: nat, b: nat, c: nat)
    requires b < c < |batches| && x in batches[b] && x in batches[c]
    ensures BatchCount(batches, x) >= 2
  {
    CountIn(batches[0], x);
    if b > 0 {
      RidesOnce(batches[1..], x, b - 1, c - 1);
    } else {
      RidesAtAll(batches[1..], x, c - 1);
    }
  }

  lemma {:induction false} RidesAtAll(batches: seq<seq<nat>>, x: nat, b: nat)
    requires b < |batches| && x in batches[b]
    ensures BatchCount(batches, x) >= 1
  {
    CountIn(batches[0], x);
    if b > 0 {
      RidesAtAll(batches[1..], x, b - 1);
    }
  }

  /** Exactly the jobs beyond the queue and the batch being cut have ridden in a batch. */
  lemma {:induction false} RunCountsBatches(env: Env, batchSize: nat, permits: nat, worlds: seq<World>,
                                            events: seq<Event>, k: nat, x: nat)
    requires IsRun(env, batchSize, permits, worlds, events) && k < |worlds|
    ensures BatchCount(worlds[k].batches, x) == TaskCount(worlds[k].tasks, x) + SentCount(worlds[k].sent, x)
  {
    if k > 0 {
      RunCountsBatches(env, batchSize, permits, worlds, events, k - 1, x);
      var w, e := worlds[k - 1], events[k - 1];
      if e.SpawnBatch? {
        BatchCountAppend(w.batches, [w.cut], x);
        TaskCountAppend(w.tasks, [RunBatch(w.cut)], x);
        assert [w.cut][1..] == [] && [RunBatch(w.cut)][1..] == [];
      } else if e.RunTask? {
        RunTaskCounts(env, w, e.i, x);
      }
    }
  }

  /**
   * In every run, whatever ffmpeg does: an answered job has ridden in exactly one batch, its
   * reply is the one that batch gives it, and the reply differs from the one it would get
   * alone if and only if ffmpeg took the batch's accepted jobs and refuses this one alone.
   */
  lemma ReplyOfBatch(env: Env, batchSize: nat, permits: nat, worlds: seq<World>, events: seq<Event>, k: nat, s: Sent)
    returns (b: nat)
    requires IsRun(env, batchSize, permits, worlds, events) && k < |worlds| && s in worlds[k].sent
    ensures b < |worlds[k].batches| && s.job in worlds[k].batches[b]
    ensures forall c :: 0 <= c < |worlds[k].batches| && s.job in worlds[k].batches[c] ==> c == b
    ensures s.reply == InBatch(env, worlds[k].batches[b], s.job)
    ensures s.reply != Alone(env, s.job) <==> Spared(env, worlds[k].batches[b], s.job)
  {
    var batches := worlds[k].batches;
    RunKeepsInv(env, batchSize, permits, worlds, events, k);
    assert Rode(env, batches, s.job, s.reply);
    b :| 0 <= b < |batches| && s.job in batches[b] && s.reply == InBatch(env, batches[b], s.job);
    forall c | 0 <= c < |batches| && s.job in batches[c]
      ensures c == b
    {
      RunCountsBatches(env, batchSize, permits, worlds, events, k, s.job);
      assert Places(worlds[k], s.job) <= 1;
      if c != b {
        RidesOnce(batches, s.job, if b < c then b else c, if b < c then c else b);
        assert false;
      }
    }
  }

  /** ffmpeg takes the job with its batch but not by itself. */
  predicate Spared(env: Env, jobs: seq<nat>, j: nat) {
    !IsShort(env, j) && env.transcodes(Accepted(env, jobs)) && !env.transcodes([j])
  }

  /** At any moment of any run all replies are as if alone if and only if no answered job was spared by its batch. */
  lemma BatchingIsInvisibleIff(env: Env, batchSize: nat, permits: nat, worlds: seq<World>, events: seq<Event>, k: nat)
    requires IsRun(env, batchSize, permits, worlds, events) && k < |worlds|
    ensures (forall s :: s in worlds[k].sent ==> s.reply == Alone(env, s.job))
       <==> (forall s, b :: s in worlds[k].sent && 0 <= b < |worlds[k].batches| && s.job in worlds[k].batches[b] ==>
               !Spared(env, worlds[k].batches[b], s.job))
  {
    forall s | s in worlds[k].sent
      ensures s.reply == Alone(env, s.job) <==>
        forall b :: 0 <= b < |worlds[k].batches| && s.job in worlds[k].batches[b] ==>
          !Spared(env, worlds[k].batches[b], s.job)
    {
      var c := ReplyOfBatch(env, batchSize, permits, worlds, events, k, s);
    }
  }

  // ---- Nothing left to do

  predicate Idle(w: World) {
    w.queue == [] && w.cut == [] && w.tasks == []
  }

  /** When nothing is left to do, every submitted job has been answered exactly once and no file remains. */
  lemma IdleMeansAllAnswered(env: Env, batchSize: nat, permits: nat, worlds: seq<World>, events: seq<Event>, k: nat)
    requires IsRun(env, batchSize, permits, worlds, events) && k < |worlds| && Idle(worlds[k])
    ensures forall x: nat :: SentCount(worlds[k].sent, x) == if x < worlds[k].submitted then 1 else 0
    ensures worlds[k].files == {}
  {
    var w := worlds[k];
    RunKeepsInv(env, batchSize, permits, worlds, events, k);
    forall x: nat
      ensures SentCount(w.sent, x) == if x < w.submitted then 1 else 0
    {
      assert Places(w, x) == SentCount(w.sent, x);
    }
    forall p: Path
      ensures p !in w.files
    {
      if p.id < w.submitted {
        assert SentCount(w.sent, p.id) == 1;
        var s := SentMember(w.sent, p.id);
        assert Gone(w.files, s.job);
      }
    }
  }

  lemma {:induction false} SentMember(sent: seq<Sent>, x: nat) returns (s: Sent)
    requires SentCount(sent, x) > 0
    ensures s in sent && s.job == x
  {
    if sent[0].job == x {
      s := sent[0];
    } else {
      s := SentMember(sent[1..], x);
    }
  }

  // ---- Progress

  function Work(t: Task): nat {
    match t
    case RunBatch(jobs) => 1 + 4 * |jobs|
    case RetryAlone(_) => 4
    case Commit(_) => 3
    case DropSource(_, _) => 2
    case Answer(_, _) => 1
  }

  function WorkLeft(tasks: seq<Task>): nat {
    if tasks == [] then 0 else Work(tasks[0]) + WorkLeft(tasks[1..])
  }

  lemma {:induction false} WorkAppend(a: seq<Task>, b: seq<Task>)
    ensures WorkLeft(a + b) == WorkLeft(a) + WorkLeft(b)
  {
    if a == [] {
      assert a + b == b;
    } else {
      WorkAppend(a[1..], b);
      assert (a + b)[1..] == a[1..] + b;
    }
  }

  lemma {:induction false} WorkOfEach(tasks: seq<Task>, n: nat)
    requires forall i :: 0 <= i < |tasks| ==> Work(tasks[i]) == n
    ensures WorkLeft(tasks) == n * |tasks|
  {
    if tasks != [] {
      WorkOfEach(tasks[1..], n);
      assert n * |tasks| == n * (|tasks| - 1) + n;
    }
  }

  lemma {:induction false} AcceptedLength(env: Env, jobs: seq<nat>)
    ensures |Accepted(env, jobs)| <= |jobs|
  {
    if jobs != [] {
      AcceptedLength(env, jobs[1..]);
    }
  }

  /** Every task step uses up work. */
  lemma RunTaskProgresses(env: Env, w: World, i: nat)
    requires i < |w.tasks|
    ensures WorkLeft(Happen(env, w, RunTask(i)).tasks) < WorkLeft(w.tasks)
  {
    var t := w.tasks[i];
    var f := EffectOf(env, t);
    WorkAppend(w.tasks[..i] + f.next, w.tasks[i + 1..]);
    WorkAppend(w.tasks[..i], f.next);
    WorkAppend(w.tasks[..i], w.tasks[i..]);
    assert w.tasks[..i] + w.tasks[i..] == w.tasks && w.tasks[i..][1..] == w.tasks[i + 1..];
    NextIsLess(env, t);
  }

  lemma NextIsLess(env: Env, t: Task)
    ensures WorkLeft(EffectOf(env, t).next) < Work(t)
  {
    var f := EffectOf(env, t);
    if t.RunBatch? {
      var long := Accepted(env, t.jobs);
      AcceptedLength(env, t.jobs);
      if f.next == Commits(long) { WorkOfEach(f.next, 3); }
      else if f.next == Retries(long) { WorkOfEach(f.next, 4); }
    } else {
      assert f.next != [] ==> f.next[1..] == [];
    }
  }

  /** What is still to be done for all jobs not answered yet. */
  function Left(w: World): nat {
    7 * |w.queue| + 6 * |w.cut| + WorkLeft(w.tasks)
  }

  /** Every step but a submission uses up work: cutting and spawning a batch included. */
  lemma StepProgresses(env: Env, batchSize: nat, permits: nat, w: World, e: Event)
    requires Possible(batchSize, permits, w, e) && !e.Submit?
    ensures Left(Happen(env, w, e)) < Left(w)
  {
    match e
    case CutBatch(n) =>
    case SpawnBatch =>
      WorkAppend(w.tasks, [RunBatch(w.cut)]);
      assert [RunBatch(w.cut)][1..] == [];
    case RunTask(i) => RunTaskProgresses(env, w, i);
  }

  /** The pipeline is never stuck: while anything is left, some step other than a submission can be taken. */
  lemma NeverStuck(batchSize: nat, permits: nat, w: World) returns (e: Event)
    requires batchSize > 0 && permits > 0 && !Idle(w)
    ensures Possible(batchSize, permits, w, e) && !e.Submit?
  {
    e := if w.tasks != [] then RunTask(0) else if w.cut != [] then SpawnBatch else CutBatch(1);
  }

  lemma StepsAreBounded(env: Env, batchSize: nat, permits: nat, worlds: seq<World>, events: seq<Event>, m: nat, n: nat)
    requires IsRun(env, batchSize, permits, worlds, events) && m <= n <= |events|
    requires forall i :: m <= i < n ==> !events[i].Submit?
    ensures n - m + Left(worlds[n]) <= Left(worlds[m])
  {
    var lefts := seq(|worlds|, i requires 0 <= i < |worlds| => Left(worlds[i]));
    forall i | m <= i < n
      ensures lefts[i + 1] < lefts[i]
    {
      RunProgresses(env, batchSize, permits, worlds, events, i);
    }
    Countdown(lefts, m, n);
  }

  /** A number that falls at every step falls by at least the number of steps. */
  lemma {:induction false} Countdown(lefts: seq<nat>, m: nat, n: nat)
    requires m <= n < |lefts| && forall i :: m <= i < n ==> lefts[i + 1] < lefts[i]
    ensures n - m + lefts[n] <= lefts[m]
    decreases n
  {
    if m < n {
      Countdown(lefts, m, n - 1);
      assert lefts[n - 1 + 1] < lefts[n - 1];
    }
  }

  lemma RunProgresses(env: Env, batchSize: nat, permits: nat, worlds: seq<World>, events: seq<Event>, k: nat)
    requires IsRun(env, batchSize, permits, worlds, events) && k < |events| && !events[k].Submit?
    ensures Left(worlds[k + 1]) < Left(worlds[k])
  {
    StepProgresses(env, batchSize, permits, worlds[k], events[k]);
  }

  /**
   * Once submissions stop at point m the run has a bounded number of steps left, and a run
   * that can go no further has answered every submitted job exactly once and left no file.
   */
  lemma StoppedRunsDrain(env: Env, batchSize: nat, permits: nat, worlds: seq<World>, events: seq<Event>, m: nat)
    requires batchSize > 0 && permits > 0
    requires IsRun(env, batchSize, permits, worlds, events) && m <= |events|
    requires forall i :: m <= i < |events| ==> !events[i].Submit?
    ensures |events| - m <= Left(worlds[m])
    ensures (forall e :: Possible(batchSize, permits, worlds[|events|], e) ==> e.Submit?) ==>
              && (forall x: nat :: SentCount(worlds[|events|].sent, x) == if x < worlds[m].submitted then 1 else 0)
              && worlds[|events|].files == {}
  {
    StepsAreBounded(env, batchSize, permits, worlds, events, m, |events|);
    if forall e :: Possible(batchSize, permits, worlds[|events|], e) ==> e.Submit? {
      if !Idle(worlds[|events|]) {
        var e := NeverStuck(batchSize, permits, worlds[|events|]);
      }
      IdleMeansAllAnswered(env, batchSize, permits, worlds, events, |events|);
      NoMoreSubmitted(env, batchSize, permits, worlds, events, m, |events|);
    }
  }

  lemma {:induction false} NoMoreSubmitted(env: Env, batchSize: nat, permits: nat, worlds: seq<World>,
                                           events: seq<Event>, m: nat, n: nat)
    requires IsRun(env, batchSize, permits, worlds, events) && m <= n <= |events|
    requires forall i :: m <= i < n ==> !events[i].Submit?
    ensures worlds[n].submitted == worlds[m].submitted
    decreases n
  {
    if m < n {
      NoMoreSubmitted(env, batchSize, permits, worlds, events, m, n - 1);
    }
  }

  // ---- Permits

  lemma {:induction false} RunningAppend(a: seq<Task>, b: seq<Task>)
    ensures RunningBatches(a + b) == RunningBatches(a) + RunningBatches(b)
  {
    if a == [] {
      assert a + b == b;
    } else {
      RunningAppend(a[1..], b);
      assert (a + b)[1..] == a[1..] + b;
    }
  }

  lemma {:induction false} NoBatches(tasks: seq<Task>)
    requires forall i :: 0 <= i < |tasks| ==> !IsBatch(tasks[i])
    ensures RunningBatches(tasks) == 0
  {
    if tasks != [] {
      NoBatches(tasks[1..]);
    }
  }

  lemma StepKeepsPermits(env: Env, batchSize: nat, permits: nat, w: World, e: Event)
    requires Possible(batchSize, permits, w, e) && RunningBatches(w.tasks) <= permits
    ensures RunningBatches(Happen(env, w, e).tasks) <= permits
  {
    match e
    case SpawnBatch =>
      RunningAppend(w.tasks, [RunBatch(w.cut)]);
      assert [RunBatch(w.cut)][1..] == [];
    case RunTask(i) =>
      NoBatches(EffectOf(env, w.tasks[i]).next);
      ReplacedRunning(w.tasks, i, EffectOf(env, w.tasks[i]).next);
    case _ =>
  }

  lemma ReplacedRunning(tasks: seq<Task>, i: nat, next: seq<Task>)
    requires i < |tasks| && RunningBatches(next) == 0
    ensures RunningBatches(tasks[..i] + next + tasks[i + 1..]) <= RunningBatches(tasks)
  {
    RunningAppend(tasks[..i] + next, tasks[i + 1..]);
    RunningAppend(tasks[..i], next);
    RunningAppend(tasks[..i], tasks[i..]);
    assert tasks[..i] + tasks[i..] == tasks && tasks[i..][1..] == tasks[i + 1..];
  }

  /** No schedule ever has more batches transcoding than there are permits. */
  lemma {:induction false} PermitsRespected(env: Env, batchSize: nat, permits: nat, worlds: seq<World>,
                                            events: seq<Event>, k: nat)
    requires IsRun(env, batchSize, permits, worlds, events) && k < |worlds|
    ensures RunningBatches(worlds[k].tasks) <= permits
  {
    if k > 0 {
      PermitsRespected(env, batchSize, permits, worlds, events, k - 1);
      StepKeepsPermits(env, batchSize, permits, worlds[k - 1], events[k - 1]);
    }
  }

  // ---- run_batch itself

  /** What the probing loop has done once it has come to job i, starting from files0 and sent0. */
  ghost predicate Probed(env: Env, jobs: seq<nat>, i: nat, short: seq<nat>, accepted: seq<nat>,
                         files0: set<Path>, files: set<Path>, sent0: seq<Sent>, sent: seq<Sent>)
  {
    && i <= |jobs|
    && accepted + Accepted(env, jobs[i..]) == Accepted(env, jobs)
    && short + Shorts(env, jobs[i..]) == Shorts(env, jobs)
    && files == files0 - Sources(short) && sent == sent0 + Rejections(env, short)
  }

  lemma AcceptStep(env: Env, jobs: seq<nat>, i: nat, short: seq<nat>, accepted: seq<nat>,
                   files0: set<Path>, files: set<Path>, sent0: seq<Sent>, sent: seq<Sent>)
    requires Probed(env, jobs, i, short, accepted, files0, files, sent0, sent) && i < |jobs| && !IsShort(env, jobs[i])
    ensures Probed(env, jobs, i + 1, short, accepted + [jobs[i]], files0, files, sent0, sent)
  {
    assert jobs[i..][1..] == jobs[i + 1..];
    Regroup(accepted, [jobs[i]], Accepted(env, jobs[i + 1..]));
    assert [] + Shorts(env, jobs[i + 1..]) == Shorts(env, jobs[i + 1..]);
  }

  lemma RejectStep(env: Env, jobs: seq<nat>, i: nat, short: seq<nat>, accepted: seq<nat>,
                   files0: set<Path>, files: set<Path>, sent0: seq<Sent>, sent: seq<Sent>)
    requires Probed(env, jobs, i, short, accepted, files0, files, sent0, sent) && i < |jobs| && IsShort(env, jobs[i])
    ensures Probed(env, jobs, i + 1, short + [jobs[i]], accepted, files0, files - {Source(jobs[i])}, sent0,
                   sent + [Sent(jobs[i], TooShort(Secs(env, jobs[i])))])
  {
    assert jobs[i..][1..] == jobs[i + 1..];
    Regroup(short, [jobs[i]], Shorts(env, jobs[i + 1..]));
    assert [] + Accepted(env, jobs[i + 1..]) == Accepted(env, jobs[i + 1..]);
    OneRejected(env, files0, sent0, short, jobs[i]);
  }

  /** Turning one more job away. */
  lemma OneRejected(env: Env, files: set<Path>, sent: seq<Sent>, short: seq<nat>, j: nat)
    ensures files - Sources(short) - {Source(j)} == files - Sources(short + [j])
    ensures (sent + Rejections(env, short)) + [Sent(j, TooShort(Secs(env, j)))] == sent + Rejections(env, short + [j])
  {
    assert Rejections(env, short + [j]) == Rejections(env, short) + [Sent(j, TooShort(Secs(env, j)))];
    Regroup(sent, Rejections(env, short), [Sent(j, TooShort(Secs(env, j)))]);
    assert Sources(short + [j]) == Sources(short) + {Source(j)};
  }

  lemma StartProbed(env: Env, jobs: seq<nat>, files: set<Path>, sent: seq<Sent>)
    ensures Probed(env, jobs, 0, [], [], files, files, sent, sent)
  {
    assert jobs[0..] == jobs && Sources([]) == {} && Rejections(env, []) == [];
    assert [] + Accepted(env, jobs) == Accepted(env, jobs) && [] + Shorts(env, jobs) == Shorts(env, jobs);
    assert sent + [] == sent;
  }

  lemma AllProbed(env: Env, jobs: seq<nat>, short: seq<nat>, accepted: seq<nat>,
                  files0: set<Path>, files: set<Path>, sent0: seq<Sent>, sent: seq<Sent>)
    requires Probed(env, jobs, |jobs|, short, accepted, files0, files, sent0, sent)
    ensures accepted == Accepted(env, jobs) && files == files0 - Sources(Shorts(env, jobs))
    ensures sent == sent0 + Rejections(env, Shorts(env, jobs))
  {
    assert accepted + [] == accepted && short + [] == short;
  }

  class BatchRunner {
    var files: set<Path>
    var sent: seq<Sent>
    var spawned: seq<Task>

    /** run_batch: probe and reject, transcode the rest together, then spawn commits, retries or failures. */
    method RunBatch(env: Env, jobs: seq<nat>)
      modifies this
      ensures
        var f := BatchEffect(env, jobs);
        && files == old(files) + f.made - f.removed
        && sent == old(sent) + f.sent
        && spawned == old(spawned) + f.next
    {
      var accepted := Probe(env, jobs);
      assert accepted == Accepted(env, jobs);
      if accepted == [] { return; }
      if env.transcodes(accepted) {
        files := files + Outputs(accepted);
        spawned := spawned + Commits(accepted);
      } else if |accepted| > 1 {
        files := files + Leavings(env, accepted) - Outputs(accepted);
        spawned := spawned + Retries(accepted);
      } else {
        files := files + Leavings(env, accepted) - Outputs(accepted) - Sources(accepted);
        sent := sent + [Sent(accepted[0], FfmpegFailed)];
      }
    }

    method Probe(env: Env, jobs: seq<nat>) returns (accepted: seq<nat>)
      modifies this`files, this`sent
      ensures accepted == Accepted(env, jobs)
      ensures files == old(files) - Sources(Shorts(env, jobs))
      ensures sent == old(sent) + Rejections(env, Shorts(env, jobs))
    {
      accepted := [];
      var i := 0;
      ghost var short: seq<nat> := [];
      StartProbed(env, jobs, files, sent);
      while i < |jobs|
        invariant Probed(env, jobs, i, short, accepted, old(files), files, old(sent), sent)
      {
        var job := jobs[i];
        if IsShort(env, job) {
          RejectStep(env, jobs, i, short, accepted, old(files), files, old(sent), sent);
          files := files - {Source(job)};
          sent := sent + [Sent(job, TooShort(Secs(env, job)))];
          short := short + [job];
        } else {
          AcceptStep(env, jobs, i, short, accepted, old(files), files, old(sent), sent);
          accepted := accepted + [job];
        }
        i := i + 1;
      }
      AllProbed(env, jobs, short, accepted, old(files), files, old(sent), sent);
    }
  }
}
