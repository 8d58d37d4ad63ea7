/** One writer job on local disk: the retry loop around the commit, failures of the disk included. */
module WriterOnDisk {
  import opened Lists
  import opened LocalStore
  import W = Writer

  /** What one job's attempts meet: a staging name and the disk's behaviour for each. */
  datatype Job = Job(dst: Path, src: Path, stage: nat -> Path, weather: nat -> Weather)

  /** The names do not clash, as fresh UUIDs make sure. */
  ghost predicate Fitting(disk: Disk, job: Job) {
    && (forall k: nat :: Apart(job.dst, job.src, job.stage(k), disk))
    && forall j: nat, k: nat :: j != k ==> job.stage(j) != job.stage(k)
  }

  ghost predicate IsStage(job: Job, p: Path) {
    exists k: nat :: job.stage(k) == p
  }

  predicate AgreeAt(d: Disk, e: Disk, p: Path) {
    (p in d <==> p in e) && (p in d ==> d[p] == e[p])
  }

  /** Equal but for staging files that could not be removed. */
  ghost predicate Same(d: Disk, e: Disk, job: Job) {
    forall p :: !IsStage(job, p) ==> AgreeAt(d, e, p)
  }

  ghost predicate SameBut(d: Disk, e: Disk, stage: Path) {
    forall p :: p != stage ==> AgreeAt(d, e, p)
  }

  /** The names of attempts still to come are free. */
  ghost predicate FreeFrom(d: Disk, job: Job, n: nat) {
    forall k: nat :: k >= n ==> job.stage(k) !in d
  }

  /** The disk after n attempts, each made on what the one before left. */
  function DiskAfter(disk: Disk, job: Job, n: nat): Disk
    decreases n, 0
  {
    if n == 0 then disk else Attempt(disk, job, n - 1).0
  }

  /** Attempt k: the disk it leaves and whether it succeeded. */
  function Attempt(disk: Disk, job: Job, k: nat): (Disk, bool)
    decreases k, 1
  {
    Committed(DiskAfter(disk, job, k), job.dst, job.src, job.stage(k), job.weather(k))
  }

  /** The local backend reports success or an error, and never that the source was not found. */
  function OutcomeOf(disk: Disk, job: Job, k: nat): W.Outcome {
    if Attempt(disk, job, k).1 then W.Stored else W.Failed
  }

  function Outcomes(disk: Disk, job: Job): nat -> W.Outcome {
    (k: nat) => OutcomeOf(disk, job, k)
  }

  /** Attempt k is the first whose upload gets as far as the staging name. */
  ghost predicate FirstMove(disk: Disk, job: Job, k: nat) {
    && Moves(disk, job.src, job.weather(k))
    && forall j :: 0 <= j < k ==> !Moves(disk, job.src, job.weather(j))
  }

  predicate Replaces(disk: Disk, job: Job, k: nat) {
    job.weather(k).firstReplaceWorks
    || (job.dst in disk && job.weather(k).unlinkOldWorks && job.weather(k).secondReplaceWorks)
  }

  /** The replacement removes the old track and then fails. */
  predicate LosesBoth(disk: Disk, job: Job, k: nat) {
    job.dst in disk && ReplaceLosesBoth(job.weather(k))
  }

  lemma UnmovedCommit(disk: Disk, dst: Path, src: Path, stage: Path, w: Weather)
    requires Apart(dst, src, stage, disk) && !Keeps(disk, dst, src) && !Moves(disk, src, w)
    ensures !Committed(disk, dst, src, stage, w).1 && SameBut(Committed(disk, dst, src, stage, w).0, disk, stage)
  {
  }

  /** The track a moving commit leaves at the key, everything else but the staging name as without the upload. */
  function Replaced(disk: Disk, dst: Path, src: Path, w: Weather): (Disk, bool)
    requires src in disk
  {
    if w.firstReplaceWorks || (dst in disk && w.unlinkOldWorks && w.secondReplaceWorks) then
      ((disk - {src})[dst := disk[src]], true)
    else
      (disk - {src} - (if dst in disk && ReplaceLosesBoth(w) then {dst} else {}), false)
  }

  lemma MovingCommit(disk: Disk, dst: Path, src: Path, stage: Path, w: Weather)
    requires Apart(dst, src, stage, disk) && !Keeps(disk, dst, src) && Moves(disk, src, w)
    ensures Committed(disk, dst, src, stage, w).1 == Replaced(disk, dst, src, w).1
    ensures SameBut(Committed(disk, dst, src, stage, w).0, Replaced(disk, dst, src, w).0, stage)
  {
  }

  /** What one attempt does off its staging name is all that a later one, or a reader, sees of it. */
  lemma OffTheStage(d: Disk, e: Disk, after: Disk, job: Job, n: nat)
    requires (forall j: nat, k: nat :: j != k ==> job.stage(j) != job.stage(k))
    requires FreeFrom(d, job, n) && SameBut(after, e, job.stage(n))
    requires forall p :: p in e ==> p in d || !IsStage(job, p)
    ensures FreeFrom(after, job, n + 1) && Same(after, e, job)
  {
    forall k: nat | k >= n + 1
      ensures job.stage(k) !in after
    {
      assert job.stage(k) !in d && IsStage(job, job.stage(k)) && job.stage(k) != job.stage(n);
      assert AgreeAt(after, e, job.stage(k));
    }
    assert IsStage(job, job.stage(n));
  }

  lemma NotStages(disk: Disk, job: Job)
    requires Fitting(disk, job)
    ensures !IsStage(job, job.dst) && !IsStage(job, job.src)
  {
    forall k: nat
      ensures job.stage(k) != job.dst && job.stage(k) != job.src
    {
      assert Apart(job.dst, job.src, job.stage(k), disk);
    }
  }

  /** What an attempt decides by is the same on every disk that differs in staging files only. */
  lemma SameDecision(d: Disk, disk: Disk, job: Job, n: nat)
    requires Fitting(disk, job) && Same(d, disk, job) && FreeFrom(d, job, n)
    ensures Apart(job.dst, job.src, job.stage(n), d)
    ensures Keeps(d, job.dst, job.src) <==> Keeps(disk, job.dst, job.src)
    ensures forall w :: Moves(d, job.src, w) <==> Moves(disk, job.src, w)
    ensures AgreeAt(d, disk, job.dst) && AgreeAt(d, disk, job.src)
  {
    NotStages(disk, job);
    assert AgreeAt(d, disk, job.dst) && AgreeAt(d, disk, job.src);
    assert Apart(job.dst, job.src, job.stage(n), disk);
  }

  /** Until an attempt moves the upload, nothing on disk has changed. */
  lemma {:induction false} UnmovedAttempts(disk: Disk, job: Job, n: nat)
    requires Fitting(disk, job) && !Keeps(disk, job.dst, job.src)
    requires forall k :: 0 <= k < n ==> !Moves(disk, job.src, job.weather(k))
    ensures Same(DiskAfter(disk, job, n), disk, job) && FreeFrom(DiskAfter(disk, job, n), job, n)
    ensures forall k :: 0 <= k < n ==> OutcomeOf(disk, job, k) == W.Failed
  {
    if n > 0 {
      UnmovedAttempts(disk, job, n - 1);
      var d := DiskAfter(disk, job, n - 1);
      SameDecision(d, disk, job, n - 1);
      UnmovedCommit(d, job.dst, job.src, job.stage(n - 1), job.weather(n - 1));
      var after := Committed(d, job.dst, job.src, job.stage(n - 1), job.weather(n - 1)).0;
      assert DiskAfter(disk, job, n) == after;
      OffTheStage(d, d, after, job, n - 1);
      SameTrans(DiskAfter(disk, job, n), d, disk, job);
    } else {
      forall k: nat
        ensures job.stage(k) !in disk
      {
        assert Apart(job.dst, job.src, job.stage(k), disk);
      }
    }
  }

  lemma SameTrans(a: Disk, b: Disk, c: Disk, job: Job)
    requires Same(a, b, job) && Same(b, c, job)
    ensures Same(a, c, job)
  {
    forall p | !IsStage(job, p)
      ensures AgreeAt(a, c, p)
    {
      assert AgreeAt(a, b, p) && AgreeAt(b, c, p);
    }
  }

  /** The attempt that moves the upload either replaces the stored track or fails, maybe with it. */
  lemma MovingAttempt(disk: Disk, job: Job, m: nat)
    requires Fitting(disk, job) && !Keeps(disk, job.dst, job.src) && FirstMove(disk, job, m)
    ensures job.src in disk && Attempt(disk, job, m).1 == Replaces(disk, job, m)
    ensures Same(Attempt(disk, job, m).0, Replaced(disk, job.dst, job.src, job.weather(m)).0, job)
    ensures FreeFrom(Attempt(disk, job, m).0, job, m + 1)
  {
    UnmovedAttempts(disk, job, m);
    var d, w := DiskAfter(disk, job, m), job.weather(m);
    SameDecision(d, disk, job, m);
    NotStages(disk, job);
    MovingCommit(d, job.dst, job.src, job.stage(m), w);
    var e := Replaced(d, job.dst, job.src, w).0;
    OffTheStage(d, e, Attempt(disk, job, m).0, job, m);
    ReplacedSame(d, disk, job, w);
    SameTrans(Attempt(disk, job, m).0, e, Replaced(disk, job.dst, job.src, w).0, job);
  }

  lemma ReplacedSame(d: Disk, disk: Disk, job: Job, w: Weather)
    requires Same(d, disk, job) && !IsStage(job, job.dst) && !IsStage(job, job.src) && job.src in d && job.src in disk
    ensures Same(Replaced(d, job.dst, job.src, w).0, Replaced(disk, job.dst, job.src, w).0, job)
  {
    assert AgreeAt(d, disk, job.src) && AgreeAt(d, disk, job.dst);
    forall p | !IsStage(job, p)
      ensures AgreeAt(Replaced(d, job.dst, job.src, w).0, Replaced(disk, job.dst, job.src, w).0, p)
    {
      assert AgreeAt(d, disk, p);
    }
  }

  /** Once a failed attempt has used up the upload, every further attempt fails and changes nothing. */
  lemma {:induction false} SpentAttempts(disk: Disk, job: Job, m: nat, n: nat)
    requires Fitting(disk, job) && !Keeps(disk, job.dst, job.src)
    requires FirstMove(disk, job, m) && !Replaces(disk, job, m) && m < n
    ensures DiskAfter(disk, job, n) == DiskAfter(disk, job, m + 1)
    ensures forall k :: m <= k < n ==> OutcomeOf(disk, job, k) == W.Failed
    decreases n
  {
    MovingAttempt(disk, job, m);
    if n > m + 1 {
      SpentAttempts(disk, job, m, n - 1);
      var d := DiskAfter(disk, job, m + 1);
      NotStages(disk, job);
      assert AgreeAt(d, Replaced(disk, job.dst, job.src, job.weather(m)).0, job.src);
      assert Apart(job.dst, job.src, job.stage(n - 1), disk) && job.stage(n - 1) !in d;
      RetryWithoutUploadFails(d, job.dst, job.src, job.stage(n - 1), job.weather(n - 1));
    }
  }

  /** Only the first attempt that moves the upload can store it. */
  ghost predicate Stores(disk: Disk, job: Job, retries: nat) {
    exists m :: 0 <= m <= retries && FirstMove(disk, job, m) && Replaces(disk, job, m)
  }

  /** An attempt the job makes takes the old track away without putting the new one in its place. */
  ghost predicate Loses(disk: Disk, job: Job, retries: nat) {
    exists m :: 0 <= m <= retries && FirstMove(disk, job, m) && LosesBoth(disk, job, m) && !Replaces(disk, job, m)
  }

  lemma FirstMoveIsOne(disk: Disk, job: Job, m: nat, n: nat)
    requires FirstMove(disk, job, m) && FirstMove(disk, job, n)
    ensures m == n
  {
  }

  lemma {:induction false} FindFirstMove(disk: Disk, job: Job, k: nat) returns (m: nat)
    requires Moves(disk, job.src, job.weather(k))
    ensures m <= k && FirstMove(disk, job, m)
  {
    if j :| 0 <= j < k && Moves(disk, job.src, job.weather(j)) {
      m := FindFirstMove(disk, job, j);
    } else {
      m := k;
    }
  }

  /** The disk when the whole job is over; giving up tries to remove the upload. */
  ghost function JobResult(disk: Disk, job: Job, retries: nat, finalRemovalWorks: bool): Disk {
    if Keeps(disk, job.dst, job.src) then (if job.weather(0).uploadRemovalWorks then disk - {job.src} else disk)
    else if Stores(disk, job, retries) then (disk - {job.src})[job.dst := disk[job.src]]
    else if Spends(disk, job, retries) then disk - {job.src} - (if Loses(disk, job, retries) then {job.dst} else {})
    else if finalRemovalWorks then disk - {job.src}
    else disk
  }

  /** Some attempt the job may make moves the upload. */
  ghost predicate Spends(disk: Disk, job: Job, retries: nat) {
    exists m :: 0 <= m <= retries && FirstMove(disk, job, m)
  }

  /** The disk once the loop has stopped after attempt `last`. */
  function Ended(disk: Disk, job: Job, last: nat, finalRemovalWorks: bool): Disk {
    var d := DiskAfter(disk, job, last + 1);
    if OutcomeOf(disk, job, last) == W.Failed && finalRemovalWorks then d - {job.src} else d
  }

  /** How the attempts the loop makes decide the job, told by the first one that moves the upload. */
  lemma JobDecided(disk: Disk, job: Job, retries: nat, last: nat, finalRemovalWorks: bool)
    requires Fitting(disk, job) && job.src in disk && W.Settles(Outcomes(disk, job), retries, last)
    ensures OutcomeOf(disk, job, last) == W.Stored <==> Keeps(disk, job.dst, job.src) || Stores(disk, job, retries)
    ensures Same(Ended(disk, job, last, finalRemovalWorks), JobResult(disk, job, retries, finalRemovalWorks), job)
  {
    if Keeps(disk, job.dst, job.src) {
      assert DiskAfter(disk, job, 0) == disk;
      assert Attempt(disk, job, 0).1 && Attempt(disk, job, 0).0 == JobResult(disk, job, retries, finalRemovalWorks);
      assert Outcomes(disk, job)(0) == W.Stored;
      assert last == 0;
      assert DiskAfter(disk, job, 1) == Attempt(disk, job, 0).0;
    } else if k :| 0 <= k <= retries && Moves(disk, job.src, job.weather(k)) {
      var m := FindFirstMove(disk, job, k);
      MovedJobDecided(disk, job, retries, last, m, finalRemovalWorks);
    } else {
      UnmovedAttempts(disk, job, last + 1);
      assert !Stores(disk, job, retries) && !Spends(disk, job, retries);
      SameWithout(DiskAfter(disk, job, last + 1), disk, job);
    }
  }

  lemma SameWithout(d: Disk, e: Disk, job: Job)
    requires Same(d, e, job)
    ensures Same(d - {job.src}, e - {job.src}, job)
  {
    forall p | !IsStage(job, p)
      ensures AgreeAt(d - {job.src}, e - {job.src}, p)
    {
      assert AgreeAt(d, e, p);
    }
  }

  lemma MovedJobDecided(disk: Disk, job: Job, retries: nat, last: nat, m: nat, finalRemovalWorks: bool)
    requires Fitting(disk, job) && job.src in disk && W.Settles(Outcomes(disk, job), retries, last)
    requires !Keeps(disk, job.dst, job.src) && FirstMove(disk, job, m) && m <= retries
    ensures OutcomeOf(disk, job, last) == W.Stored <==> Stores(disk, job, retries)
    ensures Same(Ended(disk, job, last, finalRemovalWorks), JobResult(disk, job, retries, finalRemovalWorks), job)
  {
    UnmovedAttempts(disk, job, m);
    MovingAttempt(disk, job, m);
    TheFirstMove(disk, job, retries, m);
    if Replaces(disk, job, m) {
      assert Outcomes(disk, job)(m) == W.Stored;
      assert last == m;
      assert DiskAfter(disk, job, m + 1) == Attempt(disk, job, m).0;
    } else {
      SpentAttempts(disk, job, m, retries + 1);
      assert last == retries;
      var rest := Replaced(disk, job.dst, job.src, job.weather(m)).0;
      assert DiskAfter(disk, job, last + 1) == Attempt(disk, job, m).0;
      assert rest - {job.src} == rest == JobResult(disk, job, retries, finalRemovalWorks);
      SameWithout(DiskAfter(disk, job, last + 1), rest, job);
    }
  }

  /** With the first moving attempt known, what the job comes to is known. */
  lemma TheFirstMove(disk: Disk, job: Job, retries: nat, m: nat)
    requires FirstMove(disk, job, m) && m <= retries
    ensures Spends(disk, job, retries)
    ensures Stores(disk, job, retries) <==> Replaces(disk, job, m)
    ensures Loses(disk, job, retries) <==> LosesBoth(disk, job, m) && !Replaces(disk, job, m)
  {
    forall n: nat | FirstMove(disk, job, n)
      ensures n == m
    {
      FirstMoveIsOne(disk, job, m, n);
    }
  }

  /**
   * A whole writer job, retries included: it answers success exactly when the stored track
   * is to be kept or the first attempt to move the upload also replaces the stored track.
   * But for staging files and an upload that could not be removed, no other file changes,
   * and at the key stands the old or the new track - unless that one attempt lost both,
   * and then no retry brings either back.
   */
  method RunWriterJob(disk: Disk, job: Job, retries: nat, baseMs: nat, finalRemovalWorks: bool)
    returns (result: W.Result, ghost after: Disk)
    requires Fitting(disk, job) && job.src in disk && retries < W.U32_MAX && baseMs <= W.U64_MAX
    ensures Same(after, JobResult(disk, job, retries, finalRemovalWorks), job)
    ensures result == if Keeps(disk, job.dst, job.src) || Stores(disk, job, retries) then W.Done else W.GaveUp
    ensures forall p :: p != job.src && p != job.dst && !IsStage(job, p) ==> AgreeAt(after, disk, p)
    ensures result.GaveUp? && job.dst in disk && !Loses(disk, job, retries) ==>
              job.dst in after && after[job.dst] == disk[job.dst]
    ensures result.Done? ==>
              job.dst in after
              && (after[job.dst] == disk[job.src] || (job.dst in disk && after[job.dst] == disk[job.dst]))
  {
    var attempts, slept, removed;
    result, attempts, slept, removed := W.ProcessWriterJob(Outcomes(disk, job), retries, baseMs);
    JobDecided(disk, job, retries, attempts - 1, finalRemovalWorks);
    after := DiskAfter(disk, job, attempts);
    if removed && finalRemovalWorks {
      after := after - {job.src};
    }
    assert removed <==> OutcomeOf(disk, job, attempts - 1) == W.Failed by {
      assert removed ==> Outcomes(disk, job)(attempts - 1) == W.Failed;
    }
    assert after == Ended(disk, job, attempts - 1, finalRemovalWorks);
    Readings(after, disk, job, retries, finalRemovalWorks);
  }

  /** The result of a job, read off file by file. */
  lemma Readings(after: Disk, disk: Disk, job: Job, retries: nat, finalRemovalWorks: bool)
    requires Fitting(disk, job) && job.src in disk && Same(after, JobResult(disk, job, retries, finalRemovalWorks), job)
    ensures forall p :: p != job.src && p != job.dst && !IsStage(job, p) ==> AgreeAt(after, disk, p)
    ensures AgreeAt(after, JobResult(disk, job, retries, finalRemovalWorks), job.dst)
  {
    NotStages(disk, job);
    forall p | p != job.src && p != job.dst && !IsStage(job, p)
      ensures AgreeAt(after, disk, p)
    {
      assert AgreeAt(after, JobResult(disk, job, retries, finalRemovalWorks), p);
    }
  }
}
