/** Committing a transcode to local disk: keep the longer track, replace by rename. */
module LocalStore {
  import opened Lists

  type Path = string

  /** A file's content, and the duration the probe reads from it if it can. */
  datatype File = File(content: nat, duration: Option<real>)

  type Disk = map<Path, File>

  const DURATION_EPSILON_SECS: real := 2.0

  datatype Rename = Works | CrossDevice | Refused

  /** What the file system answers, to the removals whose failure goes unnoticed as well. */
  datatype Weather = Weather(
    uploadRemovalWorks: bool,
    mkdirWorks: bool,
    move: Rename,
    copyWorks: bool,
    copyLeaves: Option<File>,
    unlinkSourceWorks: bool,
    firstReplaceWorks: bool,
    unlinkOldWorks: bool,
    secondReplaceWorks: bool,
    stageRemovalWorks: bool)

  function Duration(disk: Disk, p: Path): Option<real> {
    if p in disk then disk[p].duration else None
  }

  /** should_keep_existing. */
  predicate Keeps(disk: Disk, dst: Path, src: Path) {
    && Duration(disk, dst).Some? && Duration(disk, src).Some?
    && Duration(disk, dst).value + DURATION_EPSILON_SECS >= Duration(disk, src).value
  }

  /** What a copy that fails half way leaves behind. */
  function Partial(disk: Disk, stage: Path, w: Weather): Disk {
    if w.copyLeaves.Some? then disk[stage := w.copyLeaves.value] else disk
  }

  /** The attempt to remove the staging file. */
  function CleanUp(disk: Disk, stage: Path, w: Weather): Disk {
    if w.stageRemovalWorks then disk - {stage} else disk
  }

  /** move_or_copy_file; a failed copy may leave a partial file. */
  function Move(disk: Disk, src: Path, stage: Path, w: Weather): (r: (Disk, bool))
  {
    if src !in disk || w.move == Refused then (disk, false)
    else if w.move == Works then ((disk - {src})[stage := disk[src]], true)
    else if !w.copyWorks then (Partial(disk, stage, w), false)
    else if !w.unlinkSourceWorks then (disk[stage := disk[src]], false)
    else ((disk - {src})[stage := disk[src]], true)
  }

  /** replace_file. */
  function Replace(disk: Disk, stage: Path, dst: Path, w: Weather): (r: (Disk, bool))
    requires stage in disk
  {
    if w.firstReplaceWorks then ((disk - {stage})[dst := disk[stage]], true)
    else if dst !in disk || !w.unlinkOldWorks then (disk, false)
    else if !w.secondReplaceWorks then (disk - {dst}, false)
    else ((disk - {dst, stage})[dst := disk[stage]], true)
  }

  /** commit_transcode. */
  function Committed(disk: Disk, dst: Path, src: Path, stage: Path, w: Weather): (r: (Disk, bool))
  {
    if Keeps(disk, dst, src) then (if w.uploadRemovalWorks then disk - {src} else disk, true)
    else if !w.mkdirWorks then (disk, false)
    else
      var (moved, ok) := Move(disk, src, stage, w);
      if !ok then (CleanUp(moved, stage, w), false)
      else
        var (replaced, done) := Replace(moved, stage, dst, w);
        if !done then (CleanUp(replaced, stage, w), false) else (replaced, true)
  }

  class LocalBackend {
    var disk: Disk

    method CommitTranscode(dst: Path, src: Path, stage: Path, w: Weather) returns (ok: bool)
      requires src != stage
      modifies this
      ensures (disk, ok) == Committed(old(disk), dst, src, stage, w)
    {
      var keep := ShouldKeepExisting(dst, src);
      if keep {
        if w.uploadRemovalWorks {
          disk := disk - {src};
        }
        return true;
      }
      if !w.mkdirWorks { return false; }
      ok := MoveOrCopyFile(src, stage, w);
      if !ok {
        RemoveStage(stage, w);
        return;
      }
      ok := ReplaceFile(stage, dst, w);
      if !ok {
        RemoveStage(stage, w);
      }
    }

    method RemoveStage(stage: Path, w: Weather)
      modifies this
      ensures disk == CleanUp(old(disk), stage, w)
    {
      if w.stageRemovalWorks {
        disk := disk - {stage};
      }
    }

    method ShouldKeepExisting(dst: Path, src: Path) returns (keep: bool)
      ensures keep == Keeps(disk, dst, src)
    {
      if dst !in disk { return false; }
      var existing := disk[dst].duration;
      if existing.None? { return false; }
      var candidate := Duration(disk, src);
      if candidate.None? { return false; }
      return existing.value + DURATION_EPSILON_SECS >= candidate.value;
    }

    method MoveOrCopyFile(src: Path, stage: Path, w: Weather) returns (ok: bool)
      requires src != stage
      modifies this
      ensures (disk, ok) == Move(old(disk), src, stage, w)
      ensures ok ==> stage in disk
    {
      if src !in disk { return false; }
      match w.move
      case Works =>
        disk := (disk - {src})[stage := disk[src]];
        return true;
      case CrossDevice =>
        if !w.copyWorks {
          if w.copyLeaves.Some? {
            disk := disk[stage := w.copyLeaves.value];
          }
          return false;
        }
        disk := disk[stage := disk[src]];
        if !w.unlinkSourceWorks { return false; }
        disk := disk - {src};
        assert disk == (old(disk) - {src})[stage := old(disk)[src]];
        return true;
      case Refused =>
        return false;
    }

    method ReplaceFile(stage: Path, dst: Path, w: Weather) returns (ok: bool)
      requires stage in disk
      modifies this
      ensures (disk, ok) == Replace(old(disk), stage, dst, w)
    {
      if w.firstReplaceWorks {
        disk := (disk - {stage})[dst := disk[stage]];
        return true;
      }
      if dst !in disk { return false; }
      if !w.unlinkOldWorks { return false; }
      var staged := disk[stage];
      disk := disk - {dst};
      if !w.secondReplaceWorks { return false; }
      disk := (disk - {stage})[dst := staged];
      assert old(disk) - {dst} - {stage} == old(disk) - {dst, stage};
      return true;
    }
  }

  // ---- One commit

  predicate Apart(dst: Path, src: Path, stage: Path, disk: Disk) {
    dst != src && dst != stage && src != stage && stage !in disk
  }

  /**
   * A successful commit leaves exactly one of the two tracks at the destination: the old
   * one when it is at most two seconds shorter, else the new one; the staging name is free
   * and no other file has changed. The upload is gone unless it was not wanted and could
   * not be removed.
   */
  lemma SuccessKeepsOne(disk: Disk, dst: Path, src: Path, stage: Path, w: Weather)
    requires Apart(dst, src, stage, disk) && Committed(disk, dst, src, stage, w).1
    ensures
      var after := Committed(disk, dst, src, stage, w).0;
      && dst in after && stage !in after && src in disk
      && (src in after <==> Keeps(disk, dst, src) && !w.uploadRemovalWorks)
      && after[dst] == (if Keeps(disk, dst, src) then disk[dst] else disk[src])
      && after == (if src in after then disk else disk - {src})[dst := after[dst]]
  {
    if !Keeps(disk, dst, src) {
      var moved := Move(disk, src, stage, w).0;
      assert moved == (disk - {src})[stage := disk[src]];
      assert disk - {src} == (disk - {src}) - {stage};
    }
  }

  /**
   * A successful commit stores the upload if and only if there was nothing to keep: no stored
   * track, or one of the two durations unread, or an upload longer by more than two seconds.
   */
  lemma SuccessStoresUploadIff(disk: Disk, dst: Path, src: Path, stage: Path, w: Weather)
    requires Apart(dst, src, stage, disk) && Committed(disk, dst, src, stage, w).1
    ensures
      var after := Committed(disk, dst, src, stage, w).0;
      && src in disk && dst in after
      && (if dst !in disk || disk[dst].duration.None? || disk[src].duration.None?
             || disk[src].duration.value > disk[dst].duration.value + 2.0
          then after[dst] == disk[src] else after[dst] == disk[dst])
  {
    SuccessKeepsOne(disk, dst, src, stage, w);
  }

  /**
   * When a commit succeeds: always when the stored track is kept; else when the directory can
   * be made, the upload gets to the staging name, by a rename or across devices by a copy and
   * a removal, and a rename from there works at once or after the old track was unlinked.
   */
  lemma SucceedsIff(disk: Disk, dst: Path, src: Path, stage: Path, w: Weather)
    requires Apart(dst, src, stage, disk) && src in disk
    ensures Committed(disk, dst, src, stage, w).1 <==>
              || (dst in disk && disk[dst].duration.Some? && disk[src].duration.Some?
                  && disk[src].duration.value <= disk[dst].duration.value + 2.0)
              || (&& w.mkdirWorks
                  && (w.move == Works || (w.move == CrossDevice && w.copyWorks && w.unlinkSourceWorks))
                  && (w.firstReplaceWorks || (dst in disk && w.unlinkOldWorks && w.secondReplaceWorks)))
  {
  }

  /** When the one rename fails, the old track is unlinked, and the second rename fails too. */
  predicate ReplaceLosesBoth(w: Weather) {
    !w.firstReplaceWorks && w.unlinkOldWorks && !w.secondReplaceWorks
  }

  predicate Moves(disk: Disk, src: Path, w: Weather) {
    && w.mkdirWorks && src in disk
    && (w.move == Works || (w.move == CrossDevice && w.copyWorks && w.unlinkSourceWorks))
  }

  /** A failed commit keeps the stored track in every weather but one. */
  lemma FailureKeepsOldIff(disk: Disk, dst: Path, src: Path, stage: Path, w: Weather)
    requires Apart(dst, src, stage, disk) && dst in disk && !Committed(disk, dst, src, stage, w).1
    ensures
      var after := Committed(disk, dst, src, stage, w).0;
      && (dst in after && after[dst] == disk[dst] <==> !(Moves(disk, src, w) && ReplaceLosesBoth(w)))
      && (w.stageRemovalWorks ==> stage !in after)
      && forall p :: p != dst && p != src && p != stage ==>
           (p in after <==> p in disk) && (p in disk ==> after[p] == disk[p])
  {
  }

  /** A commit that fails after the move has used up the upload; one that fails before has not. */
  lemma FailureKeepsUploadIff(disk: Disk, dst: Path, src: Path, stage: Path, w: Weather)
    requires Apart(dst, src, stage, disk) && src in disk && !Committed(disk, dst, src, stage, w).1
    ensures src in Committed(disk, dst, src, stage, w).0 <==> !Moves(disk, src, w)
  {
  }

  /** Without the upload no weather saves the retry: it fails and leaves the stored track alone. */
  lemma RetryWithoutUploadFails(disk: Disk, dst: Path, src: Path, stage: Path, w: Weather)
    requires Apart(dst, src, stage, disk) && src !in disk
    ensures Committed(disk, dst, src, stage, w) == (disk, false)
  {
    assert disk - {stage} == disk;
  }

  // ---- Many commits to one key

  /** What a commit with both probes succeeding makes of the stored duration. */
  function Longer(stored: Option<real>, candidate: real): real {
    if stored.Some? && stored.value + DURATION_EPSILON_SECS >= candidate then stored.value else candidate
  }

  lemma CommitMeansLonger(disk: Disk, dst: Path, src: Path, stage: Path, w: Weather)
    requires Apart(dst, src, stage, disk) && Committed(disk, dst, src, stage, w).1
    requires dst in disk ==> disk[dst].duration.Some?
    requires src in disk ==> disk[src].duration.Some?
    ensures src in disk
    ensures Duration(Committed(disk, dst, src, stage, w).0, dst) ==
              Some(Longer(Duration(disk, dst), disk[src].duration.value))
  {
    SuccessKeepsOne(disk, dst, src, stage, w);
  }

  /** A history of successful commits: the disk before and after each, the uploads and their durations. */
  ghost predicate CommitHistory(disks: seq<Disk>, dst: Path, uploads: seq<Path>, durations: seq<real>) {
    && |disks| == |uploads| + 1 && |durations| == |uploads|
    && dst !in disks[0]
    && forall k :: 0 <= k < |uploads| ==> OneCommit(disks[k], disks[k + 1], dst, uploads[k], durations[k])
  }

  ghost predicate OneCommit(before: Disk, after: Disk, dst: Path, src: Path, duration: real) {
    exists stage, w ::
      && Apart(dst, src, stage, before)
      && src in before && before[src].duration == Some(duration)
      && Committed(before, dst, src, stage, w) == (after, true)
  }

  /**
   * Over any such history the stored duration is one of the candidates, has never
   * decreased, and is within two seconds of every candidate seen.
   */
  lemma {:induction false} StoredNearLongest(disks: seq<Disk>, dst: Path, uploads: seq<Path>, durations: seq<real>,
                                             n: nat)
    requires CommitHistory(disks, dst, uploads, durations) && 0 < n <= |uploads|
    ensures Duration(disks[n], dst).Some?
    ensures Duration(disks[n], dst).value in durations[..n]
    ensures n > 1 ==>
              Duration(disks[n - 1], dst).Some?
              && Duration(disks[n - 1], dst).value <= Duration(disks[n], dst).value
    ensures forall k :: 0 <= k < n ==> durations[k] <= Duration(disks[n], dst).value + DURATION_EPSILON_SECS
  {
    assert OneCommit(disks[n - 1], disks[n], dst, uploads[n - 1], durations[n - 1]);
    assert durations[..n] == durations[..n - 1] + [durations[n - 1]];
    if n > 1 {
      StoredNearLongest(disks, dst, uploads, durations, n - 1);
      HistoryStep(disks[n - 1], disks[n], dst, uploads[n - 1], durations[n - 1]);
      LongerStep(durations[..n - 1], Duration(disks[n - 1], dst).value, durations[n - 1]);
    } else {
      HistoryStep(disks[0], disks[1], dst, uploads[0], durations[0]);
    }
  }

  /** One more candidate: still one of them, no shorter, and near all of them. */
  lemma LongerStep(seen: seq<real>, stored: real, candidate: real)
    requires stored in seen && forall k :: 0 <= k < |seen| ==> seen[k] <= stored + DURATION_EPSILON_SECS
    ensures
      var next, all := Longer(Some(stored), candidate), seen + [candidate];
      && next in all && stored <= next && forall k :: 0 <= k < |all| ==> all[k] <= next + DURATION_EPSILON_SECS
  {
  }

  lemma HistoryStep(before: Disk, after: Disk, dst: Path, src: Path, duration: real)
    requires OneCommit(before, after, dst, src, duration)
    requires dst in before ==> before[dst].duration.Some?
    ensures Duration(after, dst) == Some(Longer(Duration(before, dst), duration))
  {
    var stage, w :| Apart(dst, src, stage, before) && src in before && before[src].duration == Some(duration)
                 && Committed(before, dst, src, stage, w) == (after, true);
    CommitMeansLonger(before, dst, src, stage, w);
  }
}
