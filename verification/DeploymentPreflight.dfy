/** config/deployment/deployment_preflight.py: the checks made while the service is still up. */
module DeploymentPreflight {
  import opened Sorting
  import opened BackupRotation
  import opened RotationTheorems

  const BACKUP_PREFIX := "product_workbench-pre-"
  const DEFAULT_MIN_FREE_BYTES := 512 * 1024 * 1024
  const DEFAULT_MIN_RESERVE_BYTES := 256 * 1024 * 1024
  const DEFAULT_RESERVE_RATIO := 0.1

  datatype QuickCheck = Ok | Missing | Corrupt

  /** `enough` in `run`. */
  predicate Ready(free: int, databaseBytes: nat, minFree: int, quickCheck: QuickCheck) {
    free >= databaseBytes + minFree && quickCheck != Corrupt
  }

  /** The rotation's own disk check. */
  predicate RotationFits(free: int, databaseBytes: nat, ratio: real, minReserve: int) {
    free >= RequiredFree(databaseBytes, ratio, minReserve)
  }

  /** Preflight speaks for the rotation exactly when its reserve covers the rotation's. */
  lemma ReadyImpliesRotationFits(databaseBytes: nat, minFree: int, ratio: real, minReserve: int)
    ensures (forall free: int :: Ready(free, databaseBytes, minFree, Ok) ==> RotationFits(free, databaseBytes, ratio, minReserve))
       <==> minFree >= Max(minReserve, (databaseBytes as real * ratio).Floor)
  {
    var tight := databaseBytes + minFree;
    assert Ready(tight, databaseBytes, minFree, Ok);
    assert RotationFits(tight, databaseBytes, ratio, minReserve) <==>
             minFree >= Max(minReserve, (databaseBytes as real * ratio).Floor);
  }

  /** At its defaults, preflight is ready with half a gibibyte beside the database, unless the database is corrupt. */
  lemma ReadyExactly(free: int, databaseBytes: nat, quickCheck: QuickCheck)
    ensures Ready(free, databaseBytes, DEFAULT_MIN_FREE_BYTES, quickCheck) <==>
              free - databaseBytes >= 536870912 && (quickCheck == Ok || quickCheck == Missing)
  {
  }

  /** And the rotation, at its own, with a quarter of one and a tenth of the database. */
  lemma RotationFitsExactly(free: int, databaseBytes: nat)
    ensures RotationFits(free, databaseBytes, DEFAULT_RESERVE_RATIO, DEFAULT_MIN_RESERVE_BYTES) <==>
              free - databaseBytes >= 268435456 && free - databaseBytes >= (databaseBytes as real * 0.1).Floor
  {
  }

  /** With both programs at their defaults, the promise holds up to 5,368,709,129 bytes and not
      one byte further. */
  lemma DefaultsCover(databaseBytes: nat)
    ensures (forall free: int :: Ready(free, databaseBytes, DEFAULT_MIN_FREE_BYTES, Ok) ==>
                                 RotationFits(free, databaseBytes, DEFAULT_RESERVE_RATIO, DEFAULT_MIN_RESERVE_BYTES))
       <==> databaseBytes <= 5368709129
  {
    ReadyImpliesRotationFits(databaseBytes, DEFAULT_MIN_FREE_BYTES, DEFAULT_RESERVE_RATIO, DEFAULT_MIN_RESERVE_BYTES);
  }

  class Preflight {
    var disk: Disk

    /** `_rotate_backups`. Unlike the rotation it does not look inside the files. */
    method RotateBackups(dir: string, keepExisting: int) returns (removed: seq<Removed>, freed: nat)
      modifies this
      ensures disk == Pruned(old(disk), dir, "product_workbench-pre-", if keepExisting < 0 then 0 else keepExisting)
      ensures Accounts(old(disk), disk, removed) && freed == RemovedBytes(removed)
    {
      hide Pruned, BackupCandidates, Accounts;
      var candidates := BackupCandidates(disk, dir, BACKUP_PREFIX);
      var cut := if keepExisting < 0 then 0 else if keepExisting < |candidates| then keepExisting else |candidates|;
      PrunedIsCut(disk, dir, BACKUP_PREFIX, if keepExisting < 0 then 0 else keepExisting);
      var doomed := candidates[cut..];
      DoomedAreDistinct(disk, dir, cut);
      removed, freed := [], 0;
      for i := 0 to |doomed|
        invariant disk == old(disk) - Elements(doomed[..i])
        invariant |removed| == i && freed == RemovedBytes(removed)
        invariant forall j | 0 <= j < i :: removed[j] == Removed(doomed[j], old(disk)[doomed[j]].size, "")
      {
        var size := disk[doomed[i]].size;
        disk := disk - {doomed[i]};
        RemovedBytesConcat(removed, [Removed(doomed[i], size, "")]);
        removed, freed := removed + [Removed(doomed[i], size, "")], freed + size;
        assert Elements(doomed[..i + 1]) == Elements(doomed[..i]) + {doomed[i]};
      }
      assert doomed[..|doomed|] == doomed;
      LogAccounts(old(disk), doomed, removed);
    }
  }

  lemma LogAccounts(disk: Disk, doomed: seq<Path>, log: seq<Removed>)
    requires |log| == |doomed| && forall i | 0 <= i < |doomed| :: doomed[i] in disk
    requires forall i, j | 0 <= i < j < |doomed| :: doomed[i] != doomed[j]
    requires forall i | 0 <= i < |log| :: log[i] == Removed(doomed[i], disk[doomed[i]].size, "")
    ensures Accounts(disk, disk - Elements(doomed), log)
  {
    forall p | p in disk && p !in disk - Elements(doomed)
      ensures exists i :: 0 <= i < |log| && log[i].path == p
    {
      var i :| 0 <= i < |doomed| && doomed[i] == p;
      assert log[i].path == p;
    }
  }

  lemma DoomedAreDistinct(disk: Disk, dir: string, cut: nat)
    requires cut <= |BackupCandidates(disk, dir, BACKUP_PREFIX)|
    ensures var doomed := BackupCandidates(disk, dir, BACKUP_PREFIX)[cut..];
            && (forall i, j | 0 <= i < j < |doomed| :: doomed[i] != doomed[j])
            && (forall i | 0 <= i < |doomed| :: doomed[i] in disk)
  {
    CandidatesDistinct(disk, dir);
    forall i | 0 <= i < |BackupCandidates(disk, dir, BACKUP_PREFIX)|
      ensures BackupCandidates(disk, dir, BACKUP_PREFIX)[i] in disk
    {
      ListedAt(disk, dir, BACKUP_PREFIX, i);
    }
  }

  lemma CandidatesDistinct(disk: Disk, dir: string)
    ensures var c := BackupCandidates(disk, dir, BACKUP_PREFIX);
            forall i, j | 0 <= i < j < |c| :: c[i] != c[j]
  {
    hide IsCandidate;
    NewerIsOrder();
    var c := BackupCandidates(disk, dir, BACKUP_PREFIX);
    forall i, j | 0 <= i < j < |c| ensures c[i] != c[j] {
      ListedAt(disk, dir, BACKUP_PREFIX, i);
      ListedAt(disk, dir, BACKUP_PREFIX, j);
      assert Newer(StampOf(disk, c[i]), StampOf(disk, c[j]));
    }
  }

  /** Preflight with retention 1, its default, leaves no rollback point at all; with retention K it
      leaves one exactly when one of the K - 1 newest candidates is complete. */
  lemma PreflightLeavesRollbackPoint(disk: Disk, dir: string, keep: nat)
    requires keep >= 1
    ensures HasComplete(Pruned(disk, dir, BACKUP_PREFIX, keep - 1), dir, BACKUP_PREFIX) <==>
            exists i :: 0 <= i < keep - 1 && i < |BackupCandidates(disk, dir, BACKUP_PREFIX)| &&
                        BackupCandidates(disk, dir, BACKUP_PREFIX)[i] in disk &&
                        disk[BackupCandidates(disk, dir, BACKUP_PREFIX)[i]].complete
    ensures keep == 1 ==> !HasComplete(Pruned(disk, dir, BACKUP_PREFIX, keep - 1), dir, BACKUP_PREFIX)
  {
    hide IsCandidate, Newer, First, BackupCandidates;
    var c := BackupCandidates(disk, dir, BACKUP_PREFIX);
    var pruned := Pruned(disk, dir, BACKUP_PREFIX, keep - 1);
    if HasComplete(pruned, dir, BACKUP_PREFIX) {
      var p :| p in pruned && IsCandidate(p, dir, BACKUP_PREFIX) && pruned[p].complete;
      var i := CandidateIsListed(disk, dir, BACKUP_PREFIX, p);
      KeptByIndex(disk, dir, BACKUP_PREFIX, keep - 1, i);
    }
    if i :| 0 <= i < keep - 1 && i < |c| && c[i] in disk && disk[c[i]].complete {
      KeptByIndex(disk, dir, BACKUP_PREFIX, keep - 1, i);
      ListedAt(disk, dir, BACKUP_PREFIX, i);
      assert c[i] in pruned;
    }
  }

  /** On a directory of complete backups, preflight followed by the rotation keeps the same backups
      as the rotation alone, when the new backup is the newest. */
  lemma PreflightThenRotation(disk: Disk, job: Job, keep: nat, backup: File)
    requires keep >= 1 && job.prefix == BACKUP_PREFIX && Matches(job.filename, job.prefix, ".sqlite3")
    requires AllComplete(disk, job.dir, job.prefix)
    requires forall s | s in OldComplete(disk, job) :: s.mtime < backup.mtime
    requires Path(job.dir, job.filename) !in disk
    ensures Candidates(Rotated(Pruned(disk, job.dir, job.prefix, keep - 1), job.dir, job.prefix, job.filename, keep, backup),
                       job.dir, job.prefix)
         == Candidates(Rotated(disk, job.dir, job.prefix, job.filename, keep, backup), job.dir, job.prefix)
  {
    hide IsCandidate, Matches, StrictTotal, First, Rotated, Newer, Pruned, Candidates, OldComplete, AllComplete;
    var cut := Pruned(disk, job.dir, job.prefix, keep - 1);
    var n := Stamp(backup.mtime, job.filename);
    PrunedShrinks(disk, job, keep - 1);
    PreparedShrinks(disk, job, keep);
    PreparedShrinks(cut, job, keep);
    TwoPruningsAreOne(disk, job, keep, backup);
    TwoPruningsAreOne(cut, job, keep, backup);
    PrunedCandidates(disk, job.dir, job.prefix, keep - 1);
    AllAreComplete(disk, job);
    AllAreComplete(cut, job);
    forall x | x in OldComplete(disk, job) ensures Newer(n, x) { LaterIsNewer(n, x); }
    NewerIsOrder();
    FirstWithLeader(OldComplete(disk, job), n, keep, Newer);
  }

  lemma LaterIsNewer(a: Stamp, b: Stamp)
    requires b.mtime < a.mtime
    ensures Newer(a, b)
  {
  }

  lemma PrunedShrinks(disk: Disk, job: Job, keep: nat)
    ensures SubDisk(Pruned(disk, job.dir, job.prefix, keep), disk)
    ensures AllComplete(disk, job.dir, job.prefix) ==> AllComplete(Pruned(disk, job.dir, job.prefix, keep), job.dir, job.prefix)
  {
    hide IsCandidate, First;
  }

  lemma AllAreComplete(disk: Disk, job: Job)
    requires AllComplete(disk, job.dir, job.prefix)
    ensures OldComplete(disk, job) == Candidates(disk, job.dir, job.prefix)
  {
    hide IsCandidate;
  }
}
