/** What a completed rotation keeps, loses and records, for every disk it may start from. */
module RotationTheorems {
  import opened Sorting
  import opened BackupRotation
  import TextOrder

  /** The validated rollback points that were there before the run. */
  function OldComplete(disk: Disk, job: Job): set<Stamp> {
    set p | p in disk && IsCandidate(p, job.dir, job.prefix) && disk[p].complete :: StampOf(disk, p)
  }

  lemma CleanedKeepsComplete(disk: Disk, job: Job)
    ensures Candidates(Cleaned(disk, job.dir, job.prefix), job.dir, job.prefix) == OldComplete(disk, job)
  {
    var cleaned := Cleaned(disk, job.dir, job.prefix);
    forall p | p in disk && IsCandidate(p, job.dir, job.prefix) && disk[p].complete
      ensures p in cleaned && StampOf(cleaned, p) == StampOf(disk, p)
    {
      CandidateIsNoSidecar(p, job.dir, job.prefix, job.filename);
    }
  }

  lemma PrunedCandidates(disk: Disk, dir: string, prefix: string, keep: nat)
    ensures Candidates(Pruned(disk, dir, prefix, keep), dir, prefix) == First(Candidates(disk, dir, prefix), keep, Newer)
  {
    hide IsCandidate, Newer;
    var pruned := Pruned(disk, dir, prefix, keep);
    forall s | s in First(Candidates(disk, dir, prefix), keep, Newer)
      ensures s in Candidates(pruned, dir, prefix)
    {
      var p :| p in disk && IsCandidate(p, dir, prefix) && StampOf(disk, p) == s;
      assert p in pruned && StampOf(pruned, p) == s;
    }
  }

  lemma PreparedCandidates(disk: Disk, job: Job, keep: nat)
    ensures Candidates(Prepared(disk, job.dir, job.prefix, job.filename, keep), job.dir, job.prefix)
         == First(OldComplete(disk, job), keep, Newer)
  {
    hide Newer, Pruned, Cleaned;
    var pruned := Pruned(Cleaned(disk, job.dir, job.prefix), job.dir, job.prefix, keep);
    CleanedKeepsComplete(disk, job);
    PrunedCandidates(Cleaned(disk, job.dir, job.prefix), job.dir, job.prefix, keep);
    var partial := PartialOf(job.dir, job.filename);
    if IsCandidate(partial, job.dir, job.prefix) {
      CandidateIsNoSidecar(partial, job.dir, job.prefix, job.filename);
    }
    forall p | p in pruned && IsCandidate(p, job.dir, job.prefix)
      ensures p in pruned - {partial} && StampOf(pruned, p) == StampOf(pruned - {partial}, p)
    {
    }
  }

  lemma {:induction false} FirstIdempotent(s: set<Stamp>, keep: nat)
    ensures First(First(s, keep, Newer), keep, Newer) == First(s, keep, Newer)
  {
    hide Newer;
    NewerIsOrder();
    var t := First(s, keep, Newer);
    if n :| n in t {
      assert t + {n} == t && s + {n} == s;
      FirstAbsorbsFirst(s, n, keep, Newer);
    } else {
      assert t == {};
    }
  }

  /** The two prunings, before and after the copy, act as one cut at the end: the retained backups
      are the `keep` newest of the old complete ones and the new one. A backup whose name does not
      carry the prefix is outside retention altogether. */
  lemma TwoPruningsAreOne(disk: Disk, job: Job, keep: nat, backup: File)
    requires Path(job.dir, job.filename) !in Prepared(disk, job.dir, job.prefix, job.filename, keep)
    ensures var final := Rotated(disk, job.dir, job.prefix, job.filename, keep, backup);
            var new_ := if Matches(job.filename, job.prefix, ".sqlite3") then {Stamp(backup.mtime, job.filename)} else {};
            && Candidates(final, job.dir, job.prefix) == First(OldComplete(disk, job) + new_, keep, Newer)
            && |Candidates(final, job.dir, job.prefix)| ==
                 (if keep < |OldComplete(disk, job) + new_| then keep else |OldComplete(disk, job) + new_|)
  {
    hide Newer, Pruned, Prepared, Matches, StrictTotal, First, IsCandidate, Candidates, OldComplete;
    var prepared := Prepared(disk, job.dir, job.prefix, job.filename, keep);
    var new_ := if Matches(job.filename, job.prefix, ".sqlite3") then {Stamp(backup.mtime, job.filename)} else {};
    var old_ := OldComplete(disk, job);
    PreparedCandidates(disk, job, keep);
    PublishedCandidates(prepared, job, backup);
    PrunedCandidates(prepared[Path(job.dir, job.filename) := backup], job.dir, job.prefix, keep);
    NewerIsOrder();
    if Matches(job.filename, job.prefix, ".sqlite3") {
      FirstAbsorbsFirst(old_, Stamp(backup.mtime, job.filename), keep, Newer);
    } else {
      assert First(old_, keep, Newer) + new_ == First(old_, keep, Newer);
      FirstIdempotent(old_, keep);
      assert old_ + new_ == old_;
    }
    FirstSize(old_ + new_, keep, Newer);
  }

  lemma PublishedCandidates(prepared: Disk, job: Job, backup: File)
    requires Path(job.dir, job.filename) !in prepared
    ensures Candidates(prepared[Path(job.dir, job.filename) := backup], job.dir, job.prefix) ==
              Candidates(prepared, job.dir, job.prefix) +
              if Matches(job.filename, job.prefix, ".sqlite3") then {Stamp(backup.mtime, job.filename)} else {}
  {
    hide Matches;
    var finalPath := Path(job.dir, job.filename);
    var published := prepared[finalPath := backup];
    forall p | p in prepared ensures p in published && StampOf(published, p) == StampOf(prepared, p) {}
    assert StampOf(published, finalPath) == Stamp(backup.mtime, job.filename);
  }

  /** A backup newer than every old complete one is always among the retained. */
  lemma NewestIsRetained(disk: Disk, job: Job, keep: nat, backup: File)
    requires keep >= 1 && Matches(job.filename, job.prefix, ".sqlite3")
    requires Path(job.dir, job.filename) !in Prepared(disk, job.dir, job.prefix, job.filename, keep)
    requires forall s | s in OldComplete(disk, job) :: s.mtime < backup.mtime
    ensures Path(job.dir, job.filename) in Rotated(disk, job.dir, job.prefix, job.filename, keep, backup)
  {
    hide Prepared, Matches;
    TwoPruningsAreOne(disk, job, keep, backup);
    var new_ := Stamp(backup.mtime, job.filename);
    assert Before(OldComplete(disk, job) + {new_}, new_, Newer) == {} by {
      forall s | s in OldComplete(disk, job) + {new_} ensures !Newer(s, new_) {
        TextOrder.LessIrreflexive(new_.name);
      }
    }
    var final := Rotated(disk, job.dir, job.prefix, job.filename, keep, backup);
    assert new_ in First(OldComplete(disk, job) + {new_}, keep, Newer);
    assert new_ in Candidates(final, job.dir, job.prefix);
    var p :| p in final && IsCandidate(p, job.dir, job.prefix) && StampOf(final, p) == new_;
    assert p == Path(job.dir, job.filename);
  }

  /** Which old files a completed run spares: those it has no claim on, and the complete backups among
      the `keep` newest. */
  lemma CompletedRunSpares(disk: Disk, job: Job, keep: nat, backup: File, p: Path)
    requires Path(job.dir, job.filename) !in Prepared(disk, job.dir, job.prefix, job.filename, keep)
    requires p in disk && p != Path(job.dir, job.filename)
    ensures var new_ := if Matches(job.filename, job.prefix, ".sqlite3") then {Stamp(backup.mtime, job.filename)} else {};
            p in Rotated(disk, job.dir, job.prefix, job.filename, keep, backup) <==>
              && !IsSidecar(p, job.dir, job.prefix) && p != PartialOf(job.dir, job.filename)
              && (IsCandidate(p, job.dir, job.prefix) ==>
                    disk[p].complete && StampOf(disk, p) in First(OldComplete(disk, job) + new_, keep, Newer))
  {
    var final := Rotated(disk, job.dir, job.prefix, job.filename, keep, backup);
    TwoPruningsAreOne(disk, job, keep, backup);
    if IsCandidate(p, job.dir, job.prefix) {
      CandidateIsNoSidecar(p, job.dir, job.prefix, job.filename);
      CandidateSurvivesExactlyWhen(disk, job, keep, backup, p);
    }
  }

  lemma CandidateSurvivesExactlyWhen(disk: Disk, job: Job, keep: nat, backup: File, p: Path)
    requires Path(job.dir, job.filename) !in Prepared(disk, job.dir, job.prefix, job.filename, keep)
    requires p in disk && p != Path(job.dir, job.filename) && IsCandidate(p, job.dir, job.prefix)
    ensures p in Rotated(disk, job.dir, job.prefix, job.filename, keep, backup) <==>
            disk[p].complete && StampOf(disk, p) in Candidates(Rotated(disk, job.dir, job.prefix, job.filename, keep, backup), job.dir, job.prefix)
  {
    hide Newer, First, IsSidecar, Matches;
    var final := Rotated(disk, job.dir, job.prefix, job.filename, keep, backup);
    if p in final {
      assert StampOf(final, p) == StampOf(disk, p);
    }
    if disk[p].complete && StampOf(disk, p) in Candidates(final, job.dir, job.prefix) {
      var q :| q in final && IsCandidate(q, job.dir, job.prefix) && StampOf(final, q) == StampOf(disk, p);
      assert q == p;
    }
  }

  /** The complete backups newer than a file. */
  function NewerComplete(disk: Disk, job: Job, p: Path): set<Stamp>
    requires p in disk
  {
    Before(OldComplete(disk, job), StampOf(disk, p), Newer)
  }

  /** A new backup can be published, and it will be one of those that retention counts. */
  predicate NewOneCounts(disk: Disk, job: Job, keep: nat) {
    Matches(job.filename, job.prefix, ".sqlite3") && Path(job.dir, job.filename) !in Prepared(disk, job.dir, job.prefix, job.filename, keep)
  }

  /** What can be said of a file before the run: the run has no claim on it, or it is a complete backup
      that stays among the `keep` newest even when the new one is newer than it. */
  predicate Spared(disk: Disk, job: Job, keep: nat, p: Path)
    requires p in disk
  {
    && !IsSidecar(p, job.dir, job.prefix) && p != PartialOf(job.dir, job.filename)
    && (IsCandidate(p, job.dir, job.prefix) ==>
          disk[p].complete && |NewerComplete(disk, job, p)| + (if NewOneCounts(disk, job, keep) then 1 else 0) < keep)
  }

  predicate Survives(disk: Disk, later: Disk, p: Path)
    requires p in disk
  {
    p in later && later[p] == disk[p]
  }

  lemma PreparedExactly(disk: Disk, job: Job, keep: nat, p: Path)
    requires p in disk
    ensures p in Prepared(disk, job.dir, job.prefix, job.filename, keep) <==>
              && !IsSidecar(p, job.dir, job.prefix) && p != PartialOf(job.dir, job.filename)
              && (IsCandidate(p, job.dir, job.prefix) ==> disk[p].complete && |NewerComplete(disk, job, p)| < keep)
  {
    hide Newer, IsCandidate, IsSidecar, Candidates;
    CleanedKeepsComplete(disk, job);
    var cleaned := Cleaned(disk, job.dir, job.prefix);
    if p in cleaned { assert StampOf(cleaned, p) == StampOf(disk, p); }
    if IsCandidate(p, job.dir, job.prefix) {
      CandidateIsNoSidecar(p, job.dir, job.prefix, job.filename);
      if disk[p].complete { assert StampOf(disk, p) in OldComplete(disk, job); }
    }
  }

  lemma OneMoreNewer(s: set<Stamp>, x: Stamp, n: Stamp)
    ensures |Before(s + {n}, x, Newer)| <= |Before(s, x, Newer)| + 1
    ensures Newer(n, x) && n !in s ==> |Before(s + {n}, x, Newer)| == |Before(s, x, Newer)| + 1
  {
    hide Newer;
    assert Before(s + {n}, x, Newer) == Before(s, x, Newer) + if Newer(n, x) then {n} else {};
  }

  /** A completed run keeps a spared file, whatever backup it makes. */
  lemma SparedStays(disk: Disk, job: Job, keep: nat, backup: File, p: Path)
    requires p in disk && Spared(disk, job, keep, p)
    requires Path(job.dir, job.filename) !in Prepared(disk, job.dir, job.prefix, job.filename, keep)
    ensures Survives(disk, Rotated(disk, job.dir, job.prefix, job.filename, keep, backup), p)
  {
    hide Newer, IsCandidate, IsSidecar, Matches, OldComplete, Rotated, Prepared;
    PreparedExactly(disk, job, keep, p);
    CompletedRunSpares(disk, job, keep, backup, p);
    var s := StampOf(disk, p);
    OneMoreNewer(OldComplete(disk, job), s, Stamp(backup.mtime, job.filename));
    assert OldComplete(disk, job) + {} == OldComplete(disk, job);
    if IsCandidate(p, job.dir, job.prefix) { InOldComplete(disk, job, p); }
    RotatedKeeps(disk, job, keep, backup, p);
  }

  lemma InOldComplete(disk: Disk, job: Job, p: Path)
    requires p in disk && IsCandidate(p, job.dir, job.prefix) && disk[p].complete
    ensures StampOf(disk, p) in OldComplete(disk, job)
  {
  }

  lemma RotatedKeeps(disk: Disk, job: Job, keep: nat, backup: File, p: Path)
    requires p in disk && p != Path(job.dir, job.filename) && p in Rotated(disk, job.dir, job.prefix, job.filename, keep, backup)
    ensures Rotated(disk, job.dir, job.prefix, job.filename, keep, backup)[p] == disk[p]
  {
    hide IsCandidate, First, Prepared;
    PreparedShrinks(disk, job, keep);
  }

  /** A backup that is newer than the file and than whatever bears the new name. */
  function LaterBackup(disk: Disk, job: Job, size: nat, p: Path): File
    requires p in disk
  {
    var q := Path(job.dir, job.filename);
    File("copy", size, (if q in disk && disk[q].mtime > disk[p].mtime then disk[q].mtime else disk[p].mtime) + 1.0, true, true)
  }

  lemma LaterIsNoOldOne(disk: Disk, job: Job, size: nat, p: Path)
    requires p in disk
    ensures var n := Stamp(LaterBackup(disk, job, size, p).mtime, job.filename);
            n !in OldComplete(disk, job) && Newer(n, StampOf(disk, p))
  {
  }

  /** A later backup pushes out a file that is not spared. */
  lemma UnsparedGoes(disk: Disk, job: Job, keep: nat, size: nat, p: Path)
    requires p in disk && !Spared(disk, job, keep, p)
    requires Path(job.dir, job.filename) !in Prepared(disk, job.dir, job.prefix, job.filename, keep)
    ensures !Survives(disk, Rotated(disk, job.dir, job.prefix, job.filename, keep, LaterBackup(disk, job, size, p)), p)
  {
    var backup := LaterBackup(disk, job, size, p);
    var s, n := StampOf(disk, p), Stamp(backup.mtime, job.filename);
    LaterIsNoOldOne(disk, job, size, p);
    if p == Path(job.dir, job.filename) {
      assert backup.mtime != disk[p].mtime;
      PublishedOnly(disk, job, keep, backup);
    } else {
      hide Newer, IsCandidate, IsSidecar, Matches, OldComplete, Rotated, Prepared, LaterBackup;
      CompletedRunSpares(disk, job, keep, backup, p);
      OneMoreNewer(OldComplete(disk, job), s, n);
      assert OldComplete(disk, job) + {} == OldComplete(disk, job);
    }
  }

  lemma PublishedOnly(disk: Disk, job: Job, keep: nat, backup: File)
    ensures var q := Path(job.dir, job.filename); var later := Rotated(disk, job.dir, job.prefix, job.filename, keep, backup);
            q in later ==> later[q] == backup
  {
    hide IsCandidate, First, Prepared;
  }

  /** The environment of a run in which nothing goes wrong. */
  function Favourable(disk: Disk, job: Job, ratio: real, reserve: int, p: Path): Environment
    requires p in disk && job.source in disk && reserve >= 0
  {
    var size := disk[job.source].size;
    var enough := MinimumCompleteSize(size);
    Environment(Max(0, RequiredFree(size, ratio, reserve)), [LaterBackup(disk, job, enough, p)], false, false)
  }

  lemma FavourableCompletes(disk: Disk, job: Job, keep: int, ratio: real, reserve: int, p: Path)
    requires p in disk && ArgumentFailure(disk, job.source, job.filename, keep, ratio, reserve) == []
    requires keep >= 1 && Path(job.dir, job.filename) !in Prepared(disk, job.dir, job.prefix, job.filename, keep)
    ensures var env := Favourable(disk, job, ratio, reserve, p);
            && ExpectedDisk(disk, job, keep, ratio, reserve, env) ==
                 Rotated(disk, job.dir, job.prefix, job.filename, keep, LaterBackup(disk, job, MinimumCompleteSize(disk[job.source].size), p))
  {
    hide Prepared, Rotated;
    var env := Favourable(disk, job, ratio, reserve, p);
    var backup := LaterBackup(disk, job, MinimumCompleteSize(disk[job.source].size), p);
    assert env.copySteps[|env.copySteps| - 1] == backup && backup.size == MinimumCompleteSize(disk[job.source].size);
    assert CopyFailure(disk[job.source].size, env) == [];
  }

  /** Exactly which files survive a run, whatever the environment does and wherever the run ends: all of
      them when the arguments are refused, and otherwise the spared ones. */
  lemma AlwaysSurvivesExactly(disk: Disk, job: Job, keep: int, ratio: real, reserve: int, p: Path)
    requires p in disk
    ensures (forall env :: Survives(disk, ExpectedDisk(disk, job, keep, ratio, reserve, env), p)) <==>
              ArgumentFailure(disk, job.source, job.filename, keep, ratio, reserve) != [] || (keep >= 1 && Spared(disk, job, keep, p))
  {
    hide Spared, Survives;
    if ArgumentFailure(disk, job.source, job.filename, keep, ratio, reserve) == [] {
      forall env | Spared(disk, job, keep, p) ensures Survives(disk, ExpectedDisk(disk, job, keep, ratio, reserve, env), p) {
        SparedSurvives(disk, job, keep, ratio, reserve, env, p);
      }
      if !Spared(disk, job, keep, p) { UnsparedIsLost(disk, job, keep, ratio, reserve, p); }
    } else {
      forall env ensures Survives(disk, ExpectedDisk(disk, job, keep, ratio, reserve, env), p) {
        NothingHappens(disk, job, keep, ratio, reserve, env, p);
      }
    }
  }

  lemma NothingHappens(disk: Disk, job: Job, keep: int, ratio: real, reserve: int, env: Environment, p: Path)
    requires p in disk && ArgumentFailure(disk, job.source, job.filename, keep, ratio, reserve) != []
    ensures Survives(disk, ExpectedDisk(disk, job, keep, ratio, reserve, env), p)
  {
  }

  lemma SparedSurvives(disk: Disk, job: Job, keep: int, ratio: real, reserve: int, env: Environment, p: Path)
    requires p in disk && ArgumentFailure(disk, job.source, job.filename, keep, ratio, reserve) == [] && keep >= 1 && Spared(disk, job, keep, p)
    ensures Survives(disk, ExpectedDisk(disk, job, keep, ratio, reserve, env), p)
  {
    hide Newer, IsCandidate, IsSidecar, NewerComplete, Rotated, Pruned, Cleaned;
    PreparedExactly(disk, job, keep, p);
    PreparedShrinks(disk, job, keep);
    var bad := ExpectedFailure(disk, job, keep, ratio, reserve, env);
    if bad == [] {
      SparedStays(disk, job, keep, env.copySteps[|env.copySteps| - 1], p);
    }
  }

  lemma UnsparedIsLost(disk: Disk, job: Job, keep: int, ratio: real, reserve: int, p: Path)
    requires p in disk && ArgumentFailure(disk, job.source, job.filename, keep, ratio, reserve) == [] && keep >= 1 && !Spared(disk, job, keep, p)
    ensures exists env :: !Survives(disk, ExpectedDisk(disk, job, keep, ratio, reserve, env), p)
  {
    var env := Favourable(disk, job, ratio, reserve, p);
    if Path(job.dir, job.filename) in Prepared(disk, job.dir, job.prefix, job.filename, keep) {
      PreparedExactly(disk, job, keep, p);
      hide Prepared, Rotated, IsSidecar, IsCandidate, NewerComplete;
      assert p !in Prepared(disk, job.dir, job.prefix, job.filename, keep);
      assert ExpectedDisk(disk, job, keep, ratio, reserve, env) == Prepared(disk, job.dir, job.prefix, job.filename, keep);
    } else {
      hide Spared, Survives, Prepared, Rotated, ExpectedDisk, Favourable, LaterBackup;
      FavourableCompletes(disk, job, keep, ratio, reserve, p);
      UnsparedGoes(disk, job, keep, MinimumCompleteSize(disk[job.source].size), p);
    }
    assert !Survives(disk, ExpectedDisk(disk, job, keep, ratio, reserve, env), p);
  }

  /** A live database stored under a backup's name is deleted by its own backup run: here the
      directory holds nothing else, the run succeeds, and `keep` is 1. */
  lemma LiveDatabaseUnderBackupNameIsLost(live: Path, job: Job, backup: File, env: Environment)
    requires live == job.source == Path("d", "b-live.sqlite3") && job == Job(live, "d", "b-", "b-new.sqlite3")
    requires backup == File("copy", 8192, 2.0, true, true)
    requires env == Environment(1000000000, [backup], false, false)
    ensures var disk: Disk := map[live := File("live", 8192, 1.0, true, true)];
            && ExpectedFailure(disk, job, 1, 0.0, 0, env) == []
            && live !in ExpectedDisk(disk, job, 1, 0.0, 0, env)
  {
    var disk: Disk := map[live := File("live", 8192, 1.0, true, true)];
    hide Prepared, Rotated, First, StampOf;
    assert IsCandidate(live, "d", "b-") && Matches(job.filename, job.prefix, ".sqlite3");
    hide IsCandidate, IsSidecar, Matches;
    LoneRunSucceeds(disk, live, job, backup, env);
    hide ExpectedFailure, ArgumentFailure, CopyFailure;
    CompletedRunSpares(disk, job, 1, backup, live);
    LiveIsOlder(disk, job, backup, live);
  }

  /** The run of the example meets no check that fails. */
  lemma LoneRunSucceeds(disk: Disk, live: Path, job: Job, backup: File, env: Environment)
    requires disk == map[live := File("live", 8192, 1.0, true, true)] && live == Path("d", "b-live.sqlite3")
    requires job == Job(live, "d", "b-", "b-new.sqlite3")
    requires backup == File("copy", 8192, 2.0, true, true)
    requires env == Environment(1000000000, [backup], false, false)
    ensures ArgumentFailure(disk, job.source, job.filename, 1, 0.0, 0) == []
    ensures Path(job.dir, job.filename) !in Prepared(disk, job.dir, job.prefix, job.filename, 1)
    ensures ExpectedFailure(disk, job, 1, 0.0, 0, env) == []
    ensures ExpectedDisk(disk, job, 1, 0.0, 0, env) == Rotated(disk, job.dir, job.prefix, job.filename, 1, backup)
  {
    hide Prepared, Rotated, IsCandidate, IsSidecar, Matches;
    assert job.filename[|job.filename| - 8..] == ".sqlite3";
    PreparedShrinks(disk, job, 1);
    assert env.copySteps[0] == backup;
  }

  lemma PreparedShrinks(disk: Disk, job: Job, keep: nat)
    ensures SubDisk(Prepared(disk, job.dir, job.prefix, job.filename, keep), disk)
  {
  }

  lemma LiveIsOlder(disk: Disk, job: Job, backup: File, live: Path)
    requires live in disk && IsCandidate(live, job.dir, job.prefix) && disk[live].mtime < backup.mtime
    ensures StampOf(disk, live) !in First(OldComplete(disk, job) + {Stamp(backup.mtime, job.filename)}, 1, Newer)
  {
    var s, n := StampOf(disk, live), Stamp(backup.mtime, job.filename);
    assert n in Before(OldComplete(disk, job) + {n}, s, Newer);
  }

  lemma {:induction false} RemovedBytesConcat(a: seq<Removed>, b: seq<Removed>)
    ensures RemovedBytes(a + b) == RemovedBytes(a) + RemovedBytes(b)
  {
    if a == [] { assert a + b == b; } else {
      RemovedBytesConcat(a[1..], b);
      assert (a + b)[1..] == a[1..] + b;
    }
  }

  /** Over a completed run no byte is lost track of: old bytes plus the new backup are the bytes
      still there plus `removedBytes`. */
  lemma BytesAreConserved(disk: Disk, prepared: Disk, finalPath: Path, backup: File, final: Disk, log: seq<Removed>, mark: nat)
    requires mark <= |log| && finalPath !in prepared
    requires Accounts(disk, prepared, log[..mark])
    requires Accounts(prepared[finalPath := backup], final, log[mark..])
    ensures UsedBytes(disk) + backup.size == UsedBytes(final) + RemovedBytes(log)
  {
    hide UsedBytes, RemovedBytes, Accounts;
    RemovedBytesExact(disk, prepared, log[..mark]);
    RemovedBytesExact(prepared[finalPath := backup], final, log[mark..]);
    UsedBytesWithout(prepared[finalPath := backup], finalPath);
    assert prepared[finalPath := backup] - {finalPath} == prepared;
    RemovedBytesConcat(log[..mark], log[mark..]);
    assert log == log[..mark] + log[mark..];
  }
}
