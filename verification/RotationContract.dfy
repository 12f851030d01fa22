/** When a rotation succeeds, how it fails otherwise, and which files its two prunings and its clean-up
    leave, told on the job, the file names and what the operating system answers. */
module RotationContract {
  import opened Sorting
  import opened PyText
  import TextOrder
  import opened BackupRotation

  // ------------------------------------------------------------------ the outcome

  ghost predicate NameFine(filename: string) {
    (exists stem :: filename == stem + ".sqlite3") && '/' !in filename
  }

  /** What the caller has to get right. */
  ghost predicate ArgumentsFine(disk: Disk, job: Job, keep: int, ratio: real, reserve: int) {
    && job.source in disk && disk[job.source].size > 0
    && NameFine(job.filename) && keep >= 1 && ratio >= 0.0 && reserve >= 0
  }

  lemma NamedExactly(name: string, suffix: string)
    ensures EndsWith(name, suffix) <==> exists stem :: name == stem + suffix
  {
    if EndsWith(name, suffix) { assert name == name[..|name| - |suffix|] + suffix; }
  }

  /** The argument failures, each on its own argument, in the order of the checks. */
  lemma ArgumentsExactly(disk: Disk, job: Job, keep: int, ratio: real, reserve: int)
    ensures var f := ArgumentFailure(disk, job.source, job.filename, keep, ratio, reserve);
            var named := job.source in disk && NameFine(job.filename);
            && (f == [] <==> ArgumentsFine(disk, job, keep, ratio, reserve))
            && (f == [SourceMissing] <==> job.source !in disk)
            && (f == [BadFilename] <==> job.source in disk && !NameFine(job.filename))
            && (f == [BadKeep] <==> named && keep < 1)
            && (f == [BadRatio] <==> named && keep >= 1 && ratio < 0.0)
            && (f == [BadReserve] <==> named && keep >= 1 && ratio >= 0.0 && reserve < 0)
            && (f == [SourceEmpty] <==> named && keep >= 1 && ratio >= 0.0 && reserve >= 0 && disk[job.source].size == 0)
            && forall why: Failure | why.DiskFull? || why.BackupExists? || why.CopyFailed? || why.Undersized? || why.Truncated? ||
                                     why.QuickCheckFailed? || why.ReplaceFailed? :: f != [why]
  {
    hide EndsWith;
    NamedExactly(job.filename, ".sqlite3");
  }

  /** At least 4096 bytes and nine tenths of the database. */
  ghost predicate BigEnough(sourceSize: nat, f: File) {
    f.size >= 4096 && f.size >= (sourceSize as real * 0.9).Floor
  }

  ghost predicate Copied(env: Environment) {
    !env.copyFails && env.copySteps != []
  }

  /** What the copy was when it ended. */
  function Copy(env: Environment): File
    requires Copied(env)
  {
    env.copySteps[|env.copySteps| - 1]
  }

  /** The copy ended, is big enough, has all its pages, passed `quick_check`, and was renamed. */
  ghost predicate Published(sourceSize: nat, env: Environment) {
    Copied(env) && BigEnough(sourceSize, Copy(env)) && Copy(env).complete && Copy(env).quickCheckOk && !env.replaceFails
  }

  lemma CopyExactly(sourceSize: nat, env: Environment)
    ensures var f := CopyFailure(sourceSize, env);
            && (f == [] <==> Published(sourceSize, env))
            && (f == [CopyFailed] <==> !Copied(env))
            && (f == [Undersized] <==> Copied(env) && !BigEnough(sourceSize, Copy(env)))
            && (f == [Truncated] <==> Copied(env) && BigEnough(sourceSize, Copy(env)) && !Copy(env).complete)
            && (f == [QuickCheckFailed] <==> Copied(env) && BigEnough(sourceSize, Copy(env)) && Copy(env).complete && !Copy(env).quickCheckOk)
            && (f == [ReplaceFailed] <==>
                  Copied(env) && BigEnough(sourceSize, Copy(env)) && Copy(env).complete && Copy(env).quickCheckOk && env.replaceFails)
  {
  }

  /** Free space for the database and the larger of the two reserves. */
  ghost predicate Fits(sourceSize: nat, ratio: real, reserve: int, freeBytes: nat) {
    freeBytes >= sourceSize + reserve && freeBytes >= sourceSize + (sourceSize as real * ratio).Floor
  }

  /** A run completes exactly if the arguments are fine, the space suffices, the name is free and the copy
      is published; each failure is raised exactly on what it names, in the order of the code. */
  lemma OutcomeExactly(disk: Disk, job: Job, keep: int, ratio: real, reserve: int, env: Environment)
    ensures var f := ExpectedFailure(disk, job, keep, ratio, reserve, env);
            var fine := ArgumentsFine(disk, job, keep, ratio, reserve);
            var fits := fine && Fits(disk[job.source].size, ratio, reserve, env.freeBytes);
            var free := fits && Path(job.dir, job.filename) !in Prepared(disk, job.dir, job.prefix, job.filename, keep);
            && (f == [] <==> free && Published(disk[job.source].size, env))
            && (f == [DiskFull] <==> fine && !fits) && (f == [BackupExists] <==> fits && !free)
            && (f == [CopyFailed] <==> free && !Copied(env))
            && (f == [Undersized] <==> free && Copied(env) && !BigEnough(disk[job.source].size, Copy(env)))
            && (f == [Truncated] <==> free && Copied(env) && BigEnough(disk[job.source].size, Copy(env)) && !Copy(env).complete)
            && (f == [QuickCheckFailed] <==>
                  free && Copied(env) && BigEnough(disk[job.source].size, Copy(env)) && Copy(env).complete && !Copy(env).quickCheckOk)
            && (f == [ReplaceFailed] <==>
                  free && Copied(env) && BigEnough(disk[job.source].size, Copy(env)) && Copy(env).complete && Copy(env).quickCheckOk && env.replaceFails)
            && (ArgumentFailure(disk, job.source, job.filename, keep, ratio, reserve) != [] ==>
                  f == ArgumentFailure(disk, job.source, job.filename, keep, ratio, reserve))
  {
    hide ArgumentFailure, ArgumentsFine, Prepared;
    ArgumentsExactly(disk, job, keep, ratio, reserve);
    if ArgumentsFine(disk, job, keep, ratio, reserve) {
      assert job.source in disk by { FineHasSource(disk, job, keep, ratio, reserve); }
      CopyExactly(disk[job.source].size, env);
    }
  }

  lemma FineHasSource(disk: Disk, job: Job, keep: int, ratio: real, reserve: int)
    requires ArgumentsFine(disk, job, keep, ratio, reserve)
    ensures job.source in disk && keep >= 1
  {
  }

  // ------------------------------------------------------------------ which files stay

  /** A name made of the prefix, something, and the suffix. */
  ghost predicate Between(name: string, prefix: string, suffix: string) {
    exists middle :: name == prefix + middle + suffix
  }

  lemma MatchesExactly(name: string, prefix: string, suffix: string)
    ensures Matches(name, prefix, suffix) <==> Between(name, prefix, suffix)
  {
    if Matches(name, prefix, suffix) {
      assert name == prefix + name[|prefix|..|name| - |suffix|] + suffix;
    }
  }

  ghost predicate IsBackup(p: Path, dir: string, prefix: string) {
    p.dir == dir && Between(p.name, prefix, ".sqlite3")
  }

  /** What SQLite or a broken copy leaves beside a backup. */
  ghost predicate IsLeftover(p: Path, dir: string, prefix: string) {
    p.dir == dir && (Between(p.name, prefix, ".partial") || Between(p.name, prefix, ".sqlite3-journal") ||
                     Between(p.name, prefix, ".sqlite3-wal") || Between(p.name, prefix, ".sqlite3-shm"))
  }

  lemma NamesExactly(p: Path, dir: string, prefix: string)
    ensures IsCandidate(p, dir, prefix) <==> IsBackup(p, dir, prefix)
    ensures IsSidecar(p, dir, prefix) <==> IsLeftover(p, dir, prefix)
  {
    hide Matches, Between;
    forall suffix ensures Matches(p.name, prefix, suffix) <==> Between(p.name, prefix, suffix) { MatchesExactly(p.name, prefix, suffix); }
    SidecarsAre();
    hide SIDECARS;
  }

  lemma SidecarsAre()
    ensures forall suffix :: suffix in SIDECARS <==> suffix == ".partial" || suffix == ".sqlite3-journal" || suffix == ".sqlite3-wal" || suffix == ".sqlite3-shm"
  {
  }

  /** The clean-up deletes the leftovers and the backups with pages missing, and nothing else. */
  lemma CleanedExactly(disk: Disk, dir: string, prefix: string, p: Path)
    ensures p in Cleaned(disk, dir, prefix) <==> p in disk && !IsLeftover(p, dir, prefix) && (IsBackup(p, dir, prefix) ==> disk[p].complete)
    ensures p in Cleaned(disk, dir, prefix) ==> Cleaned(disk, dir, prefix)[p] == disk[p]
  {
    NamesExactly(p, dir, prefix);
    hide IsCandidate, IsSidecar, IsBackup, IsLeftover;
  }

  /** The backups that come before p: younger, or of the same age and with the larger name. */
  ghost function InFrontOf(disk: Disk, dir: string, prefix: string, p: Path): set<Path>
    requires p in disk
  {
    set q | q in disk && IsBackup(q, dir, prefix) && (disk[q].mtime > disk[p].mtime || (disk[q].mtime == disk[p].mtime && TextOrder.Less(p.name, q.name)))
  }

  /** A pruning leaves of the backups those with fewer than `keep` in front of them, and every other file. */
  lemma PrunedExactly(disk: Disk, dir: string, prefix: string, keep: nat, p: Path)
    requires p in disk
    ensures p in Pruned(disk, dir, prefix, keep) <==> (IsBackup(p, dir, prefix) ==> |InFrontOf(disk, dir, prefix, p)| < keep)
    ensures p in Pruned(disk, dir, prefix, keep) ==> Pruned(disk, dir, prefix, keep)[p] == disk[p]
  {
    NamesExactly(p, dir, prefix);
    hide IsCandidate, IsBackup, Newer;
    if IsCandidate(p, dir, prefix) {
      var s := Candidates(disk, dir, prefix);
      assert StampOf(disk, p) in s;
      FrontSize(disk, dir, prefix, p);
      assert StampOf(disk, p) in First(s, keep, Newer) <==> |Before(s, StampOf(disk, p), Newer)| < keep;
    }
  }

  lemma FrontSize(disk: Disk, dir: string, prefix: string, p: Path)
    requires p in disk
    ensures |Before(Candidates(disk, dir, prefix), StampOf(disk, p), Newer)| == |InFrontOf(disk, dir, prefix, p)|
  {
    hide IsCandidate, IsBackup;
    var stamps, paths := Before(Candidates(disk, dir, prefix), StampOf(disk, p), Newer), InFrontOf(disk, dir, prefix, p);
    forall q ensures IsCandidate(q, dir, prefix) <==> IsBackup(q, dir, prefix) { NamesExactly(q, dir, prefix); }
    forall q | q in paths ensures q.dir == dir && StampOf(disk, q) in stamps { BackupIsHere(q, dir, prefix); }
    forall x | x in stamps ensures exists q :: q in paths && StampOf(disk, q) == x {
      var q :| q in disk && IsCandidate(q, dir, prefix) && StampOf(disk, q) == x;
      assert q in paths;
    }
    SameNumber(disk, dir, paths, stamps);
  }

  lemma BackupIsHere(q: Path, dir: string, prefix: string)
    requires IsBackup(q, dir, prefix)
    ensures q.dir == dir
  {
  }

  /** In one directory, a name is one file. */
  lemma {:induction false} SameNumber(disk: Disk, dir: string, paths: set<Path>, stamps: set<Stamp>)
    requires forall q | q in paths :: q in disk && q.dir == dir && StampOf(disk, q) in stamps
    requires forall x | x in stamps :: exists q :: q in paths && StampOf(disk, q) == x
    ensures |paths| == |stamps|
  {
    if paths == {} {
      assert stamps == {};
    } else {
      var q :| q in paths;
      var x := StampOf(disk, q);
      forall y | y in stamps - {x} ensures exists r :: r in paths - {q} && StampOf(disk, r) == y {
        var r :| r in paths && StampOf(disk, r) == y;
        assert r in paths - {q};
      }
      forall r | r in paths - {q} ensures StampOf(disk, r) in stamps - {x} {}
      SameNumber(disk, dir, paths - {q}, stamps - {x});
    }
  }
}
