/** scripts/sqlite_backup_rotate.py: one validated backup of a live database, with the
    older deployment copies rotated away.

    The disk is a finite map. What SQLite can see in a file (every declared page present,
    `quick_check` says ok) is a property of the file's content and is carried with it.
 */
module BackupRotation {
  import opened Sorting
  import opened PyText
  import TextOrder

  datatype File = File(content: string, size: nat, mtime: real, complete: bool, quickCheckOk: bool)
  datatype Path = Path(dir: string, name: string)
  type Disk = map<Path, File>

  datatype Removed = Removed(path: Path, size: nat, reason: string)

  // ------------------------------------------------------------------ names and order

  /** The glob `{prefix}*{suffix}` for a prefix without wildcard characters. */
  predicate Matches(name: string, prefix: string, suffix: string) {
    |prefix| + |suffix| <= |name| && prefix <= name && EndsWith(name, suffix)
  }

  const SIDECARS := [".partial", ".sqlite3-journal", ".sqlite3-wal", ".sqlite3-shm"]

  predicate IsCandidate(p: Path, dir: string, prefix: string) {
    p.dir == dir && Matches(p.name, prefix, ".sqlite3")
  }

  predicate IsSidecar(p: Path, dir: string, prefix: string) {
    p.dir == dir && exists suffix | suffix in SIDECARS :: Matches(p.name, prefix, suffix)
  }

  /** The sort key `(mtime, name)`. */
  datatype Stamp = Stamp(mtime: real, name: string)

  /** `reverse=True`: the larger key comes first. */
  predicate Newer(a: Stamp, b: Stamp) {
    a.mtime > b.mtime || (a.mtime == b.mtime && TextOrder.Less(b.name, a.name))
  }

  lemma NewerIsOrder()
    ensures StrictTotal(Newer)
  {
    forall x ensures !Newer(x, x) { TextOrder.LessIrreflexive(x.name); }
    forall x, y, z | Newer(x, y) && Newer(y, z) ensures Newer(x, z) {
      if x.mtime == y.mtime == z.mtime { TextOrder.LessTransitive(z.name, y.name, x.name); }
    }
    forall x, y ensures x == y || Newer(x, y) || Newer(y, x) {
      TextOrder.LessTotal(x.name, y.name);
    }
  }

  function StampOf(disk: Disk, p: Path): Stamp
    requires p in disk
  {
    Stamp(disk[p].mtime, p.name)
  }

  function Candidates(disk: Disk, dir: string, prefix: string): set<Stamp> {
    set p | p in disk && IsCandidate(p, dir, prefix) :: StampOf(disk, p)
  }

  /** `_backup_candidates`: the matching files, newest first. */
  function BackupCandidates(disk: Disk, dir: string, prefix: string): (r: seq<Path>)
    ensures |r| == |Candidates(disk, dir, prefix)|
  {
    NewerIsOrder();
    var stamps := Sort(Candidates(disk, dir, prefix), Newer);
    seq(|stamps|, i requires 0 <= i < |stamps| => Path(dir, stamps[i].name))
  }

  lemma ListedAt(disk: Disk, dir: string, prefix: string, i: nat)
    requires i < |BackupCandidates(disk, dir, prefix)|
    ensures var p := BackupCandidates(disk, dir, prefix)[i];
            p in disk && IsCandidate(p, dir, prefix) &&
            (NewerIsOrder(); StampOf(disk, p) == Sort(Candidates(disk, dir, prefix), Newer)[i])
  {
    NewerIsOrder();
    var stamps := Sort(Candidates(disk, dir, prefix), Newer);
    assert stamps[i] in Elements(stamps);
    var p :| p in disk && IsCandidate(p, dir, prefix) && StampOf(disk, p) == stamps[i];
    assert p == Path(dir, stamps[i].name);
  }

  lemma CandidateIsListed(disk: Disk, dir: string, prefix: string, p: Path) returns (i: nat)
    requires p in disk && IsCandidate(p, dir, prefix)
    ensures i < |BackupCandidates(disk, dir, prefix)| && BackupCandidates(disk, dir, prefix)[i] == p
  {
    hide Newer, StrictTotal;
    NewerIsOrder();
    var stamps := Sort(Candidates(disk, dir, prefix), Newer);
    assert StampOf(disk, p) in Candidates(disk, dir, prefix);
    assert StampOf(disk, p) in Elements(stamps);
    i :| 0 <= i < |stamps| && stamps[i] == StampOf(disk, p);
  }

  lemma CandidatesAreListed(disk: Disk, dir: string, prefix: string)
    ensures Elements(BackupCandidates(disk, dir, prefix)) == set p | p in disk && IsCandidate(p, dir, prefix)
  {
    hide BackupCandidates, IsCandidate;
    var r := BackupCandidates(disk, dir, prefix);
    forall p | p in disk && IsCandidate(p, dir, prefix) ensures p in r {
      var i := CandidateIsListed(disk, dir, prefix, p);
    }
    forall p | p in r ensures p in disk && IsCandidate(p, dir, prefix) {
      var i :| 0 <= i < |r| && r[i] == p;
      ListedAt(disk, dir, prefix, i);
    }
  }

  // ------------------------------------------------------------------ what a run should do

  /** A complete backup is present: a rollback point exists. */
  ghost predicate HasComplete(disk: Disk, dir: string, prefix: string) {
    exists p :: p in disk && IsCandidate(p, dir, prefix) && disk[p].complete
  }

  ghost predicate SubDisk(a: Disk, b: Disk) {
    forall p | p in a :: p in b && a[p] == b[p]
  }

  predicate Stale(disk: Disk, p: Path, dir: string, prefix: string)
    requires p in disk
  {
    IsSidecar(p, dir, prefix) || (IsCandidate(p, dir, prefix) && !disk[p].complete)
  }

  function WithoutSidecars(disk: Disk, dir: string, prefix: string, suffixes: seq<string>): Disk {
    map p | p in disk && !(p.dir == dir && exists suffix | suffix in suffixes :: Matches(p.name, prefix, suffix)) :: disk[p]
  }

  function Cleaned(disk: Disk, dir: string, prefix: string): Disk {
    map p | p in disk && !Stale(disk, p, dir, prefix) :: disk[p]
  }

  function Pruned(disk: Disk, dir: string, prefix: string, keep: nat): Disk {
    map p | p in disk && (IsCandidate(p, dir, prefix) ==>
                            StampOf(disk, p) in First(Candidates(disk, dir, prefix), keep, Newer)) :: disk[p]
  }

  lemma KeptByIndex(disk: Disk, dir: string, prefix: string, keep: nat, i: nat)
    requires i < |BackupCandidates(disk, dir, prefix)|
    ensures var p := BackupCandidates(disk, dir, prefix)[i];
            p in disk && (StampOf(disk, p) in First(Candidates(disk, dir, prefix), keep, Newer) <==> i < keep)
  {
    hide Newer, IsCandidate, StrictTotal;
    NewerIsOrder();
    ListedAt(disk, dir, prefix, i);
    BeforeInListing(Sort(Candidates(disk, dir, prefix), Newer), i, Newer);
  }

  /** Deleting the tail `candidates[keep:]` of the listing is exactly the set-level cut. */
  lemma PrunedIsCut(disk: Disk, dir: string, prefix: string, keep: nat)
    ensures var c := BackupCandidates(disk, dir, prefix);
            var cut := if keep < |c| then keep else |c|;
            disk - Elements(c[cut..]) == Pruned(disk, dir, prefix, keep)
  {
    hide BackupCandidates, IsCandidate, First, Newer;
    var c := BackupCandidates(disk, dir, prefix);
    var cut := if keep < |c| then keep else |c|;
    CandidatesAreListed(disk, dir, prefix);
    forall p | p in disk && IsCandidate(p, dir, prefix)
      ensures p in c[cut..] <==> StampOf(disk, p) !in First(Candidates(disk, dir, prefix), keep, Newer)
    {
      var i := CandidateIsListed(disk, dir, prefix, p);
      KeptByIndex(disk, dir, prefix, keep, i);
      if i < cut {
        forall j | cut <= j < |c| ensures c[j] != p { KeptByIndex(disk, dir, prefix, keep, j); }
      } else {
        assert c[cut..][i - cut] == p;
      }
    }
    assert forall p | p in c[cut..] :: p in Elements(c);
  }

  function PartialOf(dir: string, filename: string): Path {
    Path(dir, filename + ".partial")
  }

  /** The disk when the copy starts. */
  function Prepared(disk: Disk, dir: string, prefix: string, filename: string, keep: nat): Disk {
    Pruned(Cleaned(disk, dir, prefix), dir, prefix, keep) - {PartialOf(dir, filename)}
  }

  /** The disk after a run that published `backup`. */
  function Rotated(disk: Disk, dir: string, prefix: string, filename: string, keep: nat, backup: File): Disk {
    Pruned(Prepared(disk, dir, prefix, filename, keep)[Path(dir, filename) := backup], dir, prefix, keep)
  }

  function Max(a: int, b: int): int {
    if a > b then a else b
  }

  function MinimumCompleteSize(sourceSize: nat): int {
    Max(4096, (sourceSize as real * 0.9).Floor)
  }

  function RequiredFree(sourceSize: nat, reserveRatio: real, minReserve: int): int {
    sourceSize + Max(minReserve, (sourceSize as real * reserveRatio).Floor)
  }

  // ------------------------------------------------------------------ accounting of removals

  /** `log` records exactly the files that `after` lacks, each once, at its size. */
  ghost predicate Accounts(before: Disk, after: Disk, log: seq<Removed>) {
    && SubDisk(after, before)
    && (forall i | 0 <= i < |log| :: log[i].path in before && log[i].path !in after && log[i].size == before[log[i].path].size)
    && (forall i, j | 0 <= i < j < |log| :: log[i].path != log[j].path)
    && (forall p | p in before && p !in after :: exists i :: 0 <= i < |log| && log[i].path == p)
  }

  lemma AccountsCompose(a: Disk, b: Disk, c: Disk, log1: seq<Removed>, log2: seq<Removed>)
    requires Accounts(a, b, log1) && Accounts(b, c, log2)
    ensures Accounts(a, c, log1 + log2)
  {
    var log := log1 + log2;
    forall p | p in a && p !in c
      ensures exists i :: 0 <= i < |log| && log[i].path == p
    {
      if p in b {
        var i :| 0 <= i < |log2| && log2[i].path == p;
        assert log[|log1| + i].path == p;
      } else {
        var i :| 0 <= i < |log1| && log1[i].path == p;
        assert log[i].path == p;
      }
    }
  }

  function RemovedBytes(log: seq<Removed>): nat {
    if log == [] then 0 else log[0].size + RemovedBytes(log[1..])
  }

  ghost function UsedBytes(disk: Disk): nat
    decreases |disk|
  {
    if disk == map[] then 0 else
      var p :| p in disk;
      assert (disk - {p}).Keys == disk.Keys - {p};
      disk[p].size + UsedBytes(disk - {p})
  }

  lemma {:induction false} UsedBytesWithout(disk: Disk, p: Path)
    requires p in disk
    ensures UsedBytes(disk) == disk[p].size + UsedBytes(disk - {p})
    decreases |disk|
  {
    var q :| q in disk && UsedBytes(disk) == disk[q].size + UsedBytes(disk - {q});
    if q != p {
      assert (disk - {q}).Keys == disk.Keys - {q};
      UsedBytesWithout(disk - {q}, p);
      var rest := disk - {p};
      assert rest.Keys == disk.Keys - {p};
      UsedBytesWithout(rest, q);
      assert disk - {q} - {p} == rest - {q};
    }
  }

  /** Bytes are conserved: what was used before is still used or recorded as removed. */
  lemma {:induction false} RemovedBytesExact(before: Disk, after: Disk, log: seq<Removed>)
    requires Accounts(before, after, log)
    ensures UsedBytes(before) == UsedBytes(after) + RemovedBytes(log)
    decreases |log|
  {
    if log == [] {
      assert before == after;
    } else {
      var p := log[0].path;
      var rest := before - {p};
      UsedBytesWithout(before, p);
      forall q | q in rest && q !in after
        ensures exists i :: 0 <= i < |log[1..]| && log[1..][i].path == q
      {
        var i :| 0 <= i < |log| && log[i].path == q;
        assert log[1..][i - 1].path == q;
      }
      RemovedBytesExact(rest, after, log[1..]);
    }
  }

  // ------------------------------------------------------------------ the program

  /** What the operating system and SQLite decide during one run. */
  datatype Environment = Environment(
    freeBytes: nat,           // shutil.disk_usage just before the copy
    copySteps: seq<File>,     // successive contents of the partial file while it is copied
    copyFails: bool,          // the copy raises after those steps
    replaceFails: bool)       // os.replace raises

  datatype Failure =
    | SourceMissing | BadFilename | BadKeep | BadRatio | BadReserve | SourceEmpty
    | DiskFull | BackupExists | CopyFailed | Undersized | Truncated | QuickCheckFailed | ReplaceFailed

  datatype Outcome =
    | Completed(backup: File, retained: seq<Path>, removedBytes: nat)
    | Raised(why: Failure)

  /** The first argument check that fails, in the order the code makes them. */
  function ArgumentFailure(disk: Disk, source: Path, filename: string, keep: int, ratio: real, reserve: int): (f: seq<Failure>) {
    if source !in disk then [SourceMissing]
    else if !EndsWith(filename, ".sqlite3") || '/' in filename then [BadFilename]
    else if keep < 1 then [BadKeep]
    else if ratio < 0.0 then [BadRatio]
    else if reserve < 0 then [BadReserve]
    else if disk[source].size == 0 then [SourceEmpty]
    else []
  }

  /** Why the copy phase gives up on the partial file it produced, if it does. */
  function CopyFailure(sourceSize: nat, env: Environment): seq<Failure> {
    if env.copyFails || env.copySteps == [] then [CopyFailed]
    else
      var f := env.copySteps[|env.copySteps| - 1];
      if f.size < MinimumCompleteSize(sourceSize) then [Undersized]
      else if !f.complete then [Truncated]
      else if !f.quickCheckOk then [QuickCheckFailed]
      else if env.replaceFails then [ReplaceFailed]
      else []
  }

  /** A moment of a run: the disk, what was recorded as removed, and every earlier disk. */
  datatype Moment = Moment(disk: Disk, removed: seq<Removed>, history: seq<Disk>)

  /** From `a` to `b` files were only deleted, each deletion was recorded, and every disk in
      between lies between the two. */
  ghost predicate Deletes(a: Moment, b: Moment) {
    && a.removed <= b.removed && a.history <= b.history
    && Accounts(a.disk, b.disk, b.removed[|a.removed|..])
    && forall h | h in b.history[|a.history|..] :: SubDisk(b.disk, h) && SubDisk(h, a.disk)
  }

  lemma SubDiskTransitive(a: Disk, b: Disk, c: Disk)
    requires SubDisk(a, b) && SubDisk(b, c)
    ensures SubDisk(a, c)
  {
  }

  lemma DeletesCompose(a: Moment, b: Moment, c: Moment)
    requires Deletes(a, b) && Deletes(b, c)
    ensures Deletes(a, c)
  {
    assert SubDisk(b.disk, a.disk) && SubDisk(c.disk, b.disk);
    hide Accounts, SubDisk;
    AccountsCompose(a.disk, b.disk, c.disk, b.removed[|a.removed|..], c.removed[|b.removed|..]);
    assert c.removed[|a.removed|..] == b.removed[|a.removed|..] + c.removed[|b.removed|..];
    forall h | h in c.history[|a.history|..] ensures SubDisk(c.disk, h) && SubDisk(h, a.disk) {
      assert c.history[|a.history|..] == b.history[|a.history|..] + c.history[|b.history|..];
      if h in b.history[|a.history|..] { SubDiskTransitive(c.disk, b.disk, h); } else { SubDiskTransitive(h, b.disk, a.disk); }
    }
  }

  lemma DeletesNothing(a: Moment)
    ensures Deletes(a, a)
  {
  }

  // ------------------------------------------------------------------ crash safety

  /** Paths a run may delete or overwrite. */
  predicate Touchable(p: Path, dir: string, prefix: string, filename: string) {
    IsSidecar(p, dir, prefix) || IsCandidate(p, dir, prefix) || p == PartialOf(dir, filename)
  }

  datatype Job = Job(source: Path, dir: string, prefix: string, filename: string)

  /** `later` is an acceptable place to stop for a run that started on `start`: no rollback point
      was lost, and the live database is untouched unless its name is one the run owns. */
  ghost predicate Safe(start: Disk, later: Disk, job: Job) {
    && (HasComplete(start, job.dir, job.prefix) ==> HasComplete(later, job.dir, job.prefix))
    && (job.source in start && !Touchable(job.source, job.dir, job.prefix, job.filename) ==>
          job.source in later && later[job.source] == start[job.source])
  }

  lemma SafeTransitive(a: Disk, b: Disk, c: Disk, job: Job)
    requires Safe(a, b, job) && Safe(b, c, job)
    ensures Safe(a, c, job)
  {
  }

  lemma BetweenIsSafe(a: Disk, b: Disk, h: Disk, job: Job)
    requires Safe(a, b, job) && SubDisk(b, h) && SubDisk(h, a)
    ensures Safe(a, h, job)
  {
    hide IsCandidate, IsSidecar;
  }

  lemma DeletionsAreSafe(start: Disk, a: Moment, b: Moment, job: Job)
    requires forall h | h in a.history :: Safe(start, h, job)
    requires Safe(start, a.disk, job) && Safe(a.disk, b.disk, job) && Deletes(a, b)
    ensures forall h | h in b.history :: Safe(start, h, job)
    ensures Safe(start, b.disk, job)
  {
    hide Safe, SubDisk, Accounts;
    SafeTransitive(start, a.disk, b.disk, job);
    assert b.history == a.history + b.history[|a.history|..];
    forall h | h in b.history[|a.history|..] ensures Safe(start, h, job) {
      BetweenIsSafe(a.disk, b.disk, h, job);
      SafeTransitive(start, a.disk, h, job);
    }
  }

  predicate AllComplete(disk: Disk, dir: string, prefix: string) {
    forall p | p in disk && IsCandidate(p, dir, prefix) :: disk[p].complete
  }

  lemma CandidateIsNoSidecar(p: Path, dir: string, prefix: string, filename: string)
    requires IsCandidate(p, dir, prefix)
    ensures !IsSidecar(p, dir, prefix) && p != PartialOf(dir, filename)
  {
    var n := |p.name|;
    assert p.name[n - 1] == '3';
    forall suffix | suffix in SIDECARS && |suffix| <= n ensures !EndsWith(p.name, suffix) {
      assert p.name[n - |suffix|..][|suffix| - 1] == p.name[n - 1] != suffix[|suffix| - 1];
    }
  }

  /** Deleting stale files loses no complete backup and leaves only complete ones. */
  lemma CleanedIsSafe(disk: Disk, job: Job)
    ensures Safe(disk, Cleaned(disk, job.dir, job.prefix), job)
    ensures AllComplete(Cleaned(disk, job.dir, job.prefix), job.dir, job.prefix)
  {
    forall p | p in disk && IsCandidate(p, job.dir, job.prefix)
      ensures !IsSidecar(p, job.dir, job.prefix)
    {
      CandidateIsNoSidecar(p, job.dir, job.prefix, "");
    }
  }

  lemma CleanedInTwoSteps(disk: Disk, dir: string, prefix: string)
    ensures var d := WithoutSidecars(disk, dir, prefix, SIDECARS);
            var c := BackupCandidates(d, dir, prefix);
            Cleaned(disk, dir, prefix) == map p | p in d && !(p in c[..|c|] && !d[p].complete) :: d[p]
  {
    hide Matches, BackupCandidates;
    var d := WithoutSidecars(disk, dir, prefix, SIDECARS);
    var c := BackupCandidates(d, dir, prefix);
    CandidatesAreListed(d, dir, prefix);
    assert c[..|c|] == c;
    assert forall p :: p in c <==> p in Elements(c);
  }

  /** A cut that keeps at least one of a directory of complete backups loses no rollback point. */
  lemma PrunedIsSafe(disk: Disk, keep: nat, job: Job)
    requires AllComplete(disk, job.dir, job.prefix) && keep >= 1
    ensures Safe(disk, Pruned(disk, job.dir, job.prefix, keep), job)
    ensures AllComplete(Pruned(disk, job.dir, job.prefix, keep), job.dir, job.prefix)
  {
    hide IsCandidate, Newer, StrictTotal;
    var c := BackupCandidates(disk, job.dir, job.prefix);
    if HasComplete(disk, job.dir, job.prefix) {
      var p :| p in disk && IsCandidate(p, job.dir, job.prefix) && disk[p].complete;
      var i := CandidateIsListed(disk, job.dir, job.prefix, p);
      KeptByIndex(disk, job.dir, job.prefix, keep, 0);
      ListedAt(disk, job.dir, job.prefix, 0);
      assert c[0] in Pruned(disk, job.dir, job.prefix, keep);
    }
  }

  /** Only the partial file differs. */
  lemma PartialIsSafe(disk: Disk, later: Disk, job: Job)
    requires disk - {PartialOf(job.dir, job.filename)} == later - {PartialOf(job.dir, job.filename)}
    ensures Safe(disk, later, job)
    ensures AllComplete(disk, job.dir, job.prefix) ==> AllComplete(later, job.dir, job.prefix)
  {
    var partial := PartialOf(job.dir, job.filename);
    if IsCandidate(partial, job.dir, job.prefix) {
      CandidateIsNoSidecar(partial, job.dir, job.prefix, job.filename);
    }
    hide IsCandidate, IsSidecar, PartialOf;
    forall p | p != partial ensures p in disk <==> p in later {
      assert p in disk <==> p in disk - {partial};
      assert p in later <==> p in later - {partial};
    }
    forall p | p != partial && p in disk ensures disk[p] == later[p] {
      assert disk[p] == (disk - {partial})[p] == (later - {partial})[p];
    }
  }

  lemma PublishIsSafe(disk: Disk, backup: File, job: Job)
    requires Path(job.dir, job.filename) !in disk && backup.complete && AllComplete(disk, job.dir, job.prefix)
    ensures Safe(disk, disk[Path(job.dir, job.filename) := backup], job)
    ensures AllComplete(disk[Path(job.dir, job.filename) := backup], job.dir, job.prefix)
  {
    hide IsCandidate, IsSidecar;
    var later := disk[Path(job.dir, job.filename) := backup];
    forall p | p in disk ensures p in later && later[p] == disk[p] {}
  }

  lemma DeletesGivesAccounts(a: Moment, b: Moment)
    requires Deletes(a, b)
    ensures Accounts(a.disk, b.disk, b.removed[|a.removed|..]) && a.removed <= b.removed
  {
  }

  // ------------------------------------------------------------------ the run

  /** Why a run fails, if it does: the checks in the order the code makes them. */
  function ExpectedFailure(disk: Disk, job: Job, keep: int, ratio: real, reserve: int, env: Environment): seq<Failure> {
    var bad := ArgumentFailure(disk, job.source, job.filename, keep, ratio, reserve);
    if bad != [] then bad
    else if env.freeBytes < RequiredFree(disk[job.source].size, ratio, reserve) then [DiskFull]
    else if Path(job.dir, job.filename) in Prepared(disk, job.dir, job.prefix, job.filename, keep) then [BackupExists]
    else CopyFailure(disk[job.source].size, env)
  }

  /** The disk a run leaves behind. */
  function ExpectedDisk(disk: Disk, job: Job, keep: int, ratio: real, reserve: int, env: Environment): Disk {
    var bad := ExpectedFailure(disk, job, keep, ratio, reserve, env);
    if ArgumentFailure(disk, job.source, job.filename, keep, ratio, reserve) != [] then disk
    else if bad == [DiskFull] then Pruned(Cleaned(disk, job.dir, job.prefix), job.dir, job.prefix, keep)
    else if bad != [] then Prepared(disk, job.dir, job.prefix, job.filename, keep)
    else Rotated(disk, job.dir, job.prefix, job.filename, keep, env.copySteps[|env.copySteps| - 1])
  }

  class BackupRun {
    var disk: Disk
    var removed: seq<Removed>
    ghost var history: seq<Disk>   // every state the disk has been in, oldest first

    constructor (start: Disk)
      ensures disk == start && removed == [] && history == [start]
    {
      disk, removed, history := start, [], [start];
    }

    ghost function Now(): Moment
      reads this
    {
      Moment(disk, removed, history)
    }

    method Remove(path: Path, reason: string)
      modifies this
      ensures disk == old(disk) - {path}
      ensures removed == old(removed) + if path in old(disk) then [Removed(path, old(disk)[path].size, reason)] else []
      ensures Deletes(old(Now()), Now())
    {
      if path !in disk { return; }
      var size := disk[path].size;
      disk := disk - {path};
      history := history + [disk];
      removed := removed + [Removed(path, size, reason)];
      assert removed[|old(removed)|..][0].path == path;
    }

    method RemoveEach(paths: seq<Path>, reason: string)
      modifies this
      ensures disk == old(disk) - Elements(paths)
      ensures Deletes(old(Now()), Now())
    {
      for i := 0 to |paths|
        invariant disk == old(disk) - Elements(paths[..i])
        invariant Deletes(old(Now()), Now())
      {
        ghost var before := Now();
        Remove(paths[i], reason);
        DeletesCompose(old(Now()), before, Now());
        assert Elements(paths[..i + 1]) == Elements(paths[..i]) + {paths[i]};
      }
      assert paths[..|paths|] == paths;
    }

    /** `backup_dir.glob(...)`: the matching files, in no particular order. */
    method Glob(dir: string, prefix: string, suffix: string) returns (r: seq<Path>)
      ensures Elements(r) == set p | p in disk && p.dir == dir && Matches(p.name, prefix, suffix)
    {
      var todo := set p | p in disk && p.dir == dir && Matches(p.name, prefix, suffix);
      ghost var all := todo;
      r := [];
      while todo != {}
        invariant todo <= all && Elements(r) == all - todo
      {
        var p :| p in todo;
        assert Elements(r + [p]) == Elements(r) + {p};
        todo, r := todo - {p}, r + [p];
      }
    }

    method RemoveSidecars(dir: string, prefix: string)
      modifies this
      ensures disk == WithoutSidecars(old(disk), dir, prefix, SIDECARS)
      ensures Deletes(old(Now()), Now())
    {
      hide Deletes, Matches;
      DeletesNothing(Now());
      for k := 0 to |SIDECARS|
        invariant disk == WithoutSidecars(old(disk), dir, prefix, SIDECARS[..k])
        invariant Deletes(old(Now()), Now())
      {
        ghost var before := Now();
        var found := Glob(dir, prefix, SIDECARS[k]);
        RemoveEach(found, "stale_incomplete_sidecar");
        DeletesCompose(old(Now()), before, Now());
        assert SIDECARS[..k + 1] == SIDECARS[..k] + [SIDECARS[k]];
      }
      assert SIDECARS[..|SIDECARS|] == SIDECARS;
    }

    method CleanupIncomplete(dir: string, prefix: string)
      modifies this
      ensures disk == Cleaned(old(disk), dir, prefix)
      ensures Deletes(old(Now()), Now())
    {
      hide Deletes, WithoutSidecars, IsCandidate, Cleaned, BackupCandidates;
      RemoveSidecars(dir, prefix);
      ghost var noSidecars := Now();
      var candidates := BackupCandidates(disk, dir, prefix);
      DeletesNothing(noSidecars);
      for i := 0 to |candidates|
        invariant disk == map p | p in noSidecars.disk && !(p in candidates[..i] && !noSidecars.disk[p].complete) :: noSidecars.disk[p]
        invariant Deletes(noSidecars, Now())
      {
        var path := candidates[i];
        if path in disk && !disk[path].complete {
          ghost var before := Now();
          Remove(path, "invalid_or_truncated_backup");
          DeletesCompose(noSidecars, before, Now());
        }
      }
      CleanedInTwoSteps(old(disk), dir, prefix);
      DeletesCompose(old(Now()), noSidecars, Now());
    }

    method PruneComplete(dir: string, prefix: string, keep: int, reason: string)
      modifies this
      ensures disk == Pruned(old(disk), dir, prefix, if keep < 0 then 0 else keep)
      ensures Deletes(old(Now()), Now())
    {
      var candidates := BackupCandidates(disk, dir, prefix);
      var cut := if keep < 0 then 0 else if keep < |candidates| then keep else |candidates|;
      PrunedIsCut(disk, dir, prefix, if keep < 0 then 0 else keep);
      RemoveEach(candidates[cut..], reason);
    }

    ghost predicate SafeSoFar(start: Disk, job: Job)
      reads this
    {
      Safe(start, disk, job) && forall h | h in history :: Safe(start, h, job)
    }

    /** Everything `create_rotating_backup` deletes before it looks at the free space. */
    method MakeRoom(job: Job, keep: int)
      requires keep >= 1 && history == [disk]
      modifies this
      ensures disk == Pruned(Cleaned(old(disk), job.dir, job.prefix), job.dir, job.prefix, keep)
      ensures Deletes(old(Now()), Now()) && SafeSoFar(old(disk), job)
      ensures AllComplete(disk, job.dir, job.prefix)
    {
      hide Safe, Deletes, Cleaned, Pruned;
      ghost var m0 := Now();
      PartialIsSafe(disk, disk, job);
      CleanupIncomplete(job.dir, job.prefix);
      ghost var m1 := Now();
      CleanedIsSafe(m0.disk, job);
      DeletionsAreSafe(m0.disk, m0, m1, job);
      PruneComplete(job.dir, job.prefix, keep, "pre_backup_retention_prune");
      PrunedIsSafe(m1.disk, keep, job);
      DeletionsAreSafe(m0.disk, m1, Now(), job);
      DeletesCompose(m0, m1, Now());
    }

    /** The copy, its three checks and the atomic rename; a failure deletes the partial file. */
    method CopyAndPublish(job: Job, sourceSize: nat, env: Environment, ghost start: Disk)
      returns (failure: seq<Failure>)
      requires SafeSoFar(start, job) && AllComplete(disk, job.dir, job.prefix)
      requires PartialOf(job.dir, job.filename) !in disk && Path(job.dir, job.filename) !in disk
      modifies this
      ensures failure == CopyFailure(sourceSize, env) && SafeSoFar(start, job)
      ensures AllComplete(disk, job.dir, job.prefix)
      ensures failure != [] ==> disk == old(disk)
      ensures failure == [] ==> disk == old(disk)[Path(job.dir, job.filename) := env.copySteps[|env.copySteps| - 1]]
      ensures failure == [] ==> removed == old(removed)
    {
      hide Safe, Deletes, AllComplete;
      var partialPath, finalPath := PartialOf(job.dir, job.filename), Path(job.dir, job.filename);
      ghost var before := disk;
      for i := 0 to |env.copySteps|
        invariant disk == if i == 0 then before else before[partialPath := env.copySteps[i - 1]]
        invariant removed == old(removed) && SafeSoFar(start, job)
      {
        disk := disk[partialPath := env.copySteps[i]];
        history := history + [disk];
        assert disk - {partialPath} == before - {partialPath};
        PartialIsSafe(before, disk, job);
        SafeTransitive(start, before, disk, job);
      }
      if env.copyFails || env.copySteps == [] {
        failure := [CopyFailed];
      } else if disk[partialPath].size < MinimumCompleteSize(sourceSize) {
        failure := [Undersized];
      } else if !disk[partialPath].complete {
        failure := [Truncated];
      } else if !disk[partialPath].quickCheckOk {
        failure := [QuickCheckFailed];
      } else {
        failure := if env.replaceFails then [ReplaceFailed] else [];
      }
      if failure != [] {
        ghost var copied := Now();
        Remove(partialPath, "failed_backup_partial");
        assert disk == before;
        PartialIsSafe(copied.disk, disk, job);
        DeletionsAreSafe(start, copied, Now(), job);
      } else {
        var backup := disk[partialPath];
        disk := (disk - {partialPath})[finalPath := backup];
        history := history + [disk];
        assert disk == before[finalPath := backup];
        PublishIsSafe(before, backup, job);
        SafeTransitive(start, before, disk, job);
      }
    }

    /** `create_rotating_backup`. The process may stop for good after any entry of `history`. */
    method CreateRotatingBackup(job: Job, keep: int, reserveRatio: real, minReserve: int, env: Environment)
      returns (outcome: Outcome, ghost mark: nat)
      requires removed == [] && history == [disk]
      modifies this
      ensures disk == ExpectedDisk(old(disk), job, keep, reserveRatio, minReserve, env)
      ensures outcome.Completed? <==> ExpectedFailure(old(disk), job, keep, reserveRatio, minReserve, env) == []
      ensures outcome.Raised? ==> ExpectedFailure(old(disk), job, keep, reserveRatio, minReserve, env) == [outcome.why]
      ensures SafeSoFar(old(disk), job)
      ensures outcome.Completed? ==>
                && mark <= |removed|
                && Accounts(old(disk), Prepared(old(disk), job.dir, job.prefix, job.filename, keep), removed[..mark])
                && Accounts(Prepared(old(disk), job.dir, job.prefix, job.filename, keep)
                              [Path(job.dir, job.filename) := outcome.backup], disk, removed[mark..])
                && outcome.backup == env.copySteps[|env.copySteps| - 1]
                && outcome.retained == BackupCandidates(disk, job.dir, job.prefix)
                && outcome.removedBytes == RemovedBytes(removed)
    {
      hide Safe, Deletes, Cleaned, Pruned, PartialOf, AllComplete, BackupCandidates, Accounts;
      mark := 0;
      ghost var start := Now();
      assert Safe(disk, disk, job) by { PartialIsSafe(disk, disk, job); }
      if job.source !in disk { return Raised(SourceMissing), 0; }
      if !EndsWith(job.filename, ".sqlite3") || '/' in job.filename { return Raised(BadFilename), 0; }
      if keep < 1 { return Raised(BadKeep), 0; }
      if reserveRatio < 0.0 { return Raised(BadRatio), 0; }
      if minReserve < 0 { return Raised(BadReserve), 0; }
      var sourceSize := disk[job.source].size;
      if sourceSize == 0 { return Raised(SourceEmpty), 0; }

      MakeRoom(job, keep);
      ghost var pruned := Now();
      var reserveBytes := Max(minReserve, (sourceSize as real * reserveRatio).Floor);
      if env.freeBytes < sourceSize + reserveBytes { return Raised(DiskFull), 0; }

      Remove(PartialOf(job.dir, job.filename), "preexisting_partial_for_same_backup");
      PartialIsSafe(pruned.disk, disk, job);
      DeletionsAreSafe(start.disk, pruned, Now(), job);
      DeletesCompose(start, pruned, Now());
      if Path(job.dir, job.filename) in disk { return Raised(BackupExists), 0; }
      DeletesGivesAccounts(start, Now());
      mark := |removed|;
      ghost var log1 := removed;

      var failure := CopyAndPublish(job, sourceSize, env, start.disk);
      if failure != [] { return Raised(failure[0]), mark; }
      var backup := disk[Path(job.dir, job.filename)];
      ghost var published := Now();
      PruneComplete(job.dir, job.prefix, keep, "post_backup_retention_prune");
      PrunedIsSafe(published.disk, keep, job);
      DeletionsAreSafe(start.disk, published, Now(), job);
      DeletesGivesAccounts(published, Now());
      assert removed[..mark] == log1;
      return Completed(backup, BackupCandidates(disk, job.dir, job.prefix), RemovedBytes(removed)), mark;
    }
  }
}
