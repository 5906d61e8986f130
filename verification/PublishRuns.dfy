/** Publication after publication by one publisher at a time, and readers that run beside them. */
module PublishRuns {
  import opened Options
  import opened Release
  import opened Publish

  /** `before` is the disk the current job started from. */
  datatype Sys = Sys(disk: Disk, before: Disk, job: Job, phase: Phase)

  /** The next publication starts once the last one is done, failed or crashed; its random token is
      new. */
  ghost predicate Begins(s: Sys, s': Sys) {
    && (s.phase.Done? || s.phase.Dead?)
    && s'.disk == s.disk && s'.before == s.disk && s'.phase == Hashing && s'.job.names != []
    && Stage(s'.job) !in s.disk.dirs
    && exists base: string :: s'.job.id == PickId(s.disk, base, s'.job.token)
  }

  ghost predicate SysNext(c: Codec, s: Sys, s': Sys) {
    Begins(s, s') || (s'.before == s.before && s'.job == s.job && Next(c, s.job, s.disk, s.phase, s'.disk, s'.phase))
  }

  ghost predicate SysInv(c: Codec, s: Sys) {
    && PubInv(c, s.job, s.before, s.disk, s.phase)
    && Sound(s.before) && Stage(s.job) !in s.before.dirs && s.job.names != []
  }

  ghost predicate IsRun(c: Codec, run: seq<Sys>) {
    && run != [] && SysInv(c, run[0])
    && (forall i :: 0 <= i < |run| - 1 ==> SysNext(c, run[i], run[i + 1]))
    && (forall i :: 0 <= i < |run| ==> !Misled(run[i].phase))
  }

  /** CURRENT dangles only after a misled clean-up: no other one removes the directory it names. */
  lemma CurrentNeverDangles(c: Codec, s: Sys)
    requires SysInv(c, s) && !Misled(s.phase)
    ensures Sound(s.disk)
  {
    var d0, d := s.before, s.disk;
    if d.current.Some? && d.current.value.Doc? {
      var n := d.current.value.pointer.dir;
      if d.current == d0.current {
        assert Occupied(d0, n) && Untouched(d0, d, n);
      } else {
        assert NowCurrent(c, s.job, d);
        BundleNonEmpty(s.job);
      }
    }
  }

  lemma BundleNonEmpty(job: Job)
    requires AllStaged(job) && job.names != []
    ensures Bundle(job) != map[]
  {
    assert job.names[0] in job.names;
    assert job.names[0] in Bundle(job);
  }

  lemma SysStep(c: Codec, s: Sys, s': Sys)
    requires SysInv(c, s) && SysNext(c, s, s') && !Misled(s.phase)
    ensures SysInv(c, s')
  {
    hide Next;
    if Begins(s, s') {
      CurrentNeverDangles(c, s);
    } else {
      NextKeeps(c, s.job, s.before, s.disk, s.phase, s'.disk, s'.phase);
    }
  }

  lemma {:induction false} RunInv(c: Codec, run: seq<Sys>, i: nat)
    requires IsRun(c, run) && i < |run|
    ensures SysInv(c, run[i])
  {
    hide SysInv, SysNext;
    if i > 0 {
      RunInv(c, run, i - 1);
      assert SysNext(c, run[i - 1], run[i - 1 + 1]);
      SysStep(c, run[i - 1], run[i]);
    }
  }

  // ---------------------------------------------------------------- released directories are immutable

  /** A release that was there before the current publication, or that CURRENT names now. */
  ghost predicate Frozen(s: Sys, n: DirName) {
    Occupied(s.before, n) || (s.disk.current.Some? && s.disk.current.value.Doc? && s.disk.current.value.pointer.dir == n)
  }

  lemma OnlySwapMovesCurrent(c: Codec, job: Job, d: Disk, ph: Phase, d': Disk, ph': Phase)
    requires Next(c, job, d, ph, d', ph')
    ensures d'.current == d.current || ph.Ready?
  {
  }

  lemma FrozenStep(c: Codec, s: Sys, s': Sys, n: DirName)
    requires SysInv(c, s) && SysNext(c, s, s') && Frozen(s, n) && !Misled(s.phase) && !Misled(s'.phase)
    ensures Frozen(s', n) && n in s.disk.dirs && n in s'.disk.dirs && s'.disk.dirs[n] == s.disk.dirs[n]
  {
    hide Next;
    SysStep(c, s, s');
    CurrentNeverDangles(c, s);
    if Begins(s, s') {
      if Occupied(s.before, n) {
        assert Untouched(s.before, s.disk, n);
      }
    } else if Occupied(s.before, n) {
      assert Untouched(s.before, s.disk, n) && Untouched(s.before, s'.disk, n);
    } else {
      assert !Occupied(s.before, n);
      NewStaysCurrent(c, s, s', n);
    }
  }

  lemma NewStaysCurrent(c: Codec, s: Sys, s': Sys, n: DirName)
    requires SysInv(c, s) && SysInv(c, s') && s'.before == s.before && s'.job == s.job && !Misled(s.phase) && !Misled(s'.phase)
    requires Next(c, s.job, s.disk, s.phase, s'.disk, s'.phase)
    requires !Occupied(s.before, n) && Frozen(s, n)
    ensures s'.disk.current == s.disk.current && Frozen(s', n)
    ensures n in s.disk.dirs && n in s'.disk.dirs && s'.disk.dirs[n] == s.disk.dirs[n]
  {
    OnlySwapMovesCurrent(c, s.job, s.disk, s.phase, s'.disk, s'.phase);
    hide Next;
    assert s.disk.current != s.before.current;
    assert NowCurrent(c, s.job, s.disk) && NowCurrent(c, s.job, s'.disk);
  }

  /** A released directory never changes again, through any number of publications and failures. */
  lemma {:induction false} FrozenForever(c: Codec, run: seq<Sys>, i: nat, j: nat, n: DirName)
    requires IsRun(c, run) && i <= j < |run| && Frozen(run[i], n)
    ensures Frozen(run[j], n) && n in run[i].disk.dirs && n in run[j].disk.dirs && run[j].disk.dirs[n] == run[i].disk.dirs[n]
    decreases j
  {
    hide SysInv, SysNext, Frozen;
    RunInv(c, run, j);
    if i == j {
      FrozenThere(c, run[i], n);
    } else {
      FrozenForever(c, run, i, j - 1, n);
      RunInv(c, run, j - 1);
      assert SysNext(c, run[j - 1], run[j - 1 + 1]);
      FrozenStep(c, run[j - 1], run[j], n);
    }
  }

  lemma FrozenThere(c: Codec, s: Sys, n: DirName)
    requires SysInv(c, s) && Frozen(s, n) && !Misled(s.phase)
    ensures n in s.disk.dirs
  {
    CurrentNeverDangles(c, s);
    if Occupied(s.before, n) {
      assert Untouched(s.before, s.disk, n);
    }
  }

  // ---------------------------------------------------------------- artifacts under their own names

  ghost predicate PlainPaths(p: Pointer) {
    forall n :: n in p.artifacts ==> Or(p.artifacts[n].path, n) == n
  }

  ghost predicate PlainCurrent(d: Disk) {
    d.current.Some? && d.current.value.Doc? ==> PlainPaths(d.current.value.pointer)
  }

  lemma PublishedIsPlain(c: Codec, job: Job)
    requires AllStaged(job)
    ensures PlainPaths(PointerOf(c, job))
  {
  }

  lemma PlainStep(c: Codec, s: Sys)
    requires SysInv(c, s) && PlainCurrent(s.before)
    ensures PlainCurrent(s.disk)
  {
    if s.disk.current != s.before.current {
      PublishedIsPlain(c, s.job);
    }
  }

  /** Publications only ever leave pointers whose artifacts are stored under their own names. */
  lemma {:induction false} PlainForever(c: Codec, run: seq<Sys>, i: nat)
    requires IsRun(c, run) && i < |run| && PlainCurrent(run[0].before)
    ensures PlainCurrent(run[i].before) && PlainCurrent(run[i].disk)
  {
    hide SysInv, Next, PlainCurrent;
    RunInv(c, run, i);
    if i > 0 {
      PlainForever(c, run, i - 1);
      assert SysNext(c, run[i - 1], run[i - 1 + 1]);
    }
    PlainStep(c, run[i]);
  }

  // ---------------------------------------------------------------- readers

  /** The moments at which a reader looks: CURRENT first, then everything else at any later moment. */
  datatype Looks = Looks(pointer: nat, isDir: nat, file: Name -> nat, again: nat)

  ghost predicate InOrder(looks: Looks, length: nat) {
    && looks.pointer <= looks.isDir < length && looks.pointer <= looks.again < length
    && forall n :: looks.pointer <= looks.file(n) < length
  }

  ghost function FileLooks(run: seq<Sys>, looks: Looks, dir: DirName): Name -> Option<Bytes> {
    (n: Name) => if looks.file(n) < |run| then ReadIn(run[looks.file(n)].disk, dir)(n) else None
  }

  ghost function ReadDuring(c: Codec, run: seq<Sys>, looks: Looks, requireApproved: bool): Result<Resolved>
    requires InOrder(looks, |run|)
  {
    match run[looks.pointer].disk.current
    case None => Err(NoPointer)
    case Some(Unreadable) => Err(UnreadablePointer)
    case Some(Incomplete) => Err(IncompletePointer)
    case Some(Doc(p)) =>
      Check(c, p, requireApproved, p.dir in run[looks.isDir].disk.dirs,
            FileLooks(run, looks, p.dir), ReadIn(run[looks.again].disk, p.dir))
  }

  /** A reader that is interleaved with publications in any way gets exactly the release that was
      current when it read CURRENT. */
  lemma ReaderSeesOneRelease(c: Codec, run: seq<Sys>, looks: Looks, requireApproved: bool)
    requires IsRun(c, run) && InOrder(looks, |run|)
    ensures ReadDuring(c, run, looks, requireApproved) == Resolve(c, run[looks.pointer].disk, requireApproved)
  {
    hide Check, IsRun, Frozen;
    var s := run[looks.pointer];
    if s.disk.current.Some? && s.disk.current.value.Doc? {
      var p := s.disk.current.value.pointer;
      assert Frozen(s, p.dir) by { CurrentIsFrozen(s); }
      FrozenForever(c, run, looks.pointer, looks.isDir, p.dir);
      FrozenForever(c, run, looks.pointer, looks.again, p.dir);
      forall n ensures FileLooks(run, looks, p.dir)(n) == ReadIn(s.disk, p.dir)(n) {
        FrozenForever(c, run, looks.pointer, looks.file(n), p.dir);
      }
      CheckReads(c, p, requireApproved, true, FileLooks(run, looks, p.dir), ReadIn(run[looks.again].disk, p.dir), ReadIn(s.disk, p.dir), ReadIn(s.disk, p.dir));
    }
  }

  lemma CurrentIsFrozen(s: Sys)
    ensures s.disk.current.Some? && s.disk.current.value.Doc? ==> Frozen(s, s.disk.current.value.pointer.dir)
  {
  }
}
