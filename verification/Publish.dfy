/** Publishing a release one file-system step at a time, with a crash or an exception anywhere. */
module Publish {
  import opened Options
  import opened Release

  /** One call of the publisher: `token` is its random suffix, `staged` the directory it copies. */
  datatype Job = Job(
    id: string, token: string, staged: Dir, names: seq<Name>,
    gold: Digest, manifest: Digest, rowCount: nat, stage: string, accepted: bool, candidate: Option<string>)

  predicate AllStaged(job: Job) {
    forall n :: n in job.names ==> n in job.staged
  }

  /** The directory a complete publication leaves behind. */
  function Bundle(job: Job): (b: Dir)
    requires AllStaged(job)
  {
    map n | n in job.names :: job.staged[n]
  }

  function PointerOf(c: Codec, job: Job): Pointer
    requires AllStaged(job)
  {
    Pointer(job.id, Published(job.id), Some(job.stage), Some(job.accepted), job.candidate, Some(job.rowCount), job.gold, job.manifest,
            map n | n in job.names :: Entry(Some(n), Some(c.sha(job.staged[n]))))
  }

  function Target(job: Job): DirName {
    Published(job.id)
  }

  function Stage(job: Job): DirName {
    Staging(job.id, job.token)
  }

  /** The id from the clock and the manifest digest, with the token added when that id is taken. */
  function PickId(d: Disk, base: string, token: string): (id: string) {
    if Published(base) in d.dirs then base + "_" + if |token| <= 6 then token else token[..6] else base
  }

  // ---------------------------------------------------------------- steps

  /** The clean-up's look at CURRENT: the new directory is spared when CURRENT was read and names it, and
      doomed otherwise; `misread` when CURRENT does name it but could not be read. */
  datatype Look = NotYet | Spared | Doomed(misread: bool)

  datatype Phase =
    | Hashing               // nothing written yet
    | Copying(done: nat)    // the staging directory exists, `done` files are complete
    | Renamed               // the directory was renamed, the publisher has not noted it yet
    | Placed                // and noted
    | Ready                 // the temporary pointer file is complete
    | Swapped               // CURRENT was replaced, the publisher has not noted it yet
    | Done
    | Undo(created: bool, look: Look)   // an exception is being handled
    | Dead(misread: bool)               // crashed, or the exception was passed on

  function Created(ph: Phase): bool {
    ph.Placed? || ph.Ready? || ph.Swapped? || (ph.Undo? && ph.created)
  }

  /** A clean-up took CURRENT's own directory for an unreferenced one. */
  predicate Misled(ph: Phase) {
    (ph.Undo? && ph.look == Doomed(true)) || (ph.Dead? && ph.misread)
  }

  predicate Fails(d: Disk, ph: Phase, d': Disk, ph': Phase) {
    d' == d && !ph.Done? && !ph.Dead? && (ph' == Dead(Misled(ph)) || (!ph.Undo? && ph' == Undo(Created(ph), NotYet)))
  }

  ghost predicate Hash(job: Job, d: Disk, ph: Phase, d': Disk, ph': Phase) {
    ph.Hashing? && AllStaged(job) && Stage(job) !in d.dirs && ph' == Copying(0) && d' == d.(dirs := d.dirs[Stage(job) := map[]])
  }

  function WithFile(d: Disk, dir: DirName, name: Name, bytes: Bytes): Disk
    requires dir in d.dirs
  {
    d.(dirs := d.dirs[dir := d.dirs[dir][name := bytes]])
  }

  function WithTemp(d: Disk, token: string, file: PointerFile): Disk {
    d.(temps := d.temps[token := file])
  }

  /** A file is written in any number of pieces before it is complete. */
  ghost predicate Copy(job: Job, d: Disk, ph: Phase, d': Disk, ph': Phase) {
    && ph.Copying? && AllStaged(job) && ph.done < |job.names| && Stage(job) in d.dirs
    && var name := job.names[ph.done];
       exists bytes: Bytes ::
         && d' == WithFile(d, Stage(job), name, bytes)
         && (ph' == ph || (bytes == job.staged[name] && ph' == Copying(ph.done + 1)))
  }

  /** A directory can be renamed over nothing or over an empty directory. */
  ghost predicate Rename(job: Job, d: Disk, ph: Phase, d': Disk, ph': Phase) {
    && ph.Copying? && ph.done == |job.names| && Stage(job) in d.dirs
    && (Target(job) in d.dirs ==> d.dirs[Target(job)] == map[])
    && d' == d.(dirs := (d.dirs - {Stage(job)})[Target(job) := d.dirs[Stage(job)]])
    && ph' == Renamed
  }

  ghost predicate WriteTemp(c: Codec, job: Job, d: Disk, ph: Phase, d': Disk, ph': Phase) {
    && ph.Placed? && AllStaged(job)
    && exists file: PointerFile ::
         && d' == WithTemp(d, job.token, file)
         && (ph' == Placed || (file == Doc(PointerOf(c, job)) && ph' == Ready))
  }

  ghost predicate Swap(job: Job, d: Disk, ph: Phase, d': Disk, ph': Phase) {
    && ph.Ready? && job.token in d.temps
    && d' == d.(current := Some(d.temps[job.token]), temps := d.temps - {job.token}) && ph' == Swapped
  }

  predicate Active(job: Job, d: Disk) {
    d.current.Some? && d.current.value.Doc? && d.current.value.pointer.releaseId == job.id
  }

  function WithoutFile(d: Disk, n: DirName, name: Name): Disk
    requires n in d.dirs
  {
    d.(dirs := d.dirs[n := d.dirs[n] - {name}])
  }

  /** Removing a directory takes its files away one after another. */
  ghost predicate Prunes(n: DirName, d: Disk, d': Disk) {
    && n in d.dirs
    && (d' == d.(dirs := d.dirs - {n}) || exists name :: name in d.dirs[n] && d' == WithoutFile(d, n, name))
  }

  ghost predicate Points(c: Codec, job: Job, d: Disk) {
    AllStaged(job) && d.current == Some(Doc(PointerOf(c, job)))
  }

  /** Any failure to read or parse CURRENT counts as "not active", so the directory can always be doomed. */
  ghost predicate Judge(c: Codec, job: Job, d: Disk, ph: Phase, d': Disk, ph': Phase) {
    && d' == d && ph.Undo? && ph.created && ph.look.NotYet?
    && ((Active(job, d) && ph' == Undo(true, Spared)) || ph' == Undo(true, Doomed(Points(c, job, d))))
  }

  /** The clean-up: the temporary pointer, the staging directory, and the new directory if doomed. */
  ghost predicate CleanUp(job: Job, d: Disk, ph: Phase, d': Disk, ph': Phase) {
    && ph.Undo? && ph' == ph
    && (|| d' == d.(temps := d.temps - {job.token})
        || Prunes(Stage(job), d, d')
        || (ph.created && ph.look.Doomed? && Prunes(Target(job), d, d')))
  }

  ghost predicate Next(c: Codec, job: Job, d: Disk, ph: Phase, d': Disk, ph': Phase) {
    || Fails(d, ph, d', ph')
    || Hash(job, d, ph, d', ph')
    || Copy(job, d, ph, d', ph')
    || Rename(job, d, ph, d', ph')
    || (ph.Renamed? && ph' == Placed && d' == d)
    || WriteTemp(c, job, d, ph, d', ph')
    || Swap(job, d, ph, d', ph')
    || (ph.Swapped? && ph' == Done && d' == d)
    || Judge(c, job, d, ph, d', ph')
    || CleanUp(job, d, ph, d', ph')
  }

  // ---------------------------------------------------------------- what every step keeps

  /** CURRENT names a directory that is there and has files. */
  ghost predicate Sound(d: Disk) {
    d.current.Some? && d.current.value.Doc? ==>
      var n := d.current.value.pointer.dir;
      n in d.dirs && d.dirs[n] != map[]
  }

  ghost predicate Untouched(d0: Disk, d: Disk, n: DirName) {
    (n in d.dirs <==> n in d0.dirs) && (n in d.dirs ==> d.dirs[n] == d0.dirs[n])
  }

  ghost predicate Occupied(d0: Disk, n: DirName) {
    n in d0.dirs && d0.dirs[n] != map[]
  }

  /** Every other directory is as it was, and so is the target when it already had files. */
  ghost predicate OthersKept(job: Job, d0: Disk, d: Disk) {
    forall n :: n != Stage(job) && (n != Target(job) || Occupied(d0, n)) ==> Untouched(d0, d, n)
  }

  ghost predicate Complete(job: Job, d: Disk) {
    AllStaged(job) && Target(job) in d.dirs && d.dirs[Target(job)] == Bundle(job)
  }

  ghost predicate NowCurrent(c: Codec, job: Job, d: Disk) {
    Complete(job, d) && d.current == Some(Doc(PointerOf(c, job)))
  }

  ghost predicate CopiedUpTo(job: Job, dir: Dir, k: nat) {
    && AllStaged(job) && k <= |job.names|
    && (forall n :: n in dir ==> n in job.names)
    && (forall i :: 0 <= i < k && (k < |job.names| ==> job.names[i] != job.names[k]) ==>
                      job.names[i] in dir && dir[job.names[i]] == job.staged[job.names[i]])
  }

  ghost predicate PhaseInv(c: Codec, job: Job, d0: Disk, d: Disk, ph: Phase) {
    match ph
    case Hashing => d == d0
    case Copying(k) => d.current == d0.current && Stage(job) in d.dirs && CopiedUpTo(job, d.dirs[Stage(job)], k)
    case Renamed => d.current == d0.current && Complete(job, d)
    case Placed => d.current == d0.current && Complete(job, d)
    case Ready => d.current == d0.current && Complete(job, d) && job.token in d.temps && d.temps[job.token] == Doc(PointerOf(c, job))
    case Swapped => NowCurrent(c, job, d)
    case Done => NowCurrent(c, job, d)
    case Undo(created, Doomed(misread)) => created && if misread then Points(c, job, d) else d.current == d0.current
    case Undo(created, _) => d.current == d0.current || (created && NowCurrent(c, job, d))
    case Dead(misread) => if misread then Points(c, job, d) else d.current == d0.current || NowCurrent(c, job, d)
  }

  ghost predicate PubInv(c: Codec, job: Job, d0: Disk, d: Disk, ph: Phase) {
    && OthersKept(job, d0, d)
    && PhaseInv(c, job, d0, d, ph)
    && (Occupied(d0, Target(job)) ==> !Created(ph) && !ph.Renamed? && !ph.Done? && !Misled(ph) && d.current == d0.current)
  }

  lemma CopyKeeps(job: Job, d: Disk, ph: Phase, d': Disk, ph': Phase)
    requires Copy(job, d, ph, d', ph') && CopiedUpTo(job, d.dirs[Stage(job)], ph.done)
    ensures d'.current == d.current && Stage(job) in d'.dirs && ph'.Copying? && CopiedUpTo(job, d'.dirs[Stage(job)], ph'.done)
    ensures forall n :: n != Stage(job) ==> Untouched(d, d', n)
  {
    var name := job.names[ph.done];
    assert name in job.names;
  }

  lemma CopiedAll(job: Job, dir: Dir)
    requires CopiedUpTo(job, dir, |job.names|)
    ensures dir == Bundle(job)
  {
    assert forall i :: 0 <= i < |job.names| ==> job.names[i] in dir;
    forall n | n in job.names ensures n in dir && dir[n] == job.staged[n] {
      var i :| 0 <= i < |job.names| && job.names[i] == n;
    }
  }

  lemma OthersStay(job: Job, d0: Disk, d: Disk, d': Disk)
    requires OthersKept(job, d0, d)
    requires forall n :: n != Stage(job) && (n != Target(job) || Occupied(d0, n)) ==> Untouched(d, d', n)
    ensures OthersKept(job, d0, d')
  {
    forall n | n != Stage(job) && (n != Target(job) || Occupied(d0, n)) ensures Untouched(d0, d', n) {
      assert Untouched(d0, d, n) && Untouched(d, d', n);
    }
  }

  lemma PruneKeeps(n: DirName, d: Disk, d': Disk)
    requires Prunes(n, d, d')
    ensures d'.current == d.current && forall m :: m != n ==> Untouched(d, d', m)
  {
  }

  lemma HashKeeps(c: Codec, job: Job, d0: Disk, d: Disk, ph: Phase, d': Disk, ph': Phase)
    requires PubInv(c, job, d0, d, ph) && Hash(job, d, ph, d', ph')
    ensures PubInv(c, job, d0, d', ph')
  {
    OthersStay(job, d0, d, d');
  }

  lemma CopyStep(c: Codec, job: Job, d0: Disk, d: Disk, ph: Phase, d': Disk, ph': Phase)
    requires PubInv(c, job, d0, d, ph) && Copy(job, d, ph, d', ph')
    ensures PubInv(c, job, d0, d', ph')
  {
    CopyKeeps(job, d, ph, d', ph');
    OthersStay(job, d0, d, d');
  }

  lemma RenameKeeps(c: Codec, job: Job, d0: Disk, d: Disk, ph: Phase, d': Disk, ph': Phase)
    requires PubInv(c, job, d0, d, ph) && Rename(job, d, ph, d', ph')
    ensures PubInv(c, job, d0, d', ph')
  {
    CopiedAll(job, d.dirs[Stage(job)]);
    assert Untouched(d0, d, Target(job)) || !Occupied(d0, Target(job));
    assert !Occupied(d0, Target(job));
    OthersStay(job, d0, d, d');
  }

  lemma CleanUpKeeps(c: Codec, job: Job, d0: Disk, d: Disk, ph: Phase, d': Disk, ph': Phase)
    requires PubInv(c, job, d0, d, ph) && CleanUp(job, d, ph, d', ph')
    ensures PubInv(c, job, d0, d', ph')
  {
    if Prunes(Stage(job), d, d') {
      PruneKeeps(Stage(job), d, d');
      assert Untouched(d, d', Target(job));
    }
    if ph.created && ph.look.Doomed? && Prunes(Target(job), d, d') {
      PruneKeeps(Target(job), d, d');
    }
    OthersStay(job, d0, d, d');
  }

  lemma OtherStepsKeep(c: Codec, job: Job, d0: Disk, d: Disk, ph: Phase, d': Disk, ph': Phase)
    requires PubInv(c, job, d0, d, ph)
    requires Fails(d, ph, d', ph') || (ph.Renamed? && ph' == Placed && d' == d) || WriteTemp(c, job, d, ph, d', ph')
             || Swap(job, d, ph, d', ph') || (ph.Swapped? && ph' == Done && d' == d) || Judge(c, job, d, ph, d', ph')
    ensures PubInv(c, job, d0, d', ph')
  {
    OthersStay(job, d0, d, d');
  }

  lemma NextKeeps(c: Codec, job: Job, d0: Disk, d: Disk, ph: Phase, d': Disk, ph': Phase)
    requires PubInv(c, job, d0, d, ph) && Next(c, job, d, ph, d', ph')
    ensures PubInv(c, job, d0, d', ph')
  {
    hide PubInv, Hash, Copy, Rename, CleanUp, Fails, WriteTemp, Swap, Judge;
    if Hash(job, d, ph, d', ph') {
      HashKeeps(c, job, d0, d, ph, d', ph');
    } else if Copy(job, d, ph, d', ph') {
      CopyStep(c, job, d0, d, ph, d', ph');
    } else if Rename(job, d, ph, d', ph') {
      RenameKeeps(c, job, d0, d, ph, d', ph');
    } else if CleanUp(job, d, ph, d', ph') {
      CleanUpKeeps(c, job, d0, d, ph, d', ph');
    } else {
      OtherStepsKeep(c, job, d0, d, ph, d', ph');
    }
  }

  // ---------------------------------------------------------------- old or new, never a mixture

  /** What a reader gets once the job is published. */
  function NewRelease(c: Codec, job: Job, requireApproved: bool): Result<Resolved>
    requires AllStaged(job)
  {
    var p := PointerOf(c, job);
    var d := Disk(map[Target(job) := Bundle(job)], Some(Doc(p)), map[]);
    Resolve(c, d, requireApproved)
  }

  /** At every point of a publication, whatever failed, a reader gets the complete old release or
      the complete new one, unless a clean-up was misled. */
  lemma OldOrNew(c: Codec, job: Job, d0: Disk, d: Disk, ph: Phase, requireApproved: bool)
    requires PubInv(c, job, d0, d, ph) && Sound(d0) && Stage(job) !in d0.dirs && !Misled(ph)
    ensures || (d.current == d0.current && Resolve(c, d, requireApproved) == Resolve(c, d0, requireApproved))
            || (NowCurrent(c, job, d) && Resolve(c, d, requireApproved) == NewRelease(c, job, requireApproved))
    ensures ph.Hashing? || ph.Copying? || ph.Renamed? || ph.Placed? || ph.Ready? ==> d.current == d0.current
    ensures ph.Swapped? || ph.Done? ==> NowCurrent(c, job, d)
  {
    hide Resolve;
    if d.current == d0.current {
      if d.current.Some? && d.current.value.Doc? {
        var n := d.current.value.pointer.dir;
        assert Occupied(d0, n) && Untouched(d0, d, n);
      }
      ResolveDependsOn(c, d, d0, requireApproved);
    } else {
      assert NowCurrent(c, job, d);
      var alone := Disk(map[Target(job) := Bundle(job)], Some(Doc(PointerOf(c, job))), map[]);
      ResolveDependsOn(c, d, alone, requireApproved);
    }
  }
}
