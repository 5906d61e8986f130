/** The publisher itself: its file-system calls in order, and its clean-up when one of them raises. */
module Publisher {
  import opened Options
  import opened Release
  import opened Publish
  import opened PublishRuns

  datatype Moment = Moment(disk: Disk, phase: Phase)

  /** Consecutive moments are single steps. */
  ghost predicate Trace(c: Codec, job: Job, t: seq<Moment>) {
    t != [] && forall i :: 0 <= i < |t| - 1 ==> Next(c, job, t[i].disk, t[i].phase, t[i + 1].disk, t[i + 1].phase)
  }

  ghost predicate Between(c: Codec, job: Job, t: seq<Moment>, first: Moment, last: Moment) {
    Trace(c, job, t) && t[0] == first && t[|t| - 1] == last
  }

  lemma Extend(c: Codec, job: Job, t: seq<Moment>, first: Moment, last: Moment, m: Moment)
    requires Between(c, job, t, first, last) && Next(c, job, last.disk, last.phase, m.disk, m.phase)
    ensures Between(c, job, t + [m], first, m)
  {
    hide Next;
    var u := t + [m];
    forall i | 0 <= i < |u| - 1 ensures Next(c, job, u[i].disk, u[i].phase, u[i + 1].disk, u[i + 1].phase) {
      if i < |t| - 1 {
        assert Next(c, job, t[i].disk, t[i].phase, t[i + 1].disk, t[i + 1].phase);
      }
    }
  }

  /** Every moment of a publication satisfies the invariant. */
  lemma {:induction false} TraceInv(c: Codec, job: Job, t: seq<Moment>, i: nat)
    requires Trace(c, job, t) && i < |t| && t[0].phase == Hashing && Stage(job) !in t[0].disk.dirs
    ensures PubInv(c, job, t[0].disk, t[i].disk, t[i].phase)
  {
    hide Next;
    if i > 0 {
      TraceInv(c, job, t, i - 1);
      assert Next(c, job, t[i - 1].disk, t[i - 1].phase, t[i - 1 + 1].disk, t[i - 1 + 1].phase);
      hide PubInv;
      NextKeeps(c, job, t[0].disk, t[i - 1].disk, t[i - 1].phase, t[i].disk, t[i].phase);
    }
  }

  /** The number of steps after which each phase is reached. */
  function Steps(job: Job, ph: Phase): nat {
    match ph
    case Hashing => 0
    case Copying(k) => 1 + k
    case Renamed => 2 + |job.names|
    case Placed => 3 + |job.names|
    case Ready => 4 + |job.names|
    case Swapped => 5 + |job.names|
    case _ => 6 + |job.names|
  }

  predicate Free(d: Disk, n: DirName) {
    n in d.dirs ==> d.dirs[n] == map[]
  }

  lemma HashIsNext(c: Codec, job: Job, d: Disk)
    requires AllStaged(job) && Stage(job) !in d.dirs
    ensures Next(c, job, d, Hashing, d.(dirs := d.dirs[Stage(job) := map[]]), Copying(0))
  {
  }

  lemma CopyIsNext(c: Codec, job: Job, d: Disk, k: nat)
    requires AllStaged(job) && Stage(job) in d.dirs && k < |job.names|
    ensures job.names[k] in job.staged
    ensures Next(c, job, d, Copying(k), WithFile(d, Stage(job), job.names[k], job.staged[job.names[k]]), Copying(k + 1))
  {
    var name := job.names[k];
    assert name in job.names;
    assert Copy(job, d, Copying(k), WithFile(d, Stage(job), name, job.staged[name]), Copying(k + 1));
  }

  lemma RenameIsNext(c: Codec, job: Job, d: Disk)
    requires Stage(job) in d.dirs && Free(d, Target(job))
    ensures Next(c, job, d, Copying(|job.names|), d.(dirs := (d.dirs - {Stage(job)})[Target(job) := d.dirs[Stage(job)]]), Renamed)
  {
  }

  lemma NoteIsNext(c: Codec, job: Job, d: Disk)
    ensures Next(c, job, d, Renamed, d, Placed) && Next(c, job, d, Swapped, d, Done)
  {
  }

  lemma TempIsNext(c: Codec, job: Job, d: Disk)
    requires AllStaged(job)
    ensures Next(c, job, d, Placed, WithTemp(d, job.token, Doc(PointerOf(c, job))), Ready)
  {
    assert WriteTemp(c, job, d, Placed, WithTemp(d, job.token, Doc(PointerOf(c, job))), Ready);
  }

  lemma SwapIsNext(c: Codec, job: Job, d: Disk)
    requires job.token in d.temps
    ensures Next(c, job, d, Ready, d.(current := Some(d.temps[job.token]), temps := d.temps - {job.token}), Swapped)
  {
  }

  lemma FailIsNext(c: Codec, job: Job, d: Disk, ph: Phase)
    requires !ph.Done? && !ph.Dead?
    ensures Next(c, job, d, ph, d, Dead(Misled(ph))) && (!ph.Undo? ==> Next(c, job, d, ph, d, Undo(Created(ph), NotYet)))
  {
  }

  lemma CleanIsNext(c: Codec, job: Job, d: Disk, d': Disk, ph: Phase)
    requires CleanUp(job, d, ph, d', ph)
    ensures Next(c, job, d, ph, d', ph)
  {
  }

  lemma JudgeIsNext(c: Codec, job: Job, d: Disk, look: Look)
    requires (look == Spared && Active(job, d)) || look == Doomed(Points(c, job, d))
    ensures Next(c, job, d, Undo(true, NotYet), d, Undo(true, look))
  {
  }

  lemma InvNow(c: Codec, job: Job, t: seq<Moment>, first: Disk, d: Disk, ph: Phase)
    requires Between(c, job, t, Moment(first, Hashing), Moment(d, ph)) && Stage(job) !in first.dirs
    ensures PubInv(c, job, first, d, ph)
  {
    TraceInv(c, job, t, |t| - 1);
  }

  /** A clean-up of everything the job made puts the disk back as it was. */
  lemma Restored(c: Codec, job: Job, first: Disk, d: Disk, ph: Phase, d': Disk)
    requires PubInv(c, job, first, d, ph) && Stage(job) !in first.dirs && Target(job) !in first.dirs
    requires d'.current == first.current && d'.temps == first.temps
    requires ph.Hashing? || ph.Copying? || ph.Placed? || ph.Ready?
    requires ph.Copying? ==> Untouched(first, d, Target(job))
    requires d'.dirs == d.dirs - {Stage(job)} - if Created(ph) then {Target(job)} else {}
    ensures d' == first
  {
    forall n ensures (n in d'.dirs <==> n in first.dirs) && (n in d'.dirs ==> d'.dirs[n] == first.dirs[n]) {
      if n != Stage(job) && n != Target(job) {
        assert Untouched(first, d, n);
      }
    }
    assert d'.dirs == first.dirs;
  }

  /** What the clean-up leaves of CURRENT and of the directory it names. */
  lemma Outcome(c: Codec, job: Job, first: Disk, mid: Disk, ph: Phase, readable: bool, last: Disk)
    requires PubInv(c, job, first, mid, ph) && !ph.Undo? && !ph.Dead? && !ph.Done?
    requires last.current == mid.current
    requires last.dirs == mid.dirs - {Stage(job)} - if Created(ph) && !(readable && Active(job, mid)) then {Target(job)} else {}
    ensures ph.Swapped? ==> Points(c, job, last) && Points(c, job, mid) && Active(job, mid) && Target(job) in mid.dirs
    ensures ph.Swapped? && readable ==> NowCurrent(c, job, last)
    ensures ph.Swapped? && !readable ==> Target(job) !in last.dirs
    ensures !ph.Swapped? ==> last.current == first.current
  {
  }

  /** A directory that was renamed but not yet noted survives the clean-up. */
  lemma OrphanStays(c: Codec, job: Job, first: Disk, mid: Disk, last: Disk)
    requires PubInv(c, job, first, mid, Renamed)
    requires last.current == mid.current && last.dirs == mid.dirs - {Stage(job)}
    ensures Complete(job, last) && last.current == first.current
  {
  }

  lemma DoneMeansPublished(c: Codec, job: Job, first: Disk, d: Disk)
    requires PubInv(c, job, first, d, Done)
    ensures NowCurrent(c, job, d)
  {
  }

  lemma SamePointer(c: Codec, job: Job, d: Disk, e: Disk)
    requires d.current == e.current
    ensures Points(c, job, d) == Points(c, job, e)
  {
  }

  /** Before the swap CURRENT does not point to the new directory. */
  lemma NotYetPointing(c: Codec, job: Job, first: Disk, d: Disk, ph: Phase)
    requires PubInv(c, job, first, d, ph)
    ensures Sound(first) && (ph.Placed? || ph.Ready?) ==> !Points(c, job, d)
  {
  }

  /** Where the directory CURRENT names has gone, CURRENT dangles; otherwise it does not. */
  lemma SoundUnlessMisled(c: Codec, job: Job, first: Disk, d: Disk, ph: Phase)
    requires PubInv(c, job, first, d, ph) && Sound(first) && Stage(job) !in first.dirs && job.names != []
    ensures !Misled(ph) ==> Sound(d)
    ensures Points(c, job, d) && Target(job) !in d.dirs ==> !Sound(d)
  {
    if !Misled(ph) {
      CurrentNeverDangles(c, Sys(d, first, job, ph));
    }
  }

  /** It happens: from any state right after the swap, an exception and an unreadable CURRENT lead to a
      pointer to a directory that is gone. */
  lemma MisreadDangles(c: Codec, job: Job, first: Disk, d: Disk) returns (t: seq<Moment>, end: Disk)
    requires PubInv(c, job, first, d, Swapped)
    ensures Between(c, job, t, Moment(d, Swapped), Moment(end, Dead(true)))
    ensures Points(c, job, end) && Target(job) !in end.dirs && !Sound(end)
  {
    end := d.(dirs := d.dirs - {Target(job)});
    var m0, m1, m2, m3, m4 := Moment(d, Swapped), Moment(d, Undo(true, NotYet)), Moment(d, Undo(true, Doomed(true))),
                              Moment(end, Undo(true, Doomed(true))), Moment(end, Dead(true));
    FailIsNext(c, job, d, Swapped);
    JudgeIsNext(c, job, d, Doomed(true));
    CleanIsNext(c, job, d, end, m2.phase);
    FailIsNext(c, job, end, m3.phase);
    hide Next;
    Extend(c, job, [m0], m0, m0, m1);
    Extend(c, job, [m0] + [m1], m0, m1, m2);
    Extend(c, job, [m0] + [m1] + [m2], m0, m2, m3);
    Extend(c, job, [m0] + [m1] + [m2] + [m3], m0, m3, m4);
    t := [m0] + [m1] + [m2] + [m3] + [m4];
  }

  class Files {
    var dirs: map<DirName, Dir>
    var current: Option<PointerFile>
    var temps: map<string, PointerFile>

    function Now(): Disk
      reads this
    {
      Disk(dirs, current, temps)
    }

    /** The steps up to the one that raises, or all of them. */
    method Attempt(c: Codec, job: Job, failAt: nat) returns (ph: Phase, ghost t: seq<Moment>)
      requires Stage(job) !in dirs
      modifies this
      ensures Between(c, job, t, Moment(old(Now()), Hashing), Moment(Now(), ph))
      ensures ph == Done <==> AllStaged(job) && Free(old(Now()), Target(job)) && failAt >= 6 + |job.names|
      ensures temps - {job.token} == old(temps) - {job.token}
      ensures ph.Copying? ==> ph.done <= |job.names| && Untouched(old(Now()), Now(), Target(job))
      ensures (AllStaged(job) && Free(old(Now()), Target(job))) || ph.Hashing? || ph.Copying?
      ensures !ph.Undo? && !ph.Dead? && (AllStaged(job) && Free(old(Now()), Target(job)) && ph != Done ==> Steps(job, ph) == failAt)
    {
      hide Next;
      ghost var start := Moment(Now(), Hashing);
      ghost var free := Free(Now(), Target(job));
      t := [start];
      ph := Hashing;
      if failAt == 0 || !AllStaged(job) {
        return;
      }
      ghost var before := Now();
      dirs := dirs[Stage(job) := map[]];
      ph := Copying(0);
      HashIsNext(c, job, before);
      Extend(c, job, t, start, Moment(before, Hashing), Moment(Now(), ph));
      t := t + [Moment(Now(), ph)];
      var done;
      done, t := CopyAll(c, job, failAt, start, t);
      ph := Copying(done);
      if done < |job.names| {
        return;
      }
      if failAt == 1 + |job.names| || !Free(Now(), Target(job)) {
        return;
      }
      before := Now();
      dirs := (dirs - {Stage(job)})[Target(job) := dirs[Stage(job)]];
      RenameIsNext(c, job, before);
      Extend(c, job, t, start, Moment(before, ph), Moment(Now(), Renamed));
      ph := Renamed;
      t := t + [Moment(Now(), ph)];
      if failAt == 2 + |job.names| {
        return;
      }
      ghost var rest;
      ph, rest := Point(c, job, failAt, start, t);
      t := rest;
    }

    /** The artifacts are copied one by one. */
    method CopyAll(c: Codec, job: Job, failAt: nat, ghost start: Moment, ghost t0: seq<Moment>) returns (done: nat, ghost t: seq<Moment>)
      requires AllStaged(job) && failAt > 0 && Stage(job) in dirs && Between(c, job, t0, start, Moment(Now(), Copying(0)))
      modifies this`dirs
      ensures done <= |job.names| && Stage(job) in dirs && Untouched(old(Now()), Now(), Target(job))
      ensures if done < |job.names| then failAt == 1 + done else failAt >= 1 + |job.names|
      ensures Between(c, job, t, start, Moment(Now(), Copying(done)))
    {
      hide Next, Between;
      t := t0;
      for k := 0 to |job.names|
        invariant failAt >= 1 + k && Stage(job) in dirs && Untouched(old(Now()), Now(), Target(job))
        invariant Between(c, job, t, start, Moment(Now(), Copying(k)))
      {
        if failAt == 1 + k {
          return k, t;
        }
        ghost var before := Now();
        var name := job.names[k];
        CopyIsNext(c, job, before, k);
        dirs := dirs[Stage(job) := dirs[Stage(job)][name := job.staged[name]]];
        Extend(c, job, t, start, Moment(before, Copying(k)), Moment(Now(), Copying(k + 1)));
        t := t + [Moment(Now(), Copying(k + 1))];
      }
      done := |job.names|;
    }

    /** The second half: the pointer file and the swap. */
    method Point(c: Codec, job: Job, failAt: nat, ghost start: Moment, ghost t0: seq<Moment>) returns (ph: Phase, ghost t: seq<Moment>)
      requires AllStaged(job) && failAt > 2 + |job.names| && Between(c, job, t0, start, Moment(Now(), Renamed))
      modifies this`current, this`temps
      ensures Between(c, job, t, start, Moment(Now(), ph))
      ensures temps - {job.token} == old(temps) - {job.token}
      ensures ph == Done || ph == Placed || ph == Ready || ph == Swapped
      ensures if ph == Done then failAt >= 6 + |job.names| else Steps(job, ph) == failAt
    {
      hide Next;
      ghost var before := Now();
      NoteIsNext(c, job, before);
      Extend(c, job, t0, start, Moment(before, Renamed), Moment(before, Placed));
      t := t0 + [Moment(before, Placed)];
      ph := Placed;
      if failAt == 3 + |job.names| {
        return;
      }
      var pointer := Doc(PointerOf(c, job));
      temps := temps[job.token := pointer];
      TempIsNext(c, job, before);
      Extend(c, job, t, start, Moment(before, Placed), Moment(Now(), Ready));
      t := t + [Moment(Now(), Ready)];
      ph := Ready;
      if failAt == 4 + |job.names| {
        return;
      }
      before := Now();
      current := Some(temps[job.token]);
      temps := temps - {job.token};
      SwapIsNext(c, job, before);
      Extend(c, job, t, start, Moment(before, Ready), Moment(Now(), Swapped));
      t := t + [Moment(Now(), Swapped)];
      ph := Swapped;
      if failAt == 5 + |job.names| {
        return;
      }
      NoteIsNext(c, job, Now());
      Extend(c, job, t, start, Moment(Now(), Swapped), Moment(Now(), Done));
      t := t + [Moment(Now(), Done)];
      ph := Done;
    }

    /** The clean-up after an exception. When CURRENT cannot be read, the new directory counts as
        unreferenced. */
    method RollBack(c: Codec, job: Job, created: bool, readable: bool, ghost start: Moment, ghost t0: seq<Moment>)
      returns (ghost misread: bool, ghost t: seq<Moment>)
      requires Between(c, job, t0, start, Moment(Now(), Undo(created, NotYet)))
      modifies this`dirs, this`temps
      ensures Between(c, job, t, start, Moment(Now(), Dead(misread)))
      ensures temps == old(temps) - {job.token}
      ensures dirs == old(dirs) - {Stage(job)} - if created && !(readable && Active(job, old(Now()))) then {Target(job)} else {}
      ensures misread <==> created && Target(job) in old(dirs) && !(readable && Active(job, old(Now()))) && Points(c, job, old(Now()))
    {
      hide Next, Points;
      ghost var ph := Undo(created, NotYet);
      ghost var before := Now();
      temps := temps - {job.token};
      CleanIsNext(c, job, before, Now(), ph);
      Extend(c, job, t0, start, Moment(before, ph), Moment(Now(), ph));
      t := t0 + [Moment(Now(), ph)];
      if Stage(job) in dirs {
        before := Now();
        dirs := dirs - {Stage(job)};
        CleanIsNext(c, job, before, Now(), ph);
        Extend(c, job, t, start, Moment(before, ph), Moment(Now(), ph));
        t := t + [Moment(Now(), ph)];
      }
      misread := false;
      if created && Target(job) in dirs {
        var active := readable && Active(job, Now());
        assert Points(c, job, Now()) == Points(c, job, old(Now())) by { SamePointer(c, job, Now(), old(Now())); }
        misread := !active && Points(c, job, Now());
        ghost var look := if active then Spared else Doomed(Points(c, job, Now()));
        JudgeIsNext(c, job, Now(), look);
        Extend(c, job, t, start, Moment(Now(), ph), Moment(Now(), Undo(true, look)));
        ph := Undo(true, look);
        t := t + [Moment(Now(), ph)];
        if !active {
          before := Now();
          dirs := dirs - {Target(job)};
          CleanIsNext(c, job, before, Now(), ph);
          Extend(c, job, t, start, Moment(before, ph), Moment(Now(), ph));
          t := t + [Moment(Now(), ph)];
        }
      }
      FailIsNext(c, job, Now(), ph);
      Extend(c, job, t, start, Moment(Now(), ph), Moment(Now(), Dead(misread)));
      t := t + [Moment(Now(), Dead(misread))];
    }

    /** Publishes, or raises at step `failAt` and cleans up. Every disk on the way is a state of the
        step system. The directory CURRENT names survives exactly when the swap had not happened or the
        clean-up could read CURRENT. */
    method Publish(c: Codec, job: Job, failAt: nat, readable: bool) returns (ok: bool, ghost misread: bool, ghost t: seq<Moment>)
      requires Stage(job) !in dirs && job.token !in temps
      modifies this
      ensures Between(c, job, t, Moment(old(Now()), Hashing), Moment(Now(), if ok then Done else Dead(misread)))
      ensures ok <==> AllStaged(job) && Free(old(Now()), Target(job)) && failAt >= 6 + |job.names|
      ensures ok ==> NowCurrent(c, job, Now())
      ensures var swapped := AllStaged(job) && Free(old(Now()), Target(job)) && failAt == 5 + |job.names|;
              && (Sound(old(Now())) ==> (misread <==> swapped && !readable))
              && (swapped ==> Points(c, job, Now()) && if readable then NowCurrent(c, job, Now()) else Target(job) !in dirs)
              && (!ok && !swapped ==> current == old(current))
              && (Sound(old(Now())) && job.names != [] ==> (Sound(Now()) <==> !(swapped && !readable)))
      ensures var unnoted := AllStaged(job) && failAt == 2 + |job.names|;
              !ok && failAt < 5 + |job.names| && Target(job) !in old(dirs) && !(readable && Active(job, old(Now()))) && !unnoted ==> Now() == old(Now())
      ensures AllStaged(job) && Free(old(Now()), Target(job)) && failAt == 2 + |job.names| ==> !ok && current == old(current) && Complete(job, Now())
    {
      hide Next, PubInv, Trace, Complete, Sound, Points;
      ghost var start := Moment(Now(), Hashing);
      var ph;
      ph, t := Attempt(c, job, failAt);
      InvNow(c, job, t, start.disk, Now(), ph);
      ok := ph == Done;
      misread := false;
      if !ok {
        ghost var mid := Now();
        FailIsNext(c, job, mid, ph);
        Extend(c, job, t, start, Moment(mid, ph), Moment(mid, Undo(Created(ph), NotYet)));
        t := t + [Moment(mid, Undo(Created(ph), NotYet))];
        misread, t := RollBack(c, job, Created(ph), readable, start, t);
        Outcome(c, job, start.disk, mid, ph, readable, Now());
        NotYetPointing(c, job, start.disk, mid, ph);
        InvNow(c, job, t, start.disk, Now(), Dead(misread));
        if !ph.Swapped? && !ph.Renamed? && Target(job) !in start.disk.dirs && !(readable && Active(job, start.disk)) {
          Restored(c, job, start.disk, mid, ph, Now());
        }
        if ph.Renamed? {
          OrphanStays(c, job, start.disk, mid, Now());
        }
      } else {
        DoneMeansPublished(c, job, start.disk, Now());
      }
      if Sound(start.disk) && job.names != [] {
        SoundUnlessMisled(c, job, start.disk, Now(), if ok then Done else Dead(misread));
      }
    }
  }
}
