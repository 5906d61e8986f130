/** Publish, resolve and promote agree: what is staged is what is read back, and a promoted candidate
    is an approved release with the same gold bytes. */
module Promote {
  import opened Options
  import opened Release
  import opened Publish
  import opened PublishRuns
  import opened Publisher

  // ---------------------------------------------------------------- publish, then resolve

  /** The staged files agree with the digests and the stage the job announces. */
  ghost predicate WellStaged(c: Codec, job: Job) {
    && AllStaged(job)
    && (forall n :: n in Expected(job.stage) ==> n in job.names)
    && Announced(c, job)
  }

  ghost predicate Announced(c: Codec, job: Job) {
    && Gold in job.staged && Manifest in job.staged && Judgment in job.staged
    && job.gold == c.sha(job.staged[Gold]) && job.manifest == c.sha(job.staged[Manifest])
    && c.parse(job.staged[Manifest]).Some?
    && var m := c.parse(job.staged[Manifest]).value;
       && m.sha == Some(job.gold)
       && Or(m.stage, "candidate") == job.stage && Or(m.accepted, false) == job.accepted
       && m.judgmentRef == Some(Judgment) && m.judgmentSha == Some(c.sha(job.staged[Judgment]))
       && (job.stage == "approved" ==>
             && m.auditRef == Some(Audit) && Audit in job.staged && m.auditSha == Some(c.sha(job.staged[Audit]))
             && (Truthy(job.candidate) ==> m.candidate == job.candidate))
  }

  lemma CheckOwn(c: Codec, job: Job, n: Name)
    requires AllStaged(job) && Sensible(c)
    ensures n in job.names ==> n in job.staged
    ensures CheckOne(c, PointerOf(c, job), ReadIn(Disk(map[Target(job) := Bundle(job)], None, map[]), Target(job)), n)
            == if n in job.names then Ok(job.staged[n]) else Err(NoEntry(n))
  {
  }

  /** A published job resolves exactly when its staged files were consistent. */
  lemma ResolvesIffWellStaged(c: Codec, job: Job, requireApproved: bool)
    requires AllStaged(job) && Sensible(c)
    ensures var r := NewRelease(c, job, requireApproved);
            r.Ok? <==> WellStaged(c, job) && (requireApproved ==> job.stage == "approved" && job.accepted)
  {
    hide CheckOne, CheckAll;
    var p := PointerOf(c, job);
    var read := ReadIn(Disk(map[Target(job) := Bundle(job)], None, map[]), Target(job));
    var read' := ReadIn(Disk(map[Target(job) := Bundle(job)], Some(Doc(p)), map[]), Target(job));
    CheckReads(c, p, requireApproved, true, read', read', read, read);
    CheckAllOk(c, p, read, Expected(job.stage));
    ExpectedNames(job.stage);
    forall n ensures CheckOne(c, p, read, n).Ok? <==> n in job.names {
      CheckOwn(c, job, n);
    }
    AllExpected(c, job, read);
  }

  lemma AllExpected(c: Codec, job: Job, read: Name -> Option<Bytes>)
    requires AllStaged(job) && forall n :: CheckOne(c, PointerOf(c, job), read, n).Ok? <==> n in job.names
    ensures CheckAll(c, PointerOf(c, job), read, Expected(job.stage)).Ok? <==> forall n :: n in Expected(job.stage) ==> n in job.names
  {
    hide CheckOne;
    CheckAllOk(c, PointerOf(c, job), read, Expected(job.stage));
  }

  /** And it yields exactly the staged bytes of every artifact, with the announced facts. */
  lemma PublishResolveRoundTrip(c: Codec, job: Job, requireApproved: bool)
    requires Sensible(c) && WellStaged(c, job) && (requireApproved ==> job.stage == "approved" && job.accepted)
    ensures var r := NewRelease(c, job, requireApproved);
            && r.Ok?
            && r.value.releaseId == job.id && r.value.dir == Target(job)
            && r.value.stage == job.stage && r.value.accepted == job.accepted && r.value.candidate == job.candidate
            && r.value.rowCount == job.rowCount
            && (forall n :: n in r.value.files <==> n in Expected(job.stage))
            && (forall n :: n in Expected(job.stage) ==> r.value.files[n] == job.staged[n])
            && Some(r.value.manifest) == c.parse(job.staged[Manifest])
  {
    hide CheckOne, CheckAll;
    ResolvesIffWellStaged(c, job, requireApproved);
    var p := PointerOf(c, job);
    var read' := ReadIn(Disk(map[Target(job) := Bundle(job)], Some(Doc(p)), map[]), Target(job));
    var read := ReadIn(Disk(map[Target(job) := Bundle(job)], None, map[]), Target(job));
    CheckAllReads(c, p, read', read, Expected(job.stage));
    CheckAllOk(c, p, read, Expected(job.stage));
    ExpectedNames(job.stage);
    forall n | n in Expected(job.stage) ensures CheckOne(c, p, read, n) == Ok(job.staged[n]) {
      CheckOwn(c, job, n);
    }
  }

  // ---------------------------------------------------------------- promoting a candidate

  datatype PromoteError =
    | Unresolved(error: Error) | NoCandidate | NoManifest | BadManifest | NoGoldDigest | NoGold | GoldMismatch
    | ArtifactGone(name: Name) | NoAudit | AuditRejected

  datatype Promotion = Promoted(job: Job) | Refused(error: PromoteError)

  /** What the promotion takes as given: the audit's validation against the gold rows, the row count,
      the clock's part of the release id, and the text of the manifest's other fields. */
  datatype Given = Given(accepts: (Bytes, Bytes) -> bool, rows: Bytes -> nat, base: Digest -> string, token: string, rest: string -> string)

  function Dataset(): seq<Name> {
    [Gold, Components, Assignment, AntiLeakAudit, Judgment]
  }

  function ApprovedManifest(c: Codec, m: ManifestDoc, id: string, audit: Bytes, g: Given): ManifestDoc {
    m.(stage := Some("approved"), accepted := Some(true), candidate := Some(id), auditRef := Some(Audit), auditSha := Some(c.sha(audit)), rest := g.rest(m.rest))
  }

  predicate HasDataset(dir: Dir) {
    forall n :: n in Dataset() ==> n in dir
  }

  function FirstMissing(dir: Dir, names: seq<Name>): (r: Option<Name>)
    ensures r.None? <==> forall n :: n in names ==> n in dir
  {
    if names == [] then None
    else if names[0] !in dir then Some(names[0])
    else
      assert names == [names[0]] + names[1..];
      FirstMissing(dir, names[1..])
  }

  /** The release a promotion stages: the candidate's dataset, the audit, and a new manifest. */
  function ApprovedJob(c: Codec, d: Disk, id: string, dir: Dir, m: ManifestDoc, audit: Bytes, g: Given): (job: Job)
    requires HasDataset(dir)
  {
    var bytes := c.render(ApprovedManifest(c, m, id, audit, g));
    var staged := (map n | n in Dataset() :: dir[n])[Audit := audit][Manifest := bytes];
    Job(PickId(d, g.base(c.sha(bytes)), g.token), g.token, staged, Dataset() + [Audit, Manifest],
        Or(m.sha, ""), c.sha(bytes), g.rows(staged[Gold]), "approved", true, Some(id))
  }

  function PromoteFrom(c: Codec, d: Disk, id: string, dir: Dir, audit: Option<Bytes>, g: Given): (r: Promotion) {
    if Manifest !in dir then Refused(NoManifest)
    else if c.parse(dir[Manifest]).None? then Refused(BadManifest)
    else
      var m := c.parse(dir[Manifest]).value;
      if !Truthy(m.sha) then Refused(NoGoldDigest)
      else if Gold !in dir then Refused(NoGold)
      else if c.sha(dir[Gold]) != m.sha.value then Refused(GoldMismatch)
      else
        var missing := FirstMissing(dir, Dataset());
        if missing.Some? then Refused(ArtifactGone(missing.value))
        else if audit.None? then Refused(NoAudit)
        else if !g.accepts(audit.value, dir[Gold]) then Refused(AuditRejected)
        else Promoted(ApprovedJob(c, d, id, dir, m, audit.value, g))
  }

  /** The candidate is the one named, or the one CURRENT resolves to. */
  function PromoteRelease(c: Codec, d: Disk, candidate: Option<string>, audit: Option<Bytes>, g: Given): (r: Promotion) {
    match candidate
    case Some(id) => if Published(id) !in d.dirs then Refused(NoCandidate) else PromoteFrom(c, d, id, d.dirs[Published(id)], audit, g)
    case None =>
      var now := Resolve(c, d, false);
      if now.Err? then Refused(Unresolved(now.error))
      else if now.value.dir !in d.dirs then Refused(NoCandidate)
      else PromoteFrom(c, d, now.value.releaseId, d.dirs[now.value.dir], audit, g)
  }

  /** The judgment the candidate's own manifest vouches for. */
  ghost predicate JudgmentVouched(c: Codec, dir: Dir) {
    && Manifest in dir && Judgment in dir && c.parse(dir[Manifest]).Some?
    && var m := c.parse(dir[Manifest]).value;
       m.judgmentRef == Some(Judgment) && m.judgmentSha == Some(c.sha(dir[Judgment]))
  }

  lemma ApprovedStaged(c: Codec, d: Disk, id: string, dir: Dir, m: ManifestDoc, audit: Bytes, g: Given)
    requires HasDataset(dir)
    ensures var job := ApprovedJob(c, d, id, dir, m, audit, g);
            && AllStaged(job)
            && (forall n :: n in Expected("approved") ==> n in job.names)
            && Gold in dir && Judgment in dir && Gold in job.staged && job.staged[Gold] == dir[Gold]
            && Judgment in job.staged && job.staged[Judgment] == dir[Judgment]
            && Audit in job.staged && job.staged[Audit] == audit
            && Manifest in job.staged && job.staged[Manifest] == c.render(ApprovedManifest(c, m, id, audit, g))
  {
    var job := ApprovedJob(c, d, id, dir, m, audit, g);
    var all := Expected("approved");
    assert Dataset()[0] == Gold && Dataset()[4] == Judgment;
    assert job.names == Dataset() + [Audit, Manifest];
    assert all == [Gold, Components, Assignment, AntiLeakAudit, Judgment] + [Audit, Manifest];
  }

  /** The promotion checks the gold rows itself but takes the judgment file on trust: what it
      publishes resolves as an approved release exactly when the candidate's manifest vouches for
      the judgment. */
  lemma PromotedResolvesIff(c: Codec, d: Disk, id: string, dir: Dir, audit: Option<Bytes>, g: Given)
    requires Sensible(c) && PromoteFrom(c, d, id, dir, audit, g).Promoted?
    ensures var job := PromoteFrom(c, d, id, dir, audit, g).job;
            AllStaged(job) && (NewRelease(c, job, true).Ok? <==> JudgmentVouched(c, dir))
  {
    hide NewRelease;
    var m := c.parse(dir[Manifest]).value;
    assert HasDataset(dir);
    ApprovedStaged(c, d, id, dir, m, audit.value, g);
    var job := PromoteFrom(c, d, id, dir, audit, g).job;
    ResolvesIffWellStaged(c, job, true);
    assert c.parse(job.staged[Manifest]) == Some(ApprovedManifest(c, m, id, audit.value, g));
    assert WellStaged(c, job) <==> JudgmentVouched(c, dir) by {
      hide AllStaged;
    }
  }

  /** The files a directory holds under the artifacts' own names are a complete dataset with the given
      gold bytes, and the manifest among them vouches for gold and judgment. */
  ghost predicate OwnFiles(c: Codec, dir: Dir, gold: Bytes) {
    && HasDataset(dir) && Gold in dir && dir[Gold] == gold && JudgmentVouched(c, dir)
    && c.parse(dir[Manifest]).value.sha == Some(c.sha(gold)) && c.sha(gold) != ""
  }

  /** Where CURRENT lists artifacts under their own names, what resolves is what lies there. */
  lemma ResolvedOwnFiles(c: Codec, d: Disk)
    requires Resolve(c, d, false).Ok? && PlainPaths(d.current.value.pointer)
    ensures var r := Resolve(c, d, false).value; r.dir in d.dirs && Gold in r.files && OwnFiles(c, d.dirs[r.dir], r.files[Gold])
  {
    var p := d.current.value.pointer;
    var r := Resolve(c, d, false).value;
    var dir := d.dirs[p.dir];
    var names := Expected(Or(p.stage, "candidate"));
    ResolvedArtifacts(c, p, ReadIn(d, p.dir), names, r.files);
    hide CheckAll, CheckOne;
    ExpectedNames(Or(p.stage, "candidate"));
    assert forall n :: n in Dataset() ==> n in names;
    assert Gold in names && Manifest in names && Judgment in names;
  }

  lemma ResolvedArtifacts(c: Codec, p: Pointer, read: Name -> Option<Bytes>, names: seq<Name>, files: map<Name, Bytes>)
    requires CheckAll(c, p, read, names) == Ok(files) && PlainPaths(p)
    ensures forall n :: n in names ==> n in files && n in p.artifacts && read(n) == Some(files[n]) && p.artifacts[n].sha == Some(c.sha(files[n])) && c.sha(files[n]) != ""
  {
    hide CheckAll;
    CheckAllOk(c, p, read, names);
    forall n | n in names
      ensures n in files && n in p.artifacts && read(n) == Some(files[n]) && p.artifacts[n].sha == Some(c.sha(files[n])) && c.sha(files[n]) != ""
    {
      assert CheckOne(c, p, read, n) == Ok(files[n]);
    }
  }

  /** The promotion of what CURRENT resolves to ended in a job whose publication resolves as approved,
      with the candidate's gold bytes, the audit, and the candidate's id. */
  ghost predicate RoundTrips(c: Codec, candidate: Resolved, p: Promotion, audit: Bytes) {
    && p.Promoted? && AllStaged(p.job)
    && var r := NewRelease(c, p.job, true);
       && r.Ok? && Gold in candidate.files && Gold in r.value.files && r.value.files[Gold] == candidate.files[Gold]
       && r.value.candidate == Some(candidate.releaseId) && r.value.manifest.candidate == Some(candidate.releaseId)
       && Audit in r.value.files && r.value.files[Audit] == audit
  }

  /** Promoting a candidate that resolves, with an accepted audit, succeeds, resolves as approved, keeps
      the gold bytes and names the candidate exactly when the candidate's files lie under their own
      names; the promotion does not follow other paths that CURRENT lists. */
  lemma PromotionRoundTripIff(c: Codec, d: Disk, audit: Bytes, g: Given)
    requires Sensible(c) && Resolve(c, d, false).Ok? && Resolve(c, d, false).value.dir in d.dirs
    requires var dir := d.dirs[Resolve(c, d, false).value.dir]; Gold in dir ==> g.accepts(audit, dir[Gold])
    ensures var r := Resolve(c, d, false).value;
            RoundTrips(c, r, PromoteRelease(c, d, None, Some(audit), g), audit)
            <==> Gold in r.files && OwnFiles(c, d.dirs[r.dir], r.files[Gold])
  {
    hide NewRelease, Resolve;
    var r := Resolve(c, d, false).value;
    var dir := d.dirs[r.dir];
    var p := PromoteFrom(c, d, r.releaseId, dir, Some(audit), g);
    assert PromoteRelease(c, d, None, Some(audit), g) == p;
    if p.Promoted? {
      PromotedKeepsGold(c, d, r.releaseId, dir, audit, g);
    }
    assert Gold in r.files && OwnFiles(c, dir, r.files[Gold]) ==> p.Promoted?;
  }

  lemma PromotedKeepsGold(c: Codec, d: Disk, id: string, dir: Dir, audit: Bytes, g: Given)
    requires Sensible(c) && PromoteFrom(c, d, id, dir, Some(audit), g).Promoted?
    ensures HasDataset(dir) && Gold in dir && Manifest in dir && c.parse(dir[Manifest]).Some? && c.sha(dir[Gold]) != ""
    ensures c.parse(dir[Manifest]).value.sha == Some(c.sha(dir[Gold]))
    ensures var job := PromoteFrom(c, d, id, dir, Some(audit), g).job;
            && AllStaged(job)
            && (NewRelease(c, job, true).Ok? <==> JudgmentVouched(c, dir))
            && (NewRelease(c, job, true).Ok? ==>
                  var r := NewRelease(c, job, true).value;
                  && Gold in r.files && r.files[Gold] == dir[Gold] && Audit in r.files && r.files[Audit] == audit
                  && r.candidate == Some(id) && r.manifest.candidate == Some(id))
  {
    hide NewRelease, Announced;
    var m := c.parse(dir[Manifest]).value;
    assert HasDataset(dir);
    PromotedResolvesIff(c, d, id, dir, Some(audit), g);
    ApprovedStaged(c, d, id, dir, m, audit, g);
    var job := PromoteFrom(c, d, id, dir, Some(audit), g).job;
    if NewRelease(c, job, true).Ok? {
      ResolvesIffWellStaged(c, job, true);
      PublishResolveRoundTrip(c, job, true);
      ExpectedNames("approved");
    }
  }

  /** So it always does after publications by this program. */
  lemma PromotionRoundTrip(c: Codec, run: seq<Sys>, i: nat, audit: Bytes, g: Given)
    requires Sensible(c) && IsRun(c, run) && i < |run| && PlainCurrent(run[0].before)
    requires Resolve(c, run[i].disk, false).Ok?
    requires var r := Resolve(c, run[i].disk, false).value; Gold in r.files ==> g.accepts(audit, r.files[Gold])
    ensures RoundTrips(c, Resolve(c, run[i].disk, false).value, PromoteRelease(c, run[i].disk, None, Some(audit), g), audit)
  {
    hide RoundTrips, PromoteRelease, CheckAll, CheckOne, SysInv, IsRun;
    PlainForever(c, run, i);
    ResolvedOwnFiles(c, run[i].disk);
    PromotionRoundTripIff(c, run[i].disk, audit, g);
  }

  // ---------------------------------------------------------------- a promotion that does not resolve

  /** Gold and manifest agree; the manifest says nothing valid about the judgment file. */
  function UnvouchedManifest(c: Codec): ManifestDoc {
    ManifestDoc(Some(c.sha("gold")), Some("candidate"), Some(false), None, Some(Judgment), Some(""), None, None, "")
  }

  function UnvouchedFiles(c: Codec): Dir {
    map[Gold := "gold", Components := "{}", Assignment := "{}", AntiLeakAudit := "{}", Judgment := "judged",
        Manifest := c.render(UnvouchedManifest(c))]
  }

  /** A publication of these files: the publisher does not look into them. */
  function UnvouchedJob(c: Codec, id: string): Job {
    var files := UnvouchedFiles(c);
    Job(id, "token", files, Dataset() + [Manifest], c.sha("gold"), c.sha(files[Manifest]), 1, "candidate", false, None)
  }

  /** For every codec: a directory that a publication leaves behind, promoted by its id without a
      complaint, gives an approved release that does not resolve. */
  lemma UnvouchedPromotion(c: Codec, d: Disk, id: string, audit: Bytes, g: Given)
    requires Sensible(c) && g.accepts(audit, "gold")
    requires Published(id) in d.dirs && AllStaged(UnvouchedJob(c, id)) && d.dirs[Published(id)] == Bundle(UnvouchedJob(c, id))
    ensures var p := PromoteRelease(c, d, Some(id), Some(audit), g);
            && p.Promoted? && AllStaged(p.job) && !NewRelease(c, p.job, true).Ok?
  {
    hide NewRelease;
    var dir := d.dirs[Published(id)];
    UnvouchedBundle(c, id);
    assert FirstMissing(dir, Dataset()).None?;
    assert c.parse(dir[Manifest]) == Some(UnvouchedManifest(c));
    assert c.sha("judged") != "";
    PromotedResolvesIff(c, d, id, dir, Some(audit), g);
  }

  /** The directory holds exactly those files. */
  lemma UnvouchedBundle(c: Codec, id: string)
    ensures var job := UnvouchedJob(c, id);
            AllStaged(job) && Bundle(job) == UnvouchedFiles(c)
  {
    var job := UnvouchedJob(c, id);
    assert Dataset()[0] == Gold && Dataset()[1] == Components && Dataset()[2] == Assignment && Dataset()[3] == AntiLeakAudit && Dataset()[4] == Judgment;
    assert forall n :: n in job.names <==> n in Dataset() || n == Manifest;
    assert forall n :: n in Dataset() <==> n == Gold || n == Components || n == Assignment || n == AntiLeakAudit || n == Judgment;
  }

  /** The whole promotion: refused with the disk untouched, or published like any release. */
  method PromoteCandidate(files: Files, c: Codec, candidate: Option<string>, audit: Option<Bytes>, g: Given, failAt: nat, readable: bool)
    returns (refusal: Option<PromoteError>, ok: bool)
    requires (forall id :: Staging(id, g.token) !in files.dirs) && g.token !in files.temps
    modifies files
    ensures var p := PromoteRelease(c, old(files.Now()), candidate, audit, g);
            match p
            case Refused(e) => !ok && refusal == Some(e) && files.Now() == old(files.Now())
            case Promoted(job) =>
              && refusal == None
              && (ok <==> AllStaged(job) && Free(old(files.Now()), Target(job)) && failAt >= 6 + |job.names|)
              && (ok ==> NowCurrent(c, job, files.Now()) && Resolve(c, files.Now(), true) == NewRelease(c, job, true))
              && (!ok ==> files.Now().current == old(files.Now()).current || Points(c, job, files.Now()))
  {
    hide Resolve, NewRelease, NowCurrent, PromoteRelease;
    var p := PromoteRelease(c, files.Now(), candidate, audit, g);
    ok := false;
    if p.Refused? {
      return Some(p.error), false;
    }
    refusal := None;
    JobToken(c, files.Now(), candidate, audit, g);
    ghost var misread, t;
    ok, misread, t := files.Publish(c, p.job, failAt, readable);
    if ok {
      CurrentResolves(c, p.job, files.Now());
    }
  }

  lemma JobToken(c: Codec, d: Disk, candidate: Option<string>, audit: Option<Bytes>, g: Given)
    requires PromoteRelease(c, d, candidate, audit, g).Promoted?
    ensures PromoteRelease(c, d, candidate, audit, g).job.token == g.token
  {
    hide Resolve;
  }

  lemma CurrentResolves(c: Codec, job: Job, d: Disk)
    requires NowCurrent(c, job, d)
    ensures AllStaged(job) && Resolve(c, d, true) == NewRelease(c, job, true)
  {
    hide Resolve;
    var alone := Disk(map[Target(job) := Bundle(job)], Some(Doc(PointerOf(c, job))), map[]);
    ResolveDependsOn(c, d, alone, true);
  }
}
