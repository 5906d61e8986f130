/** A golden release on disk: versioned directories, and one CURRENT pointer that names a release. */
module Release {
  import opened Options

  type Bytes = string
  type Digest = string

  datatype Name = Gold | Components | Assignment | AntiLeakAudit | Judgment | Audit | Manifest | Other(name: string)

  type Dir = map<Name, Bytes>

  /** Directories under releases/: the published ones and the ones still being staged. */
  datatype DirName = Published(id: string) | Staging(id: string, token: string)

  datatype Entry = Entry(path: Option<Name>, sha: Option<Digest>)

  datatype Pointer = Pointer(
    releaseId: string,
    dir: DirName,
    stage: Option<string>,
    accepted: Option<bool>,
    candidate: Option<string>,
    rowCount: Option<nat>,
    gold: Digest,
    manifest: Digest,
    artifacts: map<Name, Entry>)

  /** What the CURRENT file holds: not JSON, JSON without a required field, or a pointer. */
  datatype PointerFile = Unreadable | Incomplete | Doc(pointer: Pointer)

  datatype Disk = Disk(dirs: map<DirName, Dir>, current: Option<PointerFile>, temps: map<string, PointerFile>)

  datatype ManifestDoc = ManifestDoc(
    sha: Option<Digest>,
    stage: Option<string>,
    accepted: Option<bool>,
    candidate: Option<string>,
    judgmentRef: Option<Name>,
    judgmentSha: Option<Digest>,
    auditRef: Option<Name>,
    auditSha: Option<Digest>,
    rest: string)

  /** Hashing and JSON, which the releases treat as given functions. */
  datatype Codec = Codec(sha: Bytes -> Digest, parse: Bytes -> Option<ManifestDoc>, render: ManifestDoc -> Bytes)

  ghost predicate Sensible(c: Codec) {
    (forall b :: c.sha(b) != "") && forall m :: c.parse(c.render(m)) == Some(m)
  }

  datatype Error =
    | NoPointer | UnreadablePointer | IncompletePointer | NotApproved | NoDirectory
    | NoEntry(name: Name) | NoDigest(name: Name) | FileMissing(name: Name) | WrongDigest(name: Name)
    | GoldDigest | ManifestDigest | ManifestGone | ManifestCorrupt | ManifestGold | StageMismatch | AcceptedMismatch
    | JudgmentRef | JudgmentDigest | AuditRef | AuditDigest | CandidateMismatch

  datatype Result<+T> = Ok(value: T) | Err(error: Error)

  datatype Resolved = Resolved(
    releaseId: string, dir: DirName, stage: string, accepted: bool, candidate: Option<string>,
    gold: Digest, manifestSha: Digest, rowCount: nat, files: map<Name, Bytes>, manifest: ManifestDoc)

  function Or<T>(o: Option<T>, default: T): T {
    if o.Some? then o.value else default
  }

  predicate Truthy(o: Option<string>) {
    o.Some? && o.value != ""
  }

  /** The artifacts a release of the given stage must have, in the order they are checked. */
  function Expected(stage: string): seq<Name> {
    if stage == "approved" then [Gold, Components, Assignment, AntiLeakAudit, Judgment, Audit, Manifest]
    else [Gold, Components, Assignment, AntiLeakAudit, Judgment, Manifest]
  }

  // ---------------------------------------------------------------- resolving

  function CheckOne(c: Codec, p: Pointer, read: Name -> Option<Bytes>, name: Name): (r: Result<Bytes>) {
    if name !in p.artifacts then Err(NoEntry(name))
    else if !Truthy(p.artifacts[name].sha) then Err(NoDigest(name))
    else
      var file := read(Or(p.artifacts[name].path, name));
      if file.None? then Err(FileMissing(name))
      else if c.sha(file.value) != p.artifacts[name].sha.value then Err(WrongDigest(name))
      else Ok(file.value)
  }

  /** The first artifact that fails decides; otherwise every artifact with its bytes. */
  function CheckAll(c: Codec, p: Pointer, read: Name -> Option<Bytes>, names: seq<Name>): (r: Result<map<Name, Bytes>>) {
    if names == [] then Ok(map[])
    else
      var before := CheckAll(c, p, read, names[..|names| - 1]);
      if before.Err? then before
      else
        var name := names[|names| - 1];
        var one := CheckOne(c, p, read, name);
        if one.Err? then Err(one.error) else Ok(before.value[name := one.value])
  }

  /** The manifest against the pointer, in the order of the checks. */
  function CheckManifest(p: Pointer, m: ManifestDoc): (r: Option<Error>)
    requires Judgment in p.artifacts
  {
    var stage := Or(p.stage, "candidate");
    if m.sha != Some(p.gold) then Some(ManifestGold)
    else if Or(m.stage, "candidate") != stage then Some(StageMismatch)
    else if Or(m.accepted, false) != Or(p.accepted, false) then Some(AcceptedMismatch)
    else if m.judgmentRef != Some(Judgment) then Some(JudgmentRef)
    else if m.judgmentSha != p.artifacts[Judgment].sha then Some(JudgmentDigest)
    else if stage != "approved" then None
    else if m.auditRef != Some(Audit) then Some(AuditRef)
    else if Audit !in p.artifacts || m.auditSha != p.artifacts[Audit].sha then Some(AuditDigest)
    else if Truthy(p.candidate) && m.candidate != p.candidate then Some(CandidateMismatch)
    else None
  }

  lemma {:induction false} CheckAllOk(c: Codec, p: Pointer, read: Name -> Option<Bytes>, names: seq<Name>)
    ensures CheckAll(c, p, read, names).Ok? <==> forall i :: 0 <= i < |names| ==> CheckOne(c, p, read, names[i]).Ok?
    ensures CheckAll(c, p, read, names).Ok? ==>
              (forall n :: n in CheckAll(c, p, read, names).value <==> n in names)
              && forall n :: n in names ==> CheckOne(c, p, read, n) == Ok(CheckAll(c, p, read, names).value[n])
  {
    if names != [] {
      CheckAllOk(c, p, read, names[..|names| - 1]);
    }
  }

  lemma ExpectedNames(stage: string)
    ensures Gold in Expected(stage) && Judgment in Expected(stage) && Manifest in Expected(stage)
    ensures Audit in Expected(stage) <==> stage == "approved"
  {
    assert Expected(stage)[0] == Gold && Expected(stage)[4] == Judgment;
    assert stage == "approved" ==> Expected(stage)[5] == Audit && Expected(stage)[6] == Manifest;
    assert stage != "approved" ==> Expected(stage)[5] == Manifest;
  }

  /** The checks after CURRENT was read. `again` is the second read of the manifest file. */
  function Check(c: Codec, p: Pointer, requireApproved: bool, isDir: bool, read: Name -> Option<Bytes>, again: Name -> Option<Bytes>): (r: Result<Resolved>) {
    var stage, accepted := Or(p.stage, "candidate"), Or(p.accepted, false);
    if requireApproved && !(stage == "approved" && accepted) then Err(NotApproved)
    else if !isDir then Err(NoDirectory)
    else
      var files := CheckAll(c, p, read, Expected(stage));
      if files.Err? then Err(files.error)
      else
        ExpectedNames(stage);
        CheckAllOk(c, p, read, Expected(stage));
        assert CheckOne(c, p, read, Gold).Ok? && CheckOne(c, p, read, Manifest).Ok? && CheckOne(c, p, read, Judgment).Ok?;
        if Some(p.gold) != p.artifacts[Gold].sha then Err(GoldDigest)
        else if Some(p.manifest) != p.artifacts[Manifest].sha then Err(ManifestDigest)
        else
          var bytes := again(Or(p.artifacts[Manifest].path, Manifest));
          if bytes.None? then Err(ManifestGone)
          else if c.parse(bytes.value).None? then Err(ManifestCorrupt)
          else
            var m := c.parse(bytes.value).value;
            var bad := CheckManifest(p, m);
            if bad.Some? then Err(bad.value)
            else Ok(Resolved(p.releaseId, p.dir, stage, accepted, p.candidate, p.gold, p.manifest, Or(p.rowCount, 1039), files.value, m))
  }

  function ReadIn(d: Disk, dir: DirName): Name -> Option<Bytes> {
    (n: Name) => if dir in d.dirs && n in d.dirs[dir] then Some(d.dirs[dir][n]) else None
  }

  /** What a reader that runs alone gets. */
  function Resolve(c: Codec, d: Disk, requireApproved: bool): (r: Result<Resolved>) {
    match d.current
    case None => Err(NoPointer)
    case Some(Unreadable) => Err(UnreadablePointer)
    case Some(Incomplete) => Err(IncompletePointer)
    case Some(Doc(p)) => Check(c, p, requireApproved, p.dir in d.dirs, ReadIn(d, p.dir), ReadIn(d, p.dir))
  }

  /** Only the pointer and the directory it names matter. */
  lemma ResolveDependsOn(c: Codec, d: Disk, e: Disk, requireApproved: bool)
    requires d.current == e.current
    requires d.current.Some? && d.current.value.Doc? ==>
               var dir := d.current.value.pointer.dir;
               (dir in d.dirs <==> dir in e.dirs) && (dir in d.dirs ==> d.dirs[dir] == e.dirs[dir])
    ensures Resolve(c, d, requireApproved) == Resolve(c, e, requireApproved)
  {
    if d.current.Some? && d.current.value.Doc? {
      var p := d.current.value.pointer;
      CheckReads(c, p, requireApproved, p.dir in d.dirs, ReadIn(d, p.dir), ReadIn(d, p.dir), ReadIn(e, p.dir), ReadIn(e, p.dir));
    }
  }

  lemma {:induction false} CheckAllReads(c: Codec, p: Pointer, read: Name -> Option<Bytes>, read': Name -> Option<Bytes>, names: seq<Name>)
    requires forall n :: read(n) == read'(n)
    ensures CheckAll(c, p, read, names) == CheckAll(c, p, read', names)
  {
    if names != [] {
      CheckAllReads(c, p, read, read', names[..|names| - 1]);
    }
  }

  /** The same bytes at every read give the same answer. */
  lemma CheckReads(c: Codec, p: Pointer, requireApproved: bool, isDir: bool, read: Name -> Option<Bytes>, again: Name -> Option<Bytes>, read': Name -> Option<Bytes>, again': Name -> Option<Bytes>)
    requires forall n :: read(n) == read'(n) && again(n) == again'(n)
    ensures Check(c, p, requireApproved, isDir, read, again) == Check(c, p, requireApproved, isDir, read', again')
  {
    CheckAllReads(c, p, read, read', Expected(Or(p.stage, "candidate")));
  }

  /** The reader's loop over the expected artifacts. */
  method VerifyArtifacts(c: Codec, p: Pointer, read: Name -> Option<Bytes>, names: seq<Name>) returns (r: Result<map<Name, Bytes>>)
    ensures r == CheckAll(c, p, read, names)
  {
    var files: map<Name, Bytes> := map[];
    for i := 0 to |names|
      invariant CheckAll(c, p, read, names[..i]) == Ok(files)
    {
      assert names[..i + 1][..i] == names[..i];
      var one := CheckOne(c, p, read, names[i]);
      if one.Err? {
        FirstErrorStays(c, p, read, names, i + 1);
        return Err(one.error);
      }
      files := files[names[i] := one.value];
    }
    assert names[..|names|] == names;
    r := Ok(files);
  }

  lemma {:induction false} FirstErrorStays(c: Codec, p: Pointer, read: Name -> Option<Bytes>, names: seq<Name>, i: nat)
    requires i <= |names| && CheckAll(c, p, read, names[..i]).Err?
    ensures CheckAll(c, p, read, names) == CheckAll(c, p, read, names[..i])
    decreases |names|
  {
    if i < |names| {
      var shorter := names[..|names| - 1];
      assert shorter[..i] == names[..i];
      FirstErrorStays(c, p, read, shorter, i);
    } else {
      assert names[..i] == names;
    }
  }
}
