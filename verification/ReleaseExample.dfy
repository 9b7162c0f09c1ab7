/**
 A release that can be sealed: the smallest tree with the pinned layout, all its
 files empty. It shows that the results about sealing and opening speak of
 something, and that a seal may succeed that does not open.
 */
module ReleaseExample {
  import opened Common
  import opened FileTree
  import opened Payload
  import opened PayloadProperties

  // ----- the tree

  function EmptyFile(name: string): Entry {
    Entry(name, File([]))
  }

  function Folder(name: string, entries: seq<Entry>): Entry {
    Entry(name, Directory(entries))
  }

  function Bin(): seq<Entry> {
    [EmptyFile("norm"), EmptyFile("norm-spec-conformance")]
  }

  function Contract(): seq<Entry> {
    [EmptyFile("bundle.lock.json"), EmptyFile("a")]
  }

  function References(): seq<Entry> {
    [EmptyFile("authoring.md"), EmptyFile("field-reference.md")]
  }

  function Skill(): seq<Entry> {
    [EmptyFile("SKILL.md"), Folder("references", References())]
  }

  function Files(): seq<Entry> {
    [EmptyFile("LICENSE"), EmptyFile("README.md"), EmptyFile("README.zh-CN.md"), EmptyFile(MANIFEST_FILE),
     EmptyFile(UPSTREAM_CHECKSUM_FILE)]
  }

  function Folders(): seq<Entry> {
    [Folder("bin", Bin()), Folder("contract", Contract()), Folder("skills", [Folder("norm-spec", Skill())])]
  }

  function Top(): seq<Entry> {
    Files() + Folders()
  }

  function Release(): Node {
    Directory(Top())
  }

  // ----- its inventory

  lemma OneListed(path: seq<string>, e: Entry)
    ensures Inventory(path, [e]) == NodeFiles(path + [e.name], e.node)
  {
    assert [e][..0] == [];
  }

  lemma OneMoreListed(path: seq<string>, entries: seq<Entry>, e: Entry)
    ensures Inventory(path, entries + [e]) == Inventory(path, entries) + NodeFiles(path + [e.name], e.node)
  {
    assert (entries + [e])[..|entries|] == entries;
  }

  predicate Good(e: Entry) {
    ValidName(e.name) && WellFormed(e.node) && NodeBad(e.node).None?
  }

  lemma {:induction false} NotFound(entries: seq<Entry>, name: string)
    requires forall i :: 0 <= i < |entries| ==> entries[i].name != name
    ensures Find(entries, name).None?
  {
    if entries != [] {
      NotFound(entries[1..], name);
    }
  }

  /** Good entries of different names make a good folder. */
  lemma {:induction false} GoodFolder(entries: seq<Entry>)
    requires forall i :: 0 <= i < |entries| ==> Good(entries[i])
    requires forall i, j :: 0 <= i < j < |entries| ==> entries[i].name != entries[j].name
    ensures WellFormedEntries(entries) && FirstBad(entries).None?
  {
    if entries != [] {
      var init, last := entries[..|entries| - 1], entries[|entries| - 1];
      GoodFolder(init);
      assert Good(last);
      NotFound(init, last.name);
    }
  }

  /** Two entries of different names. */
  lemma TwoListed(path: seq<string>, a: Entry, b: Entry)
    requires Good(a) && Good(b) && a.name != b.name
    ensures Inventory(path, [a, b]) == NodeFiles(path + [a.name], a.node) + NodeFiles(path + [b.name], b.node)
    ensures FirstBad([a, b]).None? && WellFormedEntries([a, b])
  {
    OneListed(path, a);
    OneMoreListed(path, [a], b);
    assert [a] + [b] == [a, b];
    GoodFolder([a, b]);
  }

  lemma JoinMore(path: seq<string>, name: string)
    requires path != []
    ensures JoinPath(path + [name]) == Under(JoinPath(path), name)
  {
    assert (path + [name])[..|path|] == path;
  }

  /** Two files of a folder. */
  lemma TwoFilesListed(path: seq<string>, a: string, b: string)
    requires path != [] && ValidName(a) && ValidName(b) && a != b
    ensures Inventory(path, [EmptyFile(a), EmptyFile(b)]) == {Under(JoinPath(path), a), Under(JoinPath(path), b)}
    ensures FirstBad([EmptyFile(a), EmptyFile(b)]).None? && WellFormedEntries([EmptyFile(a), EmptyFile(b)])
  {
    TwoListed(path, EmptyFile(a), EmptyFile(b));
    JoinMore(path, a);
    JoinMore(path, b);
  }

  lemma BinListed()
    ensures Inventory(["bin"], Bin()) == {Under("bin", "norm"), Under("bin", "norm-spec-conformance")}
    ensures FirstBad(Bin()).None? && WellFormedEntries(Bin())
  {
    TwoFilesListed(["bin"], "norm", "norm-spec-conformance");
  }

  lemma ContractListed()
    ensures Inventory(["contract"], Contract()) == {CONTRACT_LOCK_FILE, Under("contract", "a")}
    ensures FirstBad(Contract()).None? && WellFormedEntries(Contract())
  {
    TwoFilesListed(["contract"], "bundle.lock.json", "a");
  }

  function SkillPath(): seq<string> {
    ["skills", "norm-spec"]
  }

  lemma SkillPathJoined()
    ensures JoinPath(SkillPath()) == SKILL_FOLDER
  {
    JoinMore(["skills"], "norm-spec");
    assert ["skills"] + ["norm-spec"] == SkillPath();
  }

  lemma ReferencesListed()
    ensures Inventory(SkillPath() + ["references"], References())
         == {Under(Under(SKILL_FOLDER, "references"), "authoring.md"),
             Under(Under(SKILL_FOLDER, "references"), "field-reference.md")}
    ensures FirstBad(References()).None? && WellFormedEntries(References())
  {
    SkillPathJoined();
    JoinMore(SkillPath(), "references");
    TwoFilesListed(SkillPath() + ["references"], "authoring.md", "field-reference.md");
  }

  lemma SkillListed()
    ensures Inventory(SkillPath(), Skill())
         == {Under(SKILL_FOLDER, "SKILL.md"), Under(Under(SKILL_FOLDER, "references"), "authoring.md"),
             Under(Under(SKILL_FOLDER, "references"), "field-reference.md")}
    ensures FirstBad(Skill()).None? && WellFormedEntries(Skill())
  {
    SkillPathJoined();
    ReferencesListed();
    TwoListed(SkillPath(), EmptyFile("SKILL.md"), Folder("references", References()));
    JoinMore(SkillPath(), "SKILL.md");
  }

  lemma SkillsListed()
    ensures Inventory(["skills"], [Folder("norm-spec", Skill())]) == Inventory(SkillPath(), Skill())
    ensures FirstBad([Folder("norm-spec", Skill())]).None? && WellFormedEntries([Folder("norm-spec", Skill())])
  {
    SkillListed();
    OneListed(["skills"], Folder("norm-spec", Skill()));
    GoodFolder([Folder("norm-spec", Skill())]);
    assert ["skills"] + ["norm-spec"] == SkillPath();
  }

  lemma FilesListed()
    ensures Inventory([], Files())
         == {"LICENSE", "README.md", "README.zh-CN.md", MANIFEST_FILE, UPSTREAM_CHECKSUM_FILE}
  {
    var t := Files();
    OneListed([], t[0]);
    OneMoreListed([], [t[0]], t[1]);
    OneMoreListed([], [t[0], t[1]], t[2]);
    OneMoreListed([], [t[0], t[1], t[2]], t[3]);
    OneMoreListed([], [t[0], t[1], t[2], t[3]], t[4]);
    assert [t[0]] + [t[1]] == [t[0], t[1]];
    assert [t[0], t[1]] + [t[2]] == [t[0], t[1], t[2]];
    assert [t[0], t[1], t[2]] + [t[3]] == [t[0], t[1], t[2], t[3]];
    assert [t[0], t[1], t[2], t[3]] + [t[4]] == t;
  }

  lemma ThreeListed(files: seq<Entry>, a: Entry, b: Entry, c: Entry)
    ensures Inventory([], files + [a, b, c])
         == Inventory([], files)
            + NodeFiles([a.name], a.node) + NodeFiles([b.name], b.node) + NodeFiles([c.name], c.node)
  {
    OneMoreListed([], files, a);
    OneMoreListed([], files + [a], b);
    OneMoreListed([], files + [a] + [b], c);
    assert files + [a] + [b] + [c] == files + [a, b, c];
    assert [] + [a.name] == [a.name] && [] + [b.name] == [b.name] && [] + [c.name] == [c.name];
  }

  lemma TopListed()
    ensures Inventory([], Top())
         == Inventory([], Files()) + Inventory(["bin"], Bin()) + Inventory(["contract"], Contract())
            + Inventory(SkillPath(), Skill())
  {
    SkillsListed();
    ThreeListed(Files(), Folders()[0], Folders()[1], Folders()[2]);
  }

  lemma NamesAreValid()
    ensures ValidName("LICENSE") && ValidName("README.md") && ValidName("README.zh-CN.md")
    ensures ValidName("bin") && ValidName("contract") && ValidName("skills")
  {
  }

  lemma ManifestNameIsValid()
    ensures ValidName(MANIFEST_FILE)
  {
  }

  lemma ChecksumNameIsValid()
    ensures ValidName(UPSTREAM_CHECKSUM_FILE)
  {
  }

  lemma GoodFile(name: string)
    requires ValidName(name)
    ensures Good(EmptyFile(name))
  {
  }

  lemma GoodSubfolder(name: string, entries: seq<Entry>)
    requires ValidName(name) && WellFormedEntries(entries) && FirstBad(entries).None?
    ensures Good(Folder(name, entries))
  {
  }

  lemma FilesAreGood()
    ensures forall i :: 0 <= i < 5 ==> Good(Files()[i])
  {
    NamesAreValid();
    ManifestNameIsValid();
    ChecksumNameIsValid();
    GoodFile("LICENSE");
    GoodFile("README.md");
    GoodFile("README.zh-CN.md");
    GoodFile(MANIFEST_FILE);
    GoodFile(UPSTREAM_CHECKSUM_FILE);
  }

  lemma FoldersAreGood()
    ensures forall i :: 0 <= i < 3 ==> Good(Folders()[i])
  {
    NamesAreValid();
    BinListed();
    ContractListed();
    SkillsListed();
    GoodSubfolder("bin", Bin());
    GoodSubfolder("contract", Contract());
    GoodSubfolder("skills", [Folder("norm-spec", Skill())]);
  }

  function NameLengths(entries: seq<Entry>): (lengths: seq<nat>)
    ensures |lengths| == |entries|
  {
    seq(|entries|, i requires 0 <= i < |entries| => |entries[i].name|)
  }

  /** All names at the top differ in length. */
  lemma TopNames()
    ensures NameLengths(Top()) == [7, 9, 15, 21, 14, 3, 8, 6]
  {
    assert NameLengths(Files()) == [7, 9, 15, 21, 14];
    assert NameLengths(Folders()) == [3, 8, 6];
  }

  lemma TopIsGood()
    ensures FirstBad(Top()).None? && WellFormedEntries(Top())
  {
    FilesAreGood();
    FoldersAreGood();
    TopNames();
    var t, lengths := Top(), NameLengths(Top());
    forall i | 0 <= i < |t| ensures Good(t[i]) {
      assert t[i] == if i < 5 then Files()[i] else Folders()[i - 5];
    }
    forall i, j | 0 <= i < j < |t| ensures t[i].name != t[j].name {
      assert lengths[i] != lengths[j];
    }
    GoodFolder(t);
  }

  // ----- its contents

  predicate Hollow(n: Node) {
    match n
    case File(content) => content == []
    case Directory(entries) => forall i :: 0 <= i < |entries| ==> Hollow(entries[i].node)
    case _ => false
  }

  lemma ReleaseIsHollow()
    ensures Hollow(Release())
  {
    assert Hollow(Directory(Bin()));
    assert Hollow(Directory(Contract()));
    assert Hollow(Directory(References()));
    assert Hollow(Directory(Skill()));
    assert Hollow(Directory([Folder("norm-spec", Skill())]));
    forall i | 0 <= i < |Top()| ensures Hollow(Top()[i].node) {
      assert Top()[i] == if i < 5 then Files()[i] else Folders()[i - 5];
    }
  }

  lemma {:induction false} FoundIsEntry(entries: seq<Entry>, name: string)
    requires Find(entries, name).Some?
    ensures exists i :: 0 <= i < |entries| && entries[i].node == Find(entries, name).value
  {
    if entries[0].name != name {
      FoundIsEntry(entries[1..], name);
      var i :| 0 <= i < |entries| - 1 && entries[1..][i].node == Find(entries, name).value;
      assert entries[i + 1].node == Find(entries, name).value;
    }
  }

  lemma {:induction false} HollowReads(n: Node, names: seq<string>)
    requires Hollow(n) && FileAt(n, names).Some?
    ensures FileAt(n, names) == Some([])
    decreases names
  {
    if names != [] {
      FoundIsEntry(n.entries, names[0]);
      FileAtStep(n, names);
      HollowReads(Find(n.entries, names[0]).value, names[1..]);
    }
  }

  lemma ReadsEmpty(path: string)
    requires path in Inventory([], Top())
    ensures ReadFile(Release(), path) == Some([])
  {
    TopIsGood();
    ReleaseIsHollow();
    var names := ListedReads(Top(), path);
    HollowReads(Release(), names);
  }

  // ----- the environment it is pinned in

  const TARGET := "x86_64-unknown-linux-gnu"

  function Zeros(): (s: string)
    ensures IsSha256(s)
  {
    seq(64, _ => '0')
  }

  function PinnedAsset(): Asset {
    Asset(TARGET, "release.tar.gz", Zeros(), "url")
  }

  function PinnedSuite(): Suite {
    Suite(NORM_CONTRACT_BUNDLE_API, "report", "suite", 1, "digest")
  }

  function PinnedManifest(): Manifest {
    Manifest(RELEASE_ARTIFACT_API, "norm-spec", "1", TARGET, "revision", Under("bin", "norm"),
             Under("bin", "norm-spec-conformance"), "compatibility", "contract", PinnedSuite(), SKILL_FOLDER)
  }

  function PinnedContract(): ContractLock {
    ContractLock(NORM_CONTRACT_BUNDLE_API, "suite", 1, "digest", [LockedFile("a", Zeros())])
  }

  /** Decoders that know this release only, and a lock of a chosen encoding. */
  function Pinned(native: Option<string>, lock: Option<PayloadLock>, encoded: Bytes): Env {
    Env(Pin("repository", "tag", "revision", "norm-spec", "1", "compatibility", PinnedSuite(), [PinnedAsset()]),
        native,
        _ => Some(PinnedManifest()),
        _ => Some(PinnedContract()),
        _ => lock,
        _ => encoded,
        _ => Some([PinnedAsset().sha256, PinnedAsset().name]),
        _ => Zeros())
  }

  lemma TargetIsNotWindows()
    ensures TARGET != WINDOWS_TARGET
  {
    assert |TARGET| == 24 && |WINDOWS_TARGET| == 22;
  }

  lemma ContractFits(env: Env)
    requires exists native, lock, encoded :: env == Pinned(native, lock, encoded)
    requires ReadFile(Release(), Under("contract", "a")) == Some([])
    ensures ContractError(env, Release(), PinnedContract()).None?
  {
    var files := PinnedContract().files;
    SplitName("a");
    assert ".." !in ["a"];
    assert files[..0] == [];
    assert ContractFilesError(env, Release(), []).None?;
  }

  lemma ContractPathsListed()
    ensures ContractPaths(PinnedContract().files) == {Under("contract", "a")}
  {
    assert PinnedContract().files[..0] == [];
  }

  lemma SameNames<T>(license: T, readme: T, readmeZh: T, manifest: T, checksum: T, norm: T, conformance: T, lock: T,
                     a: T, skill: T, authoring: T, fields: T)
    ensures {license, readme, readmeZh, manifest, checksum} + {norm, conformance} + {lock, a}
            + {skill, authoring, fields}
         == {license, readme, readmeZh, norm, conformance, lock, manifest, skill, authoring, fields, checksum} + {a}
  {
  }

  lemma ReleaseIsPinned()
    ensures Inventory([], Top())
         == ReleaseInventory(PinnedContract(), Under("bin", "norm"), Under("bin", "norm-spec-conformance"))
  {
    TopListed();
    FilesListed();
    BinListed();
    ContractListed();
    SkillListed();
    ContractPathsListed();
    var references := Under(SKILL_FOLDER, "references");
    SameNames("LICENSE", "README.md", "README.zh-CN.md", MANIFEST_FILE, UPSTREAM_CHECKSUM_FILE,
              Under("bin", "norm"), Under("bin", "norm-spec-conformance"), CONTRACT_LOCK_FILE, Under("contract", "a"),
              Under(SKILL_FOLDER, "SKILL.md"), Under(references, "authoring.md"),
              Under(references, "field-reference.md"));
  }

  /** The layout check passes, given what it reads. */
  lemma ReleaseFits(env: Env, tree: Node)
    requires exists native, lock, encoded :: env == Pinned(native, lock, encoded)
    requires CollectInventory(tree)
          == Ok(ReleaseInventory(PinnedContract(), Under("bin", "norm"), Under("bin", "norm-spec-conformance")))
    requires ReadFile(tree, MANIFEST_FILE) == Some([]) && ReadFile(tree, CONTRACT_LOCK_FILE) == Some([])
    requires ReadFile(tree, UPSTREAM_CHECKSUM_FILE) == Some([])
    requires ContractError(env, tree, PinnedContract()).None?
    ensures ValidateReleaseLayout(env, tree, PinnedAsset(), false) == Ok(PinnedManifest())
  {
    TargetIsNotWindows();
    assert ManifestFits(env.pin, PinnedAsset(), PinnedManifest());
  }

  lemma ReleaseIsSealable(native: Option<string>, lock: Option<PayloadLock>, encoded: Bytes)
    ensures WellFormed(Release())
    ensures Sealable(Pinned(native, lock, encoded), Some(Release())) == Ok((PinnedAsset(), PinnedManifest()))
  {
    var env := Pinned(native, lock, encoded);
    TopIsGood();
    ReleaseIsPinned();
    ReadsEmpty(MANIFEST_FILE);
    ReadsEmpty(CONTRACT_LOCK_FILE);
    ReadsEmpty(UPSTREAM_CHECKSUM_FILE);
    ReadsEmpty(Under("contract", "a"));
    ContractFits(env);
    LockIsAbsent();
    ReleaseFits(env, Release());
  }

  lemma AbsentName(entries: seq<Entry>, name: string)
    requires ValidName(name) && Find(entries, name).None?
    ensures !Exists(Directory(entries), name)
  {
    SplitName(name);
  }

  lemma LongName(entries: seq<Entry>, name: string)
    requires forall i :: 0 <= i < |entries| ==> |entries[i].name| < |name|
    ensures Find(entries, name).None?
  {
    NotFound(entries, name);
  }

  lemma LockIsAbsent()
    ensures !Exists(Release(), PAYLOAD_LOCK_FILE)
  {
    LockNameIsValid();
    TopNames();
    forall i | 0 <= i < |Top()| ensures |Top()[i].name| < |PAYLOAD_LOCK_FILE| {
      assert NameLengths(Top())[i] < 31;
    }
    LongName(Top(), PAYLOAD_LOCK_FILE);
    AbsentName(Top(), PAYLOAD_LOCK_FILE);
  }

  // ----- sealed, and opened or not

  /** The lock sealing writes into the release. */
  ghost predicate Seals(env: Env, asset: Asset, m: Manifest, lock: PayloadLock) {
    && Sound(env, lock) && WellFormed(Release())
    && Sealable(env, Some(Release())) == Ok((asset, m))
    && LockFor(env, Release(), asset, lock)
  }

  lemma PinnedSeals(native: Option<string>, encoded: Bytes) returns (lock: PayloadLock)
    ensures Seals(Pinned(native, Some(lock), encoded), PinnedAsset(), PinnedManifest(), lock)
  {
    var unlocked := Pinned(native, None, encoded);
    ReleaseIsSealable(native, None, encoded);
    var files := CanBeLocked(unlocked, Release(), Inventory([], Top()));
    var pin := unlocked.pin;
    lock := PayloadLock(PAYLOAD_LOCK_API, pin.repository, pin.tag, pin.sourceRevision, PinnedAsset(), files);
    var env := Pinned(native, Some(lock), encoded);
    ReleaseIsSealable(native, Some(lock), encoded);
    forall i | 0 <= i < |files| ensures HasDigest(env, Release(), files[i]) {
      assert HasDigest(unlocked, Release(), files[i]);
    }
  }

  /** Some release is sealed and opens: what is said about sealed payloads is said of something. */
  lemma SealedMayOpen()
    ensures exists env, asset, m, lock ::
              && Seals(env, asset, m, lock)
              && Opened(env, Some(WithLock(Release(), env.encodeLock(lock)))).Ok?
  {
    var lock := PinnedSeals(Some(TARGET), []);
    var env := Pinned(Some(TARGET), Some(lock), []);
    SealThenOpen(env, Release(), PinnedAsset(), PinnedManifest(), lock);
  }

  /** Sealing a release for another target succeeds, and the payload does not open. */
  lemma SealedForAnotherTarget()
    ensures exists env, asset, m, lock ::
              && Seals(env, asset, m, lock)
              && env.native == Some(WINDOWS_TARGET)
              && Opened(env, Some(WithLock(Release(), env.encodeLock(lock)))).Err?
  {
    var lock := PinnedSeals(Some(WINDOWS_TARGET), []);
    var env := Pinned(Some(WINDOWS_TARGET), Some(lock), []);
    TargetIsNotWindows();
    SealThenOpen(env, Release(), PinnedAsset(), PinnedManifest(), lock);
  }

  /** Sealing with a lock above the size limit succeeds, and the payload does not open even on its own target. */
  lemma SealedWithLargeLock()
    ensures exists env, asset, m, lock ::
              && Seals(env, asset, m, lock)
              && env.native == Some(asset.target)
              && Opened(env, Some(WithLock(Release(), env.encodeLock(lock)))).Err?
  {
    var encoded: Bytes := seq(MAX_MACHINE_OUTPUT_BYTES + 1, _ => 0);
    var lock := PinnedSeals(Some(TARGET), encoded);
    var env := Pinned(Some(TARGET), Some(lock), encoded);
    SealThenOpen(env, Release(), PinnedAsset(), PinnedManifest(), lock);
  }
}
