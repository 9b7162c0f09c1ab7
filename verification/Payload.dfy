/**
 Sealing an extracted release and opening a sealed one (`seal_payload`,
 `ResolvedPayload::open` in crates/dsh-norm-bridge/src/upstream.rs). The JSON
 decoders, the lock encoder and the digest are given by the environment.
 */
module Payload {
  import opened Common
  import opened FileTree

  const PAYLOAD_LOCK_API := "dsh-norm-spec/upstream-payload/v1"
  const RELEASE_ARTIFACT_API := "norm-spec/release-artifact/v1"
  const NORM_CONTRACT_BUNDLE_API := "norm-spec/contract-bundle/v1"
  // In short pieces, which is how the solver sees that it is one file name.
  const PAYLOAD_LOCK_FILE := "dsh-norm-spec-" + "payload." + "lock.json"
  const MANIFEST_FILE := "release-manifest.json"
  const CONTRACT_LOCK_FILE := Under("contract", "bundle.lock.json")
  const SKILL_FOLDER := Under("skills", "norm-spec")
  const UPSTREAM_CHECKSUM_FILE := "archive.sha256"
  const WINDOWS_TARGET := "x86_64-pc-windows-msvc"
  const MAX_MACHINE_OUTPUT_BYTES := 16 * 1024 * 1024

  /** A portable path, folder by folder. */
  function Under(folder: string, name: string): string {
    folder + "/" + name
  }

  datatype PayloadError =
    | Unavailable
    | NotDirectory
    | AlreadySealed
    | UnsupportedPlatform
    | FileUnavailable
    | FileTooLarge
    | JsonInvalid
    | LockMismatch
    | LockInvalid
    | UnsafePath
    | InventoryMismatch
    | ContentMismatch
    | ManifestMismatch
    | ContractMismatch
    | ContractInvalid
    | ContractContentMismatch
    | ChecksumUnavailable
    | ChecksumMismatch
    | ReleaseInventoryMismatch
    | Symlinked
    | SpecialEntry
    | ReadDirectory

  datatype Asset = Asset(target: string, name: string, sha256: string, url: string)

  datatype Suite = Suite(bundleApi: string, reportApi: string, name: string, caseCount: nat, contractDigest: string)

  datatype Pin = Pin(repository: string, tag: string, sourceRevision: string, productName: string,
                     productVersion: string, compatibilityApi: string, conformance: Suite, assets: seq<Asset>)

  datatype Manifest = Manifest(apiVersion: string, productName: string, productVersion: string, target: string,
                               sourceRevision: string, norm: string, conformance: string, compatibilityApi: string,
                               contractPath: string, contract: Suite, skillPath: string)

  datatype LockedFile = LockedFile(path: string, sha256: string)

  datatype ContractLock = ContractLock(apiVersion: string, suite: string, caseCount: nat, contractDigest: string,
                                       files: seq<LockedFile>)

  datatype PayloadLock = PayloadLock(apiVersion: string, repository: string, tag: string, sourceRevision: string,
                                     asset: Asset, files: seq<LockedFile>)

  datatype Identity = Identity(repository: string, tag: string, sourceRevision: string, target: string,
                               assetName: string, assetSha256: string, contractDigest: string)

  /** What the bridge is compiled with and runs on. */
  datatype Env = Env(
    pin: Pin,
    native: Option<string>,
    parseManifest: Bytes -> Option<Manifest>,
    parseContract: Bytes -> Option<ContractLock>,
    parseLock: Bytes -> Option<PayloadLock>,
    encodeLock: PayloadLock -> Bytes,
    checksumFields: Bytes -> Option<seq<string>>,
    sha256: Bytes -> string)

  predicate IsSha256(s: string) {
    |s| == 64 && forall i :: 0 <= i < |s| ==> '0' <= s[i] <= '9' || 'a' <= s[i] <= 'f'
  }

  /** A lock survives encoding, and digests are written as 64 lower-case hexadecimal digits. */
  ghost predicate Sound(env: Env, lock: PayloadLock) {
    && env.parseLock(env.encodeLock(lock)) == Some(lock)
    && (forall b :: IsSha256(env.sha256(b)))
  }

  function FindAsset(assets: seq<Asset>, target: string): (r: Option<Asset>)
    ensures r.Some? ==> r.value.target == target
  {
    if assets == [] then None
    else if assets[0].target == target then Some(assets[0])
    else FindAsset(assets[1..], target)
  }

  function ReadJson<T>(root: Node, path: string, parse: Bytes -> Option<T>): Result<T, PayloadError> {
    match ReadFile(root, path)
    case None => Err(FileUnavailable)
    case Some(bytes) =>
      if |bytes| > MAX_MACHINE_OUTPUT_BYTES then Err(FileTooLarge)
      else
        match parse(bytes)
        case None => Err(JsonInvalid)
        case Some(v) => Ok(v)
  }

  function CollectInventory(root: Node): Result<set<string>, PayloadError> {
    if !root.Directory? then Err(ReadDirectory)
    else
      match FirstBad(root.entries)
      case Some(SymlinkEntry) => Err(Symlinked)
      case Some(UnsupportedEntry) => Err(SpecialEntry)
      case None => Ok(Inventory([], root.entries))
  }

  function Paths(files: seq<LockedFile>): set<string> {
    if files == [] then {} else Paths(files[..|files| - 1]) + {files[|files| - 1].path}
  }

  /** The first fault of a lock's file list, in list order. */
  function LockFilesError(files: seq<LockedFile>): Option<PayloadError> {
    if files == [] then None
    else
      var init, last := files[..|files| - 1], files[|files| - 1];
      var earlier := LockFilesError(init);
      if earlier.Some? then earlier
      else if !SafeRelative(last.path) then Some(UnsafePath)
      else if !IsSha256(last.sha256) || last.path in Paths(init) then Some(LockInvalid)
      else None
  }

  function PayloadLockError(lock: PayloadLock, pin: Pin, asset: Asset): Option<PayloadError> {
    if || lock.apiVersion != PAYLOAD_LOCK_API
       || lock.repository != pin.repository
       || lock.tag != pin.tag
       || lock.sourceRevision != pin.sourceRevision
       || lock.asset != asset
       || lock.files == []
    then Some(LockMismatch)
    else LockFilesError(lock.files)
  }

  /** The first locked file whose content is gone or changed. */
  function ContentError(env: Env, root: Node, files: seq<LockedFile>): Option<PayloadError> {
    if files == [] then None
    else
      var last := files[|files| - 1];
      var earlier := ContentError(env, root, files[..|files| - 1]);
      if earlier.Some? then earlier
      else
        match ReadFile(root, last.path)
        case None => Some(FileUnavailable)
        case Some(bytes) => if env.sha256(bytes) != last.sha256 then Some(ContentMismatch) else None
  }

  function LockedInventoryError(env: Env, root: Node, lock: PayloadLock): Option<PayloadError> {
    match CollectInventory(root)
    case Err(e) => Some(e)
    case Ok(actual) =>
      if actual != Paths(lock.files) + {PAYLOAD_LOCK_FILE} then Some(InventoryMismatch)
      else ContentError(env, root, lock.files)
  }

  function ContractPath(f: LockedFile): string {
    Under("contract", f.path)
  }

  /** The first fault of a contract lock's file list, contents included. */
  function ContractFilesError(env: Env, root: Node, files: seq<LockedFile>): Option<PayloadError> {
    if files == [] then None
    else
      var init, last := files[..|files| - 1], files[|files| - 1];
      var earlier := ContractFilesError(env, root, init);
      if earlier.Some? then earlier
      else if !SafeRelative(last.path) then Some(UnsafePath)
      else if !IsSha256(last.sha256) || last.path in Paths(init) then Some(ContractInvalid)
      else
        match ReadFile(root, ContractPath(last))
        case None => Some(FileUnavailable)
        case Some(bytes) => if env.sha256(bytes) != last.sha256 then Some(ContractContentMismatch) else None
  }

  function ContractError(env: Env, root: Node, lock: ContractLock): Option<PayloadError> {
    var expected := env.pin.conformance;
    if || lock.apiVersion != NORM_CONTRACT_BUNDLE_API
       || lock.apiVersion != expected.bundleApi
       || lock.suite != expected.name
       || lock.caseCount != expected.caseCount
       || lock.contractDigest != expected.contractDigest
       || lock.files == []
    then Some(ContractMismatch)
    else ContractFilesError(env, root, lock.files)
  }

  function ChecksumError(env: Env, root: Node, asset: Asset): Option<PayloadError> {
    match ReadFile(root, UPSTREAM_CHECKSUM_FILE)
    case None => Some(ChecksumUnavailable)
    case Some(bytes) =>
      match env.checksumFields(bytes)
      case None => Some(ChecksumUnavailable)
      case Some(fields) => if fields == [asset.sha256, asset.name] then None else Some(ChecksumMismatch)
  }

  function ExpectedNorm(target: string): string {
    if target == WINDOWS_TARGET then Under("bin", "norm.exe") else Under("bin", "norm")
  }

  function ExpectedConformance(target: string): string {
    if target == WINDOWS_TARGET then Under("bin", "norm-spec-conformance.exe")
    else Under("bin", "norm-spec-conformance")
  }

  predicate ManifestFits(pin: Pin, asset: Asset, m: Manifest) {
    && m.apiVersion == RELEASE_ARTIFACT_API
    && m.productName == pin.productName
    && m.productVersion == pin.productVersion
    && m.target == asset.target
    && m.sourceRevision == pin.sourceRevision
    && m.norm == ExpectedNorm(m.target)
    && m.conformance == ExpectedConformance(m.target)
    && m.compatibilityApi == pin.compatibilityApi
    && m.contractPath == "contract"
    && m.contract == pin.conformance
    && m.skillPath == SKILL_FOLDER
  }

  function ContractPaths(files: seq<LockedFile>): set<string> {
    if files == [] then {} else ContractPaths(files[..|files| - 1]) + {ContractPath(files[|files| - 1])}
  }

  function ReleaseInventory(lock: ContractLock, norm: string, conformance: string): set<string> {
    {"LICENSE", "README.md", "README.zh-CN.md", norm, conformance, CONTRACT_LOCK_FILE, MANIFEST_FILE,
     Under(SKILL_FOLDER, "SKILL.md"), Under(Under(SKILL_FOLDER, "references"), "authoring.md"),
     Under(Under(SKILL_FOLDER, "references"), "field-reference.md"), UPSTREAM_CHECKSUM_FILE}
    + ContractPaths(lock.files)
  }

  /** The inventory a release is compared with: the lock of a sealed payload is not part of it. */
  function ReleasePart(inventory: set<string>, isSealed: bool): set<string> {
    if isSealed then inventory - {PAYLOAD_LOCK_FILE} else inventory
  }

  function ValidateReleaseLayout(env: Env, root: Node, asset: Asset, isSealed: bool): Result<Manifest, PayloadError> {
    match ReadJson(root, MANIFEST_FILE, env.parseManifest)
    case Err(e) => Err(e)
    case Ok(m) =>
      if !ManifestFits(env.pin, asset, m) then Err(ManifestMismatch)
      else
        match ReadJson(root, CONTRACT_LOCK_FILE, env.parseContract)
        case Err(e) => Err(e)
        case Ok(contract) => LayoutAfterContract(env, root, asset, isSealed, m, contract)
  }

  function LayoutAfterContract(env: Env, root: Node, asset: Asset, isSealed: bool, m: Manifest, contract: ContractLock)
    : Result<Manifest, PayloadError>
  {
    match ContractError(env, root, contract)
    case Some(e) => Err(e)
    case None =>
      match ChecksumError(env, root, asset)
      case Some(e) => Err(e)
      case None =>
        match CollectInventory(root)
        case Err(e) => Err(e)
        case Ok(actual) =>
          if ReleasePart(actual, isSealed) != ReleaseInventory(contract, m.norm, m.conformance)
          then Err(ReleaseInventoryMismatch)
          else Ok(m)
  }

  function PayloadIdentity(pin: Pin, asset: Asset, m: Manifest): Identity {
    Identity(pin.repository, pin.tag, pin.sourceRevision, asset.target, asset.name, asset.sha256,
             m.contract.contractDigest)
  }

  /** Opening a payload: what it is, or the first thing wrong with it. */
  function Opened(env: Env, root: Option<Node>): Result<Identity, PayloadError> {
    match root
    case None => Err(Unavailable)
    case Some(tree) =>
      if tree.Symlink? then Err(Symlinked)
      else if !tree.Directory? then Err(NotDirectory)
      else
        match env.native
        case None => Err(UnsupportedPlatform)
        case Some(target) =>
          match FindAsset(env.pin.assets, target)
          case None => Err(UnsupportedPlatform)
          case Some(asset) =>
            match ReadJson(tree, PAYLOAD_LOCK_FILE, env.parseLock)
            case Err(e) => Err(e)
            case Ok(lock) => OpenedWith(env, tree, asset, lock)
  }

  function OpenedWith(env: Env, tree: Node, asset: Asset, lock: PayloadLock): Result<Identity, PayloadError> {
    var badLock := PayloadLockError(lock, env.pin, asset);
    var badFiles := LockedInventoryError(env, tree, lock);
    if badLock.Some? then Err(badLock.value)
    else if badFiles.Some? then Err(badFiles.value)
    else
      match ValidateReleaseLayout(env, tree, asset, true)
      case Err(e) => Err(e)
      case Ok(m) => Ok(PayloadIdentity(env.pin, asset, m))
  }

  /** Everything sealing checks before it writes: the asset and the manifest of a release that may be sealed. */
  function Sealable(env: Env, root: Option<Node>): Result<(Asset, Manifest), PayloadError> {
    match root
    case None => Err(Unavailable)
    case Some(tree) =>
      if tree.Symlink? then Err(Symlinked)
      else if Exists(tree, PAYLOAD_LOCK_FILE) then Err(AlreadySealed)
      else
        match ReadJson(tree, MANIFEST_FILE, env.parseManifest)
        case Err(e) => Err(e)
        case Ok(m) =>
          match FindAsset(env.pin.assets, m.target)
          case None => Err(UnsupportedPlatform)
          case Some(asset) =>
            match ValidateReleaseLayout(env, tree, asset, false)
            case Err(e) => Err(e)
            case Ok(manifest) => Ok((asset, manifest))
  }

  /** A file list naming every file of a tree once, with its digest. */
  ghost predicate Locks(env: Env, tree: Node, inventory: set<string>, files: seq<LockedFile>) {
    && Paths(files) == inventory
    && (forall i, j :: 0 <= i < j < |files| ==> files[i].path != files[j].path)
    && (forall i :: 0 <= i < |files| ==> HasDigest(env, tree, files[i]))
  }

  predicate HasDigest(env: Env, tree: Node, f: LockedFile) {
    match ReadFile(tree, f.path)
    case None => false
    case Some(bytes) => env.sha256(bytes) == f.sha256
  }

  /** The lock sealing writes: the pin, the asset, and every file of the release. */
  ghost predicate LockFor(env: Env, tree: Node, asset: Asset, lock: PayloadLock) {
    && tree.Directory?
    && lock == PayloadLock(PAYLOAD_LOCK_API, env.pin.repository, env.pin.tag, env.pin.sourceRevision, asset, lock.files)
    && Locks(env, tree, Inventory([], tree.entries), lock.files)
  }

  function WithLock(tree: Node, content: Bytes): Node
    requires tree.Directory?
  {
    Directory(tree.entries + [Entry(PAYLOAD_LOCK_FILE, File(content))])
  }

  method ValidatePayloadLock(lock: PayloadLock, pin: Pin, asset: Asset) returns (r: Result<(), PayloadError>)
    ensures r == match PayloadLockError(lock, pin, asset) case None => Ok(()) case Some(e) => Err(e)
  {
    if || lock.apiVersion != PAYLOAD_LOCK_API
       || lock.repository != pin.repository
       || lock.tag != pin.tag
       || lock.sourceRevision != pin.sourceRevision
       || lock.asset != asset
       || lock.files == []
    {
      return Err(LockMismatch);
    }
    var paths := {};
    for i := 0 to |lock.files|
      invariant LockFilesError(lock.files[..i]).None? && paths == Paths(lock.files[..i])
    {
      var file := lock.files[i];
      assert lock.files[..i + 1][..i] == lock.files[..i];
      if LockFilesError(lock.files[..i + 1]).Some? { LockErrorEarly(lock.files, i + 1); }
      if !SafeRelative(file.path) {
        return Err(UnsafePath);
      }
      if !IsSha256(file.sha256) || file.path in paths {
        return Err(LockInvalid);
      }
      paths := paths + {file.path};
    }
    assert lock.files[..|lock.files|] == lock.files;
    r := Ok(());
  }

  lemma {:induction false} LockErrorEarly(files: seq<LockedFile>, k: nat)
    requires k <= |files| && LockFilesError(files[..k]).Some?
    ensures LockFilesError(files) == LockFilesError(files[..k])
  {
    if k == |files| {
      assert files[..k] == files;
    } else {
      assert files[..|files| - 1][..k] == files[..k];
      LockErrorEarly(files[..|files| - 1], k);
    }
  }

  method ValidateLockedInventory(env: Env, root: Node, lock: PayloadLock) returns (r: Result<(), PayloadError>)
    ensures r == match LockedInventoryError(env, root, lock) case None => Ok(()) case Some(e) => Err(e)
  {
    var actual := CollectInventory(root);
    if actual.Err? {
      return Err(actual.error);
    }
    var expected := {};
    for i := 0 to |lock.files|
      invariant expected == Paths(lock.files[..i])
    {
      assert lock.files[..i + 1][..i] == lock.files[..i];
      expected := expected + {lock.files[i].path};
    }
    assert lock.files[..|lock.files|] == lock.files;
    if actual.value != expected + {PAYLOAD_LOCK_FILE} {
      return Err(InventoryMismatch);
    }
    for i := 0 to |lock.files|
      invariant ContentError(env, root, lock.files[..i]).None?
    {
      assert lock.files[..i + 1][..i] == lock.files[..i];
      if ContentError(env, root, lock.files[..i + 1]).Some? { ContentErrorEarly(env, root, lock.files, i + 1); }
      var content := ReadFile(root, lock.files[i].path);
      if content.None? {
        return Err(FileUnavailable);
      }
      if env.sha256(content.value) != lock.files[i].sha256 {
        return Err(ContentMismatch);
      }
    }
    r := Ok(());
  }

  lemma {:induction false} ContentErrorEarly(env: Env, root: Node, files: seq<LockedFile>, k: nat)
    requires k <= |files| && ContentError(env, root, files[..k]).Some?
    ensures ContentError(env, root, files) == ContentError(env, root, files[..k])
  {
    if k == |files| {
      assert files[..k] == files;
    } else {
      assert files[..|files| - 1][..k] == files[..k];
      ContentErrorEarly(env, root, files[..|files| - 1], k);
    }
  }

  method ValidateContract(env: Env, root: Node, lock: ContractLock) returns (r: Result<(), PayloadError>)
    ensures r == match ContractError(env, root, lock) case None => Ok(()) case Some(e) => Err(e)
  {
    var expected := env.pin.conformance;
    if || lock.apiVersion != NORM_CONTRACT_BUNDLE_API
       || lock.apiVersion != expected.bundleApi
       || lock.suite != expected.name
       || lock.caseCount != expected.caseCount
       || lock.contractDigest != expected.contractDigest
       || lock.files == []
    {
      return Err(ContractMismatch);
    }
    var seen := {};
    for i := 0 to |lock.files|
      invariant ContractFilesError(env, root, lock.files[..i]).None? && seen == Paths(lock.files[..i])
    {
      var file := lock.files[i];
      assert lock.files[..i + 1][..i] == lock.files[..i];
      if ContractFilesError(env, root, lock.files[..i + 1]).Some? { ContractErrorEarly(env, root, lock.files, i + 1); }
      if !SafeRelative(file.path) {
        return Err(UnsafePath);
      }
      if !IsSha256(file.sha256) || file.path in seen {
        return Err(ContractInvalid);
      }
      seen := seen + {file.path};
      var content := ReadFile(root, ContractPath(file));
      if content.None? {
        return Err(FileUnavailable);
      }
      if env.sha256(content.value) != file.sha256 {
        return Err(ContractContentMismatch);
      }
    }
    assert lock.files[..|lock.files|] == lock.files;
    r := Ok(());
  }

  lemma {:induction false} ContractErrorEarly(env: Env, root: Node, files: seq<LockedFile>, k: nat)
    requires k <= |files| && ContractFilesError(env, root, files[..k]).Some?
    ensures ContractFilesError(env, root, files) == ContractFilesError(env, root, files[..k])
  {
    if k == |files| {
      assert files[..k] == files;
    } else {
      assert files[..|files| - 1][..k] == files[..k];
      ContractErrorEarly(env, root, files[..|files| - 1], k);
    }
  }

  /** A payload directory on disk. */
  class PayloadDirectory {
    var root: Option<Node>

    ghost predicate Valid()
      reads this
    {
      root.Some? ==> WellFormed(root.value)
    }

    constructor (root: Option<Node>)
      requires root.Some? ==> WellFormed(root.value)
      ensures Valid() && this.root == root
    {
      this.root := root;
    }

    /** Refuses a directory that is not the pinned release; otherwise writes its lock and nothing else. */
    method Seal(env: Env) returns (r: Result<Identity, PayloadError>)
      requires Valid()
      modifies this
      ensures r.Err? <==> Sealable(env, old(root)).Err?
      ensures r.Err? ==> root == old(root) && r.error == Sealable(env, old(root)).error
      ensures r.Ok? ==>
        var (asset, m) := Sealable(env, old(root)).value;
        && r.value == PayloadIdentity(env.pin, asset, m)
        && exists lock :: LockFor(env, old(root).value, asset, lock)
             && root == Some(WithLock(old(root).value, env.encodeLock(lock)))
    {
      var plan := Sealable(env, root);
      if plan.Err? {
        return Err(plan.error);
      }
      var (asset, manifest) := plan.value;
      var tree := root.value;
      SealableInventory(env, tree);
      var inventory := CollectInventory(tree).value;
      var files := LockFiles(env, tree, inventory);
      var lock := PayloadLock(PAYLOAD_LOCK_API, env.pin.repository, env.pin.tag, env.pin.sourceRevision, asset, files);
      assert LockFor(env, tree, asset, lock);
      root := Some(WithLock(tree, env.encodeLock(lock)));
      r := Ok(PayloadIdentity(env.pin, asset, manifest));
    }

    method Open(env: Env) returns (r: Result<Identity, PayloadError>)
      ensures r == Opened(env, root)
    {
      if root.None? {
        return Err(Unavailable);
      }
      var tree := root.value;
      if tree.Symlink? {
        return Err(Symlinked);
      }
      if !tree.Directory? {
        return Err(NotDirectory);
      }
      if env.native.None? {
        return Err(UnsupportedPlatform);
      }
      var asset := FindAsset(env.pin.assets, env.native.value);
      if asset.None? {
        return Err(UnsupportedPlatform);
      }
      var lock := ReadJson(tree, PAYLOAD_LOCK_FILE, env.parseLock);
      if lock.Err? {
        return Err(lock.error);
      }
      var locked := ValidatePayloadLock(lock.value, env.pin, asset.value);
      if locked.Err? {
        return Err(locked.error);
      }
      var listed := ValidateLockedInventory(env, tree, lock.value);
      if listed.Err? {
        return Err(listed.error);
      }
      var manifest := ValidateReleaseLayout(env, tree, asset.value, true);
      if manifest.Err? {
        return Err(manifest.error);
      }
      r := Ok(PayloadIdentity(env.pin, asset.value, manifest.value));
    }
  }

  lemma SealableInventory(env: Env, tree: Node)
    requires Sealable(env, Some(tree)).Ok?
    ensures CollectInventory(tree).Ok? && !Exists(tree, PAYLOAD_LOCK_FILE)
    ensures ValidateReleaseLayout(env, tree, Sealable(env, Some(tree)).value.0, false)
         == Ok(Sealable(env, Some(tree)).value.1)
  {
    LayoutInventory(env, tree, Sealable(env, Some(tree)).value.0, false);
  }

  lemma LayoutInventory(env: Env, root: Node, asset: Asset, isSealed: bool)
    requires ValidateReleaseLayout(env, root, asset, isSealed).Ok?
    ensures CollectInventory(root).Ok?
  {
  }

  /** Digests every file of an inventory, one after the other. */
  method LockFiles(env: Env, tree: Node, inventory: set<string>) returns (files: seq<LockedFile>)
    requires tree.Directory? && WellFormed(tree) && inventory <= Inventory([], tree.entries)
    ensures Locks(env, tree, inventory, files)
  {
    var remaining := inventory;
    files := [];
    while remaining != {}
      invariant remaining <= inventory
      invariant Locks(env, tree, inventory - remaining, files)
      decreases remaining
    {
      var path :| path in remaining;
      ghost var names := ListedReads(tree.entries, path);
      LockOneMore(env, tree, inventory - remaining, files, path);
      files := files + [LockedFile(path, env.sha256(ReadFile(tree, path).value))];
      assert inventory - remaining + {path} == inventory - (remaining - {path});
      remaining := remaining - {path};
    }
    assert inventory - {} == inventory;
  }

  lemma LockOneMore(env: Env, tree: Node, inventory: set<string>, files: seq<LockedFile>, path: string)
    requires Locks(env, tree, inventory, files) && path !in inventory && ReadFile(tree, path).Some?
    ensures Locks(env, tree, inventory + {path}, files + [LockedFile(path, env.sha256(ReadFile(tree, path).value))])
  {
    var file := LockedFile(path, env.sha256(ReadFile(tree, path).value));
    PathsAreTheirs(files);
    SplitsLast(files + [file]);
    assert (files + [file])[..|files|] == files;
    forall i, j | 0 <= i < j < |files + [file]| ensures (files + [file])[i].path != (files + [file])[j].path {
      assert files[i].path in Paths(files);
    }
  }

  lemma {:induction false} PathsAreTheirs(files: seq<LockedFile>)
    ensures forall p :: p in Paths(files) <==> exists i :: 0 <= i < |files| && files[i].path == p
  {
    if files != [] {
      var init, last := files[..|files| - 1], files[|files| - 1];
      PathsAreTheirs(init);
      forall p ensures p in Paths(files) <==> exists i :: 0 <= i < |files| && files[i].path == p {
        if p in Paths(init) {
          var i :| 0 <= i < |init| && init[i].path == p;
          assert files[i].path == p;
        }
        if i :| 0 <= i < |files| && files[i].path == p {
          if i < |init| { assert init[i].path == p; }
        }
      }
    }
  }
}
