/**
 Exactly what is admitted: the releases that may be sealed and the payloads that
 open, said without regard to the order in which they are checked.
 */
module Admission {
  import opened Common
  import opened FileTree
  import opened Payload
  import opened PayloadProperties

  /** The file at `path` is read, stays within the size limit, and decodes to `value`. */
  ghost predicate Holds<T(!new)>(tree: Node, path: string, parse: Bytes -> Option<T>, value: T) {
    exists bytes ::
      ReadFile(tree, path) == Some(bytes) && |bytes| <= MAX_MACHINE_OUTPUT_BYTES && parse(bytes) == Some(value)
  }

  lemma HeldIsRead<T(!new)>(tree: Node, path: string, parse: Bytes -> Option<T>, value: T)
    ensures ReadJson(tree, path, parse) == Ok(value) <==> Holds(tree, path, parse, value)
  {
  }

  // ----- file lists

  /** Safe, distinct paths with well-formed digests. */
  ghost predicate ProperList(files: seq<LockedFile>) {
    && (forall i :: 0 <= i < |files| ==> SafeRelative(files[i].path) && IsSha256(files[i].sha256))
    && (forall i, j :: 0 <= i < j < |files| ==> files[i].path != files[j].path)
  }

  lemma ProperSplits(files: seq<LockedFile>)
    requires files != []
    ensures var init, last := files[..|files| - 1], files[|files| - 1];
      ProperList(files) <==>
        ProperList(init) && SafeRelative(last.path) && IsSha256(last.sha256) && last.path !in Paths(init)
  {
    LockFilesAccepted(files);
    LockFilesAccepted(files[..|files| - 1]);
  }

  /** The file of the contract bundle is there with the digest the contract lock gives it. */
  predicate BundleHas(env: Env, tree: Node, f: LockedFile) {
    ReadFile(tree, Under("contract", f.path)).Some?
    && env.sha256(ReadFile(tree, Under("contract", f.path)).value) == f.sha256
  }

  /** A contract's file list is accepted exactly when it is proper and every file of it is in the bundle, unchanged. */
  lemma {:induction false} ContractFilesAccepted(env: Env, tree: Node, files: seq<LockedFile>)
    ensures ContractFilesError(env, tree, files).None? <==>
      ProperList(files) && forall i :: 0 <= i < |files| ==> BundleHas(env, tree, files[i])
  {
    if files != [] {
      var init, last := files[..|files| - 1], files[|files| - 1];
      ContractFilesAccepted(env, tree, init);
      LastFile(env, tree, files);
      ProperSplits(files);
      assert forall i :: 0 <= i < |init| ==> init[i] == files[i];
    }
  }

  /** What the last entry adds to the check. */
  lemma LastFile(env: Env, tree: Node, files: seq<LockedFile>)
    requires files != []
    ensures var init, last := files[..|files| - 1], files[|files| - 1];
      ContractFilesError(env, tree, files).None? <==>
        && ContractFilesError(env, tree, init).None?
        && SafeRelative(last.path) && IsSha256(last.sha256) && last.path !in Paths(init) && BundleHas(env, tree, last)
  {
  }

  // ----- the records a release must hold

  /** The one manifest the pin allows for an asset. */
  function ManifestOf(pin: Pin, asset: Asset): Manifest {
    Manifest(RELEASE_ARTIFACT_API, pin.productName, pin.productVersion, asset.target, pin.sourceRevision,
             ExpectedNorm(asset.target), ExpectedConformance(asset.target), pin.compatibilityApi, "contract",
             pin.conformance, SKILL_FOLDER)
  }

  /** The manifest is pinned in every field: the pin and the asset leave only one. */
  lemma ManifestIsPinned(pin: Pin, asset: Asset, m: Manifest)
    ensures ManifestFits(pin, asset, m) <==> m == ManifestOf(pin, asset)
  {
  }

  /** The contract lock of the pinned suite, with these files. */
  function ContractOf(pin: Pin, files: seq<LockedFile>): ContractLock {
    ContractLock(pin.conformance.bundleApi, pin.conformance.name, pin.conformance.caseCount,
                 pin.conformance.contractDigest, files)
  }

  ghost predicate GoodContract(env: Env, tree: Node, contract: ContractLock) {
    && env.pin.conformance.bundleApi == NORM_CONTRACT_BUNDLE_API
    && contract == ContractOf(env.pin, contract.files) && contract.files != []
    && ProperList(contract.files)
    && forall i :: 0 <= i < |contract.files| ==> BundleHas(env, tree, contract.files[i])
  }

  lemma ContractAccepted(env: Env, tree: Node, contract: ContractLock)
    ensures ContractError(env, tree, contract).None? <==> GoodContract(env, tree, contract)
  {
    ContractFilesAccepted(env, tree, contract.files);
  }

  ghost predicate GoodChecksum(env: Env, tree: Node, asset: Asset) {
    exists bytes ::
      ReadFile(tree, UPSTREAM_CHECKSUM_FILE) == Some(bytes)
      && env.checksumFields(bytes) == Some([asset.sha256, asset.name])
  }

  lemma ChecksumAccepted(env: Env, tree: Node, asset: Asset)
    ensures ChecksumError(env, tree, asset).None? <==> GoodChecksum(env, tree, asset)
  {
  }

  /** The pinned release: its manifest and contract, its checksum, and its files and no others. */
  ghost predicate IsRelease(env: Env, tree: Node, asset: Asset, inventory: set<string>) {
    && Holds(tree, MANIFEST_FILE, env.parseManifest, ManifestOf(env.pin, asset))
    && GoodChecksum(env, tree, asset)
    && exists contract ::
         && Holds(tree, CONTRACT_LOCK_FILE, env.parseContract, contract)
         && GoodContract(env, tree, contract)
         && inventory == ReleaseInventory(contract, ExpectedNorm(asset.target), ExpectedConformance(asset.target))
  }

  lemma AfterContractAccepted(env: Env, tree: Node, asset: Asset, isSealed: bool, contract: ContractLock)
    requires CollectInventory(tree).Ok?
    ensures var m := ManifestOf(env.pin, asset);
      LayoutAfterContract(env, tree, asset, isSealed, m, contract) == Ok(m) <==>
        && GoodContract(env, tree, contract) && GoodChecksum(env, tree, asset)
        && ReleasePart(CollectInventory(tree).value, isSealed)
           == ReleaseInventory(contract, ExpectedNorm(asset.target), ExpectedConformance(asset.target))
  {
    ContractAccepted(env, tree, contract);
    ChecksumAccepted(env, tree, asset);
  }

  /** The layout check, record by record. */
  lemma LayoutUnfolds(env: Env, tree: Node, asset: Asset, isSealed: bool, m: Manifest)
    ensures var contract := ReadJson(tree, CONTRACT_LOCK_FILE, env.parseContract);
      ValidateReleaseLayout(env, tree, asset, isSealed) == Ok(m) <==>
        && ReadJson(tree, MANIFEST_FILE, env.parseManifest) == Ok(m) && ManifestFits(env.pin, asset, m)
        && contract.Ok? && LayoutAfterContract(env, tree, asset, isSealed, m, contract.value) == Ok(m)
  {
    if ValidateReleaseLayout(env, tree, asset, isSealed) == Ok(m) {
      LayoutReportsManifest(env, tree, asset, isSealed, m);
    }
  }

  lemma ContractIsHeld(env: Env, tree: Node)
    ensures forall contract ::
      ReadJson(tree, CONTRACT_LOCK_FILE, env.parseContract) == Ok(contract)
      <==> Holds(tree, CONTRACT_LOCK_FILE, env.parseContract, contract)
  {
  }

  /**
   The layout check accepts exactly the pinned release in a tree without links
   and special entries, and reports its manifest.
   */
  lemma {:induction false} ReleaseAcceptedIff(env: Env, tree: Node, asset: Asset, isSealed: bool, m: Manifest)
    ensures ValidateReleaseLayout(env, tree, asset, isSealed) == Ok(m) <==>
      && CollectInventory(tree).Ok? && m == ManifestOf(env.pin, asset)
      && IsRelease(env, tree, asset, ReleasePart(CollectInventory(tree).value, isSealed))
  {
    LayoutUnfolds(env, tree, asset, isSealed, m);
    ManifestIsPinned(env.pin, asset, m);
    HeldIsRead(tree, MANIFEST_FILE, env.parseManifest, m);
    ContractIsHeld(env, tree);
    var contract := ReadJson(tree, CONTRACT_LOCK_FILE, env.parseContract);
    if contract.Ok? {
      if CollectInventory(tree).Ok? {
        AfterContractAccepted(env, tree, asset, isSealed, contract.value);
      } else {
        NothingAfterRefusedEntry(env, tree, asset, isSealed, m, contract.value);
      }
    }
  }

  lemma NothingAfterRefusedEntry(env: Env, tree: Node, asset: Asset, isSealed: bool, m: Manifest,
                                 contract: ContractLock)
    requires CollectInventory(tree).Err?
    ensures LayoutAfterContract(env, tree, asset, isSealed, m, contract).Err?
  {
  }

  // ----- sealed payloads

  /** The lock of the pinned release for an asset, with these files. */
  function LockOf(pin: Pin, asset: Asset, files: seq<LockedFile>): PayloadLock {
    PayloadLock(PAYLOAD_LOCK_API, pin.repository, pin.tag, pin.sourceRevision, asset, files)
  }

  /** The lock is the pin's, and lists every file beside itself with its digest. */
  ghost predicate GoodLock(env: Env, tree: Node, asset: Asset, lock: PayloadLock) {
    && lock == LockOf(env.pin, asset, lock.files) && lock.files != [] && ProperList(lock.files)
    && CollectInventory(tree) == Ok(Paths(lock.files) + {PAYLOAD_LOCK_FILE})
    && forall i :: 0 <= i < |lock.files| ==> HasDigest(env, tree, lock.files[i])
  }

  lemma LockAccepted(env: Env, tree: Node, asset: Asset, lock: PayloadLock)
    ensures PayloadLockError(lock, env.pin, asset).None? && LockedInventoryError(env, tree, lock).None?
      <==> GoodLock(env, tree, asset, lock)
  {
    LockFilesAccepted(lock.files);
    ContentsAccepted(env, tree, lock.files);
  }

  /** What opens on a platform with this asset. */
  ghost predicate IsPayload(env: Env, tree: Node, asset: Asset) {
    && tree.Directory? && CollectInventory(tree).Ok?
    && (exists lock :: Holds(tree, PAYLOAD_LOCK_FILE, env.parseLock, lock) && GoodLock(env, tree, asset, lock))
    && IsRelease(env, tree, asset, CollectInventory(tree).value - {PAYLOAD_LOCK_FILE})
  }

  lemma WithLockAccepted(env: Env, tree: Node, asset: Asset, lock: PayloadLock)
    ensures OpenedWith(env, tree, asset, lock).Ok? <==>
      && GoodLock(env, tree, asset, lock)
      && IsRelease(env, tree, asset, CollectInventory(tree).value - {PAYLOAD_LOCK_FILE})
    ensures OpenedWith(env, tree, asset, lock).Ok? ==>
      OpenedWith(env, tree, asset, lock).value == PayloadIdentity(env.pin, asset, ManifestOf(env.pin, asset))
  {
    LockAccepted(env, tree, asset, lock);
    ReleaseAcceptedIff(env, tree, asset, true, ManifestOf(env.pin, asset));
    var layout := ValidateReleaseLayout(env, tree, asset, true);
    if layout.Ok? { ReleaseAcceptedIff(env, tree, asset, true, layout.value); }
  }

  /** The identity a payload is opened with: all of it is in the pin. */
  function IdentityOf(pin: Pin, asset: Asset): Identity {
    Identity(pin.repository, pin.tag, pin.sourceRevision, asset.target, asset.name, asset.sha256,
             pin.conformance.contractDigest)
  }

  /**
   A directory opens if and only if it is the pinned payload for the native
   target, whole and unchanged, and it opens with the identity the pin gives it.
   */
  lemma {:induction false} OpensIffPinned(env: Env, tree: Node, identity: Identity)
    ensures Opened(env, Some(tree)) == Ok(identity) <==>
      && env.native.Some? && FindAsset(env.pin.assets, env.native.value).Some?
      && IsPayload(env, tree, FindAsset(env.pin.assets, env.native.value).value)
      && identity == IdentityOf(env.pin, FindAsset(env.pin.assets, env.native.value).value)
  {
    if tree.Directory? && env.native.Some? && FindAsset(env.pin.assets, env.native.value).Some? {
      var asset := FindAsset(env.pin.assets, env.native.value).value;
      OpensWithItsLock(env, tree, asset);
    }
  }

  lemma OpensWithItsLock(env: Env, tree: Node, asset: Asset)
    requires tree.Directory?
    ensures var lock := ReadJson(tree, PAYLOAD_LOCK_FILE, env.parseLock);
      && (lock.Ok? && OpenedWith(env, tree, asset, lock.value).Ok? <==> IsPayload(env, tree, asset))
      && (lock.Ok? && OpenedWith(env, tree, asset, lock.value).Ok? ==>
            OpenedWith(env, tree, asset, lock.value).value == IdentityOf(env.pin, asset))
  {
    var read := ReadJson(tree, PAYLOAD_LOCK_FILE, env.parseLock);
    forall lock ensures read == Ok(lock) <==> Holds(tree, PAYLOAD_LOCK_FILE, env.parseLock, lock) {
      HeldIsRead(tree, PAYLOAD_LOCK_FILE, env.parseLock, lock);
    }
    if read.Ok? { WithLockAccepted(env, tree, asset, read.value); }
  }

  lemma LayoutReportsManifest(env: Env, tree: Node, asset: Asset, isSealed: bool, m: Manifest)
    requires ValidateReleaseLayout(env, tree, asset, isSealed) == Ok(m)
    ensures ReadJson(tree, MANIFEST_FILE, env.parseManifest) == Ok(m) && m.target == asset.target
  {
  }

  lemma SealableMeans(env: Env, tree: Node, asset: Asset, m: Manifest)
    ensures Sealable(env, Some(tree)) == Ok((asset, m)) <==>
      && !tree.Symlink? && !Exists(tree, PAYLOAD_LOCK_FILE)
      && FindAsset(env.pin.assets, asset.target) == Some(asset)
      && ValidateReleaseLayout(env, tree, asset, false) == Ok(m)
  {
    if ValidateReleaseLayout(env, tree, asset, false) == Ok(m) { LayoutReportsManifest(env, tree, asset, false, m); }
    var found := ReadJson(tree, MANIFEST_FILE, env.parseManifest);
    if found.Ok? && Sealable(env, Some(tree)) == Ok((asset, m)) {
      assert FindAsset(env.pin.assets, found.value.target) == Some(asset);
    }
  }

  /**
   A directory may be sealed if and only if it holds no lock and is the pinned
   release, whole and unchanged, for the target its own manifest names.
   */
  lemma {:induction false} SealsIffPinned(env: Env, tree: Node, asset: Asset, m: Manifest)
    ensures Sealable(env, Some(tree)) == Ok((asset, m)) <==>
      && !tree.Symlink? && !Exists(tree, PAYLOAD_LOCK_FILE) && CollectInventory(tree).Ok?
      && FindAsset(env.pin.assets, asset.target) == Some(asset) && m == ManifestOf(env.pin, asset)
      && IsRelease(env, tree, asset, CollectInventory(tree).value)
  {
    SealableMeans(env, tree, asset, m);
    ReleaseAcceptedIff(env, tree, asset, false, m);
  }
}
