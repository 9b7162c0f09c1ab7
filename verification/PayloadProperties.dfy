/** Sealing and opening agree, and a sealed payload opens only with the very files it was sealed with. */
module PayloadProperties {
  import opened Common
  import opened FileTree
  import opened Payload

  /** The file list of a lock is accepted exactly when its paths are safe and distinct and its digests well formed. */
  lemma {:induction false} LockFilesAccepted(files: seq<LockedFile>)
    ensures LockFilesError(files).None? <==>
      && (forall i :: 0 <= i < |files| ==> SafeRelative(files[i].path) && IsSha256(files[i].sha256))
      && (forall i, j :: 0 <= i < j < |files| ==> files[i].path != files[j].path)
  {
    if files != [] {
      var init, last := files[..|files| - 1], files[|files| - 1];
      assert forall i :: 0 <= i < |init| ==> init[i] == files[i];
      LockFilesAccepted(init);
      PathsAreTheirs(init);
      if last.path in Paths(init) {
        var i :| 0 <= i < |init| && init[i].path == last.path;
        assert files[i].path == files[|files| - 1].path;
      }
    }
  }

  /** Every locked file is found with its digest exactly when the content check finds no fault. */
  lemma {:induction false} ContentsAccepted(env: Env, tree: Node, files: seq<LockedFile>)
    ensures ContentError(env, tree, files).None? <==> forall i :: 0 <= i < |files| ==> HasDigest(env, tree, files[i])
  {
    if files != [] {
      var init := files[..|files| - 1];
      assert forall i :: 0 <= i < |init| ==> init[i] == files[i];
      ContentsAccepted(env, tree, init);
    }
  }

  lemma {:induction false} ContractFilesTransfer(env: Env, a: Node, b: Node, files: seq<LockedFile>)
    requires forall p :: p in ContractPaths(files) ==> ReadFile(a, p) == ReadFile(b, p)
    ensures ContractFilesError(env, a, files) == ContractFilesError(env, b, files)
  {
    if files != [] {
      assert ContractPath(files[|files| - 1]) in ContractPaths(files);
      ContractFilesTransfer(env, a, b, files[..|files| - 1]);
    }
  }

  /** Both trees hold the same content under every one of these paths. */
  ghost predicate SameReads(a: Node, b: Node, paths: set<string>) {
    forall p :: p in paths ==> ReadFile(a, p) == ReadFile(b, p)
  }

  /** The layout check reads only files of the release, so it cannot tell apart trees that agree on those. */
  lemma {:induction false} LayoutTransfers(env: Env, a: Node, b: Node, asset: Asset, sealedA: bool, sealedB: bool)
    requires ValidateReleaseLayout(env, a, asset, sealedA).Ok?
    requires CollectInventory(a).Ok? && CollectInventory(b).Ok?
    requires ReleasePart(CollectInventory(a).value, sealedA) == ReleasePart(CollectInventory(b).value, sealedB)
    requires SameReads(a, b, ReleasePart(CollectInventory(a).value, sealedA))
    ensures ValidateReleaseLayout(env, b, asset, sealedB) == ValidateReleaseLayout(env, a, asset, sealedA)
  {
    var m := ReadJson(a, MANIFEST_FILE, env.parseManifest).value;
    var contract := ReadJson(a, CONTRACT_LOCK_FILE, env.parseContract).value;
    LayoutListsWhatItReads(env, a, asset, sealedA, m, contract);
    LayoutAfterContractTransfers(env, a, b, asset, sealedA, sealedB, m, contract);
    assert ReadJson(b, MANIFEST_FILE, env.parseManifest) == Ok(m);
    assert ReadJson(b, CONTRACT_LOCK_FILE, env.parseContract) == Ok(contract);
  }

  lemma LayoutListsWhatItReads(env: Env, a: Node, asset: Asset, isSealed: bool, m: Manifest, contract: ContractLock)
    requires LayoutAfterContract(env, a, asset, isSealed, m, contract).Ok? && CollectInventory(a).Ok?
    ensures {MANIFEST_FILE, CONTRACT_LOCK_FILE, UPSTREAM_CHECKSUM_FILE} + ContractPaths(contract.files)
         <= ReleasePart(CollectInventory(a).value, isSealed)
  {
  }

  lemma LayoutAfterContractTransfers(env: Env, a: Node, b: Node, asset: Asset, sealedA: bool, sealedB: bool,
                                     m: Manifest, contract: ContractLock)
    requires LayoutAfterContract(env, a, asset, sealedA, m, contract).Ok?
    requires CollectInventory(a).Ok? && CollectInventory(b).Ok?
    requires ReleasePart(CollectInventory(a).value, sealedA) == ReleasePart(CollectInventory(b).value, sealedB)
    requires SameReads(a, b, ReleasePart(CollectInventory(a).value, sealedA))
    ensures LayoutAfterContract(env, b, asset, sealedB, m, contract) == Ok(m)
         == LayoutAfterContract(env, a, asset, sealedA, m, contract)
  {
    LayoutListsWhatItReads(env, a, asset, sealedA, m, contract);
    ContractFilesTransfer(env, a, b, contract.files);
  }

  lemma LockNameIsValid()
    ensures ValidName(PAYLOAD_LOCK_FILE)
  {
  }

  /** In a directory without links, a name that does not exist has no entry. */
  lemma AbsentHasNoEntry(tree: Node, name: string)
    requires CollectInventory(tree).Ok? && ValidName(name) && !Exists(tree, name)
    ensures Find(tree.entries, name).None?
  {
    SplitName(name);
    if Find(tree.entries, name).Some? {
      var child := Find(tree.entries, name).value;
      assert EntryAt(tree, [name]) == Some(child) by { assert [name][1..] == []; }
      NothingRefused(tree.entries, [name]);
      assert Walk(tree, [name]) == Walk(child, []) by { assert [name][1..] == []; }
    }
  }

  /** Adding one file to a directory changes the inventory by its name only. */
  lemma AddedFile(entries: seq<Entry>, name: string, content: Bytes)
    requires WellFormedEntries(entries) && ValidName(name) && Find(entries, name).None?
    ensures var more := entries + [Entry(name, File(content))];
            && WellFormedEntries(more)
            && Inventory([], more) == Inventory([], entries) + {name}
            && FirstBad(more) == FirstBad(entries)
  {
    var more := entries + [Entry(name, File(content))];
    assert more[..|more| - 1] == entries;
    assert [] + [name] == [name];
  }

  lemma AddedFileReads(entries: seq<Entry>, name: string, content: Bytes)
    requires ValidName(name) && Find(entries, name).None?
    ensures ReadFile(Directory(entries + [Entry(name, File(content))]), name) == Some(content)
  {
    var tree := Directory(entries + [Entry(name, File(content))]);
    SplitName(name);
    FindInPrefix(entries, Entry(name, File(content)), name);
    FileAtStep(tree, [name]);
    assert [name][1..] == [];
    WalkReachesFile(tree, [name]);
  }

  /** Files that were there read as before. */
  lemma OtherFilesRead(entries: seq<Entry>, e: Entry, p: string)
    requires WellFormedEntries(entries) && p in Inventory([], entries)
    ensures ReadFile(Directory(entries + [e]), p) == ReadFile(Directory(entries), p)
  {
    var names := ListedReads(entries, p);
    FindInPrefix(entries, e, names[0]);
    FileAtStep(Directory(entries), names);
    FileAtStep(Directory(entries + [e]), names);
    WalkReachesFile(Directory(entries + [e]), names);
  }

  /** The sealed tree: the same files, and the lock beside them. */
  lemma SealedTree(tree: Node, content: Bytes)
    requires WellFormed(tree) && CollectInventory(tree).Ok? && !Exists(tree, PAYLOAD_LOCK_FILE)
    ensures WellFormed(WithLock(tree, content))
    ensures PAYLOAD_LOCK_FILE !in CollectInventory(tree).value
    ensures CollectInventory(WithLock(tree, content)) == Ok(CollectInventory(tree).value + {PAYLOAD_LOCK_FILE})
    ensures ReadFile(WithLock(tree, content), PAYLOAD_LOCK_FILE) == Some(content)
    ensures SameReads(tree, WithLock(tree, content), CollectInventory(tree).value)
  {
    var entries, name := tree.entries, PAYLOAD_LOCK_FILE;
    LockNameIsValid();
    AbsentHasNoEntry(tree, name);
    AddedFile(entries, name, content);
    AddedFileReads(entries, name, content);
    forall p | p in Inventory([], entries) ensures ReadFile(WithLock(tree, content), p) == ReadFile(tree, p) {
      OtherFilesRead(entries, Entry(name, File(content)), p);
    }
    if name in Inventory([], entries) {
      var names := ListedReads(entries, name);
    }
  }

  /** Every tree can be locked: its files in some order, each with its digest. */
  lemma {:induction false} CanBeLocked(env: Env, tree: Node, inventory: set<string>) returns (files: seq<LockedFile>)
    requires tree.Directory? && WellFormed(tree) && inventory <= Inventory([], tree.entries)
    ensures Locks(env, tree, inventory, files)
    decreases inventory
  {
    files := [];
    if inventory != {} {
      var path :| path in inventory;
      var others := CanBeLocked(env, tree, inventory - {path});
      var names := ListedReads(tree.entries, path);
      LockOneMore(env, tree, inventory - {path}, others, path);
      files := others + [LockedFile(path, env.sha256(ReadFile(tree, path).value))];
      assert (inventory - {path}) + {path} == inventory;
    }
  }

  /** The lock that sealing writes passes every check of a lock. */
  lemma FreshLockIsGood(env: Env, tree: Node, asset: Asset, lock: PayloadLock)
    requires Sound(env, lock) && WellFormed(tree) && LockFor(env, tree, asset, lock)
    requires Inventory([], tree.entries) != {}
    ensures PayloadLockError(lock, env.pin, asset).None?
  {
    PathsAreTheirs(lock.files);
    forall i | 0 <= i < |lock.files| ensures SafeRelative(lock.files[i].path) && IsSha256(lock.files[i].sha256) {
      ListedIsSafe(tree.entries, lock.files[i].path);
      assert HasDigest(env, tree, lock.files[i]);
    }
    LockFilesAccepted(lock.files);
  }

  /** Its files are found unchanged in the sealed tree. */
  lemma FreshLockFits(env: Env, tree: Node, asset: Asset, lock: PayloadLock, content: Bytes)
    requires WellFormed(tree) && LockFor(env, tree, asset, lock)
    requires CollectInventory(tree).Ok? && !Exists(tree, PAYLOAD_LOCK_FILE)
    ensures LockedInventoryError(env, WithLock(tree, content), lock).None?
  {
    var sealed := WithLock(tree, content);
    SealedTree(tree, content);
    PathsAreTheirs(lock.files);
    forall i | 0 <= i < |lock.files| ensures HasDigest(env, sealed, lock.files[i]) {
      assert lock.files[i].path in Paths(lock.files);
      assert HasDigest(env, tree, lock.files[i]);
    }
    ContentsAccepted(env, sealed, lock.files);
  }

  lemma SealedLayout(env: Env, tree: Node, asset: Asset, content: Bytes)
    requires WellFormed(tree) && ValidateReleaseLayout(env, tree, asset, false).Ok?
    requires CollectInventory(tree).Ok? && !Exists(tree, PAYLOAD_LOCK_FILE)
    ensures ValidateReleaseLayout(env, WithLock(tree, content), asset, true)
         == ValidateReleaseLayout(env, tree, asset, false)
  {
    SealedTree(tree, content);
    var inventory := CollectInventory(tree).value;
    assert inventory + {PAYLOAD_LOCK_FILE} - {PAYLOAD_LOCK_FILE} == inventory;
    LayoutTransfers(env, tree, WithLock(tree, content), asset, false, true);
  }

  lemma ReleaseIsNotEmpty(env: Env, tree: Node, asset: Asset)
    requires ValidateReleaseLayout(env, tree, asset, false).Ok? && CollectInventory(tree).Ok?
    ensures CollectInventory(tree).value != {}
  {
    var m := ReadJson(tree, MANIFEST_FILE, env.parseManifest).value;
    var contract := ReadJson(tree, CONTRACT_LOCK_FILE, env.parseContract).value;
    LayoutListsWhatItReads(env, tree, asset, false, m, contract);
  }

  /** What opening makes of a freshly sealed tree, once it has read the lock back. */
  lemma OpenedWithOwnLock(env: Env, tree: Node, asset: Asset, m: Manifest, lock: PayloadLock)
    requires Sound(env, lock) && WellFormed(tree) && Sealable(env, Some(tree)) == Ok((asset, m))
    requires LockFor(env, tree, asset, lock)
    ensures OpenedWith(env, WithLock(tree, env.encodeLock(lock)), asset, lock) == Ok(PayloadIdentity(env.pin, asset, m))
  {
    SealableInventory(env, tree);
    ReleaseIsNotEmpty(env, tree, asset);
    FreshLockIsGood(env, tree, asset, lock);
    FreshLockFits(env, tree, asset, lock, env.encodeLock(lock));
    SealedLayout(env, tree, asset, env.encodeLock(lock));
  }

  lemma SealedForTarget(env: Env, tree: Node, asset: Asset, m: Manifest)
    requires Sealable(env, Some(tree)) == Ok((asset, m))
    ensures FindAsset(env.pin.assets, asset.target) == Some(asset)
  {
  }

  /**
   A payload that was sealed opens again, with the identity sealing reported,
   exactly when it was sealed for the native target and the lock itself stays
   within the 16 MiB every payload JSON file is held to. Sealing checks neither.
   */
  lemma {:induction false} SealThenOpen(env: Env, tree: Node, asset: Asset, m: Manifest, lock: PayloadLock)
    requires Sound(env, lock) && WellFormed(tree) && Sealable(env, Some(tree)) == Ok((asset, m))
    requires LockFor(env, tree, asset, lock)
    ensures var result := Opened(env, Some(WithLock(tree, env.encodeLock(lock))));
            && (result.Ok? <==>
                  env.native == Some(asset.target) && |env.encodeLock(lock)| <= MAX_MACHINE_OUTPUT_BYTES)
            && (result.Ok? ==> result.value == PayloadIdentity(env.pin, asset, m))
  {
    var content := env.encodeLock(lock);
    var sealed := WithLock(tree, content);
    SealableInventory(env, tree);
    SealedTree(tree, content);
    SealedForTarget(env, tree, asset, m);
    LockIsReadBack(env, sealed, lock);
    if |content| > MAX_MACHINE_OUTPUT_BYTES {
      UnreadLockRefused(env, sealed);
    } else {
      ReadLockDecides(env, sealed, lock);
      OpenedWithOwnLock(env, tree, asset, m, lock);
      if env.native.Some? && env.native.value != asset.target {
        OtherTargetRefused(env, sealed, asset, lock, env.native.value);
      }
    }
  }

  lemma UnreadLockRefused(env: Env, sealed: Node)
    requires ReadJson(sealed, PAYLOAD_LOCK_FILE, env.parseLock).Err?
    ensures Opened(env, Some(sealed)).Err?
  {
  }

  lemma ReadLockDecides(env: Env, sealed: Node, lock: PayloadLock)
    requires sealed.Directory? && ReadJson(sealed, PAYLOAD_LOCK_FILE, env.parseLock) == Ok(lock)
    ensures env.native.None? ==> Opened(env, Some(sealed)).Err?
    ensures env.native.Some? ==>
      match FindAsset(env.pin.assets, env.native.value)
      case None => Opened(env, Some(sealed)).Err?
      case Some(asset) => Opened(env, Some(sealed)) == OpenedWith(env, sealed, asset, lock)
  {
  }

  lemma LockIsReadBack(env: Env, sealed: Node, lock: PayloadLock)
    requires Sound(env, lock) && ReadFile(sealed, PAYLOAD_LOCK_FILE) == Some(env.encodeLock(lock))
    ensures ReadJson(sealed, PAYLOAD_LOCK_FILE, env.parseLock)
         == if |env.encodeLock(lock)| > MAX_MACHINE_OUTPUT_BYTES then Err(FileTooLarge) else Ok(lock)
  {
  }

  /** A lock names its asset, so no other target's asset is accepted with it. */
  lemma OtherTargetRefused(env: Env, sealed: Node, asset: Asset, lock: PayloadLock, target: string)
    requires lock.asset == asset && target != asset.target
    ensures var other := FindAsset(env.pin.assets, target);
      other.Some? ==> OpenedWith(env, sealed, other.value, lock) == Err(LockMismatch)
  {
  }

  /** A sealed payload is never sealed again. */
  lemma {:induction false} SealedOnce(env: Env, later: Env, tree: Node, content: Bytes)
    requires WellFormed(tree) && Sealable(env, Some(tree)).Ok?
    ensures Sealable(later, Some(WithLock(tree, content))) == Err(AlreadySealed)
  {
    SealableInventory(env, tree);
    SealedTree(tree, content);
  }

  /** Both trees hold the same regular files with the same content. */
  ghost predicate SameFiles(a: Node, b: Node) {
    && a.Directory? && b.Directory?
    && Inventory([], a.entries) == Inventory([], b.entries)
    && SameReads(a, b, Inventory([], a.entries))
  }

  predicate Apart(env: Env, x: Bytes, y: Bytes) {
    env.sha256(x) == env.sha256(y) ==> x == y
  }

  /** Wherever the two trees hold different contents, the digests differ too. */
  ghost predicate NoCollision(env: Env, a: Node, b: Node) {
    forall p :: ReadFile(a, p).Some? && ReadFile(b, p).Some? ==> Apart(env, ReadFile(a, p).value, ReadFile(b, p).value)
  }

  /** What a payload that opened has been checked for. */
  lemma OpenedMeans(env: Env, tree: Node) returns (asset: Asset, lock: PayloadLock)
    requires Opened(env, Some(tree)).Ok?
    ensures tree.Directory? && env.native.Some? && FindAsset(env.pin.assets, env.native.value) == Some(asset)
    ensures ReadJson(tree, PAYLOAD_LOCK_FILE, env.parseLock) == Ok(lock)
    ensures OpenedWith(env, tree, asset, lock) == Opened(env, Some(tree))
    ensures PayloadLockError(lock, env.pin, asset).None?
    ensures CollectInventory(tree) == Ok(Paths(lock.files) + {PAYLOAD_LOCK_FILE})
    ensures ContentError(env, tree, lock.files).None?
    ensures ValidateReleaseLayout(env, tree, asset, true).Ok?
  {
    asset := FindAsset(env.pin.assets, env.native.value).value;
    lock := ReadJson(tree, PAYLOAD_LOCK_FILE, env.parseLock).value;
  }

  /** A tree that opens with the same lock has the same files. */
  lemma OpenedHasSameFiles(env: Env, a: Node, b: Node)
    requires Opened(env, Some(a)).Ok? && Opened(env, Some(b)).Ok? && NoCollision(env, a, b)
    requires ReadFile(a, PAYLOAD_LOCK_FILE) == ReadFile(b, PAYLOAD_LOCK_FILE)
    ensures SameFiles(a, b)
  {
    var asset, lock := OpenedMeans(env, a);
    var asset', lock' := OpenedMeans(env, b);
    assert lock == lock';
    forall p | p in Inventory([], a.entries) ensures ReadFile(a, p) == ReadFile(b, p) {
      if p != PAYLOAD_LOCK_FILE { DigestPinsContent(env, a, b, lock.files, p); }
    }
  }

  lemma DigestPinsContent(env: Env, a: Node, b: Node, files: seq<LockedFile>, p: string)
    requires p in Paths(files) && NoCollision(env, a, b)
    requires ContentError(env, a, files).None? && ContentError(env, b, files).None?
    ensures ReadFile(a, p) == ReadFile(b, p)
  {
    ContentsAccepted(env, a, files);
    ContentsAccepted(env, b, files);
    PathsAreTheirs(files);
    var i :| 0 <= i < |files| && files[i].path == p;
    assert HasDigest(env, a, files[i]) && HasDigest(env, b, files[i]);
    assert Apart(env, ReadFile(a, p).value, ReadFile(b, p).value);
  }

  /** A tree with the same files opens as the same payload. */
  lemma SameFilesOpen(env: Env, a: Node, b: Node)
    requires Opened(env, Some(a)).Ok? && SameFiles(a, b) && CollectInventory(b).Ok?
    ensures Opened(env, Some(b)) == Opened(env, Some(a))
  {
    var asset, lock := OpenedMeans(env, a);
    var inventory := Inventory([], a.entries);
    assert PAYLOAD_LOCK_FILE in inventory;
    assert ReadJson(b, PAYLOAD_LOCK_FILE, env.parseLock) == Ok(lock);
    SameContents(env, a, b, lock);
    LayoutTransfers(env, a, b, asset, true, true);
  }

  lemma SameContents(env: Env, a: Node, b: Node, lock: PayloadLock)
    requires SameFiles(a, b) && CollectInventory(a).Ok? && CollectInventory(b).Ok?
    requires LockedInventoryError(env, a, lock).None?
    ensures LockedInventoryError(env, b, lock).None?
  {
    ContentsAccepted(env, a, lock.files);
    ContentsAccepted(env, b, lock.files);
    PathsAreTheirs(lock.files);
    forall i | 0 <= i < |lock.files| ensures HasDigest(env, b, lock.files[i]) {
      assert lock.files[i].path in Paths(lock.files);
      assert HasDigest(env, a, lock.files[i]);
    }
  }

  /**
   Tampering is found: any other directory tree that keeps the lock of a payload
   that opens is accepted exactly when it holds no link and no special entry and
   has the very same files with the very same bytes.
   */
  lemma {:induction false} OpensIffUntouched(env: Env, a: Node, b: Node)
    requires Opened(env, Some(a)).Ok? && NoCollision(env, a, b)
    requires ReadFile(a, PAYLOAD_LOCK_FILE) == ReadFile(b, PAYLOAD_LOCK_FILE)
    ensures Opened(env, Some(b)).Ok? <==> CollectInventory(b).Ok? && SameFiles(a, b)
    ensures Opened(env, Some(b)).Ok? ==> Opened(env, Some(b)) == Opened(env, Some(a))
  {
    if Opened(env, Some(b)).Ok? {
      var asset, lock := OpenedMeans(env, b);
      OpenedHasSameFiles(env, a, b);
      SameFilesOpen(env, a, b);
    } else if CollectInventory(b).Ok? && SameFiles(a, b) {
      SameFilesOpen(env, a, b);
    }
  }
}
