/**
 A payload directory as a tree, how a path is looked up in it, and how its
 inventory is collected (`collect_directory`, `safe_relative` in
 crates/dsh-norm-bridge/src/upstream.rs). Directories list their entries in the
 order the operating system returns them.
 */
module FileTree {
  import opened Common
  import opened Utf8
  import Text

  type Bytes = seq<byte>

  /** A symbolic link carries what it leads to, if anything. */
  datatype Node =
    | File(content: Bytes)
    | Directory(entries: seq<Entry>)
    | Symlink(target: Option<Node>)
    | Special

  datatype Entry = Entry(name: string, node: Node)

  datatype EntryError = SymlinkEntry | UnsupportedEntry

  function JoinPath(parts: seq<string>): string {
    Text.Join('/', parts)
  }

  /** The parts between slashes. */
  function SplitPath(path: string): (parts: seq<string>)
    ensures parts != []
  {
    Text.Split('/', path)
  }

  /** A relative path that names something below its base, without going up. */
  predicate SafeRelative(path: string) {
    && path != "" && path[0] != '/'
    && SplitPath(path)[0] != "."
    && ".." !in SplitPath(path)
  }

  /** How many levels below its base a relative path is, part by part. */
  function Depth(parts: seq<string>): int {
    if parts == [] then 0
    else
      var last := parts[|parts| - 1];
      Depth(parts[..|parts| - 1]) + if last == ".." then -1 else if last == "" || last == "." then 0 else 1
  }

  lemma {:induction false} FirstPartNotEmpty(s: string, n: nat)
    requires 1 <= n <= |s| && s[0] != '/'
    ensures Text.SplitTo('/', s, n)[0] != ""
  {
    if n == 1 {
      assert Text.SplitTo('/', s, 0) == [""];
    } else {
      FirstPartNotEmpty(s, n - 1);
    }
  }

  lemma {:induction false} NeverUp(parts: seq<string>, k: nat)
    requires 1 <= k <= |parts| && ".." !in parts && parts[0] != "" && parts[0] != "."
    ensures Depth(parts[..k]) >= 1
  {
    assert parts[..k][..k - 1] == parts[..k - 1];
    assert parts[k - 1] in parts;
    if k == 1 { assert Depth([]) == 0; } else { NeverUp(parts, k - 1); }
  }

  /** A safe path is below its base from its first part on, and never back at it. */
  lemma SafePathsStayBelow(path: string, k: nat)
    requires SafeRelative(path) && 1 <= k <= |SplitPath(path)|
    ensures path[0] != '/' && Depth(SplitPath(path)[..k]) >= 1
  {
    FirstPartNotEmpty(path, |path|);
    NeverUp(SplitPath(path), k);
  }

  function Resolve(n: Node): (r: Option<Node>)
    ensures r.Some? ==> !r.value.Symlink?
  {
    match n
    case Symlink(None) => None
    case Symlink(Some(t)) => Resolve(t)
    case _ => Some(n)
  }

  function Find(entries: seq<Entry>, name: string): Option<Node> {
    if entries == [] then None
    else if entries[0].name == name then Some(entries[0].node)
    else Find(entries[1..], name)
  }

  /** Looks a path up part by part, following links; empty parts stay in a directory. */
  function Walk(n: Node, parts: seq<string>): Option<Node>
    decreases parts
  {
    match Resolve(n)
    case None => None
    case Some(here) =>
      if parts == [] then Some(here)
      else if !here.Directory? || parts[0] == ".." then None
      else if parts[0] == "" || parts[0] == "." then Walk(here, parts[1..])
      else
        match Find(here.entries, parts[0])
        case None => None
        case Some(child) => Walk(child, parts[1..])
  }

  function ReadFile(n: Node, path: string): Option<Bytes> {
    match Walk(n, SplitPath(path))
    case Some(File(content)) => Some(content)
    case _ => None
  }

  predicate Exists(n: Node, path: string) {
    Walk(n, SplitPath(path)).Some?
  }

  predicate ValidName(name: string) {
    name != "" && name != "." && name != ".." && '/' !in name
  }

  /** What a file system guarantees: proper names, no two alike in one directory. */
  predicate WellFormed(n: Node) {
    n.Directory? ==> WellFormedEntries(n.entries)
  }

  predicate WellFormedEntries(entries: seq<Entry>) {
    entries == [] ||
    (var init, last := entries[..|entries| - 1], entries[|entries| - 1];
     WellFormedEntries(init) && ValidName(last.name) && Find(init, last.name).None? && WellFormed(last.node))
  }

  /** The paths of all regular files at and below a node. */
  function NodeFiles(path: seq<string>, n: Node): set<string>
    decreases n
  {
    match n
    case File(_) => {JoinPath(path)}
    case Directory(entries) => Inventory(path, entries)
    case _ => {}
  }

  function Inventory(path: seq<string>, entries: seq<Entry>): set<string>
    decreases entries
  {
    if entries == [] then {}
    else
      var last := entries[|entries| - 1];
      Inventory(path, entries[..|entries| - 1]) + NodeFiles(path + [last.name], last.node)
  }

  /** The first entry a payload must not contain, in listing order. */
  function NodeBad(n: Node): Option<EntryError>
    decreases n
  {
    match n
    case File(_) => None
    case Directory(entries) => FirstBad(entries)
    case Symlink(_) => Some(SymlinkEntry)
    case Special => Some(UnsupportedEntry)
  }

  function FirstBad(entries: seq<Entry>): Option<EntryError>
    decreases entries
  {
    if entries == [] then None
    else
      var bad := FirstBad(entries[..|entries| - 1]);
      if bad.Some? then bad else NodeBad(entries[|entries| - 1].node)
  }

  /** Adds every regular file below a directory to an inventory, or stops at the first entry it must refuse. */
  method CollectDirectory(path: seq<string>, entries: seq<Entry>, inventory: set<string>)
    returns (r: Result<(), EntryError>, collected: set<string>)
    ensures r == match FirstBad(entries) case None => Ok(()) case Some(bad) => Err(bad)
    ensures r.Ok? ==> collected == inventory + Inventory(path, entries)
    decreases entries
  {
    collected := inventory;
    for i := 0 to |entries|
      invariant FirstBad(entries[..i]).None?
      invariant collected == inventory + Inventory(path, entries[..i])
    {
      var entry := entries[i];
      assert entries[..i + 1][..i] == entries[..i];
      var bad := NodeBad(entry.node);
      assert FirstBad(entries[..i + 1]) == bad;
      if bad.Some? { BadEarly(entries, i + 1); }
      match entry.node {
        case Symlink(_) =>
          return Err(SymlinkEntry), collected;
        case Special =>
          return Err(UnsupportedEntry), collected;
        case Directory(below) =>
          var nested;
          nested, collected := CollectDirectory(path + [entry.name], below, collected);
          if nested.Err? {
            return nested, collected;
          }
        case File(_) =>
          collected := collected + {JoinPath(path + [entry.name])};
      }
    }
    assert entries[..|entries|] == entries;
    r := Ok(());
  }

  /** A refused entry stays the first one, whatever is listed after it. */
  lemma {:induction false} BadEarly(entries: seq<Entry>, k: nat)
    requires k <= |entries| && FirstBad(entries[..k]).Some?
    ensures FirstBad(entries) == FirstBad(entries[..k])
  {
    if k == |entries| {
      assert entries[..k] == entries;
    } else {
      var init := entries[..|entries| - 1];
      assert init[..k] == entries[..k];
      BadEarly(init, k);
    }
  }

  /** The entry a chain of names leads to, through directories only. */
  function EntryAt(n: Node, names: seq<string>): Option<Node>
    decreases names
  {
    if names == [] then Some(n)
    else if !n.Directory? then None
    else
      match Find(n.entries, names[0])
      case None => None
      case Some(child) => EntryAt(child, names[1..])
  }

  function FileAt(n: Node, names: seq<string>): Option<Bytes> {
    match EntryAt(n, names)
    case Some(File(content)) => Some(content)
    case _ => None
  }

  lemma FileAtStep(n: Node, names: seq<string>)
    requires n.Directory? && names != []
    ensures FileAt(n, names) == match Find(n.entries, names[0])
                                case None => None
                                case Some(child) => FileAt(child, names[1..])
  {
  }

  lemma {:induction false} FindInPrefix(entries: seq<Entry>, e: Entry, name: string)
    ensures Find(entries + [e], name) == if Find(entries, name).Some? then Find(entries, name)
                                        else if e.name == name then Some(e.node) else None
  {
    if entries == [] {
      assert [] + [e] == [e];
    } else {
      FindInPrefix(entries[1..], e, name);
      assert (entries + [e])[1..] == entries[1..] + [e];
    }
  }

  lemma FindSnoc(entries: seq<Entry>, name: string)
    requires entries != []
    ensures var init, last := entries[..|entries| - 1], entries[|entries| - 1];
            Find(entries, name) == if Find(init, name).Some? then Find(init, name)
                                   else if last.name == name then Some(last.node) else None
  {
    assert entries == entries[..|entries| - 1] + [entries[|entries| - 1]];
    FindInPrefix(entries[..|entries| - 1], entries[|entries| - 1], name);
  }

  predicate ValidNames(names: seq<string>) {
    forall i :: 0 <= i < |names| ==> ValidName(names[i])
  }

  /** Every listed path names a regular file: the chain of names that leads to it. */
  lemma {:induction false} ListedIsFile(path: seq<string>, entries: seq<Entry>, p: string) returns (names: seq<string>)
    requires WellFormedEntries(entries) && p in Inventory(path, entries)
    ensures names != [] && ValidNames(names) && p == JoinPath(path + names)
    ensures FileAt(Directory(entries), names).Some?
    decreases entries
  {
    var init, last := entries[..|entries| - 1], entries[|entries| - 1];
    if p in Inventory(path, init) {
      names := ListedIsFile(path, init, p);
      FindSnoc(entries, names[0]);
      FileAtStep(Directory(init), names);
    } else {
      FindSnoc(entries, last.name);
      if last.node.File? {
        names := [last.name];
        assert names[1..] == [] && path + names == path + [last.name];
      } else {
        var below := ListedIsFile(path + [last.name], last.node.entries, p);
        names := [last.name] + below;
        assert names[1..] == below;
        AppendAssociates(path, [last.name], below);
      }
    }
    FileAtStep(Directory(entries), names);
  }

  /** Every regular file is listed, under its own path. */
  lemma {:induction false} FileIsListed(path: seq<string>, entries: seq<Entry>, names: seq<string>)
    requires names != [] && FileAt(Directory(entries), names).Some?
    ensures JoinPath(path + names) in Inventory(path, entries)
    decreases entries
  {
    assert entries != [];
    var init, last := entries[..|entries| - 1], entries[|entries| - 1];
    FindSnoc(entries, names[0]);
    FileAtStep(Directory(entries), names);
    if Find(init, names[0]).Some? {
      FileAtStep(Directory(init), names);
      FileIsListed(path, init, names);
    } else {
      var rest := names[1..];
      AppendAssociates(path, [last.name], rest);
      assert names == [last.name] + rest;
      if rest == [] {
        assert path + names == path + [last.name];
      } else {
        FileIsListed(path + [last.name], last.node.entries, rest);
      }
    }
  }

  lemma SplitName(name: string)
    requires '/' !in name
    ensures SplitPath(name) == [name]
  {
    Text.SplitOne('/', name);
  }

  /** Joining proper names and splitting again gives the names back. */
  lemma {:induction false} SplitJoin(names: seq<string>)
    requires names != [] && ValidNames(names)
    ensures SplitPath(JoinPath(names)) == names
  {
    Text.SplitJoin('/', names);
  }

  lemma {:induction false} JoinStarts(names: seq<string>)
    requires names != [] && ValidNames(names)
    ensures JoinPath(names) != "" && JoinPath(names)[0] == names[0][0]
  {
    if |names| > 1 {
      JoinStarts(names[..|names| - 1]);
    }
  }

  lemma {:induction false} WalkReachesFile(n: Node, names: seq<string>)
    requires ValidNames(names) && FileAt(n, names).Some?
    ensures Walk(n, names) == Some(File(FileAt(n, names).value))
    decreases names
  {
    if names != [] {
      WalkReachesFile(Find(n.entries, names[0]).value, names[1..]);
    }
  }

  /** A listed path can be read, and reads as the file it names. */
  lemma ListedReads(entries: seq<Entry>, p: string) returns (names: seq<string>)
    requires WellFormedEntries(entries) && p in Inventory([], entries)
    ensures names != [] && ValidNames(names) && p == JoinPath(names) && SplitPath(p) == names
    ensures FileAt(Directory(entries), names).Some?
    ensures ReadFile(Directory(entries), p) == FileAt(Directory(entries), names)
  {
    names := ListedIsFile([], entries, p);
    assert [] + names == names;
    SplitJoin(names);
    WalkReachesFile(Directory(entries), names);
  }

  /** A listed path is one a lock may carry. */
  lemma ListedIsSafe(entries: seq<Entry>, p: string)
    requires WellFormedEntries(entries) && p in Inventory([], entries)
    ensures SafeRelative(p)
  {
    var names := ListedReads(entries, p);
    JoinStarts(names);
    assert names[0][0] in names[0];
  }

  /** The inventory is exactly the set of paths of the regular files. */
  lemma InventoryIsExact(entries: seq<Entry>, p: string)
    requires WellFormedEntries(entries)
    ensures p in Inventory([], entries) <==>
      exists names :: names != [] && FileAt(Directory(entries), names).Some? && p == JoinPath(names)
  {
    if p in Inventory([], entries) {
      var names := ListedReads(entries, p);
    }
    if names :| names != [] && FileAt(Directory(entries), names).Some? && p == JoinPath(names) {
      FileIsListed([], entries, names);
      assert [] + names == names;
    }
  }

  predicate Refused(n: Node) {
    n.Symlink? || n.Special?
  }

  /** The error names the kind of entry. */
  predicate Fits(e: EntryError, n: Node) {
    match e
    case SymlinkEntry => n.Symlink?
    case UnsupportedEntry => n.Special?
  }

  lemma {:induction false} BadIsThere(entries: seq<Entry>) returns (names: seq<string>)
    requires WellFormedEntries(entries) && FirstBad(entries).Some?
    ensures names != [] && EntryAt(Directory(entries), names).Some?
    ensures Fits(FirstBad(entries).value, EntryAt(Directory(entries), names).value)
    decreases entries
  {
    var init, last := entries[..|entries| - 1], entries[|entries| - 1];
    if FirstBad(init).Some? {
      names := BadIsThere(init);
      FindSnoc(entries, names[0]);
    } else {
      FindSnoc(entries, last.name);
      if last.node.Directory? {
        var below := BadIsThere(last.node.entries);
        names := [last.name] + below;
        assert names[1..] == below;
      } else {
        names := [last.name];
        assert names[1..] == [];
      }
    }
  }

  lemma {:induction false} NothingRefused(entries: seq<Entry>, names: seq<string>)
    requires names != [] && FirstBad(entries).None? && EntryAt(Directory(entries), names).Some?
    ensures !Refused(EntryAt(Directory(entries), names).value)
    decreases entries
  {
    assert entries != [];
    var init, last := entries[..|entries| - 1], entries[|entries| - 1];
    FindSnoc(entries, names[0]);
    if Find(init, names[0]).Some? {
      NothingRefused(init, names);
    } else if names[1..] != [] {
      NothingRefused(last.node.entries, names[1..]);
    }
  }

  /**
   Collecting fails exactly when a symbolic link or a special entry lies somewhere
   below, and says which of the two it met.
   */
  lemma CollectFailsIff(entries: seq<Entry>)
    requires WellFormedEntries(entries)
    ensures FirstBad(entries).Some? <==>
      exists names ::
        && names != [] && EntryAt(Directory(entries), names).Some?
        && Refused(EntryAt(Directory(entries), names).value)
    ensures FirstBad(entries).Some? ==>
      exists names ::
        && names != [] && EntryAt(Directory(entries), names).Some?
        && Fits(FirstBad(entries).value, EntryAt(Directory(entries), names).value)
  {
    if FirstBad(entries).Some? {
      var names := BadIsThere(entries);
    } else {
      forall names | names != [] && EntryAt(Directory(entries), names).Some?
        ensures !Refused(EntryAt(Directory(entries), names).value)
      {
        NothingRefused(entries, names);
      }
    }
  }
}
