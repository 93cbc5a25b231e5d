/** The visible worktree captured as a tree: HEAD's tree, edited where the worktree differs. */
module Snapshot {
  import opened Prelude
  import opened Ordering
  import opened Paths
  import opened BaselinePaths

  const SYMLINK_MODE := "120000"
  const SUBMODULE_MODE := "160000"

  datatype Entry = Entry(mode: string, objectId: string)

  type Tree = map<string, Entry>

  /** The index status flags that hide a path from git's own comparison with the worktree. */
  datatype Flag = Shown | AssumeUnchanged | SkipWorktree

  datatype IndexEntry = IndexEntry(entry: Entry, flag: Flag)

  /** What lstat finds at a path; a file or symlink carries the hash of its unfiltered bytes. */
  datatype DiskEntry = File(entry: Entry) | Directory | NestedRepository | Unsupported

  datatype Repository = Repository(
    head: Tree,
    index: map<string, IndexEntry>,
    disk: map<string, DiskEntry>,
    ignored: string -> bool,
    clean: (string, Entry) -> Entry,
    submoduleDirty: string -> bool,
    unmerged: bool)

  // ---- what git tells -------------------------------------------------------------------------

  predicate OnDisk(disk: map<string, DiskEntry>, p: string) {
    p in disk && disk[p].File?
  }

  /** What "git diff" compares a tracked path with: the filtered worktree content. */
  predicate DiffersOnDisk(r: Repository, p: string)
    requires p in r.index
  {
    if r.index[p].entry.mode == SUBMODULE_MODE then OnDisk(r.disk, p) || r.submoduleDirty(p)
    else !(OnDisk(r.disk, p) && r.clean(p, r.disk[p].entry) == r.index[p].entry)
  }

  predicate DiffersFromHead(r: Repository, p: string) {
    if p in r.head then !(p in r.index && r.index[p].entry == r.head[p]) else p in r.index
  }

  predicate Untracked(r: Repository, p: string) {
    p !in r.index && !r.ignored(p)
  }

  /** Everything the four listings name; a nested repository is listed with a final slash. */
  function ChangedPaths(r: Repository): set<string> {
    (set p | p in r.index && r.index[p].flag.Shown? && DiffersOnDisk(r, p)) +
    (set p | p in r.head.Keys + r.index.Keys && DiffersFromHead(r, p)) +
    (set p | p in r.disk && r.disk[p].File? && Untracked(r, p)) +
    (set p | p in r.disk && r.disk[p].NestedRepository? && Untracked(r, p) :: p + "/") +
    (set p | p in r.index && !r.index[p].flag.Shown?)
  }

  predicate Skipped(r: Repository, p: string) {
    p in r.index && r.index[p].flag.SkipWorktree?
  }

  /** A skip-worktree path counts as changed only while something is there. */
  function Remaining(r: Repository): set<string> {
    set p | p in ChangedPaths(r) && (Skipped(r, p) ==> p in r.disk)
  }

  // ---- what the snapshot refuses ------------------------------------------------------------------

  datatype Reason = ChangedSubmodule | UnsafePath | SymlinkParent | NestedGit | UnsupportedEntry

  predicate SymlinkAbove(disk: map<string, DiskEntry>, p: string) {
    exists q :: q in disk && disk[q].File? && disk[q].entry.mode == SYMLINK_MODE && AtOrBelow(p, q) && p != q
  }

  /** The checks made before a path of the worktree is looked at. */
  function PathProblem(disk: map<string, DiskEntry>, changedPath: string): Option<Reason> {
    var p := StripTrailingSlashes(changedPath);
    if exists part :: part in Split(p) && !OrdinaryPart(part) then Some(UnsafePath)
    else if SymlinkAbove(disk, p) then Some(SymlinkParent)
    else None
  }

  function Refusal(head: Tree, disk: map<string, DiskEntry>, changedPath: string): Option<Reason> {
    var p := StripTrailingSlashes(changedPath);
    if changedPath in head && head[changedPath].mode == SUBMODULE_MODE then Some(ChangedSubmodule)
    else if PathProblem(disk, changedPath).Some? then PathProblem(disk, changedPath)
    else if p in disk && disk[p].NestedRepository? then Some(NestedGit)
    else if p in disk && disk[p].Unsupported? then Some(UnsupportedEntry)
    else None
  }

  /** Below a symlink of the worktree: one of the path's directories is a link. */
  predicate BehindLink(disk: map<string, DiskEntry>, p: string) {
    exists q :: q in disk && disk[q].File? && disk[q].entry.mode == "120000" &&
      Split(q) <= Split(p) && |Split(q)| < |Split(p)|
  }

  /** What a refusal for this reason says about the path and what is there. */
  predicate Justified(head: Tree, disk: map<string, DiskEntry>, changedPath: string, reason: Reason) {
    var p := StripTrailingSlashes(changedPath);
    match reason
    case ChangedSubmodule => changedPath in head && head[changedPath].mode == "160000"
    case UnsafePath => "" in Split(p) || "." in Split(p) || ".." in Split(p)
    case SymlinkParent => BehindLink(disk, p)
    case NestedGit => p in disk && disk[p] == NestedRepository
    case UnsupportedEntry => p in disk && disk[p] == Unsupported
  }

  lemma LinkAbove(disk: map<string, DiskEntry>, p: string)
    ensures SymlinkAbove(disk, p) <==> BehindLink(disk, p)
  {
    forall q | Split(q) <= Split(p)
      ensures p != q <==> |Split(q)| < |Split(p)|
    {
      JoinSplit(p);
      JoinSplit(q);
      if |Split(q)| == |Split(p)| { assert Split(q) == Split(p); }
    }
  }

  lemma PathProblemExactly(disk: map<string, DiskEntry>, changedPath: string)
    ensures var found := PathProblem(disk, changedPath);
      && (found == Some(UnsafePath) <==> Justified(map[], disk, changedPath, UnsafePath))
      && (found == Some(SymlinkParent) <==>
            Justified(map[], disk, changedPath, SymlinkParent) && !Justified(map[], disk, changedPath, UnsafePath))
      && (found.Some? ==> found.value in {UnsafePath, SymlinkParent})
  {
    hide BehindLink, SymlinkAbove;
    LinkAbove(disk, StripTrailingSlashes(changedPath));
  }

  const REASON_ORDER: seq<Reason> := [ChangedSubmodule, UnsafePath, SymlinkParent, NestedGit, UnsupportedEntry]

  /** A changed path is refused for the first of the five reasons that applies, and only if one does. */
  lemma RefusalExactly(head: Tree, disk: map<string, DiskEntry>, changedPath: string, i: nat)
    requires i < 5
    ensures Refusal(head, disk, changedPath) == Some(REASON_ORDER[i]) <==>
              && Justified(head, disk, changedPath, REASON_ORDER[i])
              && forall j :: 0 <= j < i ==> !Justified(head, disk, changedPath, REASON_ORDER[j])
  {
    hide BehindLink, PathProblem;
    PathProblemExactly(disk, changedPath);
    assert REASON_ORDER[0] == ChangedSubmodule && REASON_ORDER[1] == UnsafePath && REASON_ORDER[2] == SymlinkParent;
    assert REASON_ORDER[3] == NestedGit && REASON_ORDER[4] == UnsupportedEntry;
  }

  lemma RefusedJustified(head: Tree, disk: map<string, DiskEntry>, changedPath: string)
    ensures var found := Refusal(head, disk, changedPath);
      found.Some? ==> Justified(head, disk, changedPath, found.value)
    ensures var found := PathProblem(disk, changedPath);
      found.Some? ==> Justified(head, disk, changedPath, found.value)
  {
    hide BehindLink, PathProblem;
    PathProblemExactly(disk, changedPath);
  }

  predicate Snapshottable(r: Repository) {
    && !r.unmerged
    && (forall p :: p in ChangedPaths(r) && Skipped(r, p) ==> PathProblem(r.disk, p).None?)
    && (forall p :: p in Remaining(r) ==> Refusal(r.head, r.disk, p).None?)
  }

  // ---- what the edited index holds -----------------------------------------------------------------

  predicate TouchedBySet(p: string, changed: set<string>) {
    exists c :: c in changed && Related(p, StripTrailingSlashes(c))
  }

  predicate Added(disk: map<string, DiskEntry>, changed: set<string>, p: string) {
    p in changed && OnDisk(disk, p)
  }

  predicate Untouched(head: Tree, changed: set<string>, p: string) {
    p in head && !TouchedBySet(p, changed)
  }

  /** The baseline without what the changed paths touch, plus the changed paths that are files. */
  function Overlay(head: Tree, disk: map<string, DiskEntry>, touching: set<string>, adding: set<string>): Tree {
    map p | p in head.Keys + disk.Keys && (Added(disk, adding, p) || Untouched(head, touching, p)) ::
      if Added(disk, adding, p) then disk[p].entry else head[p]
  }

  function SnapshotTree(r: Repository): Tree {
    Overlay(r.head, r.disk, Remaining(r), Remaining(r))
  }

  /** No entry of the tree is a directory of another. */
  ghost predicate ConflictFree(paths: set<string>) {
    forall p, q :: p in paths && q in paths && Related(p, q) ==> p == q
  }

  ghost predicate CleanPath(p: string) {
    forall part :: part in Split(p) ==> OrdinaryPart(part)
  }

  /** HEAD and index are trees of files, and only directories have something below them. */
  ghost predicate Sane(r: Repository) {
    && ConflictFree(r.head.Keys)
    && ConflictFree(r.index.Keys)
    && (forall p, q :: p in r.disk && q in r.disk && AtOrBelow(q, p) && p != q ==> r.disk[p].Directory?)
    && (forall p :: p in r.head.Keys + r.index.Keys + r.disk.Keys ==> CleanPath(p))
  }

  /** A changed path that is a file on disk is written without a final slash. */
  ghost predicate PlainFiles(disk: map<string, DiskEntry>, changed: set<string>) {
    forall c :: c in changed && (OnDisk(disk, c) || OnDisk(disk, StripTrailingSlashes(c))) ==>
      StripTrailingSlashes(c) == c
  }

  // ---- the temporary index, edited step by step ------------------------------------------------------

  /** An index file of its own, as git edits it. */
  class TemporaryIndex {
    var entries: Tree

    constructor (tree: Tree)
      ensures entries == tree
    {
      entries := tree;
    }

    method ForceRemove(path: string)
      modifies this
      ensures entries == old(entries) - {path}
    {
      entries := entries - {path};
    }

    /** Refused when a file would have to be a directory as well. */
    method AddCacheInfo(path: string, entry: Entry) returns (ok: bool)
      modifies this
      ensures ok <==> forall q :: q in old(entries) && Related(path, q) ==> q == path
      ensures entries == if ok then old(entries)[path := entry] else old(entries)
    {
      ok := forall q :: q in entries && Related(path, q) ==> q == path;
      if ok { entries := entries[path := entry]; }
    }
  }

  datatype Outcome = Taken(tree: Tree) | Refused(path: string, reason: Reason) | Unmerged | IndexConflict(path: string)

  lemma TouchedElements(b: string, changed: seq<string>)
    ensures Touched(b, changed) <==> TouchedBySet(b, Elements(changed))
  {
    if TouchedBySet(b, Elements(changed)) {
      var c :| c in Elements(changed) && Related(b, StripTrailingSlashes(c));
      var i :| 0 <= i < |changed| && changed[i] == c;
    }
  }

  method RemoveAffected(index: TemporaryIndex, head: Tree, changed: seq<string>)
    requires index.entries == head
    modifies index
    ensures index.entries == Overlay(head, map[], Elements(changed), {})
  {
    var affected := AffectedBaselinePaths(head.Keys, changed);
    for i := 0 to |affected|
      invariant index.entries == head - Elements(affected[..i])
    {
      assert affected[..i + 1] == affected[..i] + [affected[i]];
      index.ForceRemove(affected[i]);
    }
    assert affected[..|affected|] == affected;
    forall b | b in head
      ensures b in affected <==> TouchedBySet(b, Elements(changed))
    {
      TouchedElements(b, changed);
    }
  }

  /** A file of the worktree never conflicts with what is left or was added before it. */
  lemma NoConflict(head: Tree, disk: map<string, DiskEntry>, touching: set<string>, adding: set<string>, path: string)
    requires adding <= touching && path in touching && OnDisk(disk, path) && PlainFiles(disk, touching)
    requires forall p, q :: p in disk && q in disk && AtOrBelow(q, p) && p != q ==> disk[p].Directory?
    requires StripTrailingSlashes(path) == path
    ensures forall q :: q in Overlay(head, disk, touching, adding) && Related(path, q) ==> q == path
  {
  }

  method AddChanged(index: TemporaryIndex, head: Tree, disk: map<string, DiskEntry>, changed: seq<string>)
    returns (problem: Option<Outcome>)
    requires index.entries == Overlay(head, disk, Elements(changed), {})
    requires forall p, q :: p in disk && q in disk && AtOrBelow(q, p) && p != q ==> disk[p].Directory?
    requires PlainFiles(disk, Elements(changed))
    modifies index
    ensures problem.None? <==> forall p :: p in changed ==> Refusal(head, disk, p).None?
    ensures problem.None? ==> index.entries == Overlay(head, disk, Elements(changed), Elements(changed))
    ensures problem.Some? ==> problem.value.Refused? && problem.value.path in changed
    ensures problem.Some? ==> Justified(head, disk, problem.value.path, problem.value.reason)
  {
    hide Justified, Refusal, PathProblem;
    ghost var touching := Elements(changed);
    for i := 0 to |changed|
      invariant index.entries == Overlay(head, disk, touching, Elements(changed[..i]))
      invariant forall p :: p in changed[..i] ==> Refusal(head, disk, p).None?
    {
      var path := changed[i];
      assert changed[..i + 1] == changed[..i] + [path];
      assert Elements(changed[..i + 1]) == Elements(changed[..i]) + {path};
      var refusal := Refusal(head, disk, path);
      if refusal.Some? {
        RefusedJustified(head, disk, path);
        return Some(Refused(path, refusal.value));
      }
      var found := StripTrailingSlashes(path);
      AddIfPlain(head, disk, touching, Elements(changed[..i]), path);
      if found in disk && disk[found].File? {
        NoConflict(head, disk, touching, Elements(changed[..i]), path);
        var ok := index.AddCacheInfo(path, disk[found].entry);
        if !ok { return Some(IndexConflict(path)); }
      }
    }
    assert changed[..|changed|] == changed;
    problem := None;
  }

  lemma AddIfPlain(head: Tree, disk: map<string, DiskEntry>, touching: set<string>, adding: set<string>, path: string)
    requires path in touching && PlainFiles(disk, touching)
    ensures Overlay(head, disk, touching, adding + {path}) ==
            if OnDisk(disk, StripTrailingSlashes(path)) then
              Overlay(head, disk, touching, adding)[path := disk[StripTrailingSlashes(path)].entry]
            else Overlay(head, disk, touching, adding)
  {
  }

  /** Drop the skip-worktree paths that are not there; looking for them can be refused. */
  method FilterChanged(r: Repository, all: seq<string>) returns (changed: seq<string>, problem: Option<Outcome>)
    ensures problem.Some? ==> problem.value.Refused? && problem.value.path in all
    ensures problem.Some? ==> Justified(r.head, r.disk, problem.value.path, problem.value.reason)
    ensures problem.None? <==> forall p :: p in all && Skipped(r, p) ==> PathProblem(r.disk, p).None?
    ensures problem.None? ==> forall p :: p in changed <==> p in all && (Skipped(r, p) ==> p in r.disk)
  {
    hide Skipped, PathProblem, Justified;
    changed := [];
    for i := 0 to |all|
      invariant forall p :: p in changed <==> p in all[..i] && (Skipped(r, p) ==> p in r.disk)
      invariant forall p :: p in all[..i] && Skipped(r, p) ==> PathProblem(r.disk, p).None?
    {
      assert all[..i + 1] == all[..i] + [all[i]];
      if Skipped(r, all[i]) {
        var found := PathProblem(r.disk, all[i]);
        if found.Some? {
          RefusedJustified(r.head, r.disk, all[i]);
          return changed, Some(Refused(all[i], found.value));
        }
      }
      if !Skipped(r, all[i]) || all[i] in r.disk { changed := changed + [all[i]]; }
    }
    assert all[..|all|] == all;
    problem := None;
  }

  lemma NothingChanged(r: Repository)
    requires Remaining(r) == {}
    ensures SnapshotTree(r) == r.head
  {
  }

  lemma SameWithoutAdding(head: Tree, disk: map<string, DiskEntry>, changed: set<string>)
    ensures Overlay(head, map[], changed, {}) == Overlay(head, disk, changed, {})
  {
  }

  /** The whole capture: list, filter, read HEAD into a fresh index, remove, add, write. */
  method TakeSnapshot(r: Repository) returns (o: Outcome)
    requires Sane(r)
    ensures o.Taken? <==> Snapshottable(r)
    ensures o.Taken? ==> o.tree == SnapshotTree(r)
    ensures !o.IndexConflict?
    ensures o.Unmerged? <==> r.unmerged
    ensures o.Refused? ==> o.path in ChangedPaths(r) && Justified(r.head, r.disk, o.path, o.reason)
  {
    hide ChangedPaths, Overlay, Refusal, PathProblem, PlainFiles, Justified;
    if r.unmerged { return Unmerged; }
    var all := SortedElements(ChangedPaths(r));
    var changed, filterProblem := FilterChanged(r, all);
    if filterProblem.Some? { return filterProblem.value; }
    assert Elements(changed) == Remaining(r);
    if changed == [] {
      assert Remaining(r) == {};
      NothingChanged(r);
      return Taken(r.head);
    }
    ChangedPlain(r);
    var index := new TemporaryIndex(r.head);
    RemoveAffected(index, r.head, changed);
    SameWithoutAdding(r.head, r.disk, Elements(changed));
    var problem := AddChanged(index, r.head, r.disk, changed);
    o := if problem.Some? then problem.value else Taken(index.entries);
  }

  lemma {:induction false} SplitTrailing(path: string)
    ensures Split(path + "/") == Split(path) + [""]
  {
    if |path| > 0 {
      SplitTrailing(path[1..]);
      assert (path + "/")[1..] == path[1..] + "/";
    }
  }

  lemma TrailingPart(p: string)
    requires |p| > 0 && p[|p| - 1] == '/'
    ensures "" in Split(p)
  {
    SplitTrailing(p[..|p| - 1]);
    assert p[..|p| - 1] + "/" == p;
  }

  lemma CleanIsPlain(p: string)
    requires CleanPath(p)
    ensures StripTrailingSlashes(p) == p && StripTrailingSlashes(p + "/") == p && !CleanPath(p + "/")
  {
    TrailingPart(p + "/");
    assert !OrdinaryPart("");
    assert |p| > 0 && p[|p| - 1] == '/' ==> "" in Split(p) by {
      if |p| > 0 && p[|p| - 1] == '/' { TrailingPart(p); }
    }
    assert (p + "/")[..|p|] == p;
  }

  lemma ChangedPlain(r: Repository)
    requires Sane(r)
    ensures PlainFiles(r.disk, ChangedPaths(r)) && PlainFiles(r.disk, Remaining(r))
  {
    forall c | c in ChangedPaths(r) && (OnDisk(r.disk, c) || OnDisk(r.disk, StripTrailingSlashes(c)))
      ensures StripTrailingSlashes(c) == c
    {
      if c in r.head.Keys + r.index.Keys + r.disk.Keys {
        CleanIsPlain(c);
      } else {
        var p :| p in r.disk && r.disk[p].NestedRepository? && c == p + "/";
        CleanIsPlain(p);
      }
    }
  }

  // ---- what the snapshot is -----------------------------------------------------------------------------

  /** A file of the worktree that HEAD or the index tracks or that nothing ignores. */
  predicate Visible(r: Repository, p: string) {
    OnDisk(r.disk, p) && (p in r.index || p in r.head || !r.ignored(p))
  }

  /** HEAD entries that stay although no file is there: skipped paths and untouched submodules. */
  predicate Kept(r: Repository, p: string) {
    && Untouched(r.head, Remaining(r), p)
    && (r.head[p].mode == SUBMODULE_MODE || (Skipped(r, p) && p !in r.disk))
  }

  /** What the snapshot records for a file: its own bytes once it counts as changed. */
  function RecordedEntry(r: Repository, p: string): Entry
    requires OnDisk(r.disk, p)
  {
    if p in ChangedPaths(r) then r.disk[p].entry else r.clean(p, r.disk[p].entry)
  }

  lemma VisibleRecorded(r: Repository, p: string)
    requires Sane(r) && Snapshottable(r) && Visible(r, p)
    ensures p in SnapshotTree(r) && SnapshotTree(r)[p] == RecordedEntry(r, p)
  {
    if p !in ChangedPaths(r) {
      assert p in r.index && p in r.head && r.index[p].entry == r.head[p];
      assert !DiffersOnDisk(r, p);
      forall c | c in Remaining(r) ensures !Related(p, StripTrailingSlashes(c)) {
        Apart(r, p, c);
      }
    }
  }

  /** Two things that are not directories are never one above the other. */
  lemma DiskApart(r: Repository, p: string, q: string)
    requires Sane(r) && p in r.disk && q in r.disk && p != q
    requires !r.disk[p].Directory? && !r.disk[q].Directory?
    ensures !Related(p, q)
  {
  }

  /** A changed path is tracked, or is something untracked that is no directory. */
  lemma ChangedKinds(r: Repository, c: string) returns (q: string)
    requires Sane(r) && c in ChangedPaths(r)
    ensures q == StripTrailingSlashes(c)
    ensures (q == c && (c in r.index || c in r.head)) || (q in r.disk && !r.disk[q].Directory?)
    ensures q in r.disk && r.disk[q].File? ==> q == c
  {
    if c in r.index || c in r.head || OnDisk(r.disk, c) {
      q := c;
      CleanIsPlain(c);
    } else {
      q :| q in r.disk && r.disk[q].NestedRepository? && c == q + "/";
      CleanIsPlain(q);
    }
  }

  /** An unchanged file is neither above nor below anything that changed. */
  lemma Apart(r: Repository, p: string, c: string)
    requires Sane(r) && OnDisk(r.disk, p) && p in r.index && p in r.head
    requires p !in ChangedPaths(r) && c in ChangedPaths(r)
    ensures !Related(p, StripTrailingSlashes(c))
  {
    hide ChangedPaths, Related;
    var q := ChangedKinds(r, c);
    if q in r.disk && !r.disk[q].Directory? {
      DiskApart(r, p, q);
    } else if c in r.index {
      assert !Related(p, q);
    } else {
      assert !Related(p, q);
    }
  }

  /** What is kept untouched although it is no file on disk is a submodule or a skipped path. */
  lemma KeptOnly(r: Repository, p: string)
    requires Sane(r) && Untouched(r.head, Remaining(r), p) && !OnDisk(r.disk, p)
    ensures Kept(r, p)
  {
    CleanIsPlain(p);
    assert p !in Remaining(r) by {
      if p in Remaining(r) { assert Related(p, StripTrailingSlashes(p)); }
    }
  }

  lemma NothingElse(r: Repository, p: string)
    requires Sane(r) && p in SnapshotTree(r) && !Visible(r, p)
    ensures Kept(r, p) && SnapshotTree(r)[p] == r.head[p]
  {
    if OnDisk(r.disk, p) {
      HiddenNotAdded(r, p);
    } else {
      KeptOnly(r, p);
    }
  }

  lemma HiddenNotAdded(r: Repository, p: string)
    requires Sane(r) && OnDisk(r.disk, p) && !Visible(r, p)
    ensures p !in SnapshotTree(r)
  {
    forall q | q in r.disk ensures q + "/" != p {
      CleanIsPlain(q);
    }
  }

  /**
   * The snapshot is exactly the visible worktree: every visible file and nothing else, apart from
   * HEAD's untouched submodules and its skip-worktree paths that are not there.
   */
  lemma SnapshotExact(r: Repository, p: string)
    requires Sane(r) && Snapshottable(r)
    ensures p in SnapshotTree(r) <==> Visible(r, p) || Kept(r, p)
    ensures Visible(r, p) ==> SnapshotTree(r)[p] == RecordedEntry(r, p)
    ensures Kept(r, p) && !Visible(r, p) ==> SnapshotTree(r)[p] == r.head[p]
  {
    if Visible(r, p) { VisibleRecorded(r, p); }
    if p in SnapshotTree(r) && !Visible(r, p) { NothingElse(r, p); }
  }

  // ---- what the documentation promises ------------------------------------------------------------------

  /** Tracked and non-ignored files with the bytes they have on disk; ignored files left out. */
  ghost predicate Documented(r: Repository, tree: Tree) {
    && (forall p :: p in tree <==> OnDisk(r.disk, p) && (p in r.index || !r.ignored(p)))
    && (forall p :: p in tree && OnDisk(r.disk, p) ==> tree[p] == r.disk[p].entry)
  }

  /** An ignored file that HEAD still has although it left the index. */
  predicate IgnoredButCommitted(r: Repository, p: string) {
    OnDisk(r.disk, p) && p in r.head && p !in r.index && r.ignored(p)
  }

  /** An unchanged file whose filters make git store other bytes than the disk holds. */
  predicate FilteredAway(r: Repository, p: string) {
    OnDisk(r.disk, p) && p in r.index && p !in ChangedPaths(r) && r.clean(p, r.disk[p].entry) != r.disk[p].entry
  }

  /** None of the ways in which the snapshot can differ from its documentation. */
  ghost predicate Plain(r: Repository) {
    && (forall p :: p in r.disk ==> !IgnoredButCommitted(r, p) && !FilteredAway(r, p))
    && (forall p :: p in r.head && Kept(r, p) ==> OnDisk(r.disk, p))
  }

  lemma PlainMember(r: Repository, p: string)
    requires Sane(r) && Snapshottable(r) && Plain(r)
    ensures p in SnapshotTree(r) <==> OnDisk(r.disk, p) && (p in r.index || !r.ignored(p))
    ensures p in SnapshotTree(r) && OnDisk(r.disk, p) ==> SnapshotTree(r)[p] == r.disk[p].entry
  {
    SnapshotExact(r, p);
  }

  /** Each way to differ shows in the tree. */
  lemma DocumentedMember(r: Repository, p: string)
    requires Sane(r) && Snapshottable(r) && Documented(r, SnapshotTree(r))
    ensures !IgnoredButCommitted(r, p) && !FilteredAway(r, p)
    ensures Kept(r, p) ==> OnDisk(r.disk, p)
  {
    hide SnapshotTree;
    SnapshotExact(r, p);
    assert p in SnapshotTree(r) <==> OnDisk(r.disk, p) && (p in r.index || !r.ignored(p));
  }

  /** The snapshot is what its documentation promises exactly when none of them occurs. */
  lemma DocumentedExactly(r: Repository)
    requires Sane(r) && Snapshottable(r)
    ensures Documented(r, SnapshotTree(r)) <==> Plain(r)
  {
    if Documented(r, SnapshotTree(r)) {
      forall p
        ensures !IgnoredButCommitted(r, p) && !FilteredAway(r, p)
        ensures Kept(r, p) ==> OnDisk(r.disk, p)
      {
        DocumentedMember(r, p);
      }
    }
    if Plain(r) {
      forall p
        ensures p in SnapshotTree(r) <==> OnDisk(r.disk, p) && (p in r.index || !r.ignored(p))
        ensures p in SnapshotTree(r) && OnDisk(r.disk, p) ==> SnapshotTree(r)[p] == r.disk[p].entry
      {
        PlainMember(r, p);
      }
    }
  }

  /** An ignored file can be captured: it is enough that HEAD has it and the index no longer does. */
  lemma IgnoredFileCaptured(e: Entry) returns (r: Repository)
    requires e.mode != SUBMODULE_MODE && e.mode != SYMLINK_MODE
    ensures Sane(r) && Snapshottable(r)
    ensures r.ignored("a") && "a" !in r.index && "a" in SnapshotTree(r)
  {
    r := Repository(map["a" := e], map[], map["a" := File(e)], p => true, (p, f) => f, p => false, false);
    SplitPlain("a");
    CleanIsPlain("a");
    assert Remaining(r) == {"a"};
  }
}
