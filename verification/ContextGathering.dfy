/** Which files a review gets to see, and whether that is everything it must see. */
module ContextGathering {
  import opened Prelude
  import opened Findings
  import opened Paths

  datatype Change = Change(status: string, path: string)

  /**
   * The trees a review is gathered from. Decoding UTF-8, matching a glob and computing the
   * combined diff of some paths are functions of the scene.
   */
  datatype Scene = Scene(
    changes: seq<Change>,
    worktreePaths: seq<string>,
    worktree: string -> Option<bytes>,
    target: string -> Option<bytes>,
    diff: seq<string> -> bytes,
    decode: bytes -> Option<string>,
    matches: (string, string) -> bool,
    maxFileBytes: nat,
    excludedGlobs: seq<string>,
    mandatoryGlobs: seq<string>,
    optionalGlobs: seq<string>,
    targetTree: string,
    mergeTree: string)

  const MERGE_CANDIDATE_DIFF_PATH := "merge-candidate.diff"
  const NUL_SCAN_BYTES := 8192
  const LFS_PREFIX := "version https://git-lfs.github.com/spec/v1"

  function KindOf(status: string): ChangeKind {
    if status == "A" then Added else if status == "D" then Deleted else Modified
  }

  predicate IsExcluded(scene: Scene, path: string) {
    exists i :: 0 <= i < |scene.excludedGlobs| && scene.matches(path, scene.excludedGlobs[i])
  }

  function UnreviewableReason(scene: Scene, data: bytes): Option<string> {
    if |data| > scene.maxFileBytes then
      Some("exceeds max_file_bytes (" + Numeral(|data|) + " > " + Numeral(scene.maxFileBytes) + ")")
    else if 0 in data[..if |data| < NUL_SCAN_BYTES then |data| else NUL_SCAN_BYTES] then Some("binary (NUL byte)")
    else if scene.decode(data).None? then Some("not valid UTF-8")
    else if StartsWith(scene.decode(data).value, LFS_PREFIX) then Some("git-lfs pointer")
    else None
  }

  /** No zero byte where the program looks for one. */
  predicate NoZeroByte(data: bytes) {
    forall i :: 0 <= i < |data| && i < 8192 ==> data[i] != 0
  }

  /** The data is there and can be shown to the model: small UTF-8 text that is no pointer to large storage. */
  predicate Readable(scene: Scene, data: Option<bytes>) {
    && data.Some?
    && |data.value| <= scene.maxFileBytes
    && NoZeroByte(data.value)
    && scene.decode(data.value).Some?
    && !("version https://git-lfs.github.com/spec/v1" <= scene.decode(data.value).value)
  }

  lemma ReadableExactly(scene: Scene, data: bytes)
    ensures UnreviewableReason(scene, data).None? <==> Readable(scene, Some(data))
  {
    var scanned := data[..if |data| < NUL_SCAN_BYTES then |data| else NUL_SCAN_BYTES];
    assert 0 in scanned <==> !NoZeroByte(data) by {
      if i :| 0 <= i < |data| && i < 8192 && data[i] == 0 { assert scanned[i] == 0; }
    }
  }

  lemma NothingUnreadable(scene: Scene)
    ensures !Readable(scene, None)
  {
  }

  function ItemFromBytes(scene: Scene, path: string, data: Option<bytes>, contextClass: ContextClass,
                         source: EvidenceSource,
                         snapshot: string, kind: Option<ChangeKind>, missingReason: string): ContextItem
  {
    if data.None? then
      ContextItem(path, if contextClass.Mandatory? then Unreviewable else contextClass, source, Some(snapshot), kind,
        None, Some(missingReason))
    else
      var reason := UnreviewableReason(scene, data.value);
      if reason.Some? then ContextItem(path, Unreviewable, source, Some(snapshot), kind, None, reason)
      else ContextItem(path, contextClass, source, Some(snapshot), kind, scene.decode(data.value), None)
  }

  // ---- one item per path -------------------------------------------------------------------------

  /** Where a changed path is read: a deleted one in the target tree, any other in the worktree. */
  function ChangedData(scene: Scene, change: Change): Option<bytes> {
    if change.status == "D" then scene.target(change.path) else scene.worktree(change.path)
  }

  function ChangeItem(scene: Scene, change: Change): ContextItem {
    var kind := KindOf(change.status);
    if IsExcluded(scene, change.path) then
      ContextItem(change.path, Excluded, ReviewWorktree, Some(scene.mergeTree), Some(kind), None,
        Some("excluded by Review Policy"))
    else if kind.Deleted? then
      ItemFromBytes(scene, change.path, scene.target(change.path), Mandatory, TargetTree, scene.targetTree, Some(kind),
        "deleted path could not be read from the target head")
    else
      ItemFromBytes(scene, change.path, scene.worktree(change.path), Mandatory, ReviewWorktree, scene.mergeTree,
        Some(kind), "changed path is missing from the Review Worktree")
  }

  function MandatoryItem(scene: Scene, path: string): ContextItem {
    ItemFromBytes(scene, path, scene.worktree(path), Mandatory, ReviewWorktree, scene.mergeTree, None,
      "mandatory path could not be read")
  }

  function OptionalDraft(scene: Scene, path: string): ContextItem {
    ItemFromBytes(scene, path, scene.worktree(path), Optional, ReviewWorktree, scene.mergeTree, None,
      "optional path could not be read")
  }

  /** An unreviewable optional file is disclosed as optional, without a body. */
  function OptionalItem(scene: Scene, path: string): ContextItem {
    var draft := OptionalDraft(scene, path);
    if draft.contextClass.Unreviewable? then draft.(contextClass := Optional, body := None) else draft
  }

  function DiffItem(scene: Scene, paths: seq<string>): ContextItem {
    var snapshot := Some(scene.targetTree + ".." + scene.mergeTree);
    if |paths| == 0 then ContextItem(MERGE_CANDIDATE_DIFF_PATH, Mandatory, MergeDiff, snapshot, None, Some(""), None)
    else
      var data := scene.diff(paths);
      var reason := UnreviewableReason(scene, data);
      if reason.Some? then ContextItem(MERGE_CANDIDATE_DIFF_PATH, Unreviewable, MergeDiff, snapshot, None, None, reason)
      else ContextItem(MERGE_CANDIDATE_DIFF_PATH, Mandatory, MergeDiff, snapshot, None, scene.decode(data), None)
  }

  // ---- gathering, step by step ---------------------------------------------------------------------

  datatype Gathering = Gathering(
    items: seq<ContextItem>,
    classified: set<string>,
    inScope: seq<string>,
    mandatoryMissing: seq<string>,
    optionalMissing: seq<string>)

  function AddChange(scene: Scene, g: Gathering, change: Change): Gathering {
    g.(items := g.items + [ChangeItem(scene, change)],
       classified := g.classified + {change.path},
       inScope := if IsExcluded(scene, change.path) then g.inScope else g.inScope + [change.path])
  }

  function AfterChanges(scene: Scene, n: nat): Gathering
    requires n <= |scene.changes|
  {
    if n == 0 then Gathering([], {}, [], [], []) else AddChange(scene, AfterChanges(scene, n - 1), scene.changes[n - 1])
  }

  /** The worktree paths among the first n that match the pattern. */
  function MatchesOf(scene: Scene, pattern: string, n: nat): (r: seq<string>)
    requires n <= |scene.worktreePaths|
    ensures forall p :: p in r <==> p in scene.worktreePaths[..n] && scene.matches(p, pattern)
  {
    if n == 0 then []
    else
      assert scene.worktreePaths[..n] == scene.worktreePaths[..n - 1] + [scene.worktreePaths[n - 1]];
      MatchesOf(scene, pattern, n - 1) +
      if scene.matches(scene.worktreePaths[n - 1], pattern) then [scene.worktreePaths[n - 1]] else []
  }

  function AddMatch(scene: Scene, g: Gathering, path: string, mandatory: bool): Gathering {
    if path in g.classified || IsExcluded(scene, path) then g
    else
      g.(items := g.items + [if mandatory then MandatoryItem(scene, path) else OptionalItem(scene, path)],
         classified := g.classified + {path},
         optionalMissing :=
           if !mandatory && OptionalDraft(scene, path).contextClass.Unreviewable? then g.optionalMissing + [path]
           else g.optionalMissing)
  }

  function AddMatches(scene: Scene, g: Gathering, paths: seq<string>, mandatory: bool): Gathering {
    if |paths| == 0 then g
    else AddMatch(scene, AddMatches(scene, g, paths[..|paths| - 1], mandatory), paths[|paths| - 1], mandatory)
  }

  function AddGlob(scene: Scene, g: Gathering, pattern: string, mandatory: bool): Gathering {
    var found := MatchesOf(scene, pattern, |scene.worktreePaths|);
    if found != [] then AddMatches(scene, g, found, mandatory)
    else if mandatory then g.(mandatoryMissing := g.mandatoryMissing + [pattern])
    else g.(optionalMissing := g.optionalMissing + [pattern])
  }

  function AddGlobs(scene: Scene, g: Gathering, globs: seq<string>, n: nat, mandatory: bool): Gathering
    requires n <= |globs|
  {
    if n == 0 then g else AddGlob(scene, AddGlobs(scene, g, globs, n - 1, mandatory), globs[n - 1], mandatory)
  }

  function AfterMandatory(scene: Scene): Gathering {
    AddGlobs(scene, AfterChanges(scene, |scene.changes|), scene.mandatoryGlobs, |scene.mandatoryGlobs|, true)
  }

  function AfterOptional(scene: Scene): Gathering {
    AddGlobs(scene, AfterMandatory(scene), scene.optionalGlobs, |scene.optionalGlobs|, false)
  }

  // ---- coverage ------------------------------------------------------------------------------------

  datatype Coverage = Coverage(
    complete: bool,
    mandatoryMissing: seq<string>,
    optionalMissing: seq<string>,
    excluded: seq<string>,
    unreviewable: seq<string>,
    reviewed: seq<string>)

  datatype Gathered = Gathered(coverage: Coverage, items: seq<ContextItem>)

  predicate Reviewed(item: ContextItem) {
    (item.contextClass.Mandatory? || item.contextClass.Optional?) && item.body.Some?
  }

  function PathsWhere(items: seq<ContextItem>, keep: ContextItem -> bool): (r: seq<string>)
    ensures forall p :: p in r <==> exists item :: item in items && keep(item) && item.path == p
  {
    if |items| == 0 then []
    else
      assert items == items[..|items| - 1] + [items[|items| - 1]];
      PathsWhere(items[..|items| - 1], keep) + if keep(items[|items| - 1]) then [items[|items| - 1].path] else []
  }

  /** An item that cannot be shown is listed with the reason why. */
  function Listing(item: ContextItem): string {
    if item.omission.GetOr("") == "" then item.path else item.path + " (" + item.omission.value + ")"
  }

  function UnreviewableListings(items: seq<ContextItem>): (r: seq<string>)
    ensures forall entry :: entry in r <==>
              exists item :: item in items && item.contextClass.Unreviewable? && Listing(item) == entry
  {
    if |items| == 0 then []
    else
      var last := items[|items| - 1];
      assert items == items[..|items| - 1] + [last];
      UnreviewableListings(items[..|items| - 1]) + if last.contextClass.Unreviewable? then [Listing(last)] else []
  }

  function CoverageOf(items: seq<ContextItem>, mandatoryMissing: seq<string>, optionalMissing: seq<string>): Coverage {
    var unreviewable := UnreviewableListings(items);
    Coverage(
      mandatoryMissing == [] && unreviewable == [],
      mandatoryMissing,
      optionalMissing,
      PathsWhere(items, (item: ContextItem) => item.contextClass.Excluded?),
      unreviewable,
      PathsWhere(items, (item: ContextItem) => Reviewed(item)))
  }

  function Gather(scene: Scene): Gathered {
    var g := AfterOptional(scene);
    var items := [DiffItem(scene, g.inScope)] + g.items;
    Gathered(CoverageOf(items, g.mandatoryMissing, g.optionalMissing), items)
  }

  // ---- the gathering as it runs ------------------------------------------------------------------------

  class Gatherer {
    const scene: Scene
    var items: seq<ContextItem>
    var classified: set<string>
    var inScope: seq<string>
    var mandatoryMissing: seq<string>
    var optionalMissing: seq<string>

    ghost function View(): Gathering
      reads this
    {
      Gathering(items, classified, inScope, mandatoryMissing, optionalMissing)
    }

    constructor (scene: Scene)
      ensures this.scene == scene && View() == AfterChanges(scene, 0)
    {
      this.scene := scene;
      items, classified, inScope, mandatoryMissing, optionalMissing := [], {}, [], [], [];
    }

    method ClassifyChanges()
      requires View() == AfterChanges(scene, 0)
      modifies this
      ensures View() == AfterChanges(scene, |scene.changes|)
    {
      for i := 0 to |scene.changes|
        invariant View() == AfterChanges(scene, i)
      {
        ClassifyChange(scene.changes[i]);
      }
    }

    method ClassifyChange(change: Change)
      modifies this
      ensures View() == AddChange(scene, old(View()), change)
    {
      hide ItemFromBytes, IsExcluded;
      var path := change.path;
      classified := classified + {path};
      var kind := KindOf(change.status);
      if IsExcluded(scene, path) {
        items := items + [ContextItem(path, Excluded, ReviewWorktree, Some(scene.mergeTree), Some(kind), None,
          Some("excluded by Review Policy"))];
        return;
      }
      inScope := inScope + [path];
      var item: ContextItem;
      if kind.Deleted? {
        item := ItemFromBytes(scene, path, scene.target(path), Mandatory, TargetTree, scene.targetTree, Some(kind),
          "deleted path could not be read from the target head");
      } else {
        item := ItemFromBytes(scene, path, scene.worktree(path), Mandatory, ReviewWorktree, scene.mergeTree, Some(kind),
          "changed path is missing from the Review Worktree");
      }
      items := items + [item];
    }

    method ClassifyMatches(paths: seq<string>, mandatory: bool)
      modifies this
      ensures View() == AddMatches(scene, old(View()), paths, mandatory)
    {
      for i := 0 to |paths|
        invariant View() == AddMatches(scene, old(View()), paths[..i], mandatory)
      {
        assert paths[..i + 1][..i] == paths[..i];
        var path := paths[i];
        if path in classified { continue; }
        if IsExcluded(scene, path) { continue; }
        classified := classified + {path};
        if mandatory {
          items := items + [MandatoryItem(scene, path)];
        } else {
          var item := OptionalDraft(scene, path);
          if item.contextClass.Unreviewable? {
            items := items +
              [ContextItem(path, Optional, item.source, item.snapshot, item.changeKind, None, item.omission)];
            optionalMissing := optionalMissing + [path];
          } else {
            items := items + [item];
          }
        }
      }
      assert paths[..|paths|] == paths;
    }

    method ClassifyGlobs(globs: seq<string>, mandatory: bool)
      modifies this
      ensures View() == AddGlobs(scene, old(View()), globs, |globs|, mandatory)
    {
      for i := 0 to |globs|
        invariant View() == AddGlobs(scene, old(View()), globs, i, mandatory)
      {
        var found := MatchesOf(scene, globs[i], |scene.worktreePaths|);
        if |found| > 0 {
          ClassifyMatches(found, mandatory);
        } else if mandatory {
          mandatoryMissing := mandatoryMissing + [globs[i]];
        } else {
          optionalMissing := optionalMissing + [globs[i]];
        }
      }
    }
  }

  method GatherContext(scene: Scene) returns (r: Gathered)
    ensures r == Gather(scene)
  {
    var gatherer := new Gatherer(scene);
    gatherer.ClassifyChanges();
    var diffItem := DiffItem(scene, gatherer.inScope);
    gatherer.ClassifyGlobs(scene.mandatoryGlobs, true);
    assert gatherer.View() == AfterMandatory(scene);
    gatherer.ClassifyGlobs(scene.optionalGlobs, false);
    assert gatherer.View() == AfterOptional(scene);
    ScopeKept(scene);
    var items := [diffItem] + gatherer.items;
    r := Gathered(CoverageOf(items, gatherer.mandatoryMissing, gatherer.optionalMissing), items);
  }

  // ---- what is gathered -------------------------------------------------------------------------------

  predicate Changed(scene: Scene, path: string) {
    exists i :: 0 <= i < |scene.changes| && scene.changes[i].path == path
  }

  /** A worktree path that one of the first n globs matches. */
  predicate Matched(scene: Scene, globs: seq<string>, n: nat, path: string)
    requires n <= |globs|
  {
    path in scene.worktreePaths && exists i :: 0 <= i < n && scene.matches(path, globs[i])
  }

  function NewItem(scene: Scene, path: string, mandatory: bool): ContextItem {
    if mandatory then MandatoryItem(scene, path) else OptionalItem(scene, path)
  }

  predicate IsNew(scene: Scene, g: Gathering, item: ContextItem, offered: set<string>, mandatory: bool) {
    && item == NewItem(scene, item.path, mandatory)
    && item.path in offered
    && item.path !in g.classified
    && !IsExcluded(scene, item.path)
  }

  /** Exactly the offered paths that are new and not excluded were added, each with its item. */
  ghost predicate Grown(scene: Scene, g: Gathering, t: Gathering, offered: set<string>, mandatory: bool) {
    && (forall p :: p in t.classified <==> p in g.classified || (p in offered && !IsExcluded(scene, p)))
    && (forall item :: item in t.items <==> item in g.items || IsNew(scene, g, item, offered, mandatory))
    && t.inScope == g.inScope
  }

  lemma NewItemPath(scene: Scene, path: string, mandatory: bool)
    ensures NewItem(scene, path, mandatory).path == path
  {
  }

  lemma GrownTrans(scene: Scene, g: Gathering, t: Gathering, u: Gathering, first: set<string>, second: set<string>,
                   mandatory: bool)
    requires Grown(scene, g, t, first, mandatory) && Grown(scene, t, u, second, mandatory)
    ensures Grown(scene, g, u, first + second, mandatory)
  {
    hide IsExcluded, NewItem;
  }

  lemma GrownOne(scene: Scene, g: Gathering, path: string, mandatory: bool)
    ensures Grown(scene, g, AddMatch(scene, g, path, mandatory), {path}, mandatory)
  {
    hide IsExcluded;
    NewItemPath(scene, path, mandatory);
    var t := AddMatch(scene, g, path, mandatory);
    forall item ensures item in t.items <==> item in g.items || IsNew(scene, g, item, {path}, mandatory) {}
  }

  lemma {:induction false} MatchesGrow(scene: Scene, g: Gathering, paths: seq<string>, mandatory: bool)
    ensures Grown(scene, g, AddMatches(scene, g, paths, mandatory), Elements(paths), mandatory)
  {
    hide Grown, AddMatch;
    if |paths| > 0 {
      var front := paths[..|paths| - 1];
      var last := paths[|paths| - 1];
      MatchesGrow(scene, g, front, mandatory);
      GrownOne(scene, AddMatches(scene, g, front, mandatory), last, mandatory);
      GrownTrans(scene, g, AddMatches(scene, g, front, mandatory), AddMatches(scene, g, paths, mandatory),
        Elements(front), {last}, mandatory);
      assert paths == front + [last];
      assert Elements(paths) == Elements(front) + {last};
    } else {
      GrownNone(scene, g, mandatory);
      assert Elements(paths) == {};
    }
  }

  lemma GrownNone(scene: Scene, g: Gathering, mandatory: bool)
    ensures Grown(scene, g, g, {}, mandatory)
  {
  }

  function MatchedSet(scene: Scene, globs: seq<string>, n: nat): set<string>
    requires n <= |globs|
  {
    set p | p in scene.worktreePaths && Matched(scene, globs, n, p)
  }

  lemma MatchedMore(scene: Scene, globs: seq<string>, n: nat)
    requires 0 < n <= |globs|
    ensures MatchedSet(scene, globs, n) ==
            MatchedSet(scene, globs, n - 1) + Elements(MatchesOf(scene, globs[n - 1], |scene.worktreePaths|))
  {
    assert scene.worktreePaths[..|scene.worktreePaths|] == scene.worktreePaths;
    forall p | p in scene.worktreePaths
      ensures Matched(scene, globs, n, p) <==> Matched(scene, globs, n - 1, p) || scene.matches(p, globs[n - 1])
    {
      if Matched(scene, globs, n - 1, p) {
        var i :| 0 <= i < n - 1 && scene.matches(p, globs[i]);
        assert i < n;
      }
    }
  }

  /** Gathering by globs adds exactly the matched, unclassified, non-excluded worktree paths. */
  lemma {:induction false} GlobsGrow(scene: Scene, g: Gathering, globs: seq<string>, n: nat, mandatory: bool)
    requires n <= |globs|
    ensures Grown(scene, g, AddGlobs(scene, g, globs, n, mandatory), MatchedSet(scene, globs, n), mandatory)
  {
    hide Grown;
    if n > 0 {
      var before := AddGlobs(scene, g, globs, n - 1, mandatory);
      var after := AddGlobs(scene, g, globs, n, mandatory);
      var found := MatchesOf(scene, globs[n - 1], |scene.worktreePaths|);
      GlobsGrow(scene, g, globs, n - 1, mandatory);
      MatchedMore(scene, globs, n);
      if found != [] {
        MatchesGrow(scene, before, found, mandatory);
      } else {
        GrownSame(scene, before, after, mandatory);
      }
      GrownTrans(scene, g, before, after, MatchedSet(scene, globs, n - 1), Elements(found), mandatory);
    } else {
      GrownNone(scene, g, mandatory);
      assert MatchedSet(scene, globs, 0) == {};
    }
  }

  lemma GrownSame(scene: Scene, g: Gathering, t: Gathering, mandatory: bool)
    requires t.items == g.items && t.classified == g.classified && t.inScope == g.inScope
    ensures Grown(scene, g, t, Elements([]), mandatory)
  {
  }

  lemma {:induction false} ChangesExact(scene: Scene, n: nat)
    requires n <= |scene.changes|
    ensures var g := AfterChanges(scene, n);
      && |g.items| == n
      && (forall i :: 0 <= i < n ==> g.items[i] == ChangeItem(scene, scene.changes[i]))
      && (forall p :: p in g.classified <==> exists i :: 0 <= i < n && scene.changes[i].path == p)
      && g.mandatoryMissing == []
  {
    hide ChangeItem, IsExcluded;
    if n > 0 { ChangesExact(scene, n - 1); }
  }

  /** The paths whose combined diff is shown: the changed ones that are not excluded. */
  function InScope(scene: Scene): seq<string> {
    AfterChanges(scene, |scene.changes|).inScope
  }

  lemma ScopeKept(scene: Scene)
    ensures AfterOptional(scene).inScope == InScope(scene)
  {
    GlobsGrow(scene, AfterChanges(scene, |scene.changes|), scene.mandatoryGlobs, |scene.mandatoryGlobs|, true);
    GlobsGrow(scene, AfterMandatory(scene), scene.optionalGlobs, |scene.optionalGlobs|, false);
  }

  lemma {:induction false} ScopeExact(scene: Scene, n: nat)
    requires n <= |scene.changes|
    ensures forall p :: p in AfterChanges(scene, n).inScope <==>
              !IsExcluded(scene, p) && exists i :: 0 <= i < n && scene.changes[i].path == p
  {
    hide ChangeItem, IsExcluded;
    if n > 0 { ScopeExact(scene, n - 1); }
  }

  // ---- the missing globs -----------------------------------------------------------------------------------

  predicate HasMatch(scene: Scene, pattern: string) {
    exists p :: p in scene.worktreePaths && scene.matches(p, pattern)
  }

  lemma {:induction false} MatchesKeepMissing(scene: Scene, g: Gathering, paths: seq<string>, mandatory: bool)
    ensures AddMatches(scene, g, paths, mandatory).mandatoryMissing == g.mandatoryMissing
  {
    if |paths| > 0 { MatchesKeepMissing(scene, g, paths[..|paths| - 1], mandatory); }
  }

  lemma {:induction false} MissingExact(scene: Scene, g: Gathering, globs: seq<string>, n: nat, mandatory: bool)
    requires n <= |globs|
    ensures var t := AddGlobs(scene, g, globs, n, mandatory);
      && (!mandatory ==> t.mandatoryMissing == g.mandatoryMissing)
      && (mandatory ==> (t.mandatoryMissing == [] <==>
            g.mandatoryMissing == [] && forall i :: 0 <= i < n ==> HasMatch(scene, globs[i])))
  {
    hide AddMatches;
    if n > 0 {
      MissingExact(scene, g, globs, n - 1, mandatory);
      var found := MatchesOf(scene, globs[n - 1], |scene.worktreePaths|);
      MatchesKeepMissing(scene, AddGlobs(scene, g, globs, n - 1, mandatory), found, mandatory);
      assert scene.worktreePaths[..|scene.worktreePaths|] == scene.worktreePaths;
      assert HasMatch(scene, globs[n - 1]) <==> found != [] by {
        if found != [] { assert found[0] in found; }
      }
    }
  }

  // ---- complete coverage ---------------------------------------------------------------------------------------

  predicate MandatoryMatch(scene: Scene, p: string) {
    Matched(scene, scene.mandatoryGlobs, |scene.mandatoryGlobs|, p)
  }

  predicate OptionalMatch(scene: Scene, p: string) {
    Matched(scene, scene.optionalGlobs, |scene.optionalGlobs|, p)
  }

  /** Where the gathered item of a path comes from. */
  ghost predicate FromChange(scene: Scene, item: ContextItem) {
    exists i :: 0 <= i < |scene.changes| && item == ChangeItem(scene, scene.changes[i])
  }

  predicate FromMandatory(scene: Scene, item: ContextItem) {
    && item == MandatoryItem(scene, item.path)
    && MandatoryMatch(scene, item.path) && !Changed(scene, item.path) && !IsExcluded(scene, item.path)
  }

  predicate FromOptional(scene: Scene, item: ContextItem) {
    && item == OptionalItem(scene, item.path)
    && OptionalMatch(scene, item.path) && !Changed(scene, item.path) && !IsExcluded(scene, item.path)
    && !MandatoryMatch(scene, item.path)
  }

  /** Every gathered item is one of the three kinds, and every one of them is gathered. */
  lemma ItemsExact(scene: Scene)
    ensures forall item :: item in AfterOptional(scene).items <==>
              FromChange(scene, item) || FromMandatory(scene, item) || FromOptional(scene, item)
  {
    hide ChangeItem, IsExcluded, MandatoryItem, OptionalItem, Matched, AddGlobs;
    var g := AfterChanges(scene, |scene.changes|);
    ChangesExact(scene, |scene.changes|);
    GlobsGrow(scene, g, scene.mandatoryGlobs, |scene.mandatoryGlobs|, true);
    GlobsGrow(scene, AfterMandatory(scene), scene.optionalGlobs, |scene.optionalGlobs|, false);
    forall p ensures p in g.classified <==> Changed(scene, p) {}
    MatchedInWorktree(scene);
  }

  lemma MatchedInWorktree(scene: Scene)
    ensures forall p :: MandatoryMatch(scene, p) ==> p in scene.worktreePaths
    ensures forall p :: OptionalMatch(scene, p) ==> p in scene.worktreePaths
  {
  }

  /**
   * Nothing but excluded paths changed, or the diff of the others is small, UTF-8 text and no pointer to large storage.
   */
  predicate DiffReadable(scene: Scene) {
    var paths := InScope(scene);
    paths == [] || Readable(scene, Some(scene.diff(paths)))
  }

  /** Everything a review must see can be shown. */
  ghost predicate AllReadable(scene: Scene) {
    && (forall i :: 0 <= i < |scene.mandatoryGlobs| ==> HasMatch(scene, scene.mandatoryGlobs[i]))
    && DiffReadable(scene)
    && (forall i :: 0 <= i < |scene.changes| && !IsExcluded(scene, scene.changes[i].path) ==>
          Readable(scene, ChangedData(scene, scene.changes[i])))
    && (forall p :: MandatoryMatch(scene, p) && !Changed(scene, p) && !IsExcluded(scene, p) ==>
          Readable(scene, scene.worktree(p)))
  }

  lemma MandatoryKind(scene: Scene, path: string, data: Option<bytes>, source: EvidenceSource, snapshot: string,
                      kind: Option<ChangeKind>, missingReason: string)
    ensures var item := ItemFromBytes(scene, path, data, Mandatory, source, snapshot, kind, missingReason);
      item.path == path && (item.contextClass.Unreviewable? <==> !Readable(scene, data))
  {
    hide UnreviewableReason, Readable;
    if data.Some? { ReadableExactly(scene, data.value); }
    assert data.None? ==> !Readable(scene, data) by { NothingUnreadable(scene); }
  }

  lemma ChangeItemKind(scene: Scene, c: Change)
    ensures ChangeItem(scene, c).path == c.path
    ensures ChangeItem(scene, c).contextClass.Unreviewable? <==>
              !IsExcluded(scene, c.path) && !Readable(scene, ChangedData(scene, c))
  {
    hide ItemFromBytes, Readable, IsExcluded;
    var kind := KindOf(c.status);
    MandatoryKind(scene, c.path, scene.target(c.path), TargetTree, scene.targetTree, Some(kind),
      "deleted path could not be read from the target head");
    MandatoryKind(scene, c.path, scene.worktree(c.path), ReviewWorktree, scene.mergeTree, Some(kind),
      "changed path is missing from the Review Worktree");
  }

  lemma MandatoryItemKind(scene: Scene, p: string)
    ensures MandatoryItem(scene, p).path == p
    ensures MandatoryItem(scene, p).contextClass.Unreviewable? <==> !Readable(scene, scene.worktree(p))
  {
    hide ItemFromBytes, Readable;
    MandatoryKind(scene, p, scene.worktree(p), ReviewWorktree, scene.mergeTree, None,
      "mandatory path could not be read");
  }

  lemma OptionalItemKind(scene: Scene, p: string)
    ensures OptionalItem(scene, p).path == p
    ensures !OptionalItem(scene, p).contextClass.Unreviewable?
  {
    hide UnreviewableReason;
  }

  lemma DiffItemKind(scene: Scene)
    ensures DiffItem(scene, InScope(scene)).contextClass.Unreviewable? <==> !DiffReadable(scene)
  {
    hide UnreviewableReason, InScope, Readable;
    ReadableExactly(scene, scene.diff(InScope(scene)));
  }

  lemma ItemKinds(scene: Scene)
    ensures forall c :: ChangeItem(scene, c).contextClass.Unreviewable? <==>
              !IsExcluded(scene, c.path) && !Readable(scene, ChangedData(scene, c))
    ensures forall p :: MandatoryItem(scene, p).contextClass.Unreviewable? <==> !Readable(scene, scene.worktree(p))
    ensures forall p :: !OptionalItem(scene, p).contextClass.Unreviewable?
    ensures forall p :: MandatoryItem(scene, p).path == p && OptionalItem(scene, p).path == p
    ensures forall c :: ChangeItem(scene, c).path == c.path
  {
    hide ChangeItem, MandatoryItem, OptionalItem, IsExcluded, Readable;
    forall c
      ensures ChangeItem(scene, c).path == c.path
      ensures ChangeItem(scene, c).contextClass.Unreviewable? <==>
                !IsExcluded(scene, c.path) && !Readable(scene, ChangedData(scene, c))
    {
      ChangeItemKind(scene, c);
    }
    forall p
      ensures MandatoryItem(scene, p).contextClass.Unreviewable? <==> !Readable(scene, scene.worktree(p))
      ensures !OptionalItem(scene, p).contextClass.Unreviewable?
      ensures MandatoryItem(scene, p).path == p && OptionalItem(scene, p).path == p
    {
      MandatoryItemKind(scene, p);
      OptionalItemKind(scene, p);
    }
  }

  /**
   * Coverage is complete exactly when every mandatory glob matches something and the diff, every
   * changed path and every mandatory path that policy does not exclude can be shown.
   */
  lemma CompleteExactly(scene: Scene)
    ensures Gather(scene).coverage.complete <==> AllReadable(scene)
  {
    hide ChangeItem, IsExcluded, MandatoryItem, OptionalItem, Readable, Matched, AfterOptional, AfterMandatory;
    hide DiffItem;
    hide InScope, DiffReadable;
    DiffItemKind(scene);
    var g := AfterOptional(scene);
    ItemsExact(scene);
    ItemKinds(scene);
    ScopeKept(scene);
    NothingMissing(scene);
    var items := [DiffItem(scene, g.inScope)] + g.items;
    forall item
      ensures item in items <==> item == DiffItem(scene, g.inScope) || item in g.items
    {}
    var unreviewable := Gather(scene).coverage.unreviewable;
    assert unreviewable == [] <==> forall item :: item in items ==> !item.contextClass.Unreviewable? by {
      if unreviewable != [] { assert unreviewable[0] in unreviewable; }
      if item :| item in items && item.contextClass.Unreviewable? { assert Listing(item) in unreviewable; }
    }
    if forall item :: item in items ==> !item.contextClass.Unreviewable? {
      forall i | 0 <= i < |scene.changes| && !IsExcluded(scene, scene.changes[i].path)
        ensures Readable(scene, ChangedData(scene, scene.changes[i]))
      {
        assert FromChange(scene, ChangeItem(scene, scene.changes[i]));
      }
      forall p | MandatoryMatch(scene, p) && !Changed(scene, p) && !IsExcluded(scene, p)
        ensures Readable(scene, scene.worktree(p))
      {
        assert FromMandatory(scene, MandatoryItem(scene, p));
      }
    }
  }

  lemma NothingMissing(scene: Scene)
    ensures AfterOptional(scene).mandatoryMissing == [] <==>
              forall i :: 0 <= i < |scene.mandatoryGlobs| ==> HasMatch(scene, scene.mandatoryGlobs[i])
  {
    ChangesExact(scene, |scene.changes|);
    MissingExact(scene, AfterChanges(scene, |scene.changes|), scene.mandatoryGlobs, |scene.mandatoryGlobs|, true);
    MissingExact(scene, AfterMandatory(scene), scene.optionalGlobs, |scene.optionalGlobs|, false);
  }

  lemma ItemsShown(scene: Scene)
    ensures forall c: Change :: !IsExcluded(scene, c.path) && Readable(scene, ChangedData(scene, c)) ==>
              Reviewed(ChangeItem(scene, c))
    ensures forall p :: Readable(scene, scene.worktree(p)) ==> Reviewed(MandatoryItem(scene, p))
    ensures forall c: Change :: IsExcluded(scene, c.path) ==>
              ChangeItem(scene, c).body.None? && ChangeItem(scene, c).contextClass.Excluded?
  {
  }

  lemma CoverageLists(scene: Scene, item: ContextItem)
    requires item in AfterOptional(scene).items
    ensures Reviewed(item) ==> item.path in Gather(scene).coverage.reviewed
    ensures item.contextClass.Excluded? ==> item.path in Gather(scene).coverage.excluded
  {
    hide AfterOptional, DiffItem;
    var g := AfterOptional(scene);
    assert item in [DiffItem(scene, g.inScope)] + g.items;
  }

  /** With complete coverage the review covers every changed and every mandatory path policy does not exclude. */
  lemma CompleteMeansReviewed(scene: Scene, p: string)
    requires Gather(scene).coverage.complete && !IsExcluded(scene, p)
    requires Changed(scene, p) || MandatoryMatch(scene, p)
    ensures p in Gather(scene).coverage.reviewed
  {
    hide IsExcluded, AfterOptional, ChangeItem, MandatoryItem, OptionalItem, Readable, Reviewed, Gather, Matched;
    CompleteExactly(scene);
    ItemsExact(scene);
    ItemKinds(scene);
    ItemsShown(scene);
    if Changed(scene, p) {
      var i :| 0 <= i < |scene.changes| && scene.changes[i].path == p;
      assert FromChange(scene, ChangeItem(scene, scene.changes[i]));
      CoverageLists(scene, ChangeItem(scene, scene.changes[i]));
    } else {
      assert FromMandatory(scene, MandatoryItem(scene, p));
      CoverageLists(scene, MandatoryItem(scene, p));
    }
  }

  /** What policy excludes is disclosed by name and never shown, not even in the diff. */
  lemma ExcludedNeverShown(scene: Scene, p: string)
    requires IsExcluded(scene, p)
    ensures forall item :: item in AfterOptional(scene).items && item.path == p ==>
              item.body.None? && item.contextClass.Excluded?
    ensures p !in InScope(scene)
    ensures Changed(scene, p) ==> p in Gather(scene).coverage.excluded
  {
    hide IsExcluded, AfterOptional, ChangeItem, MandatoryItem, OptionalItem, Readable, Reviewed, Gather, Matched;
    ItemsExact(scene);
    ItemKinds(scene);
    ItemsShown(scene);
    ScopeExact(scene, |scene.changes|);
    if Changed(scene, p) {
      var i :| 0 <= i < |scene.changes| && scene.changes[i].path == p;
      assert FromChange(scene, ChangeItem(scene, scene.changes[i]));
      CoverageLists(scene, ChangeItem(scene, scene.changes[i]));
    }
  }

  // ---- no path twice -----------------------------------------------------------------------------------------

  ghost predicate NoRepeats(g: Gathering) {
    && (forall i :: 0 <= i < |g.items| ==> g.items[i].path in g.classified)
    && (forall i, j :: 0 <= i < j < |g.items| ==> g.items[i].path != g.items[j].path)
  }

  lemma {:induction false} ChangesNoRepeats(scene: Scene, n: nat)
    requires n <= |scene.changes|
    requires forall i, j :: 0 <= i < j < |scene.changes| ==> scene.changes[i].path != scene.changes[j].path
    ensures NoRepeats(AfterChanges(scene, n))
  {
    hide ChangeItem;
    ChangesExact(scene, n);
    ItemKinds(scene);
  }

  lemma {:induction false} MatchesNoRepeats(scene: Scene, g: Gathering, paths: seq<string>, mandatory: bool)
    requires NoRepeats(g)
    ensures NoRepeats(AddMatches(scene, g, paths, mandatory))
  {
    if |paths| > 0 {
      MatchesNoRepeats(scene, g, paths[..|paths| - 1], mandatory);
      NewItemPath(scene, paths[|paths| - 1], mandatory);
    }
  }

  lemma {:induction false} GlobsNoRepeats(scene: Scene, g: Gathering, globs: seq<string>, n: nat, mandatory: bool)
    requires NoRepeats(g) && n <= |globs|
    ensures NoRepeats(AddGlobs(scene, g, globs, n, mandatory))
  {
    if n > 0 {
      var before := AddGlobs(scene, g, globs, n - 1, mandatory);
      GlobsNoRepeats(scene, g, globs, n - 1, mandatory);
      MatchesNoRepeats(scene, before, MatchesOf(scene, globs[n - 1], |scene.worktreePaths|), mandatory);
    }
  }

  /** No repository path is gathered twice, however many globs match it. */
  lemma GatheredOnce(scene: Scene)
    requires forall i, j :: 0 <= i < j < |scene.changes| ==> scene.changes[i].path != scene.changes[j].path
    ensures var items := Gather(scene).items;
      && |items| > 0 && items[0].source == MergeDiff
      && forall i, j :: 1 <= i < j < |items| ==> items[i].path != items[j].path
  {
    hide IsExcluded;
    ChangesNoRepeats(scene, |scene.changes|);
    GlobsNoRepeats(scene, AfterChanges(scene, |scene.changes|), scene.mandatoryGlobs, |scene.mandatoryGlobs|, true);
    GlobsNoRepeats(scene, AfterMandatory(scene), scene.optionalGlobs, |scene.optionalGlobs|, false);
  }
}
