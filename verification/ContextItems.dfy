/** Every item of a gathered context, field by field, from the scene alone. */
module ContextItems {
  import opened Prelude
  import opened Findings
  import opened ContextGathering

  // ---- what becomes of the data of a path -------------------------------------------------------

  /** Why data that is there cannot be shown: the first of the four reasons that applies. */
  predicate Explained(scene: Scene, data: bytes, omission: Option<string>) {
    if |data| > scene.maxFileBytes then
      omission == Some("exceeds max_file_bytes (" + Numeral(|data|) + " > " + Numeral(scene.maxFileBytes) + ")")
    else if exists i :: 0 <= i < |data| && i < 8192 && data[i] == 0 then omission == Some("binary (NUL byte)")
    else if scene.decode(data).None? then omission == Some("not valid UTF-8")
    else omission == Some("git-lfs pointer")
  }

  /** The body is the decoded data, or the item is unreviewable and says why. */
  predicate Required(scene: Scene, item: ContextItem, data: Option<bytes>, missing: string) {
    && (Readable(scene, data) ==>
          item.contextClass.Mandatory? && item.body == scene.decode(data.value) && item.omission.None?)
    && (!Readable(scene, data) ==>
          && item.contextClass.Unreviewable? && item.body.None?
          && (data.None? ==> item.omission == Some(missing))
          && (data.Some? ==> Explained(scene, data.value, item.omission)))
  }

  /** The same for a path the review can do without: it stays optional. */
  predicate Supplied(scene: Scene, item: ContextItem, data: Option<bytes>, missing: string) {
    && item.contextClass.Optional?
    && (Readable(scene, data) ==> item.body == scene.decode(data.value) && item.omission.None?)
    && (!Readable(scene, data) ==>
          && item.body.None?
          && (data.None? ==> item.omission == Some(missing))
          && (data.Some? ==> Explained(scene, data.value, item.omission)))
  }

  /** Where an item says it is from. */
  predicate From(item: ContextItem, path: string, source: EvidenceSource, snapshot: string, kind: Option<ChangeKind>) {
    item.path == path && item.source == source && item.snapshot == Some(snapshot) && item.changeKind == kind
  }

  lemma ReasonExplains(scene: Scene, data: bytes)
    requires !Readable(scene, Some(data))
    ensures Explained(scene, data, UnreviewableReason(scene, data))
  {
    hide Readable, Numeral;
    ReadableExactly(scene, data);
    var scanned := data[..if |data| < NUL_SCAN_BYTES then |data| else NUL_SCAN_BYTES];
    assert 0 in scanned <==> exists i :: 0 <= i < |data| && i < 8192 && data[i] == 0 by {
      if i :| 0 <= i < |data| && i < 8192 && data[i] == 0 { assert scanned[i] == 0; }
    }
  }

  lemma RequiredItem(scene: Scene, path: string, data: Option<bytes>, source: EvidenceSource, snapshot: string,
                     kind: Option<ChangeKind>, missing: string)
    ensures var item := ItemFromBytes(scene, path, data, Mandatory, source, snapshot, kind, missing);
      From(item, path, source, snapshot, kind) && Required(scene, item, data, missing)
  {
    hide UnreviewableReason, Explained, Readable;
    NothingUnreadable(scene);
    if data.Some? {
      ReadableExactly(scene, data.value);
      if !Readable(scene, data) { ReasonExplains(scene, data.value); }
    }
  }

  // ---- the items of the changed paths -----------------------------------------------------------

  /** A deleted path is read in the target tree, an added or other changed one in the merged worktree. */
  predicate ItemOfChange(scene: Scene, c: Change, item: ContextItem) {
    if IsExcluded(scene, c.path) then
      && From(item, c.path, ReviewWorktree, scene.mergeTree,
           Some(if c.status == "D" then Deleted else if c.status == "A" then Added else Modified))
      && item.contextClass.Excluded? && item.body.None? && item.omission == Some("excluded by Review Policy")
    else if c.status == "D" then
      && From(item, c.path, TargetTree, scene.targetTree, Some(Deleted))
      && Required(scene, item, scene.target(c.path), "deleted path could not be read from the target head")
    else
      && From(item, c.path, ReviewWorktree, scene.mergeTree, Some(if c.status == "A" then Added else Modified))
      && Required(scene, item, scene.worktree(c.path), "changed path is missing from the Review Worktree")
  }

  /** A path that a mandatory glob matches. */
  predicate ItemOfMandatory(scene: Scene, item: ContextItem) {
    && From(item, item.path, ReviewWorktree, scene.mergeTree, None)
    && Required(scene, item, scene.worktree(item.path), "mandatory path could not be read")
  }

  predicate ItemOfOptional(scene: Scene, item: ContextItem) {
    && From(item, item.path, ReviewWorktree, scene.mergeTree, None)
    && Supplied(scene, item, scene.worktree(item.path), "optional path could not be read")
  }

  lemma ChangeItemExact(scene: Scene, c: Change)
    ensures ItemOfChange(scene, c, ChangeItem(scene, c))
  {
    hide ItemFromBytes, Required, IsExcluded;
    var kind := Some(KindOf(c.status));
    RequiredItem(scene, c.path, scene.target(c.path), TargetTree, scene.targetTree, kind,
      "deleted path could not be read from the target head");
    RequiredItem(scene, c.path, scene.worktree(c.path), ReviewWorktree, scene.mergeTree, kind,
      "changed path is missing from the Review Worktree");
  }

  lemma MandatoryItemExact(scene: Scene, path: string)
    ensures ItemOfMandatory(scene, MandatoryItem(scene, path))
  {
    hide ItemFromBytes, Required;
    RequiredItem(scene, path, scene.worktree(path), ReviewWorktree, scene.mergeTree, None,
      "mandatory path could not be read");
  }

  lemma OptionalItemExact(scene: Scene, path: string)
    ensures ItemOfOptional(scene, OptionalItem(scene, path))
    ensures OptionalDraft(scene, path).contextClass.Unreviewable? <==>
              scene.worktree(path).Some? && !Readable(scene, scene.worktree(path))
  {
    hide UnreviewableReason, Explained, Readable;
    var data := scene.worktree(path);
    NothingUnreadable(scene);
    if data.Some? {
      ReadableExactly(scene, data.value);
      if !Readable(scene, data) { ReasonExplains(scene, data.value); }
    }
  }

  // ---- no other item fits -------------------------------------------------------------------------

  lemma OneRequired(scene: Scene, a: ContextItem, b: ContextItem, data: Option<bytes>, missing: string)
    requires Required(scene, a, data, missing) && Required(scene, b, data, missing)
    requires a.path == b.path && a.source == b.source && a.snapshot == b.snapshot && a.changeKind == b.changeKind
    ensures a == b
  {
    hide Readable, Numeral;
  }

  lemma OneOfChange(scene: Scene, c: Change, a: ContextItem, b: ContextItem)
    requires ItemOfChange(scene, c, a) && ItemOfChange(scene, c, b)
    ensures a == b
  {
    hide Required, IsExcluded;
    if !IsExcluded(scene, c.path) {
      if c.status == "D" {
        OneRequired(scene, a, b, scene.target(c.path), "deleted path could not be read from the target head");
      } else {
        OneRequired(scene, a, b, scene.worktree(c.path), "changed path is missing from the Review Worktree");
      }
    }
  }

  lemma OneOfMandatory(scene: Scene, a: ContextItem, b: ContextItem)
    requires ItemOfMandatory(scene, a) && ItemOfMandatory(scene, b) && a.path == b.path
    ensures a == b
  {
    hide Required;
    OneRequired(scene, a, b, scene.worktree(a.path), "mandatory path could not be read");
  }

  lemma OneOfOptional(scene: Scene, a: ContextItem, b: ContextItem)
    requires ItemOfOptional(scene, a) && ItemOfOptional(scene, b) && a.path == b.path
    ensures a == b
  {
    hide Readable, Numeral;
  }

  // ---- the gathered items ---------------------------------------------------------------------------

  /** The combined diff of the changed paths that are not excluded, in the order of the changes. */
  predicate ItemOfDiff(scene: Scene, paths: seq<string>, item: ContextItem) {
    && From(item, "merge-candidate.diff", MergeDiff, scene.targetTree + ".." + scene.mergeTree, None)
    && (paths == [] ==> item.contextClass.Mandatory? && item.body == Some("") && item.omission.None?)
    && (paths != [] ==> Required(scene, item, Some(scene.diff(paths)), ""))
  }

  function PathsOf(changes: seq<Change>): (r: seq<string>)
    ensures |r| == |changes| && forall i :: 0 <= i < |r| ==> r[i] == changes[i].path
  {
    seq(|changes|, i requires 0 <= i < |changes| => changes[i].path)
  }

  function Shown(scene: Scene, paths: seq<string>): seq<string> {
    Kept(paths, (p: string) => !IsExcluded(scene, p))
  }

  lemma {:induction false} KeptMore<T>(s: seq<T>, last: T, condition: T -> bool)
    ensures Kept(s + [last], condition) == Kept(s, condition) + if condition(last) then [last] else []
  {
    if |s| > 0 {
      KeptMore(s[1..], last, condition);
      assert (s + [last])[1..] == s[1..] + [last];
    } else {
      assert s + [last] == [last];
    }
  }

  lemma {:induction false} ScopeInOrder(scene: Scene, n: nat)
    requires n <= |scene.changes|
    ensures AfterChanges(scene, n).inScope == Shown(scene, PathsOf(scene.changes[..n]))
  {
    hide ChangeItem, IsExcluded;
    if n > 0 {
      ScopeInOrder(scene, n - 1);
      KeptMore(PathsOf(scene.changes[..n - 1]), scene.changes[n - 1].path, (p: string) => !IsExcluded(scene, p));
      assert PathsOf(scene.changes[..n]) == PathsOf(scene.changes[..n - 1]) + [scene.changes[n - 1].path];
    }
  }

  lemma DiffItemExact(scene: Scene, paths: seq<string>)
    ensures ItemOfDiff(scene, paths, DiffItem(scene, paths))
  {
    hide UnreviewableReason, Explained, Readable;
    if paths != [] {
      var data := scene.diff(paths);
      ReadableExactly(scene, data);
      if !Readable(scene, Some(data)) { ReasonExplains(scene, data); }
    }
  }

  lemma {:induction false} MatchesKeepItems(scene: Scene, g: Gathering, paths: seq<string>, mandatory: bool)
    ensures g.items <= AddMatches(scene, g, paths, mandatory).items
  {
    hide MandatoryItem, OptionalItem, OptionalDraft, IsExcluded;
    if |paths| > 0 { MatchesKeepItems(scene, g, paths[..|paths| - 1], mandatory); }
  }

  lemma {:induction false} GlobsKeepItems(scene: Scene, g: Gathering, globs: seq<string>, n: nat, mandatory: bool)
    requires n <= |globs|
    ensures g.items <= AddGlobs(scene, g, globs, n, mandatory).items
  {
    hide AddMatches;
    if n > 0 {
      var before := AddGlobs(scene, g, globs, n - 1, mandatory);
      GlobsKeepItems(scene, g, globs, n - 1, mandatory);
      MatchesKeepItems(scene, before, MatchesOf(scene, globs[n - 1], |scene.worktreePaths|), mandatory);
    }
  }

  /** The diff comes first, then the changed paths in order, whatever their kind. */
  lemma ChangesExactly(scene: Scene)
    ensures var items := Gather(scene).items;
      && |items| >= 1 + |scene.changes|
      && ItemOfDiff(scene, Shown(scene, PathsOf(scene.changes)), items[0])
      && forall i :: 0 <= i < |scene.changes| ==> ItemOfChange(scene, scene.changes[i], items[1 + i])
  {
    hide ChangeItem, ItemOfChange, ItemOfDiff, DiffItem, CoverageOf, AddGlobs, Shown;
    var n := |scene.changes|;
    var g := AfterChanges(scene, n);
    ChangesExact(scene, n);
    ScopeInOrder(scene, n);
    ScopeKept(scene);
    assert scene.changes[..n] == scene.changes;
    DiffItemExact(scene, InScope(scene));
    GlobsKeepItems(scene, g, scene.mandatoryGlobs, |scene.mandatoryGlobs|, true);
    GlobsKeepItems(scene, AfterMandatory(scene), scene.optionalGlobs, |scene.optionalGlobs|, false);
    forall i | 0 <= i < n ensures ItemOfChange(scene, scene.changes[i], Gather(scene).items[1 + i]) {
      ChangeItemExact(scene, scene.changes[i]);
      assert Gather(scene).items[1 + i] == g.items[i];
    }
  }

  /** One of the changes has this item. */
  ghost predicate OfSomeChange(scene: Scene, item: ContextItem) {
    exists i :: 0 <= i < |scene.changes| && ItemOfChange(scene, scene.changes[i], item)
  }

  /** A path no change names and no policy excludes. */
  predicate Extra(scene: Scene, path: string) {
    !Changed(scene, path) && !IsExcluded(scene, path)
  }

  /**
   * After the diff come exactly the items of the changes, of the paths a mandatory glob matches and
   * of the further ones an optional glob matches, each read where its kind says.
   */
  lemma ItemsExactly(scene: Scene, item: ContextItem)
    ensures item in AfterOptional(scene).items <==>
              || OfSomeChange(scene, item)
              || (MandatoryMatch(scene, item.path) && Extra(scene, item.path) && ItemOfMandatory(scene, item))
              || (OptionalMatch(scene, item.path) && !MandatoryMatch(scene, item.path) && Extra(scene, item.path) &&
                  ItemOfOptional(scene, item))
    ensures Gather(scene).items[1..] == AfterOptional(scene).items
  {
    hide ChangeItem, IsExcluded, MandatoryItem, OptionalItem, Matched, AfterOptional, ItemOfChange, ItemOfMandatory;
    hide ItemOfOptional, DiffItem, CoverageOf;
    ItemsExact(scene);
    MandatoryItemExact(scene, item.path);
    OptionalItemExact(scene, item.path);
    ItemKinds(scene);
    if OfSomeChange(scene, item) {
      var i :| 0 <= i < |scene.changes| && ItemOfChange(scene, scene.changes[i], item);
      ChangeItemExact(scene, scene.changes[i]);
      OneOfChange(scene, scene.changes[i], item, ChangeItem(scene, scene.changes[i]));
      assert FromChange(scene, item);
    }
    if FromChange(scene, item) {
      var i :| 0 <= i < |scene.changes| && item == ChangeItem(scene, scene.changes[i]);
      ChangeItemExact(scene, scene.changes[i]);
    }
    if ItemOfMandatory(scene, item) { OneOfMandatory(scene, item, MandatoryItem(scene, item.path)); }
    if ItemOfOptional(scene, item) { OneOfOptional(scene, item, OptionalItem(scene, item.path)); }
  }

  // ---- what is reported missing -------------------------------------------------------------------------

  lemma {:induction false} MandatoryMissingInOrder(scene: Scene, g: Gathering, n: nat)
    requires n <= |scene.mandatoryGlobs|
    ensures AddGlobs(scene, g, scene.mandatoryGlobs, n, true).mandatoryMissing ==
            g.mandatoryMissing + Kept(scene.mandatoryGlobs[..n], (pattern: string) => !HasMatch(scene, pattern))
  {
    hide AddMatches, HasMatch;
    if n > 0 {
      var pattern := scene.mandatoryGlobs[n - 1];
      var found := MatchesOf(scene, pattern, |scene.worktreePaths|);
      MandatoryMissingInOrder(scene, g, n - 1);
      MatchesKeepMissing(scene, AddGlobs(scene, g, scene.mandatoryGlobs, n - 1, true), found, true);
      FoundExactly(scene, pattern);
      KeptMore(scene.mandatoryGlobs[..n - 1], pattern, (p: string) => !HasMatch(scene, p));
      assert scene.mandatoryGlobs[..n] == scene.mandatoryGlobs[..n - 1] + [pattern];
    }
  }

  lemma FoundExactly(scene: Scene, pattern: string)
    ensures MatchesOf(scene, pattern, |scene.worktreePaths|) != [] <==> HasMatch(scene, pattern)
  {
    var found := MatchesOf(scene, pattern, |scene.worktreePaths|);
    assert scene.worktreePaths[..|scene.worktreePaths|] == scene.worktreePaths;
    if found != [] { assert found[0] in found; }
  }

  /** The mandatory globs that match nothing are reported in the policy's order. */
  lemma MissingExactly(scene: Scene)
    ensures Gather(scene).coverage.mandatoryMissing ==
            Kept(scene.mandatoryGlobs, (pattern: string) => !HasMatch(scene, pattern))
  {
    hide HasMatch, AddGlobs;
    var g := AfterChanges(scene, |scene.changes|);
    ChangesExact(scene, |scene.changes|);
    MandatoryMissingInOrder(scene, g, |scene.mandatoryGlobs|);
    MissingExact(scene, AfterMandatory(scene), scene.optionalGlobs, |scene.optionalGlobs|, false);
    assert scene.mandatoryGlobs[..|scene.mandatoryGlobs|] == scene.mandatoryGlobs;
  }

  /** Data is there but cannot be shown. */
  predicate Unshowable(scene: Scene, path: string) {
    scene.worktree(path).Some? && !Readable(scene, scene.worktree(path))
  }

  lemma {:induction false} MatchesMissed(scene: Scene, g: Gathering, paths: seq<string>, p: string)
    ensures p in AddMatches(scene, g, paths, false).optionalMissing <==>
              || p in g.optionalMissing
              || (p in paths && p !in g.classified && !IsExcluded(scene, p) && Unshowable(scene, p))
  {
    hide IsExcluded, OptionalDraft, OptionalItem, Unshowable, Grown;
    if |paths| > 0 {
      var front, last := paths[..|paths| - 1], paths[|paths| - 1];
      MatchesMissed(scene, g, front, p);
      MatchesGrow(scene, g, front, false);
      GrownClassified(scene, g, AddMatches(scene, g, front, false), Elements(front), p);
      UnshowableExactly(scene, last);
      assert p in paths <==> p in front || p == last by { assert paths == front + [last]; }
    }
  }

  lemma GrownClassified(scene: Scene, g: Gathering, t: Gathering, offered: set<string>, p: string)
    requires Grown(scene, g, t, offered, false)
    ensures p in t.classified <==> p in g.classified || (p in offered && !IsExcluded(scene, p))
  {
  }

  lemma UnshowableExactly(scene: Scene, path: string)
    ensures OptionalDraft(scene, path).contextClass.Unreviewable? <==> Unshowable(scene, path)
  {
    OptionalItemExact(scene, path);
  }

  /** One of the first n globs is this pattern. */
  predicate Among(globs: seq<string>, n: nat, pattern: string)
    requires n <= |globs|
  {
    exists i :: 0 <= i < n && globs[i] == pattern
  }

  lemma {:induction false} GlobsMissed(scene: Scene, g: Gathering, n: nat, p: string)
    requires n <= |scene.optionalGlobs|
    ensures p in AddGlobs(scene, g, scene.optionalGlobs, n, false).optionalMissing <==>
              || p in g.optionalMissing
              || (Among(scene.optionalGlobs, n, p) && !HasMatch(scene, p))
              || (Matched(scene, scene.optionalGlobs, n, p) && p !in g.classified && !IsExcluded(scene, p) &&
                  Unshowable(scene, p))
  {
    hide IsExcluded, Unshowable, AddMatches, HasMatch, Grown;
    if n > 0 {
      var globs := scene.optionalGlobs;
      var before := AddGlobs(scene, g, globs, n - 1, false);
      var found := MatchesOf(scene, globs[n - 1], |scene.worktreePaths|);
      GlobsMissed(scene, g, n - 1, p);
      GlobsGrow(scene, g, globs, n - 1, false);
      GrownClassified(scene, g, before, MatchedSet(scene, globs, n - 1), p);
      MatchesMissed(scene, before, found, p);
      FoundExactly(scene, globs[n - 1]);
      MatchedMore(scene, globs, n);
      MatchedMembers(scene, globs, n, p);
      MatchedMembers(scene, globs, n - 1, p);
      assert p in found <==> p in Elements(found);
    }
  }

  lemma MatchedMembers(scene: Scene, globs: seq<string>, n: nat, p: string)
    requires n <= |globs|
    ensures p in MatchedSet(scene, globs, n) <==> Matched(scene, globs, n, p)
  {
  }

  lemma {:induction false} MandatoryMissNothing(scene: Scene, g: Gathering, globs: seq<string>, n: nat)
    requires n <= |globs|
    ensures AddGlobs(scene, g, globs, n, true).optionalMissing == g.optionalMissing
  {
    if n > 0 {
      MandatoryMissNothing(scene, g, globs, n - 1);
      MandatoryMatchesMissNothing(scene, AddGlobs(scene, g, globs, n - 1, true),
        MatchesOf(scene, globs[n - 1], |scene.worktreePaths|));
    }
  }

  lemma {:induction false} MandatoryMatchesMissNothing(scene: Scene, g: Gathering, paths: seq<string>)
    ensures AddMatches(scene, g, paths, true).optionalMissing == g.optionalMissing
  {
    if |paths| > 0 { MandatoryMatchesMissNothing(scene, g, paths[..|paths| - 1]); }
  }

  lemma {:induction false} ChangesMissNothing(scene: Scene, n: nat)
    requires n <= |scene.changes|
    ensures AfterChanges(scene, n).optionalMissing == []
  {
    if n > 0 { ChangesMissNothing(scene, n - 1); }
  }

  /**
   * Reported as optional and missing are exactly the optional globs that match nothing and the
   * optional paths, read for no other reason, whose data cannot be shown. An absent one is not.
   */
  lemma OptionalMissingExactly(scene: Scene, p: string)
    ensures p in Gather(scene).coverage.optionalMissing <==>
              || (p in scene.optionalGlobs && !HasMatch(scene, p))
              || (OptionalMatch(scene, p) && !MandatoryMatch(scene, p) && Extra(scene, p) && Unshowable(scene, p))
  {
    hide IsExcluded, Unshowable, HasMatch, AddGlobs, Grown, Matched;
    var g := AfterChanges(scene, |scene.changes|);
    ChangesExact(scene, |scene.changes|);
    ChangesMissNothing(scene, |scene.changes|);
    MandatoryMissNothing(scene, g, scene.mandatoryGlobs, |scene.mandatoryGlobs|);
    GlobsGrow(scene, g, scene.mandatoryGlobs, |scene.mandatoryGlobs|, true);
    MandatoryClassified(scene, g, p);
    GlobsMissed(scene, AfterMandatory(scene), |scene.optionalGlobs|, p);
  }

  lemma MandatoryClassified(scene: Scene, g: Gathering, p: string)
    ensures p in AddGlobs(scene, g, scene.mandatoryGlobs, |scene.mandatoryGlobs|, true).classified <==>
              p in g.classified || (MandatoryMatch(scene, p) && !IsExcluded(scene, p))
  {
    hide IsExcluded, AddGlobs;
    GlobsGrow(scene, g, scene.mandatoryGlobs, |scene.mandatoryGlobs|, true);
    MatchedMembers(scene, scene.mandatoryGlobs, |scene.mandatoryGlobs|, p);
  }

  // ---- the coverage lists ---------------------------------------------------------------------------

  /** Reviewed are the paths shown with a body, excluded the excluded ones; nothing else is in either list. */
  lemma ListsExactly(scene: Scene, p: string)
    ensures p in Gather(scene).coverage.reviewed <==>
              exists i :: 0 <= i < |Gather(scene).items| && Gather(scene).items[i].path == p &&
                Gather(scene).items[i].contextClass in {Mandatory, Optional} && Gather(scene).items[i].body != None
    ensures p in Gather(scene).coverage.excluded <==>
              exists i :: 0 <= i < |Gather(scene).items| && Gather(scene).items[i].path == p &&
                Gather(scene).items[i].contextClass == Excluded
  {
    hide AfterOptional, DiffItem;
    var items := Gather(scene).items;
    if p in Gather(scene).coverage.reviewed {
      var item :| item in items && Reviewed(item) && item.path == p;
      var i :| 0 <= i < |items| && items[i] == item;
    }
    if i :| 0 <= i < |items| && items[i].path == p && Reviewed(items[i]) {
      assert items[i] in items;
    }
    if p in Gather(scene).coverage.excluded {
      var item :| item in items && item.contextClass.Excluded? && item.path == p;
      var i :| 0 <= i < |items| && items[i] == item;
    }
    if i :| 0 <= i < |items| && items[i].path == p && items[i].contextClass == Excluded {
      assert items[i] in items;
    }
  }
}
