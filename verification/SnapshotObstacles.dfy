/** What stands in the way of a snapshot, by what lies where. */
module SnapshotObstacles {
  import opened Prelude
  import opened Ordering
  import opened Paths
  import opened BaselinePaths
  import opened Snapshot

  /**
   * A changed submodule of HEAD, a changed path behind a symlink, a nested repository that nothing
   * tracks or ignores, and anything changed that is neither file nor directory.
   */
  ghost predicate Obstacle(r: Repository, p: string) {
    || (p in r.head && r.head[p].mode == "160000" && p in Remaining(r))
    || (p in ChangedPaths(r) && BehindLink(r.disk, p))
    || (p in r.disk && r.disk[p] == NestedRepository && (p in Remaining(r) || (p !in r.index && !r.ignored(p))))
    || (p in r.disk && r.disk[p] == Unsupported && p in Remaining(r))
  }

  /** A changed path is tracked or there as it is written, or it is a nested repository with a slash behind it. */
  lemma ChangedAs(r: Repository, c: string)
    requires Sane(r) && c in ChangedPaths(r)
    ensures var p := StripTrailingSlashes(c);
      && CleanPath(p)
      && (p == c || (c == p + "/" && p in r.disk && r.disk[p] == NestedRepository && p !in r.index && !r.ignored(p)))
      && (p != c ==> c !in r.head && !Skipped(r, c) && c in Remaining(r))
  {
    if c in r.head.Keys + r.index.Keys + r.disk.Keys {
      CleanIsPlain(c);
    } else {
      var p :| p in r.disk && r.disk[p].NestedRepository? && Untracked(r, p) && c == p + "/";
      CleanIsPlain(p);
    }
  }

  lemma CleanNotUnsafe(p: string)
    requires CleanPath(p)
    ensures "" !in Split(p) && "." !in Split(p) && ".." !in Split(p)
  {
    assert forall part :: part in Split(p) ==> OrdinaryPart(part);
  }

  lemma NotBehindLink(r: Repository, p: string)
    requires Sane(r) && p in r.disk
    ensures !BehindLink(r.disk, p)
  {
    forall q | q in r.disk && Split(q) <= Split(p) && |Split(q)| < |Split(p)|
      ensures r.disk[q].Directory?
    {
      assert AtOrBelow(p, q) && p != q;
    }
  }

  /** A changed path is refused exactly when it is an obstacle, or stands for one. */
  lemma RefusedExactly(r: Repository, c: string)
    requires Sane(r) && c in Remaining(r)
    ensures Refusal(r.head, r.disk, c).Some? <==> Obstacle(r, StripTrailingSlashes(c))
  {
    hide ChangedPaths, Refusal, PathProblem, CleanPath, Sane, BehindLink;
    var p := StripTrailingSlashes(c);
    ChangedAs(r, c);
    CleanNotUnsafe(p);
    if p in r.disk { NotBehindLink(r, p); }
    RefusedJustified(r.head, r.disk, c);
    RefusalExactly(r.head, r.disk, c, 0);
    RefusalExactly(r.head, r.disk, c, 1);
    RefusalExactly(r.head, r.disk, c, 2);
    RefusalExactly(r.head, r.disk, c, 3);
    RefusalExactly(r.head, r.disk, c, 4);
    assert REASON_ORDER == [ChangedSubmodule, UnsafePath, SymlinkParent, NestedGit, UnsupportedEntry];
  }

  lemma SkippedExactly(r: Repository, c: string)
    requires Sane(r) && c in ChangedPaths(r) && Skipped(r, c)
    ensures PathProblem(r.disk, c).Some? <==> BehindLink(r.disk, c)
  {
    hide ChangedPaths, PathProblem, CleanPath, Sane, BehindLink, Skipped;
    ChangedAs(r, c);
    CleanNotUnsafe(c);
    PathProblemExactly(r.disk, c);
  }

  /** An obstacle makes itself known: it is a changed path, or its name with a slash is one. */
  lemma ObstacleListed(r: Repository, p: string)
    requires Sane(r) && Obstacle(r, p)
    ensures (p in ChangedPaths(r) && BehindLink(r.disk, p)) ||
            exists c :: c in Remaining(r) && StripTrailingSlashes(c) == p
  {
    if p in r.head.Keys + r.index.Keys + r.disk.Keys { CleanIsPlain(p); }
    if p !in Remaining(r) && !(p in ChangedPaths(r) && BehindLink(r.disk, p)) {
      assert p + "/" in ChangedPaths(r);
      assert p + "/" !in r.index by {
        if p + "/" in r.index { CleanIsPlain(p + "/"); }
      }
      assert p + "/" in Remaining(r);
    } else if p in Remaining(r) && p !in r.head.Keys + r.index.Keys + r.disk.Keys {
      var q :| q in r.disk && r.disk[q].NestedRepository? && Untracked(r, q) && p == q + "/";
      CleanIsPlain(q);
    }
  }

  /** The snapshot can be taken exactly when nothing is unmerged and nothing stands in its way. */
  lemma SnapshottableExactly(r: Repository)
    requires Sane(r)
    ensures Snapshottable(r) <==> !r.unmerged && forall p :: !Obstacle(r, p)
  {
    hide ChangedPaths, Refusal, PathProblem, CleanPath, Sane, BehindLink, Obstacle;
    forall c | c in Remaining(r)
      ensures Refusal(r.head, r.disk, c).Some? <==> Obstacle(r, StripTrailingSlashes(c))
    {
      RefusedExactly(r, c);
    }
    forall c | c in ChangedPaths(r) && Skipped(r, c)
      ensures PathProblem(r.disk, c).Some? <==> BehindLink(r.disk, c)
    {
      SkippedExactly(r, c);
    }
    if Snapshottable(r) {
      forall p ensures !Obstacle(r, p) {
        if Obstacle(r, p) { ObstacleListed(r, p); LinkListed(r, p); }
      }
    }
    forall p | p in ChangedPaths(r) && BehindLink(r.disk, p) ensures Obstacle(r, p) { LinkIsObstacle(r, p); }
  }

  lemma LinkIsObstacle(r: Repository, p: string)
    requires p in ChangedPaths(r) && BehindLink(r.disk, p)
    ensures Obstacle(r, p)
  {
  }

  lemma LinkListed(r: Repository, p: string)
    requires Sane(r) && Snapshottable(r)
    ensures !(p in ChangedPaths(r) && BehindLink(r.disk, p))
  {
    if p in ChangedPaths(r) && BehindLink(r.disk, p) {
      if Skipped(r, p) {
        SkippedExactly(r, p);
      } else {
        ChangedAs(r, p);
        PathProblemExactly(r.disk, p);
        var q := StripTrailingSlashes(p);
        if q in r.disk { NotBehindLink(r, q); }
        if q != p { BehindSame(r, q); }
        RefusedExactly(r, p);
      }
    }
  }

  /** What is behind a link stays so with a slash behind it, unless it is the link's own target. */
  lemma BehindSame(r: Repository, q: string)
    requires Sane(r) && q in r.disk && r.disk[q] == NestedRepository
    ensures !BehindLink(r.disk, q + "/")
  {
    SplitTrailing(q);
    forall l | l in r.disk && Split(l) <= Split(q + "/") && |Split(l)| < |Split(q + "/")|
      ensures !r.disk[l].File?
    {
      assert Split(l) <= Split(q);
      if l != q { assert AtOrBelow(q, l); }
    }
  }

  // ---- what counts as changed -------------------------------------------------------------------------

  /** Nothing about the path needs recording: tracked alike everywhere and in plain view, or untracked and no news. */
  predicate Unmodified(r: Repository, p: string) {
    if p in r.head || p in r.index then
      && p in r.head && p in r.index && r.index[p].entry == r.head[p] && r.index[p].flag == Shown
      && (if r.head[p].mode == "160000" then !OnDisk(r.disk, p) && !r.submoduleDirty(p)
          else OnDisk(r.disk, p) && r.clean(p, r.disk[p].entry) == r.head[p])
    else !OnDisk(r.disk, p) || r.ignored(p)
  }

  /** A path counts as changed exactly when it is not unmodified; a stray nested repository with a slash behind it. */
  lemma ChangedExactly(r: Repository, p: string)
    requires Sane(r) && p in r.head.Keys + r.index.Keys + r.disk.Keys
    ensures p in ChangedPaths(r) <==> !Unmodified(r, p)
    ensures p + "/" in ChangedPaths(r) <==>
              p in r.disk && r.disk[p] == NestedRepository && p !in r.index && !r.ignored(p)
  {
    CleanIsPlain(p);
    forall q | q in r.head.Keys + r.index.Keys + r.disk.Keys
      ensures q != p + "/" && q + "/" != p
    {
      CleanIsPlain(q);
    }
    forall q | q in r.disk && q + "/" == p + "/" ensures q == p {
      assert (q + "/")[..|q|] == q && (p + "/")[..|p|] == p;
    }
  }

  /** A changed path that is skipped and absent: it is left as HEAD has it. */
  predicate SkippedAway(r: Repository, c: string) {
    c in r.index && r.index[c].flag == SkipWorktree && c !in r.disk
  }

  /** Kept are the submodules and absent skipped entries of HEAD that no other change touches. */
  lemma KeptExactly(r: Repository, p: string)
    ensures Snapshot.Kept(r, p) <==>
              && p in r.head
              && (r.head[p].mode == "160000" || SkippedAway(r, p))
              && forall c :: c in ChangedPaths(r) && !SkippedAway(r, c) ==> !Related(p, StripTrailingSlashes(c))
  {
    hide ChangedPaths, Related;
    forall c ensures c in Remaining(r) <==> c in ChangedPaths(r) && !SkippedAway(r, c) {}
  }
}
