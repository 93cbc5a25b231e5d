/** Which baseline paths a set of changed paths touches: the indexed search and what it finds. */
module BaselinePaths {
  import opened Prelude
  import opened Ordering
  import opened Paths

  /** Python's rstrip("/"). */
  function StripTrailingSlashes(path: string): string {
    if |path| > 0 && path[|path| - 1] == '/' then StripTrailingSlashes(path[..|path| - 1]) else path
  }

  /** The slashes at the end go, and only they. */
  lemma {:induction false} StripExactly(path: string)
    ensures var r := StripTrailingSlashes(path);
      && r <= path
      && (forall i :: |r| <= i < |path| ==> path[i] == '/')
      && (r == "" || r[|r| - 1] != '/')
  {
    if |path| > 0 && path[|path| - 1] == '/' { StripExactly(path[..|path| - 1]); }
  }

  /** q is p or lies below it. */
  predicate AtOrBelow(q: string, p: string) {
    Split(p) <= Split(q)
  }

  /** One path is the other, or lies below it: they cannot both be files. */
  predicate Related(p: string, q: string) {
    AtOrBelow(q, p) || AtOrBelow(p, q)
  }

  predicate Touched(b: string, changed: seq<string>) {
    exists i :: 0 <= i < |changed| && Related(b, StripTrailingSlashes(changed[i]))
  }

  /** The quadratic specification: every baseline path compared with every changed one. */
  ghost predicate IsAffected(affected: seq<string>, baseline: set<string>, changed: seq<string>) {
    && Ascending(affected)
    && forall b :: b in affected <==> b in baseline && Touched(b, changed)
  }

  // ---- the directory index --------------------------------------------------------------------

  function Ancestor(parts: seq<string>, n: nat): string
    requires 1 <= n <= |parts|
  {
    Join(parts[..n])
  }

  lemma AncestorSplits(path: string, n: nat)
    requires 1 <= n <= |Split(path)|
    ensures Split(Ancestor(Split(path), n)) == Split(path)[..n]
  {
    JoinSplit(path);
    SplitJoin(Split(path)[..n]);
  }

  /** One of the path's first n - 1 ancestor directories. */
  ghost predicate IsAncestor(directory: string, path: string, n: nat) {
    exists k :: 1 <= k < n && k <= |Split(path)| && Ancestor(Split(path), k) == directory
  }

  lemma AncestorsAreAbove(directory: string, path: string, n: nat)
    requires n <= |Split(path)| + 1
    ensures IsAncestor(directory, path, n) <==> Split(directory) <= Split(path) && |Split(directory)| < n
  {
    if IsAncestor(directory, path, n) {
      var k :| 1 <= k < n && k <= |Split(path)| && Ancestor(Split(path), k) == directory;
      AncestorSplits(path, k);
    }
    if Split(directory) <= Split(path) && |Split(directory)| < n {
      JoinSplit(directory);
      assert Split(path)[..|Split(directory)|] == Split(directory);
      assert Ancestor(Split(path), |Split(directory)|) == directory;
    }
  }

  /** The index lists, per directory, the done paths below it. */
  ghost predicate Indexed(index: map<string, set<string>>, done: set<string>) {
    && (forall d, p :: d in index && p in index[d] ==> p in done && IsAncestor(d, p, |Split(p)|))
    && (forall d, p {:trigger IsAncestor(d, p, |Split(p)|)} :: p in done && IsAncestor(d, p, |Split(p)|) ==>
          d in index && p in index[d])
  }

  /** The same, with the first n - 1 ancestors of one more path entered. */
  ghost predicate Indexing(index: map<string, set<string>>, done: set<string>, path: string, n: nat) {
    && (forall d, p :: d in index && p in index[d] ==>
          (p in done && IsAncestor(d, p, |Split(p)|)) || (p == path && IsAncestor(d, path, n)))
    && (forall d, p {:trigger IsAncestor(d, p, |Split(p)|)} :: p in done && IsAncestor(d, p, |Split(p)|) ==>
          d in index && p in index[d])
    && (forall d :: IsAncestor(d, path, n) ==> d in index && path in index[d])
  }

  lemma OneMoreAncestor(path: string, n: nat)
    requires 1 <= n <= |Split(path)|
    ensures forall d :: IsAncestor(d, path, n + 1) <==> IsAncestor(d, path, n) || d == Ancestor(Split(path), n)
  {
    forall d
      ensures IsAncestor(d, path, n + 1) <==> IsAncestor(d, path, n) || d == Ancestor(Split(path), n)
    {
      if IsAncestor(d, path, n) {
        var k :| 1 <= k < n && k <= |Split(path)| && Ancestor(Split(path), k) == d;
        assert k < n + 1;
      }
    }
  }

  function Enter(index: map<string, set<string>>, directory: string, path: string): map<string, set<string>> {
    index[directory := (if directory in index then index[directory] else {}) + {path}]
  }

  method IndexPath(index: map<string, set<string>>, path: string, ghost done: set<string>)
    returns (r: map<string, set<string>>)
    requires Indexed(index, done) && path !in done
    ensures Indexed(r, done + {path})
  {
    r := index;
    var parts := Split(path);
    for n := 1 to |parts|
      invariant Indexing(r, done, path, n)
    {
      OneMoreAncestor(path, n);
      r := Enter(r, Ancestor(parts, n), path);
    }
  }

  method IndexDescendants(baseline: set<string>) returns (index: map<string, set<string>>)
    ensures Indexed(index, baseline)
  {
    index := map[];
    var rest := baseline;
    while rest != {}
      invariant rest <= baseline && Indexed(index, baseline - rest)
      decreases |rest|
    {
      var path :| path in rest;
      ghost var done := baseline - rest;
      index := IndexPath(index, path, done);
      rest := rest - {path};
      assert baseline - rest == done + {path};
    }
  }

  lemma ProperlyBelow(b: string, path: string)
    ensures AtOrBelow(b, path) && b != path <==> Split(path) <= Split(b) && |Split(path)| < |Split(b)|
  {
    JoinSplit(b);
    JoinSplit(path);
    if Split(path) <= Split(b) && |Split(path)| == |Split(b)| { assert Split(path) == Split(b); }
  }

  lemma TouchedMore(b: string, changed: seq<string>, i: nat)
    requires i < |changed|
    ensures Touched(b, changed[..i + 1]) <==>
            Touched(b, changed[..i]) || Related(b, StripTrailingSlashes(changed[i]))
  {
    hide Related, StripTrailingSlashes;
    var less, more := changed[..i], changed[..i + 1];
    if Touched(b, less) {
      var k :| 0 <= k < |less| && Related(b, StripTrailingSlashes(less[k]));
      assert more[k] == less[k];
    }
    if Touched(b, more) {
      var k :| 0 <= k < |more| && Related(b, StripTrailingSlashes(more[k]));
      assert k < i ==> less[k] == more[k];
    }
    assert more[i] == changed[i];
  }

  lemma IndexFindsBelow(baseline: set<string>, index: map<string, set<string>>, path: string, b: string)
    requires Indexed(index, baseline) && b in baseline
    ensures path in index && b in index[path] <==> AtOrBelow(b, path) && b != path
  {
    AncestorsAreAbove(path, b, |Split(b)|);
    ProperlyBelow(b, path);
    assert IsAncestor(path, b, |Split(b)|) <==> path in index && b in index[path];
  }

  /** The baseline paths the changed path is at or below. */
  method AncestorsIn(baseline: set<string>, path: string) returns (r: set<string>)
    ensures forall b :: b in r <==> b in baseline && AtOrBelow(path, b)
  {
    r := {};
    var parts := Split(path);
    for n := 1 to |parts| + 1
      invariant forall b :: b in r <==> b in baseline && IsAncestor(b, path, n)
    {
      OneMoreAncestor(path, n);
      if Ancestor(parts, n) in baseline { r := r + {Ancestor(parts, n)}; }
    }
    forall b ensures IsAncestor(b, path, |parts| + 1) <==> AtOrBelow(path, b) {
      AncestorsAreAbove(b, path, |parts| + 1);
    }
  }

  method TouchedBy(baseline: set<string>, index: map<string, set<string>>, changedPath: string) returns (r: set<string>)
    requires Indexed(index, baseline)
    ensures forall b :: b in r <==> b in baseline && Related(b, StripTrailingSlashes(changedPath))
  {
    hide IsAncestor;
    var path := StripTrailingSlashes(changedPath);
    r := if path in index then index[path] else {};
    var above := AncestorsIn(baseline, path);
    forall b | b in baseline
      ensures b in r + above <==> Related(b, path)
    {
      IndexFindsBelow(baseline, index, path, b);
    }
    r := r + above;
  }

  /** The elements of a set of strings in ascending order. */
  method SortedElements(s: set<string>) returns (r: seq<string>)
    ensures Ascending(r) && forall x :: x in r <==> x in s
  {
    r := [];
    var rest := s;
    while rest != {}
      invariant rest <= s
      invariant forall x :: x in r <==> x in s - rest
      invariant forall i, j :: 0 <= i < j < |r| ==> r[i] != r[j]
      decreases |rest|
    {
      var x :| x in rest;
      ghost var before := r;
      assert x !in before;
      r, rest := r + [x], rest - {x};
      forall i, j | 0 <= i < j < |r| ensures r[i] != r[j] {
        assert r[i] == before[i] && r[i] in before;
        assert j < |before| ==> r[j] == before[j];
      }
    }
    SortAscending(r);
    r := Sort(r, TextLe);
  }

  /** The search by ancestor index finds exactly what comparing every pair finds, in order. */
  method AffectedBaselinePaths(baseline: set<string>, changed: seq<string>) returns (r: seq<string>)
    ensures IsAffected(r, baseline, changed)
  {
    hide Related;
    var index := IndexDescendants(baseline);
    var affected := {};
    for i := 0 to |changed|
      invariant forall b :: b in affected <==> b in baseline && Touched(b, changed[..i])
    {
      var more := TouchedBy(baseline, index, changed[i]);
      forall b
        ensures Touched(b, changed[..i + 1]) <==>
                  Touched(b, changed[..i]) || Related(b, StripTrailingSlashes(changed[i]))
      {
        TouchedMore(b, changed, i);
      }
      affected := affected + more;
    }
    assert changed[..|changed|] == changed;
    r := SortedElements(affected);
  }

  /** There is only one such answer. */
  lemma AffectedUnique(a: seq<string>, b: seq<string>, baseline: set<string>, changed: seq<string>)
    requires IsAffected(a, baseline, changed) && IsAffected(b, baseline, changed)
    ensures a == b
  {
    AscendingUnique(a, b);
  }
}
