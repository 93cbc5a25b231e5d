/** Slash-separated paths and their components. */
module Paths {
  import opened Prelude

  /** Python's split("/"): always at least one part. */
  function Split(path: string): (parts: seq<string>)
    ensures |parts| > 0
  {
    if |path| == 0 then [""]
    else
      var rest := Split(path[1..]);
      if path[0] == '/' then [""] + rest else [[path[0]] + rest[0]] + rest[1..]
  }

  function Join(parts: seq<string>): string
    requires |parts| > 0
  {
    if |parts| == 1 then parts[0] else parts[0] + "/" + Join(parts[1..])
  }

  predicate Slashless(parts: seq<string>) {
    forall i :: 0 <= i < |parts| ==> '/' !in parts[i]
  }

  lemma {:induction false} JoinSplit(path: string)
    ensures Slashless(Split(path)) && Join(Split(path)) == path
  {
    if |path| > 0 {
      var rest := Split(path[1..]);
      JoinSplit(path[1..]);
      if path[0] == '/' {
        assert Split(path)[1..] == rest;
      } else {
        var parts := Split(path);
        assert parts[1..] == rest[1..];
        assert |rest| > 1 ==> Join(rest) == rest[0] + "/" + Join(rest[1..]);
        assert path == [path[0]] + path[1..];
      }
    }
  }

  lemma {:induction false} SplitSlash(head: string, tail: string)
    requires '/' !in head
    ensures Split(head + "/" + tail) == [head] + Split(tail)
  {
    var path := head + "/" + tail;
    if |head| == 0 {
      assert path[1..] == tail;
    } else {
      SplitSlash(head[1..], tail);
      assert path[1..] == head[1..] + "/" + tail;
      assert [head[0]] + head[1..] == head;
    }
  }

  lemma {:induction false} SplitPlain(part: string)
    requires '/' !in part
    ensures Split(part) == [part]
  {
    if |part| > 0 {
      SplitPlain(part[1..]);
      assert [part[0]] + part[1..] == part;
    }
  }

  lemma {:induction false} SplitJoin(parts: seq<string>)
    requires |parts| > 0 && Slashless(parts)
    ensures Split(Join(parts)) == parts
  {
    if |parts| == 1 {
      SplitPlain(parts[0]);
    } else {
      SplitJoin(parts[1..]);
      SplitSlash(parts[0], Join(parts[1..]));
    }
  }

  // ---- evidence paths ------------------------------------------------------------------------

  function ForwardSlashes(path: string): (r: string)
    ensures '\\' !in r
    ensures '\\' !in path ==> r == path
  {
    if |path| == 0 then ""
    else [if path[0] == '\\' then '/' else path[0]] + ForwardSlashes(path[1..])
  }

  predicate StartsWith(s: string, prefix: string) {
    |s| >= |prefix| && s[..|prefix|] == prefix
  }

  function StripDotSlash(path: string): (r: string)
    ensures !StartsWith(r, "./")
    ensures !StartsWith(path, "./") ==> r == path
    ensures '\\' !in path ==> '\\' !in r
  {
    if StartsWith(path, "./") then StripDotSlash(path[2..]) else path
  }

  predicate OrdinaryPart(part: string) {
    part != "" && part != "." && part != ".."
  }

  /** The safe repository-relative form of a path, if it has one. */
  function NormalizePath(path: string): Option<string> {
    var normalized := StripDotSlash(ForwardSlashes(path));
    if normalized == "" || normalized[0] == '/' then None
    else if exists part :: part in Split(normalized) && !OrdinaryPart(part) then None
    else Some(normalized)
  }

  /** A normalized path is its own normal form. */
  lemma NormalizeTwice(path: string)
    requires NormalizePath(path).Some?
    ensures NormalizePath(NormalizePath(path).value) == NormalizePath(path)
  {
  }

  /** The normal form stays inside the repository: ordinary components joined by single slashes. */
  lemma NormalizedStaysInside(path: string)
    requires NormalizePath(path).Some?
    ensures var parts := Split(NormalizePath(path).value);
      Join(parts) == NormalizePath(path).value && forall part :: part in parts ==> OrdinaryPart(part) && '/' !in part
  {
    JoinSplit(NormalizePath(path).value);
  }

  /** The path with every backslash turned. */
  function Turned(path: string): string {
    seq(|path|, i requires 0 <= i < |path| => if path[i] == '\\' then '/' else path[i])
  }

  function DotSlashes(n: nat): string {
    if n == 0 then "" else "./" + DotSlashes(n - 1)
  }

  lemma {:induction false} TurnedIs(path: string)
    ensures ForwardSlashes(path) == Turned(path)
  {
    if |path| > 0 {
      TurnedIs(path[1..]);
      assert Turned(path) == [Turned(path)[0]] + Turned(path[1..]);
    }
  }

  lemma OneDotSlash(path: string, n: nat, rest: string)
    requires StartsWith(path, "./") && path[2..] == DotSlashes(n) + rest
    ensures path == DotSlashes(n + 1) + rest
  {
    assert path == path[..2] + path[2..];
    assert "./" + (DotSlashes(n) + rest) == ("./" + DotSlashes(n)) + rest;
  }

  lemma NoDotSlash(path: string)
    ensures path == DotSlashes(0) + path
  {
    assert path == "" + path;
  }

  lemma StripOne(path: string)
    requires StartsWith(path, "./")
    ensures StripDotSlash(path) == StripDotSlash(path[2..])
  {
  }

  lemma {:induction false} StripsDotSlashes(path: string) returns (n: nat)
    ensures path == DotSlashes(n) + StripDotSlash(path)
  {
    hide DotSlashes, StripDotSlash;
    if StartsWith(path, "./") {
      var m := StripsDotSlashes(path[2..]);
      n := m + 1;
      StripOne(path);
      OneDotSlash(path, m, StripDotSlash(path[2..]));
    } else {
      n := 0;
      NoDotSlash(path);
    }
  }

  lemma {:induction false} DotSlashesStripped(n: nat, rest: string)
    requires !StartsWith(rest, "./")
    ensures StripDotSlash(DotSlashes(n) + rest) == rest
  {
    if n > 0 {
      DotSlashesStripped(n - 1, rest);
      assert DotSlashes(n) + rest == "./" + (DotSlashes(n - 1) + rest);
      assert (DotSlashes(n) + rest)[2..] == DotSlashes(n - 1) + rest;
    } else {
      assert DotSlashes(0) + rest == rest;
    }
  }

  lemma DotFirst(rest: string)
    ensures "." in Split("./" + rest)
  {
    SplitSlash(".", rest);
    assert "./" + rest == "." + "/" + rest;
  }

  lemma EmptyFirst(rest: string)
    ensures "" in Split("/" + rest)
  {
    SplitSlash("", rest);
    assert "/" + rest == "" + "/" + rest;
  }

  /** What an empty path, an absolute one and one that starts with "./" have among their components. */
  lemma SpecialStart(path: string)
    ensures path == "" ==> "" in Split(path)
    ensures path != "" && path[0] == '/' ==> "" in Split(path)
    ensures StartsWith(path, "./") ==> "." in Split(path)
  {
    if path != "" && path[0] == '/' {
      EmptyFirst(path[1..]);
      assert path == "/" + path[1..];
    }
    if StartsWith(path, "./") {
      DotFirst(path[2..]);
      assert path == path[..2] + path[2..];
    }
  }

  lemma OrdinaryStart(path: string)
    requires forall part :: part in Split(path) ==> OrdinaryPart(part)
    ensures path != "" && path[0] != '/' && !StartsWith(path, "./")
  {
    SpecialStart(path);
  }

  /**
   * A path normalizes to another exactly when, backslashes turned, it is that other behind any
   * number of "./", and the other has no component that is empty, "." or "..".
   */
  lemma NormalizeExactly(path: string, normal: string)
    ensures NormalizePath(path) == Some(normal) <==>
            && (exists n: nat :: Turned(path) == DotSlashes(n) + normal)
            && forall part :: part in Split(normal) ==> part != "" && part != "." && part != ".."
  {
    TurnedIs(path);
    if forall part :: part in Split(normal) ==> OrdinaryPart(part) {
      OrdinaryStart(normal);
      if n: nat :| Turned(path) == DotSlashes(n) + normal { DotSlashesStripped(n, normal); }
    }
    if NormalizePath(path) == Some(normal) {
      var n := StripsDotSlashes(ForwardSlashes(path));
      assert Turned(path) == DotSlashes(n) + normal;
    }
  }
}
