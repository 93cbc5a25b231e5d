/** Merging verified findings that share a fingerprint. */
module FindingsDedup {
  import opened Prelude
  import opened Ordering
  import opened Findings

  /** What is fixed for one call: the hash, the JSON dump used to break ties, and the evidence. */
  datatype Context = Context(
    hash: Hash,
    dump: Finding -> string,
    worktree: Option<Worktree>,
    records: seq<EvidenceRecord>)
  {
    function Verify(f: Finding): Finding {
      VerifyFinding(hash, worktree, records, f)
    }

    /** The JSON form of a finding shows every field. */
    ghost predicate DumpsApart() {
      forall f, g :: dump(f) == dump(g) ==> f == g
    }
  }

  /** Stronger evidence first, then greater severity, then the smaller JSON form. */
  predicate Preferred(c: Context, f: Finding, g: Finding) {
    if f.band != g.band then f.band.Rank() > g.band.Rank()
    else if f.severity != g.severity then f.severity.Rank() > g.severity.Rank()
    else TextLe(c.dump(f), c.dump(g))
  }

  lemma PreferenceOrder(c: Context)
    ensures forall f, g :: Preferred(c, f, g) || Preferred(c, g, f)
    ensures forall f, g, h :: Preferred(c, f, g) && Preferred(c, g, h) ==> Preferred(c, f, h)
    ensures c.DumpsApart() ==> forall f, g :: Preferred(c, f, g) && Preferred(c, g, f) ==> f == g
  {
    TextOrder();
    forall f: Finding, g: Finding | f.band.Rank() == g.band.Rank() ensures f.band == g.band {}
    forall f: Finding, g: Finding | f.severity.Rank() == g.severity.Rank() ensures f.severity == g.severity {}
  }

  /** The first finding no other is strictly preferred to. */
  function Representative(c: Context, group: seq<Finding>): (r: Finding)
    requires |group| > 0
    ensures r in group
  {
    if |group| == 1 then group[0]
    else
      var before := Representative(c, group[..|group| - 1]);
      if Preferred(c, before, group[|group| - 1]) then before else group[|group| - 1]
  }

  function StrongestBand(group: seq<Finding>): (r: EvidenceBand)
    requires |group| > 0
    ensures exists f :: f in group && f.band == r
    ensures forall f :: f in group ==> f.band.Rank() <= r.Rank()
  {
    if |group| == 1 then group[0].band
    else
      var before := StrongestBand(group[..|group| - 1]);
      assert group == group[..|group| - 1] + [group[|group| - 1]];
      if group[|group| - 1].band.Rank() > before.Rank() then group[|group| - 1].band else before
  }

  function StrongestSeverity(group: seq<Finding>): (r: Severity)
    requires |group| > 0
    ensures exists f :: f in group && f.severity == r
    ensures forall f :: f in group ==> f.severity.Rank() <= r.Rank()
  {
    if |group| == 1 then group[0].severity
    else
      var before := StrongestSeverity(group[..|group| - 1]);
      assert group == group[..|group| - 1] + [group[|group| - 1]];
      if group[|group| - 1].severity.Rank() > before.Rank() then group[|group| - 1].severity else before
  }

  function Merge(c: Context, group: seq<Finding>): Finding
    requires |group| > 0
  {
    Representative(c, group).(
      band := StrongestBand(group),
      severity := StrongestSeverity(group),
      bypassApplied := forall f :: f in group ==> f.bypassApplied)
  }

  // ---- grouping -------------------------------------------------------------------------------

  function VerifyAll(c: Context, fs: seq<Finding>): seq<Finding> {
    seq(|fs|, i requires 0 <= i < |fs| => c.Verify(fs[i]))
  }

  ghost predicate Known(fs: seq<Finding>, fingerprint: string) {
    exists f :: f in fs && f.fingerprint == fingerprint
  }

  /** The fingerprints in order of first appearance. */
  function Fingerprints(fs: seq<Finding>): (r: seq<string>)
    ensures forall i, j :: 0 <= i < j < |r| ==> r[i] != r[j]
    ensures forall x :: x in r <==> Known(fs, x)
  {
    if |fs| == 0 then []
    else
      var before := Fingerprints(fs[..|fs| - 1]);
      var last := fs[|fs| - 1];
      assert fs == fs[..|fs| - 1] + [last];
      assert forall x :: Known(fs, x) <==> Known(fs[..|fs| - 1], x) || x == last.fingerprint;
      if last.fingerprint in before then before else before + [last.fingerprint]
  }

  function Group(fs: seq<Finding>, fingerprint: string): (r: seq<Finding>)
    ensures forall f :: f in r <==> f in fs && f.fingerprint == fingerprint
    ensures Known(fs, fingerprint) ==> |r| > 0
  {
    if |fs| == 0 then []
    else
      assert fs == fs[..|fs| - 1] + [fs[|fs| - 1]];
      Group(fs[..|fs| - 1], fingerprint) + if fs[|fs| - 1].fingerprint == fingerprint then [fs[|fs| - 1]] else []
  }

  function MergeEach(c: Context, fs: seq<Finding>, fingerprints: seq<string>): (r: seq<Finding>)
    requires forall i :: 0 <= i < |fingerprints| ==> Known(fs, fingerprints[i])
    ensures |r| == |fingerprints|
  {
    seq(|fingerprints|, i requires 0 <= i < |fingerprints| => Merge(c, Group(fs, fingerprints[i])))
  }

  function SortedFingerprints(fs: seq<Finding>): (r: seq<string>)
    ensures Ascending(r)
    ensures forall x :: x in r <==> Known(fs, x)
  {
    SortAscending(Fingerprints(fs));
    Sort(Fingerprints(fs), TextLe)
  }

  /** Merge the findings of each fingerprint, in the order of the fingerprints. */
  function Deduplicate(c: Context, fs: seq<Finding>): seq<Finding> {
    MergeEach(c, fs, SortedFingerprints(fs))
  }

  function VerifyAndDeduplicate(c: Context, fs: seq<Finding>): seq<Finding> {
    Deduplicate(c, VerifyAll(c, fs))
  }

  /** Each output merges a non-empty group of verified inputs that share its fingerprint. */
  lemma OutputAt(c: Context, fs: seq<Finding>, i: nat) returns (group: seq<Finding>)
    requires i < |VerifyAndDeduplicate(c, fs)|
    ensures |group| > 0
    ensures VerifyAndDeduplicate(c, fs)[i] == Merge(c, group)
    ensures group == Group(VerifyAll(c, fs), VerifyAndDeduplicate(c, fs)[i].fingerprint)
    ensures forall v :: v in group ==> exists f :: f in fs && v == c.Verify(f)
  {
    var vs := VerifyAll(c, fs);
    group := Group(vs, SortedFingerprints(vs)[i]);
    assert Representative(c, group) in group;
    VerifyAllMembers(c, fs);
  }

  // ---- the result depends on the set of findings only ----------------------------------------------

  lemma {:induction false} RepresentativePreferred(c: Context, group: seq<Finding>)
    requires |group| > 0
    ensures forall f :: f in group ==> Preferred(c, Representative(c, group), f)
  {
    PreferenceOrder(c);
    if |group| > 1 {
      var front := group[..|group| - 1];
      var last := group[|group| - 1];
      RepresentativePreferred(c, front);
      assert group == front + [last];
    }
  }

  ghost predicate SameFindings(a: seq<Finding>, b: seq<Finding>) {
    forall f :: f in a <==> f in b
  }

  lemma SameRepresentative(c: Context, a: seq<Finding>, b: seq<Finding>)
    requires |a| > 0 && |b| > 0 && SameFindings(a, b) && c.DumpsApart()
    ensures Representative(c, a) == Representative(c, b)
  {
    hide Representative;
    RepresentativePreferred(c, a);
    RepresentativePreferred(c, b);
    PreferenceOrder(c);
  }

  lemma MergeOfSet(c: Context, a: seq<Finding>, b: seq<Finding>)
    requires |a| > 0 && |b| > 0 && SameFindings(a, b) && c.DumpsApart()
    ensures Merge(c, a) == Merge(c, b)
  {
    hide Preferred, Representative;
    SameRepresentative(c, a, b);
    assert StrongestBand(a).Rank() == StrongestBand(b).Rank();
    assert StrongestSeverity(a).Rank() == StrongestSeverity(b).Rank();
  }

  lemma SameKnown(a: seq<Finding>, b: seq<Finding>)
    requires SameFindings(a, b)
    ensures SortedFingerprints(a) == SortedFingerprints(b)
    ensures forall x :: SameFindings(Group(a, x), Group(b, x))
  {
    forall x ensures Known(a, x) <==> Known(b, x) {}
    AscendingUnique(SortedFingerprints(a), SortedFingerprints(b));
  }

  lemma DeduplicateOfSet(c: Context, a: seq<Finding>, b: seq<Finding>)
    requires SameFindings(a, b) && c.DumpsApart()
    ensures Deduplicate(c, a) == Deduplicate(c, b)
  {
    SameKnown(a, b);
    var fingerprints := SortedFingerprints(a);
    forall i | 0 <= i < |fingerprints|
      ensures Deduplicate(c, a)[i] == Deduplicate(c, b)[i]
    {
      assert Deduplicate(c, a)[i] == Merge(c, Group(a, fingerprints[i]));
      assert Deduplicate(c, b)[i] == Merge(c, Group(b, fingerprints[i]));
      MergeOfSet(c, Group(a, fingerprints[i]), Group(b, fingerprints[i]));
    }
  }

  /** Order and repetition of the input do not matter. */
  lemma OrderIndependent(c: Context, a: seq<Finding>, b: seq<Finding>)
    requires SameFindings(a, b) && c.DumpsApart()
    ensures VerifyAndDeduplicate(c, a) == VerifyAndDeduplicate(c, b)
  {
    VerifyAllMembers(c, a);
    VerifyAllMembers(c, b);
    DeduplicateOfSet(c, VerifyAll(c, a), VerifyAll(c, b));
  }

  lemma VerifyAllMembers(c: Context, fs: seq<Finding>)
    ensures forall v :: v in VerifyAll(c, fs) <==> exists f :: f in fs && v == c.Verify(f)
  {
    var vs := VerifyAll(c, fs);
    forall f | f in fs ensures c.Verify(f) in vs {
      var i :| 0 <= i < |fs| && fs[i] == f;
      assert vs[i] == c.Verify(f);
    }
  }

  // ---- fingerprints --------------------------------------------------------------------------------

  lemma DeduplicateFingerprints(c: Context, fs: seq<Finding>)
    ensures FingerprintsOf(Deduplicate(c, fs)) == SortedFingerprints(fs)
  {
    var fingerprints := SortedFingerprints(fs);
    var out := Deduplicate(c, fs);
    forall i | 0 <= i < |fingerprints|
      ensures out[i].fingerprint == fingerprints[i]
    {
      assert out[i] == Merge(c, Group(fs, fingerprints[i]));
      assert Representative(c, Group(fs, fingerprints[i])) in Group(fs, fingerprints[i]);
    }
  }

  function FingerprintsOf(fs: seq<Finding>): (r: seq<string>)
    ensures |r| == |fs| && forall i :: 0 <= i < |r| ==> r[i] == fs[i].fingerprint
  {
    seq(|fs|, i requires 0 <= i < |fs| => fs[i].fingerprint)
  }

  /** Strictly increasing fingerprints, and exactly the canonical ones of the inputs. */
  lemma FingerprintsExact(c: Context, fs: seq<Finding>)
    ensures var out := FingerprintsOf(VerifyAndDeduplicate(c, fs));
      && Ascending(out)
      && forall x :: x in out <==> exists f :: f in fs && CanonicalFingerprint(c.hash, f) == x
  {
    var vs := VerifyAll(c, fs);
    VerifyAllMembers(c, fs);
    DeduplicateFingerprints(c, vs);
    forall x
      ensures Known(vs, x) <==> exists f :: f in fs && CanonicalFingerprint(c.hash, f) == x
    {
      if f :| f in fs && CanonicalFingerprint(c.hash, f) == x { assert c.Verify(f) in vs; }
      if v :| v in vs && v.fingerprint == x {
        var f :| f in fs && v == c.Verify(f);
        assert CanonicalFingerprint(c.hash, f) == x;
      }
    }
  }

  // ---- idempotence -----------------------------------------------------------------------------------

  /** The representative already has the strongest band. */
  lemma MergeKeepsBand(c: Context, group: seq<Finding>)
    requires |group| > 0
    ensures StrongestBand(group) == Representative(c, group).band
  {
    RepresentativePreferred(c, group);
    var strongest := StrongestBand(group);
    var f :| f in group && f.band == strongest;
    assert Preferred(c, Representative(c, group), f);
  }

  /** A merged group of verified findings verifies to itself. */
  lemma MergedSettled(c: Context, group: seq<Finding>)
    requires |group| > 0 && forall f :: f in group ==> c.Verify(f) == f
    ensures c.Verify(Merge(c, group)) == Merge(c, group)
  {
    MergeKeepsBand(c, group);
    var r := Representative(c, group);
    assert c.Verify(r) == r;
  }

  lemma {:induction false} GroupAlone(fs: seq<Finding>, i: nat)
    requires i < |fs| && forall j, k :: 0 <= j < k < |fs| ==> fs[j].fingerprint != fs[k].fingerprint
    ensures Group(fs, fs[i].fingerprint) == [fs[i]]
  {
    var front := fs[..|fs| - 1];
    if i == |fs| - 1 {
      GroupEmpty(front, fs[i].fingerprint);
    } else {
      GroupAlone(front, i);
    }
  }

  lemma {:induction false} GroupEmpty(fs: seq<Finding>, fingerprint: string)
    requires forall i :: 0 <= i < |fs| ==> fs[i].fingerprint != fingerprint
    ensures Group(fs, fingerprint) == []
  {
    if |fs| > 0 { GroupEmpty(fs[..|fs| - 1], fingerprint); }
  }

  lemma OwnFingerprints(fs: seq<Finding>)
    requires Ascending(FingerprintsOf(fs))
    ensures SortedFingerprints(fs) == FingerprintsOf(fs)
  {
    var fingerprints := FingerprintsOf(fs);
    forall x
      ensures x in fingerprints <==> Known(fs, x)
    {
      if x in fingerprints {
        var i :| 0 <= i < |fs| && fs[i].fingerprint == x;
        assert fs[i] in fs;
      }
      if f :| f in fs && f.fingerprint == x {
        var i :| 0 <= i < |fs| && fs[i] == f;
        assert fingerprints[i] == x;
      }
    }
    AscendingUnique(fingerprints, SortedFingerprints(fs));
  }

  lemma MergeOne(c: Context, f: Finding)
    ensures Merge(c, [f]) == f
  {
    assert f in [f];
  }

  /** Findings with strictly increasing fingerprints have nothing to merge. */
  lemma DeduplicateAscending(c: Context, fs: seq<Finding>)
    requires Ascending(FingerprintsOf(fs))
    ensures Deduplicate(c, fs) == fs
  {
    OwnFingerprints(fs);
    var fingerprints := FingerprintsOf(fs);
    forall j, k | 0 <= j < k < |fs|
      ensures fs[j].fingerprint != fs[k].fingerprint
    {
      assert TextLt(fingerprints[j], fingerprints[k]);
    }
    forall i | 0 <= i < |fs|
      ensures Deduplicate(c, fs)[i] == fs[i]
    {
      GroupAlone(fs, i);
      MergeOne(c, fs[i]);
    }
  }

  lemma OutputSettled(c: Context, fs: seq<Finding>, i: nat)
    requires i < |VerifyAndDeduplicate(c, fs)|
    ensures c.Verify(VerifyAndDeduplicate(c, fs)[i]) == VerifyAndDeduplicate(c, fs)[i]
  {
    var group := OutputAt(c, fs, i);
    forall v | v in group ensures c.Verify(v) == v {
      var f :| f in fs && v == c.Verify(f);
      VerifyTwice(c.hash, c.worktree, c.records, f);
    }
    MergedSettled(c, group);
  }

  /** Running the verifier on its own output changes nothing. */
  lemma Idempotent(c: Context, fs: seq<Finding>)
    ensures var out := VerifyAndDeduplicate(c, fs);
      VerifyAndDeduplicate(c, out) == out
  {
    var out := VerifyAndDeduplicate(c, fs);
    assert VerifyAll(c, out) == out by {
      forall i | 0 <= i < |out| ensures c.Verify(out[i]) == out[i] {
        OutputSettled(c, fs, i);
      }
    }
    FingerprintsExact(c, fs);
    DeduplicateAscending(c, out);
  }

  // ---- evidence and strength of the output ------------------------------------------------------------

  /** What is reported as supported is backed by evidence, and nothing is reported as verified. */
  lemma OutputGrounded(c: Context, fs: seq<Finding>, i: nat)
    requires i < |VerifyAndDeduplicate(c, fs)|
    ensures var out := VerifyAndDeduplicate(c, fs)[i];
      && !out.band.Verified?
      && (out.band.Supported? ==>
            |out.spans| > 0 && forall k :: 0 <= k < |out.spans| ==> Backed(out.spans[k], c.worktree, c.records))
  {
    var group := OutputAt(c, fs, i);
    MergeKeepsBand(c, group);
    var r := Representative(c, group);
    var f :| f in fs && r == c.Verify(f);
    SupportedMeansGrounded(c.hash, c.worktree, c.records, f);
  }

  /**
   * The output stands for the input: same fingerprint, no weaker, bypassed only if the input was,
   * and about the same problem of the same dimension unless the hash confuses them.
   */
  ghost predicate Represents(c: Context, out: Finding, f: Finding) {
    && out.fingerprint == CanonicalFingerprint(c.hash, f)
    && out.band.Rank() >= c.Verify(f).band.Rank()
    && out.severity.Rank() >= f.severity.Rank()
    && (out.bypassApplied ==> f.bypassApplied)
    && (Injective(c.hash) ==> out.problem == f.problem && out.dimensionId.GetOr("") == f.dimensionId.GetOr(""))
  }

  /** No finding is lost. */
  lemma NothingLost(c: Context, fs: seq<Finding>, f: Finding)
    requires f in fs
    ensures exists out :: out in VerifyAndDeduplicate(c, fs) && Represents(c, out, f)
  {
    FingerprintsExact(c, fs);
    var out := VerifyAndDeduplicate(c, fs);
    var x := CanonicalFingerprint(c.hash, f);
    assert x in FingerprintsOf(out);
    var i :| 0 <= i < |out| && out[i].fingerprint == x;
    var group := OutputAt(c, fs, i);
    VerifyAllMembers(c, fs);
    assert c.Verify(f) in group;
    SameProblem(c, group, f);
    assert out[i] in out && Represents(c, out[i], f);
  }

  lemma SameProblem(c: Context, group: seq<Finding>, f: Finding)
    requires c.Verify(f) in group && forall v :: v in group ==> v.fingerprint == CanonicalFingerprint(c.hash, f)
    requires forall v :: v in group ==> exists g :: v == c.Verify(g)
    ensures |group| > 0
    ensures var out := Merge(c, group);
      Injective(c.hash) ==> out.problem == f.problem && out.dimensionId.GetOr("") == f.dimensionId.GetOr("")
  {
    hide LeastKey;
    var r := Representative(c, group);
    var g :| r == c.Verify(g);
    assert CanonicalFingerprint(c.hash, g) == CanonicalFingerprint(c.hash, f);
  }
}
