/** The verifier as it runs: a text cache, a grouping dictionary, and loops over spans and findings. */
module FindingVerifier {
  import opened Prelude
  import opened Ordering
  import opened Paths
  import opened EvidenceText
  import opened Findings
  import opened FindingsDedup

  method GatherRecords(context: Option<seq<ContextItem>>) returns (records: seq<EvidenceRecord>)
    ensures records == GatheredRecords(context)
  {
    if context.None? { return []; }
    var items := context.value;
    records := [];
    for i := 0 to |items|
      invariant records == RecordsOf(items[..i])
    {
      assert items[..i + 1][..i] == items[..i];
      var path := NormalizePath(items[i].path);
      if path.None? || items[i].body.None? || items[i].snapshot.GetOr("") == "" { continue; }
      records := records + [EvidenceRecord(items[i].source, items[i].snapshot.value, path.value, items[i].changeKind,
        items[i].body.value)];
    }
    assert items[..|items|] == items;
    records := Sort(records, RecordLe);
  }

  class SpanVerifier {
    const worktree: Option<Worktree>
    const records: seq<EvidenceRecord>
    var textCache: map<string, Option<string>>

    /** The cache repeats what reading the worktree gives. */
    ghost predicate Valid()
      reads this
    {
      forall path :: path in textCache ==> worktree.Some? && textCache[path] == worktree.value.read(path)
    }

    constructor (worktree: Option<Worktree>, records: seq<EvidenceRecord>)
      ensures Valid() && this.worktree == worktree && this.records == records
    {
      this.worktree, this.records, textCache := worktree, records, map[];
    }

    /** The worktree's text of the path; each path is read once. */
    method CachedText(path: string) returns (text: Option<string>)
      requires Valid() && worktree.Some?
      modifies this
      ensures Valid() && text == worktree.value.read(path)
      ensures textCache == old(textCache)[path := text]
    {
      if path !in textCache { textCache := textCache[path := worktree.value.read(path)]; }
      text := textCache[path];
    }

    method RecordsOfSpan(span: Span) returns (r: seq<EvidenceRecord>)
      requires Valid()
      modifies this
      ensures Valid() && r == RecordsForSpan(span, worktree, records)
    {
      hide NormalizePath, MatchingRecords, Sort;
      var path := NormalizePath(span.path);
      if path.None? { return []; }
      var requested := if span.snapshot.GetOr("") == "" then None else span.snapshot;
      if span.source.ReviewWorktree? {
        if requested.None? {
          requested := if worktree.Some? then Some(worktree.value.mergeTree) else None;
        }
        if requested.None? { return []; }
      } else if requested.None? { return []; }
      r := MatchingRecords(records, span.source, requested.value, path.value);
      if span.source.ReviewWorktree? && worktree.Some? && requested.value == worktree.value.mergeTree {
        var text := CachedText(path.value);
        if text.Some? {
          r := r + [EvidenceRecord(ReviewWorktree, worktree.value.mergeTree, path.value, None, text.value)];
        }
      }
      assert r == MatchingRecords(records, span.source, requested.value, path.value) +
                  WorktreeRecord(span, worktree, requested.value, path.value);
      r := Sort(r, RecordLe);
    }

    method GroundedRecordOfSpan(span: Span) returns (r: Option<EvidenceRecord>)
      requires Valid()
      modifies this
      ensures Valid() && r == GroundedRecord(span, worktree, records)
    {
      var candidates := RecordsOfSpan(span);
      for i := 0 to |candidates|
        invariant FirstFitting(span, candidates) == FirstFitting(span, candidates[i..])
      {
        if span.changeKind.Some? && candidates[i].changeKind != span.changeKind { continue; }
        if QuoteMatches(candidates[i].text, span.startLine, span.endLine, span.quotedText) {
          return Some(candidates[i]);
        }
      }
      r := None;
    }

    method GroundSpans(spans: seq<Span>) returns (grounded: seq<Span>, allGrounded: bool)
      requires Valid()
      modifies this
      ensures Valid()
      ensures grounded == VerifySpans(spans, worktree, records)
      ensures allGrounded <==> |spans| > 0 && AllGrounded(spans, worktree, records)
    {
      hide GroundedRecord;
      grounded, allGrounded := [], |spans| > 0;
      for i := 0 to |spans|
        invariant Valid()
        invariant |grounded| == i
        invariant forall k :: 0 <= k < i ==> grounded[k] == VerifySpan(spans[k], worktree, records)
        invariant allGrounded <==>
                  |spans| > 0 && forall k :: 0 <= k < i ==> GroundedRecord(spans[k], worktree, records).Some?
      {
        var r := GroundedRecordOfSpan(spans[i]);
        if r.None? { allGrounded := false; }
        var checked := if r.None? then spans[i] else CanonicalSpan(spans[i], r.value);
        assert checked == VerifySpan(spans[i], worktree, records);
        grounded := grounded + [checked];
      }
    }

    method CheckFinding(hash: Hash, f: Finding) returns (v: Finding)
      requires Valid()
      modifies this
      ensures Valid() && v == VerifyFinding(hash, worktree, records, f)
    {
      var grounded, allGrounded := GroundSpans(f.spans);
      v := f.(fingerprint := CanonicalFingerprint(hash, f), band := if allGrounded then Supported else Insufficient,
        spans := grounded);
    }
  }

  /** The dictionary holds the verified findings of each fingerprint, in order of first appearance. */
  ghost predicate Grouped(byFingerprint: map<string, seq<Finding>>, order: seq<string>, vs: seq<Finding>) {
    && order == Fingerprints(vs)
    && (forall x :: x in byFingerprint <==> x in order)
    && (forall x :: x in byFingerprint ==> byFingerprint[x] == Group(vs, x))
  }

  lemma GroupAppend(vs: seq<Finding>, v: Finding, x: string)
    ensures Group(vs + [v], x) == Group(vs, x) + if v.fingerprint == x then [v] else []
  {
    assert (vs + [v])[..|vs|] == vs;
  }

  lemma FingerprintsAppend(vs: seq<Finding>, v: Finding)
    ensures Fingerprints(vs + [v]) ==
            if v.fingerprint in Fingerprints(vs) then Fingerprints(vs) else Fingerprints(vs) + [v.fingerprint]
  {
    assert (vs + [v])[..|vs|] == vs;
  }

  lemma UnknownGroup(vs: seq<Finding>, x: string)
    requires x !in Fingerprints(vs)
    ensures Group(vs, x) == []
  {
    forall i | 0 <= i < |vs| ensures vs[i].fingerprint != x {
      assert vs[i] in vs && !Known(vs, x);
    }
    GroupEmpty(vs, x);
  }

  lemma GroupedMore(before: map<string, seq<Finding>>, order: seq<string>, vs: seq<Finding>, v: Finding)
    requires Grouped(before, order, vs)
    ensures var x := v.fingerprint;
      if x in before then Grouped(before[x := before[x] + [v]], order, vs + [v])
      else Grouped(before[x := [v]], order + [x], vs + [v])
  {
    hide Group, Fingerprints;
    var x := v.fingerprint;
    FingerprintsAppend(vs, v);
    if x !in before { UnknownGroup(vs, x); }
    var after := before[x := if x in before then before[x] + [v] else [v]];
    forall y | y in after ensures after[y] == Group(vs + [v], y) {
      GroupAppend(vs, v, y);
    }
  }

  lemma NothingGrouped(c: Context)
    ensures Grouped(map[], [], VerifyAll(c, []))
  {
  }

  lemma VerifyAllMore(c: Context, fs: seq<Finding>, i: nat)
    requires i < |fs|
    ensures VerifyAll(c, fs[..i + 1]) == VerifyAll(c, fs[..i]) + [c.Verify(fs[i])]
  {
    hide VerifyFinding;
  }

  method GroupFindings(hash: Hash, worktree: Option<Worktree>, records: seq<EvidenceRecord>, findings: seq<Finding>,
                       ghost dump: Finding -> string)
    returns (byFingerprint: map<string, seq<Finding>>, order: seq<string>)
    ensures Grouped(byFingerprint, order, VerifyAll(Context(hash, dump, worktree, records), findings))
  {
    hide VerifyAll, VerifyFinding, Fingerprints, Group;
    ghost var c := Context(hash, dump, worktree, records);
    NothingGrouped(c);
    var verifier := new SpanVerifier(worktree, records);
    byFingerprint, order := map[], [];
    for i := 0 to |findings|
      invariant verifier.Valid() && verifier.worktree == worktree && verifier.records == records
      invariant fresh(verifier)
      invariant Grouped(byFingerprint, order, VerifyAll(c, findings[..i]))
    {
      var v := verifier.CheckFinding(hash, findings[i]);
      VerifyAllMore(c, findings, i);
      GroupedMore(byFingerprint, order, VerifyAll(c, findings[..i]), v);
      if v.fingerprint in byFingerprint {
        byFingerprint := byFingerprint[v.fingerprint := byFingerprint[v.fingerprint] + [v]];
      } else {
        byFingerprint, order := byFingerprint[v.fingerprint := [v]], order + [v.fingerprint];
      }
    }
    assert findings[..|findings|] == findings;
  }

  lemma MergedLength(c: Context, vs: seq<Finding>)
    ensures |Deduplicate(c, vs)| == |SortedFingerprints(vs)|
  {
  }

  lemma DeduplicateAt(c: Context, vs: seq<Finding>, i: nat)
    requires i < |SortedFingerprints(vs)|
    ensures |Deduplicate(c, vs)| == |SortedFingerprints(vs)|
    ensures |Group(vs, SortedFingerprints(vs)[i])| > 0
    ensures Deduplicate(c, vs)[i] == Merge(c, Group(vs, SortedFingerprints(vs)[i]))
    ensures SortedFingerprints(vs)[i] in Fingerprints(vs)
  {
    hide Merge, Group;
    assert Known(vs, SortedFingerprints(vs)[i]);
  }

  method MergeGroups(c: Context, byFingerprint: map<string, seq<Finding>>, order: seq<string>, ghost vs: seq<Finding>)
    returns (out: seq<Finding>)
    requires Grouped(byFingerprint, order, vs)
    ensures out == Deduplicate(c, vs)
  {
    var fingerprints := Sort(order, TextLe);
    assert fingerprints == SortedFingerprints(vs);
    out := MergeInOrder(c, byFingerprint, order, vs, fingerprints);
  }

  method MergeInOrder(c: Context, byFingerprint: map<string, seq<Finding>>, ghost order: seq<string>,
                      ghost vs: seq<Finding>, fingerprints: seq<string>) returns (out: seq<Finding>)
    requires Grouped(byFingerprint, order, vs) && fingerprints == SortedFingerprints(vs)
    ensures out == Deduplicate(c, vs)
  {
    hide Merge, Group, Deduplicate, SortedFingerprints;
    ghost var expected := Deduplicate(c, vs);
    assert |expected| == |fingerprints| by { MergedLength(c, vs); }
    out := [];
    for i := 0 to |fingerprints|
      invariant |out| == i
      invariant forall k :: 0 <= k < i ==> out[k] == expected[k]
    {
      DeduplicateAt(c, vs, i);
      out := out + [Merge(c, byFingerprint[fingerprints[i]])];
    }
  }

  method Run(hash: Hash, dump: Finding -> string, worktree: Option<Worktree>, context: Option<seq<ContextItem>>,
             findings: seq<Finding>) returns (out: seq<Finding>)
    ensures out == VerifyAndDeduplicate(Context(hash, dump, worktree, GatheredRecords(context)), findings)
  {
    var records := GatherRecords(context);
    var c := Context(hash, dump, worktree, records);
    var byFingerprint, order := GroupFindings(hash, worktree, records, findings, dump);
    out := MergeGroups(c, byFingerprint, order, VerifyAll(c, findings));
  }
}
