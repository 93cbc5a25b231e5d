/** Findings, and how their evidence is checked against immutable snapshots. */
module Findings {
  import opened Prelude
  import opened Ordering
  import opened Paths
  import opened EvidenceText

  datatype Severity = Suggestion | Minor | Major | Critical {
    function Rank(): nat {
      match this
      case Suggestion => 0
      case Minor => 1
      case Major => 2
      case Critical => 3
    }
  }

  datatype EvidenceBand = Insufficient | Supported | Verified {
    function Rank(): nat {
      match this
      case Insufficient => 0
      case Supported => 1
      case Verified => 2
    }
  }

  datatype EvidenceSource = ReviewWorktree | TargetTree | MergeDiff | Metadata {
    function Text(): string {
      match this
      case ReviewWorktree => "review-worktree"
      case TargetTree => "target-tree"
      case MergeDiff => "merge-diff"
      case Metadata => "metadata"
    }
  }

  datatype ChangeKind = Added | Modified | Deleted {
    function Text(): string {
      match this
      case Added => "added"
      case Modified => "modified"
      case Deleted => "deleted"
    }
  }

  datatype Span = Span(
    path: string,
    startLine: int,
    endLine: int,
    quotedText: string,
    contextClass: string,
    source: EvidenceSource,
    snapshot: Option<string>,
    changeKind: Option<ChangeKind>)

  datatype Finding = Finding(
    fingerprint: string,
    severity: Severity,
    band: EvidenceBand,
    problem: string,
    impact: string,
    spans: seq<Span>,
    repair: Option<string>,
    bypassApplied: bool,
    dimensionId: Option<string>)

  datatype EvidenceRecord = EvidenceRecord(
    source: EvidenceSource,
    snapshot: string,
    path: string,
    changeKind: Option<ChangeKind>,
    text: string)

  datatype ContextClass = Mandatory | Optional | Excluded | Unreviewable

  /** One gathered unit; the body is there unless it was excluded, unreviewable or missing. */
  datatype ContextItem = ContextItem(
    path: string,
    contextClass: ContextClass,
    source: EvidenceSource,
    snapshot: Option<string>,
    changeKind: Option<ChangeKind>,
    body: Option<string>,
    omission: Option<string>)

  /** The checkout under review: its tree, and the text of each normalized path that has one. */
  datatype Worktree = Worktree(mergeTree: string, read: string -> Option<string>)

  /** The fingerprint hash over (path, first line, last line, category, problem). */
  type Hash = (string, int, int, string, string) -> string

  /** Different contents never hash alike. */
  ghost predicate Injective(hash: Hash) {
    forall p, s, e, c, m, p', s', e', c', m' :: hash(p, s, e, c, m) == hash(p', s', e', c', m') ==>
      p == p' && s == s' && e == e' && c == c' && m == m'
  }

  // ---- evidence records ------------------------------------------------------------------

  function RecordKey(r: EvidenceRecord): seq<string> {
    [r.source.Text(), r.snapshot, r.path, if r.changeKind.Some? then r.changeKind.value.Text() else "", r.text]
  }

  predicate RecordLe(a: EvidenceRecord, b: EvidenceRecord) {
    KeyLe(RecordKey(a), RecordKey(b))
  }

  /** A body without a path inside the repository or without a snapshot grounds nothing. */
  function RecordsOf(items: seq<ContextItem>): seq<EvidenceRecord> {
    if |items| == 0 then []
    else
      var item := items[|items| - 1];
      var path := NormalizePath(item.path);
      RecordsOf(items[..|items| - 1]) +
      if path.None? || item.body.None? || item.snapshot.GetOr("") == "" then []
      else [EvidenceRecord(item.source, item.snapshot.value, path.value, item.changeKind, item.body.value)]
  }

  function GatheredRecords(context: Option<seq<ContextItem>>): seq<EvidenceRecord> {
    if context.None? then [] else Sort(RecordsOf(context.value), RecordLe)
  }

  /** The snapshot a span is checked against: the one it names, or for the worktree the current tree. */
  function RequestedSnapshot(span: Span, worktree: Option<Worktree>): Option<string> {
    if span.snapshot.GetOr("") != "" then span.snapshot
    else if span.source.ReviewWorktree? && worktree.Some? then Some(worktree.value.mergeTree)
    else None
  }

  function MatchingRecords(records: seq<EvidenceRecord>, source: EvidenceSource, snapshot: string,
                           path: string): seq<EvidenceRecord>
  {
    if |records| == 0 then []
    else
      var r := records[|records| - 1];
      MatchingRecords(records[..|records| - 1], source, snapshot, path) +
      if r.source == source && r.snapshot == snapshot && r.path == path then [r] else []
  }

  /** The worktree's own text of the path, when the span is about the current tree. */
  function WorktreeRecord(span: Span, worktree: Option<Worktree>, snapshot: string, path: string): seq<EvidenceRecord> {
    if span.source.ReviewWorktree? && worktree.Some? && snapshot == worktree.value.mergeTree then
      var text := worktree.value.read(path);
      if text.Some? then [EvidenceRecord(ReviewWorktree, worktree.value.mergeTree, path, None, text.value)] else []
    else []
  }

  function RecordsForSpan(span: Span, worktree: Option<Worktree>, records: seq<EvidenceRecord>): seq<EvidenceRecord> {
    var path := NormalizePath(span.path);
    var snapshot := RequestedSnapshot(span, worktree);
    if path.None? || snapshot.None? then []
    else
      Sort(MatchingRecords(records, span.source, snapshot.value, path.value) +
           WorktreeRecord(span, worktree, snapshot.value, path.value), RecordLe)
  }

  predicate Fits(span: Span, r: EvidenceRecord) {
    && (span.changeKind.Some? ==> r.changeKind == span.changeKind)
    && QuoteMatches(r.text, span.startLine, span.endLine, span.quotedText)
  }

  function FirstFitting(span: Span, records: seq<EvidenceRecord>): (r: Option<EvidenceRecord>)
    ensures r.Some? ==> r.value in records && Fits(span, r.value)
    ensures r.None? ==> forall x :: x in records ==> !Fits(span, x)
  {
    if |records| == 0 then None
    else if Fits(span, records[0]) then Some(records[0])
    else FirstFitting(span, records[1..])
  }

  function GroundedRecord(span: Span, worktree: Option<Worktree>,
                          records: seq<EvidenceRecord>): Option<EvidenceRecord>
  {
    FirstFitting(span, RecordsForSpan(span, worktree, records))
  }

  /** The span with the provenance that was observed, not the one that was claimed. */
  function CanonicalSpan(span: Span, r: EvidenceRecord): Span {
    span.(path := r.path, source := r.source, snapshot := Some(r.snapshot), changeKind := r.changeKind)
  }

  function VerifySpan(span: Span, worktree: Option<Worktree>, records: seq<EvidenceRecord>): Span {
    var r := GroundedRecord(span, worktree, records);
    if r.Some? then CanonicalSpan(span, r.value) else span
  }

  function VerifySpans(spans: seq<Span>, worktree: Option<Worktree>, records: seq<EvidenceRecord>): (r: seq<Span>)
    ensures |r| == |spans|
    ensures forall i :: 0 <= i < |r| ==> r[i] == VerifySpan(spans[i], worktree, records)
  {
    if |spans| == 0 then []
    else VerifySpans(spans[..|spans| - 1], worktree, records) + [VerifySpan(spans[|spans| - 1], worktree, records)]
  }

  predicate AllGrounded(spans: seq<Span>, worktree: Option<Worktree>, records: seq<EvidenceRecord>) {
    forall i :: 0 <= i < |spans| ==> GroundedRecord(spans[i], worktree, records).Some?
  }

  // ---- fingerprints -----------------------------------------------------------------------

  const NO_EVIDENCE_PATH := "<worktree-review:no-evidence>"

  datatype SpanKey = SpanKey(path: string, startLine: int, endLine: int)

  function KeyOf(span: Span): Option<SpanKey> {
    var path := NormalizePath(span.path);
    if path.None? || span.endLine < span.startLine then None
    else Some(SpanKey(path.value, span.startLine, span.endLine))
  }

  predicate SpanKeyLe(a: SpanKey, b: SpanKey) {
    if a.path != b.path then TextLe(a.path, b.path)
    else if a.startLine != b.startLine then a.startLine < b.startLine
    else a.endLine <= b.endLine
  }

  /** The least key among the spans that have one. */
  function LeastKey(spans: seq<Span>): Option<SpanKey> {
    if |spans| == 0 then None
    else
      var before := LeastKey(spans[..|spans| - 1]);
      var key := KeyOf(spans[|spans| - 1]);
      if key.None? then before
      else if before.None? || (SpanKeyLe(key.value, before.value) && key != before) then key
      else before
  }

  function CanonicalFingerprint(hash: Hash, f: Finding): string {
    var key := LeastKey(f.spans).GetOr(SpanKey(NO_EVIDENCE_PATH, 0, 0));
    hash(key.path, key.startLine, key.endLine, f.dimensionId.GetOr(""), f.problem)
  }

  // ---- one finding --------------------------------------------------------------------------

  function VerifyFinding(hash: Hash, worktree: Option<Worktree>, records: seq<EvidenceRecord>, f: Finding): Finding {
    f.(fingerprint := CanonicalFingerprint(hash, f),
       band := if |f.spans| > 0 && AllGrounded(f.spans, worktree, records) then Supported else Insufficient,
       spans := VerifySpans(f.spans, worktree, records))
  }

  lemma SourceNamed(a: EvidenceSource, b: EvidenceSource)
    ensures a.Text() == b.Text() ==> a == b
  {
    assert "review-worktree"[0] == 'r' && "target-tree"[0] == 't' && "merge-diff"[1] == 'e' && "metadata"[2] == 't';
  }

  lemma RecordOrder()
    ensures TotalPreorder(RecordLe)
    ensures forall a, b :: RecordLe(a, b) && RecordLe(b, a) ==> a == b
  {
    KeyOrder();
    forall a, b | RecordLe(a, b) && RecordLe(b, a) ensures a == b {
      var ka, kb := RecordKey(a), RecordKey(b);
      assert ka == kb;
      assert ka[0] == kb[0] && ka[1] == kb[1] && ka[2] == kb[2] && ka[3] == kb[3] && ka[4] == kb[4];
      SourceNamed(a.source, b.source);
    }
  }

  lemma {:induction false} MatchingMembers(records: seq<EvidenceRecord>, source: EvidenceSource, snapshot: string,
                                           path: string)
    ensures forall r :: r in MatchingRecords(records, source, snapshot, path) <==>
              r in records && r.source == source && r.snapshot == snapshot && r.path == path
  {
    if |records| > 0 {
      MatchingMembers(records[..|records| - 1], source, snapshot, path);
      assert records == records[..|records| - 1] + [records[|records| - 1]];
    }
  }

  /** The trusted text the record holds is there: gathered, or read from the worktree. */
  ghost predicate Available(r: EvidenceRecord, worktree: Option<Worktree>, records: seq<EvidenceRecord>) {
    || r in records
    || (worktree.Some? && r.source.ReviewWorktree? && r.snapshot == worktree.value.mergeTree && r.changeKind.None? &&
        worktree.value.read(r.path) == Some(r.text))
  }

  /** A span is only ever compared with available records of its own path, source and snapshot. */
  lemma RecordsForSpanExact(span: Span, worktree: Option<Worktree>, records: seq<EvidenceRecord>, r: EvidenceRecord)
    ensures r in RecordsForSpan(span, worktree, records) <==>
            && Available(r, worktree, records)
            && NormalizePath(span.path) == Some(r.path)
            && r.source == span.source
            && RequestedSnapshot(span, worktree) == Some(r.snapshot)
  {
    var path := NormalizePath(span.path);
    var snapshot := RequestedSnapshot(span, worktree);
    if path.Some? && snapshot.Some? {
      MatchingMembers(records, span.source, snapshot.value, path.value);
      RecordOrder();
      SortSorts(MatchingRecords(records, span.source, snapshot.value, path.value) +
                WorktreeRecord(span, worktree, snapshot.value, path.value), RecordLe);
    }
  }

  /** The span states exactly where its quote was found. */
  ghost predicate Backed(span: Span, worktree: Option<Worktree>, records: seq<EvidenceRecord>) {
    exists r :: Available(r, worktree, records) && Backs(r, span)
  }

  predicate Backs(r: EvidenceRecord, span: Span) {
    && r.path == span.path
    && r.source == span.source
    && Some(r.snapshot) == span.snapshot
    && r.changeKind == span.changeKind
    && QuoteMatches(r.text, span.startLine, span.endLine, span.quotedText)
  }

  /** The span can be grounded: some available record of its path, source and snapshot fits. */
  ghost predicate Groundable(span: Span, worktree: Option<Worktree>, records: seq<EvidenceRecord>) {
    exists r :: Grounds(r, span, worktree, records)
  }

  ghost predicate Grounds(r: EvidenceRecord, span: Span, worktree: Option<Worktree>, records: seq<EvidenceRecord>) {
    && Available(r, worktree, records)
    && NormalizePath(span.path) == Some(r.path)
    && r.source == span.source
    && RequestedSnapshot(span, worktree) == Some(r.snapshot)
    && Fits(span, r)
  }

  lemma GroundedExactly(span: Span, worktree: Option<Worktree>, records: seq<EvidenceRecord>)
    ensures GroundedRecord(span, worktree, records).Some? <==> Groundable(span, worktree, records)
    ensures GroundedRecord(span, worktree, records).Some? ==>
              Backed(VerifySpan(span, worktree, records), worktree, records)
  {
    var r := GroundedRecord(span, worktree, records);
    if r.Some? {
      RecordsForSpanExact(span, worktree, records, r.value);
      assert Grounds(r.value, span, worktree, records);
      assert Backs(r.value, VerifySpan(span, worktree, records));
    } else if Groundable(span, worktree, records) {
      var x :| Grounds(x, span, worktree, records);
      RecordsForSpanExact(span, worktree, records, x);
      assert false;
    }
  }

  /**
   * A finding comes out supported exactly when it has spans and each of them can be grounded; then
   * every span it carries names the place its quote was found. Nothing comes out verified.
   */
  lemma SupportedMeansGrounded(hash: Hash, worktree: Option<Worktree>, records: seq<EvidenceRecord>, f: Finding)
    ensures var v := VerifyFinding(hash, worktree, records, f);
      && !v.band.Verified?
      && |v.spans| == |f.spans|
      && (v.band.Supported? <==>
            |f.spans| > 0 && forall i :: 0 <= i < |f.spans| ==> Groundable(f.spans[i], worktree, records))
      && (v.band.Supported? ==>
            |v.spans| > 0 && forall i :: 0 <= i < |v.spans| ==> Backed(v.spans[i], worktree, records))
  {
    forall i | 0 <= i < |f.spans|
      ensures GroundedRecord(f.spans[i], worktree, records).Some? <==> Groundable(f.spans[i], worktree, records)
      ensures GroundedRecord(f.spans[i], worktree, records).Some? ==>
                Backed(VerifySpan(f.spans[i], worktree, records), worktree, records)
    {
      GroundedExactly(f.spans[i], worktree, records);
    }
  }

  // ---- verifying twice ------------------------------------------------------------------------

  lemma {:induction false} FittingAgain(span: Span, records: seq<EvidenceRecord>, r: EvidenceRecord)
    requires FirstFitting(span, records) == Some(r)
    ensures FirstFitting(CanonicalSpan(span, r), records) == Some(r)
  {
    if records[0] != r || !Fits(span, records[0]) {
      FittingAgain(span, records[1..], r);
    }
  }

  /** A grounded span is found again at the same place. */
  lemma SpanSettled(span: Span, worktree: Option<Worktree>, records: seq<EvidenceRecord>)
    ensures VerifySpan(VerifySpan(span, worktree, records), worktree, records) == VerifySpan(span, worktree, records)
    ensures KeyOf(VerifySpan(span, worktree, records)) == KeyOf(span)
    ensures GroundedRecord(VerifySpan(span, worktree, records), worktree, records) ==
            GroundedRecord(span, worktree, records)
  {
    var r := GroundedRecord(span, worktree, records);
    if r.Some? {
      var settled := CanonicalSpan(span, r.value);
      RecordsForSpanExact(span, worktree, records, r.value);
      NormalizeTwice(span.path);
      assert RequestedSnapshot(settled, worktree) == RequestedSnapshot(span, worktree);
      assert RecordsForSpan(settled, worktree, records) == RecordsForSpan(span, worktree, records);
      FittingAgain(span, RecordsForSpan(span, worktree, records), r.value);
    }
  }

  lemma {:induction false} SameKeysSameLeast(a: seq<Span>, b: seq<Span>)
    requires |a| == |b| && forall i :: 0 <= i < |a| ==> KeyOf(a[i]) == KeyOf(b[i])
    ensures LeastKey(a) == LeastKey(b)
  {
    if |a| > 0 { SameKeysSameLeast(a[..|a| - 1], b[..|b| - 1]); }
  }

  lemma SpansSettled(spans: seq<Span>, worktree: Option<Worktree>, records: seq<EvidenceRecord>)
    ensures var settled := VerifySpans(spans, worktree, records);
      && VerifySpans(settled, worktree, records) == settled
      && (forall i :: 0 <= i < |spans| ==> KeyOf(settled[i]) == KeyOf(spans[i]))
      && (AllGrounded(settled, worktree, records) <==> AllGrounded(spans, worktree, records))
  {
    var settled := VerifySpans(spans, worktree, records);
    forall i | 0 <= i < |spans|
      ensures VerifySpan(settled[i], worktree, records) == settled[i]
      ensures KeyOf(settled[i]) == KeyOf(spans[i])
      ensures GroundedRecord(settled[i], worktree, records) == GroundedRecord(spans[i], worktree, records)
    {
      SpanSettled(spans[i], worktree, records);
    }
  }

  /** Verification is a projection: a verified finding verifies to itself. */
  lemma VerifyTwice(hash: Hash, worktree: Option<Worktree>, records: seq<EvidenceRecord>, f: Finding)
    ensures var v := VerifyFinding(hash, worktree, records, f);
      VerifyFinding(hash, worktree, records, v) == v
  {
    SpansSettled(f.spans, worktree, records);
    SameKeysSameLeast(VerifySpans(f.spans, worktree, records), f.spans);
  }
}
