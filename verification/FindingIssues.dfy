/** Which findings are one issue, and what its one report says. */
module FindingIssues {
  import opened Prelude
  import opened Ordering
  import opened Paths
  import opened EvidenceText
  import opened Findings
  import opened FindingsDedup

  // ---- the place of a finding -------------------------------------------------------------------

  /** The span names lines of a path inside the repository. */
  predicate Placed(span: Span) {
    NormalizePath(span.path).Some? && span.startLine <= span.endLine
  }

  /** Ordered by path, then by first line, then by last line. */
  predicate NoLater(a: Span, b: Span)
    requires Placed(a) && Placed(b)
  {
    var p, q := NormalizePath(a.path).value, NormalizePath(b.path).value;
    || (p != q && TextLe(p, q))
    || (p == q && a.startLine < b.startLine)
    || (p == q && a.startLine == b.startLine && a.endLine <= b.endLine)
  }

  /** No span that names a place comes before this one. */
  predicate First(spans: seq<Span>, i: int) {
    0 <= i < |spans| && Placed(spans[i]) && forall j :: 0 <= j < |spans| && Placed(spans[j]) ==>
      NoLater(spans[i], spans[j])
  }

  predicate Nowhere(spans: seq<Span>) {
    forall i :: 0 <= i < |spans| ==> !Placed(spans[i])
  }

  predicate SameLines(a: Span, b: Span) {
    NormalizePath(a.path) == NormalizePath(b.path) && a.startLine == b.startLine && a.endLine == b.endLine
  }

  /** The first places of both are the same lines, or neither names a place. */
  ghost predicate SamePlace(a: seq<Span>, b: seq<Span>) {
    || (Nowhere(a) && Nowhere(b))
    || (exists i, j :: 0 <= i < |a| && 0 <= j < |b| && First(a, i) && First(b, j) && SameLines(a[i], b[j]))
  }

  /** The same problem, told by the same dimension about the same place. */
  ghost predicate SameIssue(f: Finding, g: Finding) {
    && f.problem == g.problem
    && f.dimensionId.GetOr("") == g.dimensionId.GetOr("")
    && SamePlace(f.spans, g.spans)
  }

  lemma KeyLe2(a: SpanKey, b: SpanKey, c: SpanKey)
    ensures SpanKeyLe(a, a)
    ensures SpanKeyLe(a, b) || SpanKeyLe(b, a)
    ensures SpanKeyLe(a, b) && SpanKeyLe(b, a) ==> a == b
    ensures SpanKeyLe(a, b) && SpanKeyLe(b, c) ==> SpanKeyLe(a, c)
  {
    TextLeTotal(a.path, b.path);
    if TextLe(a.path, b.path) && TextLe(b.path, a.path) { TextLeAntisymmetric(a.path, b.path); }
    if TextLe(a.path, b.path) && TextLe(b.path, c.path) { TextLeTransitive(a.path, b.path, c.path); }
    if TextLe(b.path, c.path) && TextLe(c.path, b.path) { TextLeAntisymmetric(b.path, c.path); }
  }

  lemma KeysPlaced(spans: seq<Span>)
    ensures forall i :: 0 <= i < |spans| ==> (KeyOf(spans[i]).Some? <==> Placed(spans[i]))
  {
  }

  lemma {:induction false} LeastKeyExact(spans: seq<Span>)
    ensures LeastKey(spans).None? <==> Nowhere(spans)
    ensures LeastKey(spans).Some? ==> exists i :: 0 <= i < |spans| && KeyOf(spans[i]) == LeastKey(spans)
    ensures LeastKey(spans).Some? ==> forall i :: 0 <= i < |spans| && KeyOf(spans[i]).Some? ==>
              SpanKeyLe(LeastKey(spans).value, KeyOf(spans[i]).value)
  {
    hide SpanKeyLe, KeyOf, Placed;
    KeysPlaced(spans);
    if |spans| > 0 {
      var front, last := spans[..|spans| - 1], spans[|spans| - 1];
      LeastKeyExact(front);
      KeysPlaced(front);
      var before, least := LeastKey(front), LeastKey(spans);
      if least.Some? {
        forall i | 0 <= i < |spans| && KeyOf(spans[i]).Some?
          ensures SpanKeyLe(least.value, KeyOf(spans[i]).value)
        {
          KeyLe2(least.value, least.value, least.value);
          if before.Some? { KeyLe2(least.value, before.value, KeyOf(spans[i]).value); }
          if before.Some? && KeyOf(last).Some? { KeyLe2(KeyOf(last).value, before.value, before.value); }
          if i < |spans| - 1 { assert front[i] == spans[i]; }
        }
        if least == before {
          var i :| 0 <= i < |front| && KeyOf(front[i]) == before;
          assert spans[i] == front[i];
        }
      }
      assert forall i :: 0 <= i < |front| ==> front[i] == spans[i];
    }
  }

  lemma FirstExactly(spans: seq<Span>, i: nat)
    requires i < |spans|
    ensures First(spans, i) <==> KeyOf(spans[i]).Some? && KeyOf(spans[i]) == LeastKey(spans)
  {
    LeastKeyExact(spans);
    if First(spans, i) {
      var k :| 0 <= k < |spans| && KeyOf(spans[k]) == LeastKey(spans);
      assert NoLater(spans[i], spans[k]);
      KeyLe2(KeyOf(spans[i]).value, KeyOf(spans[k]).value, KeyOf(spans[k]).value);
    }
    if KeyOf(spans[i]).Some? && KeyOf(spans[i]) == LeastKey(spans) {
      forall j | 0 <= j < |spans| && Placed(spans[j]) ensures NoLater(spans[i], spans[j]) {
        assert SpanKeyLe(KeyOf(spans[i]).value, KeyOf(spans[j]).value);
      }
    }
  }

  lemma SamePlaceExactly(a: seq<Span>, b: seq<Span>)
    ensures SamePlace(a, b) <==> LeastKey(a) == LeastKey(b)
  {
    hide First, LeastKey;
    LeastKeyExact(a);
    LeastKeyExact(b);
    if i, j :| 0 <= i < |a| && 0 <= j < |b| && First(a, i) && First(b, j) && SameLines(a[i], b[j]) {
      FirstExactly(a, i);
      FirstExactly(b, j);
    }
    if LeastKey(a) == LeastKey(b) && LeastKey(a).Some? {
      var i :| 0 <= i < |a| && KeyOf(a[i]) == LeastKey(a);
      var j :| 0 <= j < |b| && KeyOf(b[j]) == LeastKey(b);
      FirstExactly(a, i);
      FirstExactly(b, j);
    }
  }

  /** Lines are counted from 1. */
  predicate LinesCounted(f: Finding) {
    forall i :: 0 <= i < |f.spans| ==> f.spans[i].startLine >= 1
  }

  lemma {:induction false} LeastIsCounted(spans: seq<Span>)
    requires forall i :: 0 <= i < |spans| ==> spans[i].startLine >= 1
    ensures LeastKey(spans).Some? ==> LeastKey(spans).value.startLine >= 1
  {
    if |spans| > 0 { LeastIsCounted(spans[..|spans| - 1]); }
  }

  /** Two findings get one fingerprint exactly when they are one issue. */
  lemma FingerprintShared(c: Context, f: Finding, g: Finding)
    requires Injective(c.hash) && LinesCounted(f) && LinesCounted(g)
    ensures c.Verify(f).fingerprint == c.Verify(g).fingerprint <==> SameIssue(f, g)
  {
    SamePlaceExactly(f.spans, g.spans);
    LeastIsCounted(f.spans);
    LeastIsCounted(g.spans);
    hide LeastKey;
  }

  /** The output carries the fingerprint the finding verifies to. */
  predicate Carries(c: Context, out: Finding, f: Finding) {
    out.fingerprint == c.Verify(f).fingerprint
  }

  /** Two inputs share an output exactly when they are one issue. */
  lemma SharedExactly(c: Context, fs: seq<Finding>, f: Finding, g: Finding)
    requires Injective(c.hash) && f in fs && g in fs && LinesCounted(f) && LinesCounted(g)
    ensures (exists out :: out in VerifyAndDeduplicate(c, fs) && Carries(c, out, f) && Carries(c, out, g)) <==>
            SameIssue(f, g)
  {
    hide VerifyAndDeduplicate, SameIssue, Represents, CanonicalFingerprint;
    FingerprintShared(c, f, g);
    NothingLost(c, fs, f);
    var out :| out in VerifyAndDeduplicate(c, fs) && Represents(c, out, f);
    RepresentsCarries(c, out, f);
    if SameIssue(f, g) { assert Carries(c, out, g); }
  }

  lemma RepresentsCarries(c: Context, out: Finding, f: Finding)
    requires Represents(c, out, f)
    ensures Carries(c, out, f)
  {
  }

  // ---- what the one report of an issue says ---------------------------------------------------------

  /** More severe: critical above major above minor above suggestion. */
  predicate Above(a: Severity, b: Severity) {
    || (a.Critical? && !b.Critical?)
    || (a.Major? && (b.Minor? || b.Suggestion?))
    || (a.Minor? && b.Suggestion?)
  }

  lemma AboveRanks(a: Severity, b: Severity)
    ensures Above(a, b) <==> a.Rank() > b.Rank()
    ensures a.Rank() == b.Rank() ==> a == b
  {
  }

  /** One of the inputs whose fingerprint the output carries. */
  predicate Told(c: Context, fs: seq<Finding>, out: Finding, f: Finding) {
    f in fs && Carries(c, out, f)
  }

  /** The place of the span as it was claimed, or where its quote was found. */
  ghost predicate Traced(c: Context, claimed: Span, reported: Span) {
    && reported.startLine == claimed.startLine && reported.endLine == claimed.endLine
    && reported.quotedText == claimed.quotedText && reported.contextClass == claimed.contextClass
    && if Groundable(claimed, c.worktree, c.records) then Backed(reported, c.worktree, c.records)
           else reported == claimed
  }

  /** The report is the input's, word for word; only what verification observed was put in. */
  ghost predicate Tells(c: Context, out: Finding, f: Finding) {
    && out.problem == f.problem && out.impact == f.impact && out.repair == f.repair && out.dimensionId == f.dimensionId
    && |out.spans| == |f.spans|
    && forall k :: 0 <= k < |f.spans| ==> Traced(c, f.spans[k], out.spans[k])
  }

  /** Better evidence first, then more severe, then the smaller JSON form. */
  predicate ToldBefore(c: Context, f: Finding, g: Finding) {
    var a, b := c.Verify(f), c.Verify(g);
    || (a.band.Supported? && b.band.Insufficient?)
    || (a.band == b.band && Above(a.severity, b.severity))
    || (a.band == b.band && a.severity == b.severity && TextLe(c.dump(a), c.dump(b)))
  }

  lemma PreferredTold(c: Context, f: Finding, g: Finding)
    requires Preferred(c, c.Verify(f), c.Verify(g))
    ensures ToldBefore(c, f, g)
  {
    AboveRanks(c.Verify(f).severity, c.Verify(g).severity);
  }

  lemma VerifiedTells(c: Context, f: Finding)
    ensures Tells(c, c.Verify(f), f)
  {
    forall k | 0 <= k < |f.spans| ensures Traced(c, f.spans[k], c.Verify(f).spans[k]) {
      GroundedExactly(f.spans[k], c.worktree, c.records);
    }
  }

  /**
   * The report of an issue is one of its inputs, the one no other comes before; its severity is the
   * greatest told, its evidence the best found, and it is bypassed only if all of them are.
   */
  lemma ReportExactly(c: Context, fs: seq<Finding>, i: nat) returns (f: Finding)
    requires i < |VerifyAndDeduplicate(c, fs)|
    ensures var out := VerifyAndDeduplicate(c, fs)[i];
      && Told(c, fs, out, f) && Tells(c, out, f)
      && (forall g :: Told(c, fs, out, g) ==> ToldBefore(c, f, g))
      && (exists g :: Told(c, fs, out, g) && g.severity == out.severity)
      && (forall g :: Told(c, fs, out, g) ==> !Above(g.severity, out.severity))
      && (out.band.Supported? <==> exists g :: Told(c, fs, out, g) && c.Verify(g).band.Supported?)
      && (out.bypassApplied <==> forall g :: Told(c, fs, out, g) ==> g.bypassApplied)
  {
    hide VerifyAndDeduplicate, VerifyFinding, Tells, ToldBefore;
    var group := OutputAt(c, fs, i);
    var out := VerifyAndDeduplicate(c, fs)[i];
    RepresentativePreferred(c, group);
    f :| f in fs && Representative(c, group) == c.Verify(f);
    ToldGroup(c, fs, out, group);
    VerifiedTells(c, f);
    MergedTells(c, out, c.Verify(f), f);
    assert Carries(c, out, f);
    forall g | Told(c, fs, out, g)
      ensures ToldBefore(c, f, g) && !Above(g.severity, out.severity)
    {
      PreferredTold(c, f, g);
      AboveRanks(g.severity, out.severity);
    }
    GroupStrength(c, fs, out, group);
  }

  lemma MergedTells(c: Context, out: Finding, v: Finding, f: Finding)
    requires Tells(c, v, f) && out == v.(band := out.band, severity := out.severity, bypassApplied := out.bypassApplied)
    ensures Tells(c, out, f)
  {
  }

  /** The group that was merged into the output is what its inputs verify to. */
  lemma ToldGroup(c: Context, fs: seq<Finding>, out: Finding, group: seq<Finding>)
    requires group == Group(VerifyAll(c, fs), out.fingerprint)
    ensures forall g :: Told(c, fs, out, g) ==> c.Verify(g) in group
    ensures forall v :: v in group ==> exists g :: Told(c, fs, out, g) && c.Verify(g) == v
    ensures forall g :: c.Verify(g).severity == g.severity && c.Verify(g).bypassApplied == g.bypassApplied &&
                        !c.Verify(g).band.Verified?
  {
    VerifyAllMembers(c, fs);
    forall v | v in group ensures exists g :: Told(c, fs, out, g) && c.Verify(g) == v {
      var g :| g in fs && c.Verify(g) == v;
      assert Told(c, fs, out, g);
    }
  }

  lemma GroupStrength(c: Context, fs: seq<Finding>, out: Finding, group: seq<Finding>)
    requires |group| > 0 && out == Merge(c, group) && group == Group(VerifyAll(c, fs), out.fingerprint)
    ensures exists g :: Told(c, fs, out, g) && g.severity == out.severity
    ensures out.band.Supported? <==> exists g :: Told(c, fs, out, g) && c.Verify(g).band.Supported?
    ensures out.bypassApplied <==> forall g :: Told(c, fs, out, g) ==> g.bypassApplied
  {
    hide VerifyFinding, VerifyAll, Group;
    ToldGroup(c, fs, out, group);
    var strong :| strong in group && strong.band == out.band;
    var severe :| severe in group && severe.severity == out.severity;
    var f :| Told(c, fs, out, f) && c.Verify(f) == strong;
    var g :| Told(c, fs, out, g) && c.Verify(g) == severe;
    if h :| Told(c, fs, out, h) && c.Verify(h).band.Supported? {
      assert c.Verify(h) in group && c.Verify(h).band.Rank() <= out.band.Rank();
    }
    if forall h :: Told(c, fs, out, h) ==> h.bypassApplied {
      forall v | v in group ensures v.bypassApplied {
        var h :| Told(c, fs, out, h) && c.Verify(h) == v;
      }
    }
  }

  // ---- the texts findings are checked against ---------------------------------------------------------

  /** A gathered text counts as evidence when it has a place inside the repository and a snapshot. */
  predicate Grounding(item: ContextItem, r: EvidenceRecord) {
    && NormalizePath(item.path) == Some(r.path)
    && item.body == Some(r.text)
    && item.snapshot == Some(r.snapshot) && r.snapshot != ""
    && item.source == r.source && item.changeKind == r.changeKind
  }

  lemma {:induction false} RecordsExactly(items: seq<ContextItem>)
    ensures forall r :: r in RecordsOf(items) <==> exists i :: 0 <= i < |items| && Grounding(items[i], r)
  {
    if |items| > 0 {
      var front, last := items[..|items| - 1], items[|items| - 1];
      RecordsExactly(front);
      forall r
        ensures r in RecordsOf(items) <==> exists i :: 0 <= i < |items| && Grounding(items[i], r)
      {
        assert r in RecordsOf(items) <==> r in RecordsOf(front) || Grounding(last, r);
        if r in RecordsOf(front) {
          var i :| 0 <= i < |front| && Grounding(front[i], r);
          assert items[i] == front[i];
        }
        if i :| 0 <= i < |items| && Grounding(items[i], r) {
          if i < |front| { assert front[i] == items[i]; }
        }
      }
    }
  }

  /** The records are exactly the gathered texts that count as evidence. */
  lemma GatheredExactly(items: seq<ContextItem>, r: EvidenceRecord)
    ensures r in GatheredRecords(Some(items)) <==> exists i :: 0 <= i < |items| && Grounding(items[i], r)
  {
    RecordOrder();
    SortSorts(RecordsOf(items), RecordLe);
    RecordsExactly(items);
  }

  /** No change kind first, then added, deleted, modified. */
  function KindPlace(kind: Option<ChangeKind>): nat {
    match kind
    case None => 0
    case Some(Added) => 1
    case Some(Deleted) => 2
    case Some(Modified) => 3
  }

  lemma KindNames(a: ChangeKind, b: ChangeKind)
    ensures TextLe(a.Text(), b.Text()) <==> KindPlace(Some(a)) <= KindPlace(Some(b))
    ensures a.Text() == b.Text() ==> a == b
    ensures a.Text() != "" && !TextLe(a.Text(), "")
  {
    assert "added"[0] == 'a' && "deleted"[0] == 'd' && "modified"[0] == 'm';
    if a == b { TextLeTotal(a.Text(), a.Text()); }
  }

  lemma {:induction false} FirstFittingIs(span: Span, records: seq<EvidenceRecord>, r: EvidenceRecord)
    requires FirstFitting(span, records) == Some(r)
    ensures exists i :: 0 <= i < |records| && records[i] == r && forall j :: 0 <= j < i ==> !Fits(span, records[j])
  {
    if Fits(span, records[0]) {
      assert records[0] == r;
    } else {
      FirstFittingIs(span, records[1..], r);
      var i :| 0 <= i < |records[1..]| && records[1..][i] == r && forall j :: 0 <= j < i ==>
        !Fits(span, records[1..][j]);
      assert records[i + 1] == r;
      forall j | 0 <= j < i + 1 ensures !Fits(span, records[j]) {
        if j > 0 { assert records[j] == records[1..][j - 1]; }
      }
    }
  }

  lemma KeyUnfolds(a: seq<string>, b: seq<string>)
    requires |a| == 5 && |b| == 5 && a[0] == b[0] && a[1] == b[1] && a[2] == b[2] && KeyLe(a, b)
    ensures if a[3] == b[3] then a[4] == b[4] || TextLe(a[4], b[4]) else TextLe(a[3], b[3])
  {
    assert KeyLe(a[1..], b[1..]);
    assert KeyLe(a[1..][1..], b[1..][1..]);
    assert KeyLe(a[1..][1..][1..], b[1..][1..][1..]);
    assert a[1..][1..][1..] == a[3..] && b[1..][1..][1..] == b[3..];
    assert a[3..][0] == a[3] && b[3..][0] == b[3] && |a[3..]| == |b[3..]| == 2;
    if a[3] == b[3] {
      assert KeyLe(a[3..][1..], b[3..][1..]);
      assert a[3..][1..][0] == a[4] && b[3..][1..][0] == b[4];
    }
  }

  lemma FirstIsLeast(span: Span, records: seq<EvidenceRecord>, r: EvidenceRecord, x: EvidenceRecord)
    requires Sorted(records, RecordLe) && FirstFitting(span, records) == Some(r)
    requires x in records && Fits(span, x)
    ensures RecordLe(r, x)
  {
    hide Fits, FirstFitting, RecordLe;
    FirstFittingIs(span, records, r);
    var i :| 0 <= i < |records| && records[i] == r && forall j :: 0 <= j < i ==> !Fits(span, records[j]);
    var k :| 0 <= k < |records| && records[k] == x;
    assert i <= k;
    if i == k { RecordOrder(); }
  }

  lemma RecordLeMeans(r: EvidenceRecord, x: EvidenceRecord)
    requires RecordLe(r, x) && r.source == x.source && r.snapshot == x.snapshot && r.path == x.path
    ensures KindPlace(r.changeKind) < KindPlace(x.changeKind) ||
            (r.changeKind == x.changeKind && TextLe(r.text, x.text))
  {
    KeyUnfolds(RecordKey(r), RecordKey(x));
    TextLeTotal(r.text, r.text);
    if r.changeKind.Some? && x.changeKind.Some? { KindNames(r.changeKind.value, x.changeKind.value); }
    if r.changeKind.Some? { KindNames(r.changeKind.value, r.changeKind.value); }
    if x.changeKind.Some? { KindNames(x.changeKind.value, x.changeKind.value); }
  }

  /** Of the texts a span can be grounded in, the one with the first change kind and then the least text is taken. */
  lemma GroundedFirst(span: Span, worktree: Option<Worktree>, records: seq<EvidenceRecord>, r: EvidenceRecord,
                      x: EvidenceRecord)
    requires GroundedRecord(span, worktree, records) == Some(r) && Grounds(x, span, worktree, records)
    ensures Grounds(r, span, worktree, records)
    ensures KindPlace(r.changeKind) < KindPlace(x.changeKind) ||
            (r.changeKind == x.changeKind && TextLe(r.text, x.text))
  {
    hide Fits, RecordsForSpan, RecordLe;
    RecordsForSpanExact(span, worktree, records, x);
    RecordsForSpanExact(span, worktree, records, r);
    SpanRecordsSorted(span, worktree, records);
    FirstIsLeast(span, RecordsForSpan(span, worktree, records), r, x);
    RecordLeMeans(r, x);
  }

  lemma SpanRecordsSorted(span: Span, worktree: Option<Worktree>, records: seq<EvidenceRecord>)
    ensures Sorted(RecordsForSpan(span, worktree, records), RecordLe)
  {
    RecordOrder();
    var path := NormalizePath(span.path);
    var snapshot := RequestedSnapshot(span, worktree);
    if path.Some? && snapshot.Some? {
      SortSorts(MatchingRecords(records, span.source, snapshot.value, path.value) +
                WorktreeRecord(span, worktree, snapshot.value, path.value), RecordLe);
    }
  }

  // ---- when a quote is grounded ---------------------------------------------------------------------

  /** A trusted text that vouches for the span: the same place, snapshot and kind of change, and the quote is there. */
  ghost predicate Vouches(r: EvidenceRecord, span: Span, worktree: Option<Worktree>, records: seq<EvidenceRecord>) {
    && NormalizePath(span.path) == Some(r.path)
    && r.source == span.source
    && (if span.snapshot == None || span.snapshot == Some("")
        then span.source == ReviewWorktree && worktree.Some? && r.snapshot == worktree.value.mergeTree
        else span.snapshot == Some(r.snapshot))
    && (span.changeKind == None || span.changeKind == r.changeKind)
    && QuoteMatches(r.text, span.startLine, span.endLine, span.quotedText)
    && (r in records ||
        (worktree.Some? && r.source == ReviewWorktree && r.snapshot == worktree.value.mergeTree &&
         r.changeKind == None && worktree.value.read(r.path) == Some(r.text)))
  }

  /** A span is grounded exactly when some trusted text vouches for it, and then a record that does is named. */
  lemma VouchedExactly(span: Span, worktree: Option<Worktree>, records: seq<EvidenceRecord>)
    ensures GroundedRecord(span, worktree, records).Some? <==> exists r :: Vouches(r, span, worktree, records)
    ensures var r := GroundedRecord(span, worktree, records);
      var v := VerifySpan(span, worktree, records);
      && (r.None? ==> v == span)
      && (r.Some? ==>
            && Vouches(r.value, span, worktree, records)
            && v.path == r.value.path && v.source == r.value.source && v.snapshot == Some(r.value.snapshot)
            && v.changeKind == r.value.changeKind
            && v.startLine == span.startLine && v.endLine == span.endLine && v.quotedText == span.quotedText)
  {
    hide QuoteMatches;
    GroundedExactly(span, worktree, records);
    forall r
      ensures Vouches(r, span, worktree, records) <==> Grounds(r, span, worktree, records)
    {}
    var r := GroundedRecord(span, worktree, records);
    if r.Some? { RecordsForSpanExact(span, worktree, records, r.value); }
  }
}
