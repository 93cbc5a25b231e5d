/** The audit trail read page by page, newest event first, with the last id seen as the cursor. */
module AuditPaging {
  import opened Prelude
  import opened Store
  import opened Ordering

  const MAX_AUDIT_EVENTS_PER_PAGE := 200

  function ClampPageSize(limit: int): (size: nat)
    ensures 1 <= size <= MAX_AUDIT_EVENTS_PER_PAGE
    ensures 1 <= limit <= 200 ==> size == limit
    ensures limit < 1 ==> size == 1
    ensures limit > 200 ==> size == 200
  {
    var capped := if limit < MAX_AUDIT_EVENTS_PER_PAGE then limit else MAX_AUDIT_EVENTS_PER_PAGE;
    if capped < 1 then 1 else capped
  }

  datatype Filter = Filter(
    kind: Option<string>,
    attempt: Option<AttemptId>,
    repository: Option<string>,
    number: Option<int>,
    installations: Option<set<int>>)
  {
    predicate Admits(e: AuditEvent) {
      && (kind.None? || e.kind == kind.value)
      && (attempt.None? || e.attempt == attempt)
      && (repository.None? || e.changeRequest.repository == repository.value)
      && (number.None? || e.changeRequest.number == number.value)
      && (installations.None? || e.changeRequest.installation in installations.value)
    }
  }

  /** The event is of the kind, Attempt, repository, number and installation asked for. */
  predicate AskedFor(f: Filter, e: AuditEvent) {
    && (f.kind == None || f.kind == Some(e.kind))
    && (f.attempt == None || f.attempt == e.attempt)
    && (f.repository == None || f.repository == Some(e.changeRequest.repository))
    && (f.number == None || f.number == Some(e.changeRequest.number))
    && (f.installations.Some? ==> e.changeRequest.installation in f.installations.value)
  }

  datatype Page = Page(events: seq<AuditEvent>, nextCursor: Option<int>)

  datatype PageResult = Listed(page: Page) | InvalidCursor

  /** Event ids count up from 1. */
  ghost predicate Numbered(events: seq<AuditEvent>) {
    forall i {:trigger events[i]} :: 0 <= i < |events| ==> events[i].id == i + 1
  }

  predicate Wanted(e: AuditEvent, before: Option<int>, f: Filter) {
    (before.None? || e.id < before.value) && f.Admits(e)
  }

  /** The wanted ones among the first n events, in the order they were recorded. */
  function Filtered(events: seq<AuditEvent>, n: nat, before: Option<int>, f: Filter): seq<AuditEvent>
    requires n <= |events|
  {
    if n == 0 then []
    else
      Filtered(events, n - 1, before, f) + if Wanted(events[n - 1], before, f) then [events[n - 1]] else []
  }

  predicate NewestFirst(a: AuditEvent, b: AuditEvent) {
    a.id >= b.id
  }

  /** One page, as it is computed: filter, sort by id in reverse, cut. */
  function ListPage(events: seq<AuditEvent>, cursor: Option<int>, limit: int, f: Filter): PageResult {
    if cursor.Some? && cursor.value < 1 then InvalidCursor
    else
      var matching := Sort(Filtered(events, |events|, cursor, f), NewestFirst);
      var size := ClampPageSize(limit);
      if |matching| > size then Listed(Page(matching[..size], Some(matching[size - 1].id)))
      else Listed(Page(matching, None))
  }

  // ---- what a page shows ----------------------------------------------------------------

  /** The admitted ones among the first n events, newest first. */
  function Newest(events: seq<AuditEvent>, n: nat, f: Filter): seq<AuditEvent>
    requires n <= |events|
  {
    if n == 0 then []
    else (if f.Admits(events[n - 1]) then [events[n - 1]] else []) + Newest(events, n - 1, f)
  }

  /** How many events lie below the cursor. */
  function Below(events: seq<AuditEvent>, cursor: Option<int>): (n: nat)
    requires cursor.Some? ==> cursor.value >= 1
    ensures n <= |events|
  {
    if cursor.Some? && cursor.value - 1 < |events| then cursor.value - 1 else |events|
  }

  /** The listing holds each admitted event and nothing else, ids strictly falling. */
  lemma {:induction false} NewestExact(events: seq<AuditEvent>, n: nat, f: Filter)
    requires Numbered(events) && n <= |events|
    ensures forall e :: e in Newest(events, n, f) <==> e in events[..n] && AskedFor(f, e)
    ensures forall i :: 0 <= i < |Newest(events, n, f)| ==> 1 <= Newest(events, n, f)[i].id <= n
    ensures forall i, j :: 0 <= i < j < |Newest(events, n, f)| ==>
              Newest(events, n, f)[i].id > Newest(events, n, f)[j].id
  {
    if n > 0 {
      NewestExact(events, n - 1, f);
      assert events[..n] == events[..n - 1] + [events[n - 1]];
    }
  }

  /** What follows an event in the listing is the listing of the events recorded before it. */
  lemma {:induction false} NewestAfter(events: seq<AuditEvent>, n: nat, f: Filter, k: nat)
    requires Numbered(events) && n <= |events| && k < |Newest(events, n, f)|
    ensures 1 <= Newest(events, n, f)[k].id <= n
    ensures Newest(events, n, f)[k + 1..] == Newest(events, Newest(events, n, f)[k].id - 1, f)
  {
    var rest := Newest(events, n - 1, f);
    if f.Admits(events[n - 1]) {
      assert Newest(events, n, f) == [events[n - 1]] + rest;
      if k > 0 { NewestAfter(events, n - 1, f, k - 1); }
    } else {
      NewestAfter(events, n - 1, f, k);
    }
  }

  lemma {:induction false} NewestPrefix(a: seq<AuditEvent>, b: seq<AuditEvent>, n: nat, f: Filter)
    requires a <= b && n <= |a|
    ensures Newest(a, n, f) == Newest(b, n, f)
  {
    if n > 0 { NewestPrefix(a, b, n - 1, f); }
  }

  function Reversed(s: seq<AuditEvent>): seq<AuditEvent> {
    if |s| == 0 then [] else [s[|s| - 1]] + Reversed(s[..|s| - 1])
  }

  lemma {:induction false} ReversedPermutes(s: seq<AuditEvent>)
    ensures multiset(Reversed(s)) == multiset(s)
  {
    if |s| > 0 {
      assert s == s[..|s| - 1] + [s[|s| - 1]];
      ReversedPermutes(s[..|s| - 1]);
    }
  }

  lemma {:induction false} FilteredBelow(events: seq<AuditEvent>, n: nat, cursor: Option<int>, f: Filter)
    requires Numbered(events) && n <= |events| && (cursor.Some? ==> cursor.value >= 1)
    ensures Reversed(Filtered(events, n, cursor, f)) ==
            Newest(events, if n <= Below(events, cursor) then n else Below(events, cursor), f)
  {
    if n > 0 {
      FilteredBelow(events, n - 1, cursor, f);
      var before := Filtered(events, n - 1, cursor, f);
      if Wanted(events[n - 1], cursor, f) {
        assert (before + [events[n - 1]])[..|before|] == before;
      } else {
        assert Filtered(events, n, cursor, f) == before;
        assert n <= Below(events, cursor) ==> Newest(events, n, f) == Newest(events, n - 1, f);
      }
    }
  }

  lemma SortedNewest(events: seq<AuditEvent>, cursor: Option<int>, f: Filter)
    requires Numbered(events) && (cursor.Some? ==> cursor.value >= 1)
    ensures Sort(Filtered(events, |events|, cursor, f), NewestFirst) == Newest(events, Below(events, cursor), f)
  {
    var filtered := Filtered(events, |events|, cursor, f);
    var expected := Newest(events, Below(events, cursor), f);
    NewestExact(events, Below(events, cursor), f);
    FilteredBelow(events, |events|, cursor, f);
    ReversedPermutes(filtered);
    SortSorts(filtered, NewestFirst);
    assert Decided(expected, NewestFirst);
    SortedUnique(expected, Sort(filtered, NewestFirst), NewestFirst);
  }

  /**
   * The page is a beginning of what it was to list; it names a next cursor exactly when something
   * remains, and then it is full and the cursor stands for exactly what remains.
   */
  ghost predicate Begins(page: Page, events: seq<AuditEvent>, n: nat, f: Filter, size: nat)
    requires n <= |events|
  {
    var all := Newest(events, n, f);
    && page.events <= all
    && (all != [] ==> page.events != [])
    && match page.nextCursor
       case None => page.events == all
       case Some(c) =>
         && |page.events| == size
         && 1 <= c <= n
         && all[size..] == Newest(events, c - 1, f)
         && all[size..] != []
  }

  lemma PageExact(events: seq<AuditEvent>, cursor: Option<int>, limit: int, f: Filter)
    requires Numbered(events) && (cursor.Some? ==> cursor.value >= 1)
    ensures ListPage(events, cursor, limit, f).Listed?
    ensures Begins(ListPage(events, cursor, limit, f).page, events, Below(events, cursor), f, ClampPageSize(limit))
  {
    var all := Newest(events, Below(events, cursor), f);
    SortedNewest(events, cursor, f);
    var size := ClampPageSize(limit);
    if |all| > size { NewestAfter(events, Below(events, cursor), f, size - 1); }
  }

  // ---- following the cursor ----------------------------------------------------------------

  /** The log at the first read is the beginning of every later one. */
  ghost predicate Grows(logs: seq<seq<AuditEvent>>) {
    |logs| > 0 && forall i {:trigger logs[i]} :: 0 <= i < |logs| ==> Numbered(logs[i]) && logs[0] <= logs[i]
  }

  /** Page i answers a read at log i, from the cursor the page before it gave. */
  ghost predicate Answers(logs: seq<seq<AuditEvent>>, limits: seq<int>, f: Filter, pages: seq<Page>, i: nat)
    requires i < |logs| == |limits| == |pages|
  {
    if i == 0 then ListPage(logs[0], None, limits[0], f) == Listed(pages[0])
    else
      && pages[i - 1].nextCursor.Some?
      && ListPage(logs[i], pages[i - 1].nextCursor, limits[i], f) == Listed(pages[i])
  }

  /** Pages read one after the other from a growing log, with limits chosen anew each time. */
  ghost predicate Reading(logs: seq<seq<AuditEvent>>, limits: seq<int>, f: Filter, pages: seq<Page>) {
    && Grows(logs)
    && |logs| == |limits| == |pages|
    && forall i {:trigger Answers(logs, limits, f, pages, i)} :: 0 <= i < |pages| ==> Answers(logs, limits, f, pages, i)
  }

  /** Everything the first n pages show, in order. */
  function Shown(pages: seq<Page>, n: nat): seq<AuditEvent>
    requires n <= |pages|
  {
    if n == 0 then [] else Shown(pages, n - 1) + pages[n - 1].events
  }

  /** What the cursor still promises of the log as it was when the reading began. */
  function Pending(log: seq<AuditEvent>, cursor: Option<int>, f: Filter): seq<AuditEvent>
    requires cursor.Some? ==> 1 <= cursor.value <= |log|
  {
    if cursor.None? then [] else Newest(log, cursor.value - 1, f)
  }

  ghost predicate Halfway(log: seq<AuditEvent>, f: Filter, pages: seq<Page>, i: nat)
    requires i < |pages|
  {
    var cursor := pages[i].nextCursor;
    && (cursor.Some? ==> 1 <= cursor.value <= |log|)
    && Shown(pages, i + 1) + Pending(log, cursor, f) == Newest(log, |log|, f)
    && (cursor.Some? ==> Pending(log, cursor, f) != [])
    && (cursor.Some? || i > 0 ==> |Shown(pages, i + 1)| > i)
  }

  lemma FirstPage(log: seq<AuditEvent>, limit: int, f: Filter, pages: seq<Page>)
    requires Numbered(log) && |pages| > 0 && ListPage(log, None, limit, f) == Listed(pages[0])
    ensures Halfway(log, f, pages, 0)
  {
    PageExact(log, None, limit, f);
    var all := Newest(log, |log|, f);
    assert Shown(pages, 1) == Shown(pages, 0) + pages[0].events == pages[0].events;
    assert all == all[..|pages[0].events|] + all[|pages[0].events|..];
  }

  /** A later page takes the next stretch of what the cursor promised, however the log has grown. */
  lemma PageContinues(first: seq<AuditEvent>, log: seq<AuditEvent>, cursor: int, limit: int, f: Filter, page: Page)
    requires Numbered(log) && first <= log && 1 <= cursor <= |first|
    requires ListPage(log, Some(cursor), limit, f) == Listed(page)
    ensures Begins(page, first, cursor - 1, f, ClampPageSize(limit))
  {
    hide ListPage, Newest, ClampPageSize;
    PageExact(log, Some(cursor), limit, f);
    NewestPrefix(first, log, cursor - 1, f);
    if page.nextCursor.Some? { NewestPrefix(first, log, page.nextCursor.value - 1, f); }
  }

  lemma NextPage(first: seq<AuditEvent>, log: seq<AuditEvent>, limit: int, f: Filter, pages: seq<Page>, i: nat)
    requires Numbered(log) && first <= log && 0 < i < |pages|
    requires pages[i - 1].nextCursor.Some?
    requires ListPage(log, pages[i - 1].nextCursor, limit, f) == Listed(pages[i])
    requires Halfway(first, f, pages, i - 1)
    ensures Halfway(first, f, pages, i)
  {
    var cursor := pages[i - 1].nextCursor;
    PageContinues(first, log, cursor.value, limit, f, pages[i]);
    TakenFrom(Shown(pages, i), Pending(first, cursor, f), pages[i].events, Pending(first, pages[i].nextCursor, f));
    assert Shown(pages, i + 1) == Shown(pages, i) + pages[i].events;
  }

  lemma TakenFrom(shown: seq<AuditEvent>, all: seq<AuditEvent>, page: seq<AuditEvent>, rest: seq<AuditEvent>)
    requires page <= all && rest == all[|page|..]
    ensures (shown + page) + rest == shown + all
  {
    assert all == page + rest;
  }

  /**
   * Whatever is appended between the pages and whatever the limits, the pages so far and what the
   * cursor still promises are exactly the events the filter admitted at the first read.
   */
  lemma {:induction false} ReadingSplits(logs: seq<seq<AuditEvent>>, limits: seq<int>, f: Filter, pages: seq<Page>,
                                         i: nat)
    requires Reading(logs, limits, f, pages) && i < |pages|
    ensures Halfway(logs[0], f, pages, i)
  {
    assert Answers(logs, limits, f, pages, i);
    if i == 0 {
      FirstPage(logs[0], limits[0], f, pages);
    } else {
      ReadingSplits(logs, limits, f, pages, i - 1);
      NextPage(logs[0], logs[i], limits[i], f, pages, i);
    }
  }

  /**
   * A reading followed until there is no next cursor shows exactly the events the filter admitted
   * when it began, newest first, in at most as many pages as there are such events (or one).
   */
  lemma ReadingComplete(logs: seq<seq<AuditEvent>>, limits: seq<int>, f: Filter, pages: seq<Page>)
    requires Reading(logs, limits, f, pages) && pages[|pages| - 1].nextCursor.None?
    ensures Shown(pages, |pages|) == Newest(logs[0], |logs[0]|, f)
    ensures |pages| <= 1 || |pages| <= |Newest(logs[0], |logs[0]|, f)|
  {
    ReadingSplits(logs, limits, f, pages, |pages| - 1);
  }
}
