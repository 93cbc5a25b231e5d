/** Line ranges of a source text, and quotes found in them. */
module EvidenceText {
  import opened Prelude

  /** "\r\n" and then every remaining "\r" become "\n". */
  function NormalizeLineEndings(text: string): (r: string)
    ensures '\r' !in r
    ensures '\r' !in text ==> r == text
  {
    if |text| == 0 then ""
    else if text[0] == '\r' then
      ['\n'] + NormalizeLineEndings(if |text| > 1 && text[1] == '\n' then text[2..] else text[1..])
    else [text[0]] + NormalizeLineEndings(text[1..])
  }

  /** The characters Python's splitlines breaks at. */
  predicate LineBreak(c: char) {
    c in ['\n', '\r', '\U{0B}', '\U{0C}', '\U{1C}', '\U{1D}', '\U{1E}', '\U{85}', '\U{2028}', '\U{2029}']
  }

  /** The length of the text before its first line break. */
  function FirstBreak(text: string): (n: nat)
    ensures n <= |text|
    ensures forall i :: 0 <= i < n ==> !LineBreak(text[i])
    ensures n < |text| ==> LineBreak(text[n])
  {
    if |text| == 0 || LineBreak(text[0]) then 0 else 1 + FirstBreak(text[1..])
  }

  /** Splits at each line break; a final break does not open another line. */
  function SplitLines(text: string): seq<string> {
    if |text| == 0 then []
    else
      var n := FirstBreak(text);
      [text[..n]] + if n == |text| then [] else SplitLines(text[n + 1..])
  }

  function JoinLines(lines: seq<string>): string {
    if |lines| == 0 then ""
    else if |lines| == 1 then lines[0]
    else lines[0] + "\n" + JoinLines(lines[1..])
  }

  /** The lines from startLine to endLine, counted from 1, both included. */
  function LineRangeText(text: string, startLine: int, endLine: int): Option<string> {
    if startLine < 1 || endLine < startLine then None
    else
      var lines := SplitLines(NormalizeLineEndings(text));
      if endLine > |lines| then None else Some(JoinLines(lines[startLine - 1..endLine]))
  }

  predicate OccursAt(text: string, part: string, i: int) {
    0 <= i <= |text| - |part| && text[i..i + |part|] == part
  }

  predicate Contains(text: string, part: string) {
    exists i :: 0 <= i <= |text| && OccursAt(text, part, i)
  }

  /** The quote occurs in the lines of the range, give or take one final newline. */
  predicate QuoteMatches(text: string, startLine: int, endLine: int, quotedText: string) {
    var selected := LineRangeText(text, startLine, endLine);
    var quote := NormalizeLineEndings(quotedText);
    && selected.Some?
    && quote != ""
    && (Contains(selected.value, quote) ||
        (quote[|quote| - 1] == '\n' && Contains(selected.value, quote[..|quote| - 1])))
  }

  predicate Breakless(line: string) {
    forall c :: c in line ==> !LineBreak(c)
  }

  lemma {:induction false} FirstBreakIs(text: string, n: nat)
    requires n <= |text|
    requires forall i :: 0 <= i < n ==> !LineBreak(text[i])
    requires n < |text| ==> LineBreak(text[n])
    ensures FirstBreak(text) == n
  {
    if n > 0 { FirstBreakIs(text[1..], n - 1); }
  }

  lemma SplitFirstLine(line: string, rest: string)
    requires Breakless(line)
    ensures SplitLines(line + "\n" + rest) == [line] + SplitLines(rest)
  {
    var text := line + "\n" + rest;
    assert text[|line|] == '\n' && LineBreak(text[|line|]);
    FirstBreakIs(text, |line|);
    assert text[..|line|] == line && text[|line| + 1..] == rest;
  }

  lemma SplitLastLine(line: string)
    requires Breakless(line) && line != ""
    ensures SplitLines(line) == [line]
  {
    FirstBreakIs(line, |line|);
    assert line[..|line|] == line;
  }

  /** Splitting takes apart what joining put together, unless the last line is empty. */
  lemma {:induction false} SplitJoinedLines(lines: seq<string>)
    requires forall i :: 0 <= i < |lines| ==> Breakless(lines[i])
    requires |lines| > 0 ==> lines[|lines| - 1] != ""
    ensures SplitLines(JoinLines(lines)) == lines
  {
    if |lines| == 1 {
      SplitLastLine(lines[0]);
    } else if |lines| > 1 {
      SplitJoinedLines(lines[1..]);
      SplitFirstLine(lines[0], JoinLines(lines[1..]));
    }
  }

  lemma {:induction false} JoinedHasNoReturn(lines: seq<string>)
    requires forall i :: 0 <= i < |lines| ==> Breakless(lines[i])
    ensures '\r' !in JoinLines(lines)
  {
    if |lines| > 0 {
      assert '\r' !in lines[0] by { assert LineBreak('\r'); }
      JoinedHasNoReturn(lines[1..]);
    }
  }

  /** What follows the first line when the last one is ended too. */
  function EndedRest(lines: seq<string>): string
    requires |lines| > 0
  {
    if |lines| == 1 then "" else JoinLines(lines[1..]) + "\n"
  }

  lemma JoinEndedLines(lines: seq<string>)
    requires |lines| > 0
    ensures JoinLines(lines) + "\n" == lines[0] + "\n" + EndedRest(lines)
  {
    if |lines| == 1 {
      assert lines[0] + "\n" == lines[0] + "\n" + "";
    } else {
      var rest := JoinLines(lines[1..]);
      assert (lines[0] + "\n" + rest) + "\n" == lines[0] + "\n" + (rest + "\n");
    }
  }

  lemma {:induction false} SplitEndedLines(lines: seq<string>)
    requires |lines| > 0 && forall i :: 0 <= i < |lines| ==> Breakless(lines[i])
    ensures SplitLines(JoinLines(lines) + "\n") == lines
  {
    hide Breakless, SplitLines;
    JoinEndedLines(lines);
    SplitFirstLine(lines[0], EndedRest(lines));
    if |lines| == 1 {
      SplitNothing();
      assert lines == [lines[0]] + [];
    } else {
      SplitEndedLines(lines[1..]);
      assert lines == [lines[0]] + lines[1..];
    }
  }

  lemma SplitNothing()
    ensures SplitLines("") == []
  {
  }

  lemma LineRangeOfSplit(text: string, lines: seq<string>, startLine: int, endLine: int)
    requires '\r' !in text && SplitLines(text) == lines
    ensures LineRangeText(text, startLine, endLine) ==
            if 1 <= startLine <= endLine <= |lines| then Some(JoinLines(lines[startLine - 1..endLine])) else None
  {
  }

  /** The range of a text made of lines is those lines, whether or not a newline ends the last one. */
  lemma LineRangeOfLines(lines: seq<string>, ended: bool, startLine: int, endLine: int)
    requires forall i :: 0 <= i < |lines| ==> Breakless(lines[i])
    requires ended ==> |lines| > 0
    requires !ended && |lines| > 0 ==> lines[|lines| - 1] != ""
    ensures LineRangeText(JoinLines(lines) + if ended then "\n" else "", startLine, endLine) ==
            if 1 <= startLine <= endLine <= |lines| then Some(JoinLines(lines[startLine - 1..endLine])) else None
  {
    hide LineRangeText, SplitLines, JoinLines;
    JoinedHasNoReturn(lines);
    if ended {
      SplitEndedLines(lines);
      LineRangeOfSplit(JoinLines(lines) + "\n", lines, startLine, endLine);
    } else {
      SplitJoinedLines(lines);
      assert JoinLines(lines) + "" == JoinLines(lines);
      LineRangeOfSplit(JoinLines(lines), lines, startLine, endLine);
    }
  }

  /** The quote occurs in every line range of every text. */
  ghost predicate MatchesEverywhere(quotedText: string) {
    forall text, startLine, endLine :: LineRangeText(text, startLine, endLine).Some? ==>
      QuoteMatches(text, startLine, endLine, quotedText)
  }

  /** Exactly the quotes of one newline and nothing else occur everywhere. */
  lemma BareNewlineMatches(quotedText: string)
    ensures MatchesEverywhere(quotedText) <==> NormalizeLineEndings(quotedText) == "\n"
  {
    if NormalizeLineEndings(quotedText) == "\n" {
      forall text, startLine, endLine | LineRangeText(text, startLine, endLine).Some?
        ensures QuoteMatches(text, startLine, endLine, quotedText)
      {
        var selected := LineRangeText(text, startLine, endLine).value;
        assert OccursAt(selected, "", 0);
        assert Contains(selected, "");
      }
    } else {
      LineRangeOfLines([""], true, 1, 1);
      assert JoinLines([""]) + "\n" == "\n" && [""][0..1] == [""];
      assert LineRangeText("\n", 1, 1) == Some("");
      assert !QuoteMatches("\n", 1, 1, quotedText);
    }
  }

  lemma OneLetterAfter(c: char, rest: string)
    requires c != '\r'
    ensures NormalizeLineEndings([c] + rest) == [c] + NormalizeLineEndings(rest)
  {
    assert ([c] + rest)[1..] == rest;
  }

  lemma {:induction false} EndingAfter(head: string, rest: string)
    requires '\r' !in head
    ensures NormalizeLineEndings(head + rest) == head + NormalizeLineEndings(rest)
  {
    hide NormalizeLineEndings;
    if |head| == 0 {
      assert head + rest == rest;
    } else {
      EndingAfter(head[1..], rest);
      assert head + rest == [head[0]] + (head[1..] + rest);
      assert (head + rest)[1..] == head[1..] + rest;
      OneLetterAfter(head[0], head[1..] + rest);
      assert head + NormalizeLineEndings(rest) == [head[0]] + (head[1..] + NormalizeLineEndings(rest));
    }
  }

  /** "\r\n" and a "\r" alone are read as "\n", from left to right; nothing else changes. */
  lemma LineEndingsExactly(head: string, tail: string)
    requires '\r' !in head
    ensures NormalizeLineEndings(head) == head
    ensures NormalizeLineEndings(head + ("\r\n" + tail)) == head + ("\n" + NormalizeLineEndings(tail))
    ensures tail == "" || tail[0] != '\n' ==>
              NormalizeLineEndings(head + ("\r" + tail)) == head + ("\n" + NormalizeLineEndings(tail))
  {
    EndingAfter(head, "\r\n" + tail);
    EndingAfter(head, "\r" + tail);
    assert ("\r\n" + tail)[2..] == tail && ("\r" + tail)[1..] == tail;
  }

  /** Line feed, carriage return, vertical tab, form feed, the separators 1C to 1E, 85, 2028 and 2029 end a line. */
  lemma LinesEndExactly(line: string, c: char, rest: string)
    requires forall x :: x in line ==> !LineBreak(x)
    ensures SplitLines(line + [c] + rest) == [line] + SplitLines(rest) <==>
            c in "\n\r\U{0B}\U{0C}\U{1C}\U{1D}\U{1E}\U{85}\U{2028}\U{2029}"
  {
    var text := line + [c] + rest;
    if LineBreak(c) {
      FirstBreakIs(text, |line|);
      assert text[..|line|] == line && text[|line| + 1..] == rest;
    } else {
      assert forall i :: 0 <= i <= |line| ==> text[i] == (line + [c])[i];
      assert FirstBreak(text) > |line|;
      assert |SplitLines(text)[0]| > |line|;
    }
  }

  /** The text is somewhere in the other. */
  ghost predicate Within(part: string, whole: string) {
    exists before, after :: whole == before + part + after
  }

  lemma WithinExactly(part: string, whole: string)
    ensures Contains(whole, part) <==> Within(part, whole)
  {
    if Contains(whole, part) {
      var i :| 0 <= i <= |whole| && OccursAt(whole, part, i);
      assert whole == whole[..i] + part + whole[i + |part|..];
    }
    if before, after :| whole == before + part + after {
      assert OccursAt(whole, part, |before|);
    }
  }

  /**
   * A quote matches exactly when, its line endings read as "\n", it is not empty and it, or it without
   * one final newline, stands in the lines of the range.
   */
  lemma QuoteExactly(text: string, startLine: int, endLine: int, quotedText: string)
    ensures var selected := LineRangeText(text, startLine, endLine);
      var quote := NormalizeLineEndings(quotedText);
      QuoteMatches(text, startLine, endLine, quotedText) <==>
        && selected.Some? && quote != ""
        && (Within(quote, selected.value) || exists core :: quote == core + "\n" && Within(core, selected.value))
  {
    var selected := LineRangeText(text, startLine, endLine);
    var quote := NormalizeLineEndings(quotedText);
    if selected.Some? && quote != "" {
      WithinExactly(quote, selected.value);
      var core := quote[..|quote| - 1];
      WithinExactly(core, selected.value);
      assert quote == core + [quote[|quote| - 1]];
      forall other | quote == other + "\n" ensures other == core && quote[|quote| - 1] == '\n' {}
    }
  }
}
