/**
 * The live preview: every line of the generated message becomes one tagged
 * segment, classified by the first rule that matches — a fence line, an
 * inline-code line, a bold line, the separator, or plain text. Inline-code and
 * bold lines are cut on their delimiter into runs, and every odd-numbered run
 * is styled.
 */
module Preview {
  import opened Text

  const FENCE: string := "```"
  const BACKTICK: string := "`"
  const BOLD: string := "**"
  /** The dash run the separator rule looks for (29 dashes). */
  const SEPARATOR_RUN: string := "-----------------------------"

  /** A piece of a line, and whether it is rendered in the line's style. */
  datatype Run = Run(text: string, styled: bool)

  datatype Segment =
    | Fenced(content: string)
    | InlineCode(runs: seq<Run>)
    | Bold(runs: seq<Run>)
    | Separator
    | Plain(text: string)

  /** Tags the pieces of a split line: piece `i` is styled when `i` is odd. */
  function Alternate(parts: seq<string>): seq<Run> {
    seq(|parts|, i requires 0 <= i < |parts| => Run(parts[i], i % 2 == 1))
  }

  function Texts(runs: seq<Run>): seq<string> {
    seq(|runs|, i requires 0 <= i < |runs| => runs[i].text)
  }

  /** Rule 1: the trimmed line opens with a fence token. */
  predicate IsFenceLine(line: string) {
    StartsWith(Trim(line), FENCE)
  }

  /** What a fence line shows: the line with every fence token removed, trimmed. */
  function FenceContent(line: string): string {
    Trim(ReplaceAll(line, FENCE, ""))
  }

  /** The per-line classifier of the preview, first match wins. */
  function SegmentLine(line: string): Segment {
    if IsFenceLine(line) then Fenced(FenceContent(line))
    else if Contains(line, BACKTICK) then InlineCode(Alternate(Split(line, BACKTICK)))
    else if Contains(line, BOLD) then Bold(Alternate(Split(line, BOLD)))
    else if Contains(line, SEPARATOR_RUN) then Separator
    else Plain(line)
  }

  /** The whole preview: one segment per `\n`-separated line, in order. */
  function SegmentAll(text: string): seq<Segment> {
    var lines := Split(text, "\n");
    seq(|lines|, i requires 0 <= i < |lines| => SegmentLine(lines[i]))
  }

  /**
   * The classifier's priority order: each kind of segment is produced exactly
   * when its rule matches and no earlier rule does.
   */
  lemma SegmentLineKinds(line: string)
    ensures SegmentLine(line).Fenced? <==> IsFenceLine(line)
    ensures SegmentLine(line).InlineCode? <==> !IsFenceLine(line) && '`' in line
    ensures SegmentLine(line).Bold? <==>
      !IsFenceLine(line) && '`' !in line && Contains(line, BOLD)
    ensures SegmentLine(line).Separator? <==>
      !IsFenceLine(line) && '`' !in line && !Contains(line, BOLD) && Contains(line, SEPARATOR_RUN)
    ensures SegmentLine(line).Plain? ==> SegmentLine(line) == Plain(line)
  {
    ContainsChar(line, '`');
  }

  /** The runs of a line cut on `delim`: the pieces between delimiters, odd ones styled. */
  lemma {:induction false} StyledRuns(line: string, delim: string)
    requires |delim| > 0
    ensures var runs := Alternate(Split(line, delim));
      && |runs| == Count(line, delim) + 1
      && Join(Texts(runs), delim) == line
      && (forall i :: 0 <= i < |runs| ==> (runs[i].styled <==> i % 2 == 1))
      && (forall i :: 0 <= i < |runs| ==> !Contains(runs[i].text, delim))
      && (forall i :: 0 <= i < |runs| - 1 ==> !Contains(runs[i].text + delim[..|delim| - 1], delim))
      && (Count(line, delim) % 2 == 1 ==> runs[|runs| - 1].styled)
  {
    var parts := Split(line, delim);
    SplitCount(line, delim);
    JoinSplit(line, delim);
    SplitPiecesFree(line, delim);
    SplitCutsLeftmost(line, delim);
    RunsOfPieces(parts, delim);
  }

  /** Tagging pieces keeps their texts, so facts about the pieces carry over to the runs. */
  lemma RunsOfPieces(parts: seq<string>, d: string)
    requires |d| > 0
    requires forall i :: 0 <= i < |parts| ==> !Contains(parts[i], d)
    requires forall i :: 0 <= i < |parts| - 1 ==> !Contains(parts[i] + d[..|d| - 1], d)
    ensures var runs := Alternate(parts);
      && Texts(runs) == parts
      && (forall i :: 0 <= i < |runs| ==> (runs[i].styled <==> i % 2 == 1))
      && (forall i :: 0 <= i < |runs| ==> !Contains(runs[i].text, d))
      && (forall i :: 0 <= i < |runs| - 1 ==> !Contains(runs[i].text + d[..|d| - 1], d))
  {
    var runs := Alternate(parts);
    assert Texts(runs) == parts;
  }

  /** The delimiter a styled segment was cut on. */
  function StyleDelimiter(seg: Segment): string {
    if seg.InlineCode? then BACKTICK else BOLD
  }

  /**
   * The runs of an inline-code or bold segment are the line cut on its
   * delimiter: one more run than delimiters, joined back they give the line,
   * odd runs and only they are styled, no run holds the delimiter, and every
   * cut is at the leftmost occurrence (`SplitUnique` shows these facts leave
   * only one way to cut the line).
   */
  lemma StyledSegment(line: string)
    requires SegmentLine(line).InlineCode? || SegmentLine(line).Bold?
    ensures var seg := SegmentLine(line);
      var delim := StyleDelimiter(seg);
      var runs := seg.runs;
      && Contains(line, delim)
      && |runs| == Count(line, delim) + 1
      && Join(Texts(runs), delim) == line
      && (forall i :: 0 <= i < |runs| ==> (runs[i].styled <==> i % 2 == 1))
      && (forall i :: 0 <= i < |runs| ==> !Contains(runs[i].text, delim))
      && (forall i :: 0 <= i < |runs| - 1 ==> !Contains(runs[i].text + delim[..|delim| - 1], delim))
  {
    if SegmentLine(line).InlineCode? {
      assert SegmentLine(line).runs == Alternate(Split(line, BACKTICK));
      StyledRuns(line, BACKTICK);
    } else {
      assert SegmentLine(line).runs == Alternate(Split(line, BOLD));
      StyledRuns(line, BOLD);
    }
  }

  /**
   * A line opening with the bold marker and holding no other: the marker is
   * cut off the front, so everything after it is bold.
   */
  lemma BoldOpening(line: string, x: string)
    requires line == BOLD + x && '`' !in x && !Contains(x, BOLD)
    ensures SegmentLine(line) == Bold([Run("", false), Run(x, true)])
  {
    BoldOpeningMarks(line, x);
    BoldLine(line);
    BoldOpeningSplit(line, x);
    assert Alternate(["", x]) == [Run("", false), Run(x, true)];
  }

  lemma BoldOpeningMarks(line: string, x: string)
    requires line == BOLD + x && '`' !in x
    ensures '`' !in line && Contains(line, BOLD)
  {
    assert forall k :: 2 <= k < |line| ==> line[k] == x[k - 2];
    assert line[..2] == BOLD;
  }

  lemma BoldOpeningSplit(line: string, x: string)
    requires line == BOLD + x && !Contains(x, BOLD)
    ensures Split(line, BOLD) == ["", x]
  {
    SplitLeftmost("", BOLD, x);
    SplitNoSeparator(x, BOLD);
    assert line == "" + BOLD + x;
  }

  /** Three asterisks in a row: the leftmost pair is the delimiter, so the last asterisk is bold. */
  lemma TripleAsterisk()
    ensures SegmentLine("***") == Bold([Run("", false), Run("*", true)])
  {
    assert BOLD + "*" == "***";
    BoldOpening("***", "*");
  }

  lemma {:induction false} RemoveFenceKeepsHead(s: string)
    requires s != [] && s[0] != '`'
    ensures ReplaceAll(s, FENCE, "") != [] && ReplaceAll(s, FENCE, "")[0] == s[0]
  {
    if |s| >= |FENCE| {
      assert s[..|FENCE|][0] == s[0];
    }
  }

  /** Removing every fence token leaves no fence token behind. */
  lemma {:induction false} RemoveFenceComplete(s: string)
    ensures !Contains(ReplaceAll(s, FENCE, ""), FENCE)
    decreases |s|
  {
    var r := ReplaceAll(s, FENCE, "");
    if |s| < 3 {
    } else if s[..3] == FENCE {
      RemoveFenceComplete(s[3..]);
      assert r == ReplaceAll(s[3..], FENCE, "");
    } else {
      var x := ReplaceAll(s[1..], FENCE, "");
      RemoveFenceComplete(s[1..]);
      assert r == [s[0]] + x;
      assert r[1..] == x;
      if 3 <= |r| {
        if s[0] == '`' {
          if s[1] != '`' {
            RemoveFenceKeepsHead(s[1..]);
            assert r[..3][1] == x[0] == s[1];
          } else {
            assert s[2] != '`' by { assert s[..3] == [s[0], s[1], s[2]]; }
            var t := s[1..];
            RemoveFenceKeepsHead(s[2..]);
            if |t| >= 3 {
              assert t[..3][1] == s[2];
              assert x == [t[0]] + ReplaceAll(t[1..], FENCE, "");
              assert t[1..] == s[2..];
            }
            assert r[..3][2] == x[1] == s[2];
          }
        } else {
          assert r[..3][0] == s[0];
        }
      }
    }
  }

  /** Trimmed fence-free text: what the fence rule keeps of a line. */
  lemma FenceContentClean(line: string)
    ensures Trim(FenceContent(line)) == FenceContent(line)
    ensures !Contains(FenceContent(line), FENCE)
  {
    var removed := ReplaceAll(line, FENCE, "");
    RemoveFenceComplete(line);
    TrimIdempotent(removed);
    NotContainsTrim(removed, FENCE);
  }

  /**
   * The content of a fenced segment is trimmed and holds no fence token,
   * wherever on the line the fence tokens stood.
   */
  lemma FencedContent(line: string)
    requires SegmentLine(line).Fenced?
    ensures Trim(SegmentLine(line).content) == SegmentLine(line).content
    ensures !Contains(SegmentLine(line).content, FENCE)
  {
    assert IsFenceLine(line);
    FenceContentClean(line);
  }

  /** A bare fence line, the shape the template frames the main key with, has empty content. */
  lemma BareFence()
    ensures SegmentLine(FENCE) == Fenced("")
  {
    assert FENCE[..3] == FENCE;
    assert ReplaceAll(FENCE[3..], FENCE, "") == "";
  }

  /**
   * A key written between fence tokens on one line segments to a single fenced
   * block whose content is the trimmed key.
   */
  lemma FenceWrapped(k: string)
    requires '`' !in k
    ensures SegmentLine(FENCE + k + FENCE) == Fenced(Trim(k))
  {
    FenceWrappedOpens(k);
    FenceWrappedContent(k);
  }

  lemma FenceWrappedOpens(k: string)
    ensures IsFenceLine(FENCE + k + FENCE)
  {
    var line := FENCE + k + FENCE;
    assert line[..3] == FENCE;
    assert line[|line| - 1] == '`';
    FenceOpensLine(line);
  }

  /** A line that opens with a fence token and ends in a non-space is a fence line. */
  lemma FenceOpensLine(line: string)
    requires |line| >= 3 && line[..3] == FENCE && !IsJsWhitespace(line[|line| - 1])
    ensures IsFenceLine(line)
  {
    assert line[0] == FENCE[0] == '`';
    TrimNoop(line);
  }

  lemma FenceWrappedContent(k: string)
    requires '`' !in k
    ensures FenceContent(FENCE + k + FENCE) == Trim(k)
  {
    var line := FENCE + k + FENCE;
    RemoveFenceAfter(k);
    assert line[..3] == FENCE && line[3..] == k + FENCE;
    assert ReplaceAll(line, FENCE, "") == ReplaceAll(k + FENCE, FENCE, "");
  }

  lemma {:induction false} RemoveFenceAfter(k: string)
    requires '`' !in k
    ensures ReplaceAll(k + FENCE, FENCE, "") == k
    decreases |k|
  {
    var s := k + FENCE;
    if k == [] {
      assert s[..3] == FENCE && s[3..] == [];
    } else {
      assert s[..3][0] == k[0];
      RemoveFenceAfter(k[1..]);
      assert s[1..] == k[1..] + FENCE;
      assert k == [k[0]] + k[1..];
    }
  }

  /** A fence line holds a backtick: a line without one is never fenced. */
  lemma FenceNeedsBacktick(line: string)
    requires IsFenceLine(line)
    ensures '`' in line
  {
    TrimKeepsSlice(line);
    FenceInSlice(line, Trim(line), |line| - |TrimStart(line)|);
  }

  /** A slice of `line` that opens with a fence token puts a backtick in `line`. */
  lemma FenceInSlice(line: string, t: string, i: nat)
    requires i + |t| <= |line| && (forall k :: 0 <= k < |t| ==> t[k] == line[i + k])
    requires StartsWith(t, FENCE)
    ensures '`' in line
  {
    assert t[..3][0] == t[0] == '`';
    assert line[i] == t[0];
  }

  /** A line with no backtick, no bold marker and no dash run is shown as it is. */
  lemma PlainLine(line: string)
    requires '`' !in line && !Contains(line, BOLD) && !Contains(line, SEPARATOR_RUN)
    ensures SegmentLine(line) == Plain(line)
  {
    if IsFenceLine(line) {
      FenceNeedsBacktick(line);
    }
    ContainsChar(line, '`');
  }

  /** When a line starts with a non-space, a fence line starts with the fence token itself. */
  lemma FenceAtStart(line: string)
    requires line != [] && !IsJsWhitespace(line[0]) && IsFenceLine(line)
    ensures StartsWith(line, FENCE)
  {
    assert TrimStart(line) == line;
    var t := Trim(line);
    assert t == line[..|t|];
    assert line[..3] == t[..3];
  }

  /** A line opening with a single backtick is not a fence line. */
  lemma SingleBacktickStart(line: string)
    requires |line| >= 2 && line[0] == '`' && line[1] != '`'
    ensures !IsFenceLine(line)
  {
    assert !IsJsWhitespace(line[0]);
    if IsFenceLine(line) {
      FenceAtStart(line);
    }
  }

  /** A line holding the dash run and neither a backtick nor an asterisk is a separator. */
  lemma SeparatorRunLine(line: string)
    requires '`' !in line && '*' !in line && Contains(line, SEPARATOR_RUN)
    ensures SegmentLine(line) == Separator
  {
    if IsFenceLine(line) {
      FenceNeedsBacktick(line);
    }
    ContainsChar(line, '`');
    NotContainsFirst(line, BOLD);
  }

  lemma SeparatorRunItself(line: string)
    requires line == SEPARATOR_RUN
    ensures '`' !in line && '*' !in line && Contains(line, SEPARATOR_RUN)
  {
    assert line[..|SEPARATOR_RUN|] == SEPARATOR_RUN;
  }

  /** A line with a backtick that is not a fence line is cut into inline-code runs. */
  lemma InlineCodeLine(line: string)
    requires '`' in line && !IsFenceLine(line)
    ensures SegmentLine(line) == InlineCode(Alternate(Split(line, BACKTICK)))
  {
    ContainsChar(line, '`');
  }

  /** A line with a bold marker and no backtick is cut into bold runs. */
  lemma BoldLine(line: string)
    requires '`' !in line && Contains(line, BOLD)
    ensures SegmentLine(line) == Bold(Alternate(Split(line, BOLD)))
  {
    if IsFenceLine(line) {
      FenceNeedsBacktick(line);
    }
    ContainsChar(line, '`');
  }

  /** One segment per line, in order: the preview preserves the line count. */
  lemma SegmentAllLines(text: string)
    ensures |SegmentAll(text)| == Count(text, "\n") + 1
    ensures forall i :: 0 <= i < |SegmentAll(text)| ==>
      SegmentAll(text)[i] == SegmentLine(Split(text, "\n")[i])
  {
    var lines := Split(text, "\n");
    SplitCount(text, "\n");
    assert |SegmentAll(text)| == |lines|;
  }

  /** Previewing text assembled from newline-free lines classifies exactly those lines. */
  lemma SegmentAllJoin(lines: seq<string>)
    requires |lines| >= 1
    requires forall i :: 0 <= i < |lines| ==> '\n' !in lines[i]
    ensures |SegmentAll(Join(lines, "\n"))| == |lines|
    ensures forall i :: 0 <= i < |lines| ==> SegmentAll(Join(lines, "\n"))[i] == SegmentLine(lines[i])
  {
    SplitJoin(lines, '\n');
  }
}
