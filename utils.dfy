/** The string helpers of lib/utils.ts: title extraction, truncation and reading time. */
module Utils {
  import opened Text
  import Js

  const UNTITLED: string := "Untitled Blog Post"

  /** Words read per minute by `calculateReadingTime`. */
  const WORDS_PER_MINUTE: nat := 200

  /** A markdown level-one heading line: it starts with `#` followed by a space. */
  predicate IsTitleLine(line: string) {
    StartsWith(line, "# ")
  }

  /** The title the first heading line gives: the rest of the line after `# `, trimmed. */
  function HeadingText(line: string): string
    requires IsTitleLine(line)
  {
    Trim(line[2..])
  }

  /** Reference definition: the heading text of the first title line, else the placeholder. */
  function TitleFromLines(lines: seq<string>): string
    decreases |lines|
  {
    if lines == [] then UNTITLED
    else if IsTitleLine(lines[0]) then HeadingText(lines[0])
    else TitleFromLines(lines[1..])
  }

  /** Line `i` is a title line and no earlier line is one. */
  predicate FirstTitleLine(lines: seq<string>, i: int) {
    0 <= i < |lines| && IsTitleLine(lines[i])
    && forall j :: 0 <= j < i ==> !IsTitleLine(lines[j])
  }

  /**
   * `extractTitleFromContent`: scans the lines of `content` and returns at
   * the first one that begins with `# `.
   */
  method ExtractTitleFromContent(content: string) returns (title: string)
    ensures title == TitleFromLines(Split(content, '\n'))
  {
    var lines := Split(content, '\n');
    var i := 0;
    while i < |lines|
      invariant 0 <= i <= |lines|
      invariant TitleFromLines(lines[i..]) == TitleFromLines(lines)
    {
      if StartsWith(lines[i], "# ") {
        assert lines[i..][0] == lines[i];
        return Trim(lines[i][2..]);
      }
      assert lines[i..][1..] == lines[i + 1..];
      i := i + 1;
    }
    return UNTITLED;
  }

  /**
   * The title is the trimmed text after `# ` on the first line that starts
   * with `# `; with no such line it is the placeholder.
   */
  lemma {:induction false} TitleFromLinesSpec(lines: seq<string>)
    ensures forall i :: FirstTitleLine(lines, i) ==> TitleFromLines(lines) == HeadingText(lines[i])
    ensures (forall i :: 0 <= i < |lines| ==> !IsTitleLine(lines[i])) ==> TitleFromLines(lines) == UNTITLED
    decreases |lines|
  {
    if lines != [] {
      var tail := lines[1..];
      TitleFromLinesSpec(tail);
      if IsTitleLine(lines[0]) {
        forall i | FirstTitleLine(lines, i)
          ensures TitleFromLines(lines) == HeadingText(lines[i])
        {
          assert i == 0;
        }
      } else {
        assert TitleFromLines(lines) == TitleFromLines(tail);
        forall i | FirstTitleLine(lines, i)
          ensures TitleFromLines(lines) == HeadingText(lines[i])
        {
          ShiftFirstTitleLine(lines, i);
        }
        if forall i :: 0 <= i < |lines| ==> !IsTitleLine(lines[i]) {
          forall i | 0 <= i < |tail|
            ensures !IsTitleLine(tail[i])
          {
            assert tail[i] == lines[i + 1];
          }
        }
      }
    }
  }

  /** Past a first line that is no title, the first title line is one position further in. */
  lemma ShiftFirstTitleLine(lines: seq<string>, i: int)
    requires lines != [] && !IsTitleLine(lines[0]) && FirstTitleLine(lines, i)
    ensures i >= 1 && FirstTitleLine(lines[1..], i - 1) && lines[1..][i - 1] == lines[i]
  {
    var tail := lines[1..];
    forall j | 0 <= j < i - 1
      ensures !IsTitleLine(tail[j])
    {
      assert tail[j] == lines[j + 1];
    }
  }

  /** A `##` heading (or `#` not followed by a space) never supplies the title. */
  lemma SubheadingIsNotTitle(line: string, rest: seq<string>)
    requires |line| >= 2 && line[0] == '#' && line[1] != ' '
    ensures TitleFromLines([line] + rest) == TitleFromLines(rest)
  {
    assert line[..2][1] == line[1];
    assert !IsTitleLine(line);
    var lines := [line] + rest;
    assert lines[0] == line;
    assert lines[1..] == rest;
  }

  /** `truncateContent`: short text is returned as is, long text is cut to `maxLength` and gets `...`. */
  function TruncateContent(content: string, maxLength: nat): (r: string)
    ensures |content| <= maxLength ==> r == content
    ensures |content| > maxLength ==>
      |r| == maxLength + 3 && r[..maxLength] == content[..maxLength] && r[maxLength..] == "..."
    ensures |r| <= maxLength + 3
  {
    if |content| <= maxLength then content else content[..maxLength] + "..."
  }

  /** `Math.ceil(words / 200)`. */
  function ReadingMinutes(words: nat): (r: int)
    ensures r * WORDS_PER_MINUTE >= words
    ensures (r - 1) * WORDS_PER_MINUTE < words
  {
    Js.CeilDiv(words, WORDS_PER_MINUTE)
  }

  /** `calculateReadingTime`: minutes for the whitespace-separated token count. */
  function CalculateReadingTime(content: string): (r: int)
    ensures r >= 1
    ensures r * WORDS_PER_MINUTE >= TokenCount(content) > (r - 1) * WORDS_PER_MINUTE
  {
    ReadingMinutes(TokenCount(content))
  }

  /** More words never take less time. */
  lemma ReadingMinutesMonotone(w1: nat, w2: nat)
    requires w1 <= w2
    ensures ReadingMinutes(w1) <= ReadingMinutes(w2)
  {
  }

  /** Blank text still reads in one minute, because it splits into one empty token. */
  lemma BlankTextReadsInOneMinute(content: string)
    requires AllSpace(content)
    ensures CalculateReadingTime(content) == 1
  {
    TrimEmptyIffBlank(content);
  }
}
