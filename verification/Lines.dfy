/** Lines of text: newline normalisation, splitlines and joining. */
module Lines {
  import opened Text

  /** replace("\r\n", "\n") and then replace("\r", "\n"). */
  function NormalizeNewlines(s: string): string {
    if s == [] then []
    else if s[0] != '\r' then [s[0]] + NormalizeNewlines(s[1..])
    else ['\n'] + NormalizeNewlines(if |s| >= 2 && s[1] == '\n' then s[2..] else s[1..])
  }

  /** Where splitlines breaks. */
  predicate IsBreak(c: char) {
    var n := c as int;
    10 <= n <= 13 || 28 <= n <= 30 || n == 0x85 || n == 0x2028 || n == 0x2029
  }

  predicate OneLine(s: string) { forall i :: 0 <= i < |s| ==> !IsBreak(s[i]) }

  function LineLength(s: string): (n: nat)
    ensures n <= |s| && OneLine(s[..n]) && (n < |s| ==> IsBreak(s[n]))
  {
    if s == [] || IsBreak(s[0]) then 0
    else
      var n := LineLength(s[1..]);
      assert s[..n + 1] == [s[0]] + s[1..][..n];
      n + 1
  }

  /** str.splitlines, on text without carriage returns. */
  function SplitLines(s: string): (lines: seq<string>)
    ensures forall i :: 0 <= i < |lines| ==> OneLine(lines[i])
    decreases |s|
  {
    if s == [] then []
    else
      var n := LineLength(s);
      if n == |s| then
        assert s[..n] == s;
        [s]
      else [s[..n]] + SplitLines(s[n + 1..])
  }

  function JoinLines(lines: seq<string>): string {
    if lines == [] then [] else if |lines| == 1 then lines[0] else lines[0] + "\n" + JoinLines(lines[1..])
  }

  lemma {:induction false} LineLengthOf(line: string, rest: string)
    requires OneLine(line) && (rest == [] || IsBreak(rest[0]))
    ensures LineLength(line + rest) == |line|
    decreases |line|
  {
    if line == [] {
      assert line + rest == rest;
    } else {
      assert (line + rest)[1..] == line[1..] + rest;
      LineLengthOf(line[1..], rest);
    }
  }

  /** The characters that end a line, and that each of them does. */
  lemma BreakTerms(line: string, c: char, rest: string)
    requires OneLine(line)
    ensures IsBreak(c) <==> c as int in {10, 11, 12, 13, 28, 29, 30, 0x85, 0x2028, 0x2029}
    ensures IsBreak(c) ==> SplitLines(line + [c] + rest) == [line] + SplitLines(rest)
  {
    if IsBreak(c) {
      var text := line + [c] + rest;
      assert text == line + ([c] + rest);
      LineLengthOf(line, [c] + rest);
      assert text[..|line|] == line && text[|line| + 1..] == rest;
    }
  }

  /** splitlines undoes join, for lines without breaks of which the last is not empty. */
  lemma {:induction false} SplitUndoesJoin(lines: seq<string>)
    requires forall i :: 0 <= i < |lines| ==> OneLine(lines[i])
    requires lines != [] ==> lines[|lines| - 1] != []
    ensures SplitLines(JoinLines(lines)) == lines
    decreases |lines|
  {
    if |lines| == 1 {
      LineLengthOf(lines[0], []);
      assert lines[0] + [] == lines[0];
    } else if |lines| > 1 {
      var rest := "\n" + JoinLines(lines[1..]);
      var text := JoinLines(lines);
      assert text == lines[0] + rest;
      LineLengthOf(lines[0], rest);
      assert text[..|lines[0]|] == lines[0];
      assert text[|lines[0]| + 1..] == JoinLines(lines[1..]);
      SplitUndoesJoin(lines[1..]);
    }
  }

  lemma {:induction false} NormalizeLeaves(s: string)
    requires '\r' !in s
    ensures NormalizeNewlines(s) == s
  {
    if s != [] {
      assert s[0] in s;
      NormalizeLeaves(s[1..]);
    }
  }

  lemma {:induction false} JoinHasNoReturn(lines: seq<string>)
    requires forall i :: 0 <= i < |lines| ==> OneLine(lines[i])
    ensures '\r' !in JoinLines(lines)
  {
    if |lines| > 1 { JoinHasNoReturn(lines[1..]); }
  }

  lemma {:induction false} LineIsInJoin(lines: seq<string>, i: nat)
    requires i < |lines|
    ensures forall c :: c in lines[i] ==> c in JoinLines(lines)
  {
    if |lines| > 1 && i > 0 { LineIsInJoin(lines[1..], i - 1); }
  }
}
