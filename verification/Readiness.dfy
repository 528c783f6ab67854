/** The command envelope of a CLI response: the echo before the output and the prompt after it. */
module Readiness {
  import opened Basics
  import opened Text
  import opened Lines

  const ESC: char := 27 as char

  // ---- Terminal escapes ----

  function SkipRange(s: string, i: nat, low: char, high: char): (j: nat)
    ensures i <= j && (j <= |s| || j == i)
    decreases |s| - i
  {
    if i < |s| && low <= s[i] <= high then SkipRange(s, i + 1, low, high) else i
  }

  /** ESC [ parameters intermediates final, at the front: its length. */
  function EscapeLength(s: string): (n: nat)
    ensures n <= |s|
  {
    if |s| < 2 || s[0] != ESC || s[1] != '[' then 0
    else
      var i := SkipRange(s, SkipRange(s, 2, '0', '?'), ' ', '/');
      if i < |s| && '@' <= s[i] <= '~' then i + 1 else 0
  }

  function StripAnsi(s: string): string
    decreases |s|
  {
    if s == [] then []
    else if EscapeLength(s) > 0 then StripAnsi(s[EscapeLength(s)..])
    else [s[0]] + StripAnsi(s[1..])
  }

  function NormalizeStreamText(output: string): string { NormalizeNewlines(StripAnsi(output)) }

  /** An escape sequence by its parts: after ESC and '[' any parameters, any intermediates, one final. */
  datatype Escape = Escape(parameters: string, intermediates: string, final: char)

  predicate IsEscape(e: Escape) {
    && (forall c <- e.parameters :: 0x30 <= c as int <= 0x3F)
    && (forall c <- e.intermediates :: 0x20 <= c as int <= 0x2F)
    && 0x40 <= e.final as int <= 0x7E
  }

  function PrintEscape(e: Escape): string { [27 as char, 91 as char] + e.parameters + e.intermediates + [e.final] }

  lemma {:induction false} SkipRangeOf(a: string, run: string, b: string, low: char, high: char)
    requires (forall c <- run :: low <= c <= high) && (b == [] || !(low <= b[0] <= high))
    ensures SkipRange(a + run + b, |a|, low, high) == |a| + |run|
    decreases |run|
  {
    var s := a + run + b;
    if run != [] {
      assert s[|a|] == run[0] && run[0] in run;
      assert forall c <- run[1..] :: c in run;
      assert s == (a + [run[0]]) + run[1..] + b;
      SkipRangeOf(a + [run[0]], run[1..], b, low, high);
    } else {
      assert b != [] ==> s[|a|] == b[0];
    }
  }

  lemma {:induction false} SkippedRange(s: string, i: nat, low: char, high: char)
    ensures var j := SkipRange(s, i, low, high);
            i <= |s| ==> j <= |s| && forall k :: i <= k < j ==> low <= s[k] <= high
    decreases |s| - i
  {
    if i < |s| && low <= s[i] <= high { SkippedRange(s, i + 1, low, high); }
  }

  lemma EscapeLengthOf(e: Escape, rest: string)
    requires IsEscape(e)
    ensures EscapeLength(PrintEscape(e) + rest) == |PrintEscape(e)|
  {
    var s, head := PrintEscape(e) + rest, [27 as char, 91 as char];
    var tail := e.intermediates + [e.final] + rest;
    assert s == head + e.parameters + tail;
    assert tail[0] == if e.intermediates == [] then e.final else e.intermediates[0];
    assert e.intermediates != [] ==> e.intermediates[0] in e.intermediates;
    SkipRangeOf(head, e.parameters, tail, '0', '?');
    assert s == (head + e.parameters) + e.intermediates + ([e.final] + rest);
    SkipRangeOf(head + e.parameters, e.intermediates, [e.final] + rest, ' ', '/');
    assert s[|head| + |e.parameters| + |e.intermediates|] == e.final;
  }

  lemma EscapeTaken(s: string) returns (e: Escape, rest: string)
    requires EscapeLength(s) > 0
    ensures IsEscape(e) && s == PrintEscape(e) + rest
  {
    hide SkipRange;
    var i := SkipRange(s, 2, '0', '?');
    var j := SkipRange(s, i, ' ', '/');
    SkippedRange(s, 2, '0', '?');
    SkippedRange(s, i, ' ', '/');
    e, rest := Escape(s[2..i], s[i..j], s[j]), s[j + 1..];
    assert s == [27 as char, 91 as char] + s[2..i] + s[i..j] + [s[j]] + rest;
  }

  /** What is taken for an escape sequence is one, and every one is. */
  lemma EscapeIff(s: string)
    ensures EscapeLength(s) > 0 <==> exists e, rest :: IsEscape(e) && s == PrintEscape(e) + rest
  {
    hide EscapeLength, IsEscape;
    if EscapeLength(s) > 0 { var e, rest := EscapeTaken(s); }
    forall e, rest | IsEscape(e) && s == PrintEscape(e) + rest ensures EscapeLength(s) > 0 { EscapeLengthOf(e, rest); }
  }

  /** A stream: text without ESC, and escape sequences between. */
  datatype Piece = Words(text: string) | Control(escape: Escape)

  predicate IsPiece(piece: Piece) { if piece.Words? then ESC !in piece.text else IsEscape(piece.escape) }

  function Stream(pieces: seq<Piece>): string {
    if pieces == [] then []
    else (if pieces[0].Words? then pieces[0].text else PrintEscape(pieces[0].escape)) + Stream(pieces[1..])
  }

  function WordsOf(pieces: seq<Piece>): string {
    if pieces == [] then [] else (if pieces[0].Words? then pieces[0].text else []) + WordsOf(pieces[1..])
  }

  lemma EscapesStartWithEsc(s: string)
    requires s == [] || s[0] != ESC
    ensures EscapeLength(s) == 0
  {
  }

  lemma {:induction false} WordsStay(text: string, rest: string)
    requires ESC !in text
    ensures StripAnsi(text + rest) == text + StripAnsi(rest)
    decreases |text|
  {
    hide EscapeLength;
    if text == [] {
      assert text + rest == rest;
    } else {
      assert (text + rest)[0] == text[0] && text[0] in text;
      assert (text + rest)[1..] == text[1..] + rest;
      EscapesStartWithEsc(text + rest);
      WordsStay(text[1..], rest);
    }
  }

  /** Exactly the escape sequences go, wherever they are in a stream. */
  lemma {:induction false} EscapesAreRemoved(pieces: seq<Piece>)
    requires forall i :: 0 <= i < |pieces| ==> IsPiece(pieces[i])
    ensures StripAnsi(Stream(pieces)) == WordsOf(pieces) && ESC !in WordsOf(pieces)
    decreases |pieces|
  {
    if pieces != [] {
      var rest := Stream(pieces[1..]);
      EscapesAreRemoved(pieces[1..]);
      if pieces[0].Words? {
        WordsStay(pieces[0].text, rest);
      } else {
        var e := pieces[0].escape;
        EscapeLengthOf(e, rest);
        assert (PrintEscape(e) + rest)[|PrintEscape(e)|..] == rest;
      }
    }
  }

  // ---- The envelope ----

  function DropFront(lines: seq<string>): seq<string> {
    if lines != [] && Blank(lines[0]) then DropFront(lines[1..]) else lines
  }

  function DropBack(lines: seq<string>): seq<string>
    decreases |lines|
  {
    if lines != [] && Blank(lines[|lines| - 1]) then DropBack(lines[..|lines| - 1]) else lines
  }

  function WithoutPrompt(lines: seq<string>, prompt: string): seq<string> {
    if lines != [] && Strip(lines[|lines| - 1]) == prompt then lines[..|lines| - 1] else lines
  }

  predicate IsEcho(line: string, command: string, prompt: string) {
    Strip(line) == command || Strip(line) == prompt + command || Strip(line) == prompt + " " + command
  }

  function WithoutEcho(lines: seq<string>, command: string, prompt: string): seq<string> {
    if lines != [] && IsEcho(lines[0], command, prompt) then lines[1..] else lines
  }

  function RStripped(lines: seq<string>): seq<string> {
    if lines == [] then [] else [RStrip(lines[0])] + RStripped(lines[1..])
  }

  function StripLines(lines: seq<string>, command: string, prompt: string): string {
    Strip(JoinLines(RStripped(WithoutEcho(WithoutPrompt(DropBack(DropFront(lines)), prompt), command, prompt))))
  }

  function StripCommandEnvelope(output: string, command: string, prompt: string): string {
    StripLines(SplitLines(NormalizeStreamText(output)), command, prompt)
  }

  /** As the source does it, popping lines off both ends. */
  method StripCommandEnvelopeByPopping(output: string, command: string, prompt: string) returns (r: string)
    ensures r == StripCommandEnvelope(output, command, prompt)
  {
    hide Blank, Strip, SplitLines, NormalizeStreamText, JoinLines, RStripped;
    var lines := SplitLines(NormalizeStreamText(output));
    ghost var all := lines;
    while lines != [] && Blank(lines[0])
      invariant DropFront(lines) == DropFront(all)
    {
      lines := lines[1..];
    }
    ghost var front := lines;
    while lines != [] && Blank(lines[|lines| - 1])
      invariant DropBack(lines) == DropBack(front)
      decreases |lines|
    {
      lines := lines[..|lines| - 1];
    }
    if lines != [] && Strip(lines[|lines| - 1]) == prompt {
      lines := lines[..|lines| - 1];
    }
    if lines != [] {
      var first := Strip(lines[0]);
      if first == command {
        lines := lines[1..];
      } else if first == prompt + command || first == prompt + " " + command {
        lines := lines[1..];
      }
    }
    r := Strip(JoinLines(RStripped(lines)));
  }

  // ---- Wrapping a body ----

  /** Lines as a device sends them, with any of the three line ends. */
  function JoinWith(lines: seq<string>, eol: string): string {
    if lines == [] then [] else if |lines| == 1 then lines[0] else lines[0] + eol + JoinWith(lines[1..], eol)
  }

  predicate IsEol(eol: string) { eol in ["\n", "\r\n", "\r"] }

  /** Every line with the white space that was sent behind it. */
  function Trailed(lines: seq<string>, trails: seq<string>): seq<string>
    requires |trails| == |lines|
  {
    if lines == [] then [] else [lines[0] + trails[0]] + Trailed(lines[1..], trails[1..])
  }

  lemma {:induction false} TrailsAreRead(lines: seq<string>, trails: seq<string>)
    requires |trails| == |lines| && forall i :: 0 <= i < |lines| ==> RStrip(lines[i]) == lines[i] && AllSpace(trails[i])
    ensures RStripped(Trailed(lines, trails)) == lines
    decreases |lines|
  {
    hide RStrip, AllSpace, IsSpace;
    if lines != [] {
      TrailIsRead(lines[0], trails[0]);
      TrailsAreRead(lines[1..], trails[1..]);
      assert [lines[0]] + lines[1..] == lines;
    }
  }

  lemma TrailIsRead(line: string, trail: string)
    requires RStrip(line) == line && AllSpace(trail)
    ensures RStrip(line + trail) == line
  {
    hide IsSpace, AllSpace;
    RStripOfPadded(line, trail);
  }

  lemma {:induction false} TrailedIsPlain(lines: seq<string>, trails: seq<string>)
    requires |trails| == |lines| && forall i :: 0 <= i < |lines| ==> Plain(lines[i]) && Plain(trails[i])
    ensures forall i :: 0 <= i < |Trailed(lines, trails)| ==> Plain(Trailed(lines, trails)[i])
    decreases |lines|
  {
    hide IsBreak;
    if lines != [] { TrailedIsPlain(lines[1..], trails[1..]); }
  }

  predicate Plain(line: string) { OneLine(line) && ESC !in line }

  /** No trailing spaces; no blank line at either edge; no leading space on the first line. */
  ghost predicate IsBody(body: seq<string>) {
    && (forall i :: 0 <= i < |body| ==> Plain(body[i]) && RStrip(body[i]) == body[i])
    && (body != [] ==> body[0] != [] && !IsSpace(body[0][0]) && body[|body| - 1] != [])
  }

  /** A word or words: what a prompt and a command are. */
  predicate IsLabel(s: string) { s != [] && Trimmed(s) && Plain(s) }

  lemma {:induction false} NormalizeLine(line: string, rest: string)
    requires OneLine(line)
    ensures NormalizeNewlines(line + rest) == line + NormalizeNewlines(rest)
  {
    if line == [] {
      assert line + rest == rest;
    } else {
      assert (line + rest)[1..] == line[1..] + rest;
      NormalizeLine(line[1..], rest);
    }
  }

  lemma NormalizeEol(eol: string, rest: string)
    requires IsEol(eol) && (eol == "\r" && rest != [] ==> rest[0] != '\n')
    ensures NormalizeNewlines(eol + rest) == "\n" + NormalizeNewlines(rest)
  {
    if eol == "\r\n" {
      assert (eol + rest)[2..] == rest;
    } else {
      assert (eol + rest)[1..] == rest;
    }
  }

  lemma {:induction false} NormalizeJoined(lines: seq<string>, eol: string)
    requires IsEol(eol) && forall i :: 0 <= i < |lines| ==> OneLine(lines[i])
    ensures NormalizeNewlines(JoinWith(lines, eol)) == JoinLines(lines)
    decreases |lines|
  {
    assert NormalizeNewlines([]) == [];
    hide NormalizeNewlines, OneLine, IsEol;
    if |lines| == 1 {
      NormalizeLine(lines[0], []);
      assert lines[0] + [] == lines[0];
    } else if |lines| > 1 {
      var rest := JoinWith(lines[1..], eol);
      NormalizeJoined(lines[1..], eol);
      JoinedStart(lines[1..], eol);
      NormalizeNext(lines[0], eol, rest);
      JoinNext(lines, eol);
    }
  }

  lemma NormalizeNext(line: string, eol: string, rest: string)
    requires OneLine(line) && IsEol(eol) && (eol == "\r" && rest != [] ==> rest[0] != '\n')
    ensures NormalizeNewlines(line + (eol + rest)) == line + ("\n" + NormalizeNewlines(rest))
  {
    hide NormalizeNewlines, OneLine, IsEol;
    NormalizeEol(eol, rest);
    NormalizeLine(line, eol + rest);
  }

  lemma JoinNext(lines: seq<string>, eol: string)
    requires |lines| > 1
    ensures JoinWith(lines, eol) == lines[0] + (eol + JoinWith(lines[1..], eol))
    ensures JoinLines(lines) == lines[0] + ("\n" + JoinLines(lines[1..]))
  {
    assert lines[0] + eol + JoinWith(lines[1..], eol) == lines[0] + (eol + JoinWith(lines[1..], eol));
    assert lines[0] + "\n" + JoinLines(lines[1..]) == lines[0] + ("\n" + JoinLines(lines[1..]));
  }

  lemma JoinedStart(lines: seq<string>, eol: string)
    requires eol == "\r" ==> forall i :: 0 <= i < |lines| ==> OneLine(lines[i])
    ensures eol == "\r" && JoinWith(lines, eol) != [] ==> JoinWith(lines, eol)[0] != '\n'
  {
    if eol == "\r" && lines != [] && lines[0] != [] {
      assert !IsBreak(lines[0][0]);
    }
  }

  lemma {:induction false} NoEscapeToStrip(s: string)
    requires ESC !in s
    ensures StripAnsi(s) == s
  {
    if s != [] {
      assert s[0] in s;
      NoEscapeToStrip(s[1..]);
    }
  }

  lemma {:induction false} NoEscapeJoined(lines: seq<string>, eol: string)
    requires IsEol(eol) && forall i :: 0 <= i < |lines| ==> Plain(lines[i])
    ensures ESC !in JoinWith(lines, eol)
  {
    if |lines| > 1 { NoEscapeJoined(lines[1..], eol); }
  }

  /** What a device sends is read back line by line. */
  lemma SentLinesAreRead(lines: seq<string>, eol: string)
    requires IsEol(eol) && forall i :: 0 <= i < |lines| ==> Plain(lines[i])
    requires lines != [] ==> lines[|lines| - 1] != []
    ensures SplitLines(NormalizeStreamText(JoinWith(lines, eol))) == lines
  {
    hide StripAnsi;
    NoEscapeJoined(lines, eol);
    NoEscapeToStrip(JoinWith(lines, eol));
    NormalizeJoined(lines, eol);
    SplitUndoesJoin(lines);
  }

  lemma LabelIsNotBlank(s: string)
    requires Trimmed(s) && s != []
    ensures !Blank(s)
  {
    StripIsTrimmed(s);
  }

  lemma PadIsRead(s: string, pad: string)
    requires Trimmed(s) && AllSpace(pad)
    ensures Strip(s + pad) == s
  {
    StripOfPadded([], s, pad);
    assert [] + s + pad == s + pad;
  }

  lemma TrimmedJoin(a: string, b: string, middle: string)
    requires a != [] && b != [] && Trimmed(a) && Trimmed(b)
    ensures Trimmed(a + middle + b) && a + middle + b != []
  {
    var s := a + middle + b;
    assert s[0] == a[0] && s[|s| - 1] == b[|b| - 1];
  }

  lemma {:induction false} DropFrontOf(blanks: seq<string>, rest: seq<string>)
    requires forall i :: 0 <= i < |blanks| ==> Blank(blanks[i])
    requires rest != [] && !Blank(rest[0])
    ensures DropFront(blanks + rest) == rest
  {
    hide Blank;
    if blanks == [] {
      assert blanks + rest == rest;
    } else {
      assert (blanks + rest)[1..] == blanks[1..] + rest;
      DropFrontOf(blanks[1..], rest);
    }
  }

  lemma {:induction false} RStrippedBody(body: seq<string>)
    requires forall i :: 0 <= i < |body| ==> RStrip(body[i]) == body[i]
    ensures RStripped(body) == body
  {
    hide RStrip;
    if body != [] {
      RStrippedBody(body[1..]);
      assert [body[0]] + body[1..] == body;
    }
  }

  lemma {:induction false} JoinEnds(lines: seq<string>)
    requires lines != [] && lines[0] != [] && lines[|lines| - 1] != []
    ensures var j, last := JoinLines(lines), lines[|lines| - 1];
            j != [] && j[0] == lines[0][0] && j[|j| - 1] == last[|last| - 1]
    decreases |lines|
  {
    if |lines| > 1 {
      JoinLast(lines);
    }
  }

  lemma {:induction false} JoinLast(lines: seq<string>)
    requires lines != [] && lines[|lines| - 1] != []
    ensures var j := JoinLines(lines); j != [] && j[|j| - 1] == lines[|lines| - 1][|lines[|lines| - 1]| - 1]
    decreases |lines|
  {
    if |lines| > 1 { JoinLast(lines[1..]); }
  }

  /** A body is what is left of it at the end. */
  lemma BodyIsLeft(body: seq<string>)
    requires IsBody(body)
    ensures Strip(JoinLines(RStripped(body))) == JoinLines(body)
  {
    hide Plain, IsSpace, Strip;
    RStrippedBody(body);
    if body != [] {
      JoinEnds(body);
      var last := body[|body| - 1];
      assert RStrip(last) == last;
    }
    StripIsTrimmed(JoinLines(body));
  }

  /** The lines of a wrapped body: blank lines, perhaps an echo, the body, the prompt with spaces after it. */
  function Wrapped(blanks: seq<string>, echo: seq<string>, body: seq<string>, prompt: string, pad: string): seq<string> {
    blanks + (echo + body + [prompt + pad])
  }

  /** What is left to the last step: the echo, if any, and the body. */
  lemma EdgesAreRemoved(blanks: seq<string>, inner: seq<string>, prompt: string, pad: string)
    requires forall i :: 0 <= i < |blanks| ==> Blank(blanks[i])
    requires inner != [] ==> !Blank(inner[0])
    requires prompt != [] && Trimmed(prompt) && AllSpace(pad)
    ensures WithoutPrompt(DropBack(DropFront(blanks + (inner + [prompt + pad]))), prompt) == inner
  {
    hide Blank, Trimmed, AllSpace;
    var rest := inner + [prompt + pad];
    PadIsRead(prompt, pad);
    assert !Blank(prompt + pad) by { NotBlankIfSome(prompt + pad, prompt); }
    DropFrontOf(blanks, rest);
    assert rest[..|rest| - 1] == inner;
  }

  lemma NotBlankIfSome(s: string, core: string)
    requires Strip(s) == core && core != []
    ensures !Blank(s)
  {
  }

  predicate IsEchoForm(echo: string, command: string, prompt: string) {
    echo == command || echo == prompt + command || echo == prompt + " " + command
  }

  lemma EchoIsSeen(echo: string, command: string, prompt: string)
    requires IsLabel(command) && IsLabel(prompt) && IsEchoForm(echo, command, prompt)
    ensures IsEcho(echo, command, prompt) && !Blank(echo) && Plain(echo)
  {
    assert !IsBreak(' ');
    hide IsSpace, IsBreak;
    assert prompt + [] + command == prompt + command;
    TrimmedJoin(prompt, command, []);
    TrimmedJoin(prompt, command, " ");
    StripIsTrimmed(echo);
    LabelIsNotBlank(echo);
  }

  lemma BodyStartsWithInk(body: seq<string>)
    requires IsBody(body) && body != []
    ensures !Blank(body[0]) && Strip(body[0]) == body[0]
  {
    hide Plain, IsSpace;
    assert RStrip(body[0]) == body[0];
    StripIsTrimmed(body[0]);
    LabelIsNotBlank(body[0]);
  }

  lemma WrappedIsRead(blanks: seq<string>, echo: seq<string>, body: seq<string>, prompt: string, pad: string, eol: string)
    requires eol in ["\n", "\r\n", "\r"] && IsLabel(prompt) && AllSpace(pad) && Plain(pad)
    requires forall i :: 0 <= i < |blanks| ==> Blank(blanks[i]) && Plain(blanks[i])
    requires forall i :: 0 <= i < |echo| ==> Plain(echo[i])
    requires forall i :: 0 <= i < |body| ==> Plain(body[i])
    ensures var lines := Wrapped(blanks, echo, body, prompt, pad);
            SplitLines(NormalizeStreamText(JoinWith(lines, eol))) == lines
  {
    hide Blank, IsSpace, IsBreak;
    SentLinesAreRead(Wrapped(blanks, echo, body, prompt, pad), eol);
  }

  /**
   Envelope round trip: with any of the three echo forms, any line end, blank lines before, white space
   behind every line and behind the prompt, exactly the body comes back; also when its own first line equals
   the command or its last line the prompt.
   */
  lemma EnvelopeRoundTrip(blanks: seq<string>, echo: string, body: seq<string>, trails: seq<string>, command: string,
                          prompt: string, pad: string, eol: string)
    requires eol in ["\n", "\r\n", "\r"] && IsBody(body) && IsLabel(command) && IsLabel(prompt) && AllSpace(pad) && Plain(pad)
    requires forall i :: 0 <= i < |blanks| ==> Blank(blanks[i]) && Plain(blanks[i])
    requires |trails| == |body| && forall i :: 0 <= i < |body| ==> AllSpace(trails[i]) && Plain(trails[i])
    requires echo in [command, prompt + command, prompt + " " + command]
    ensures StripCommandEnvelope(JoinWith(Wrapped(blanks, [echo], Trailed(body, trails), prompt, pad), eol), command, prompt)
            == JoinLines(body)
  {
    hide Blank, IsSpace, IsBreak, AllSpace, Plain, RStrip, Trimmed, Strip, DropFront, DropBack, WithoutPrompt, NormalizeStreamText,
      SplitLines, JoinWith, RStripped, JoinLines, Trailed, StripCommandEnvelope;
    var sent := Trailed(body, trails);
    EchoIsSeen(echo, command, prompt);
    TrailedIsPlain(body, trails);
    WrappedIsRead(blanks, [echo], sent, prompt, pad, eol);
    EdgesAreRemoved(blanks, [echo] + sent, prompt, pad);
    BodyIsLeft(body);
    TrailsAreRead(body, trails);
    RStrippedBody(body);
    hide *;
    Finishing([echo] + sent, sent, Wrapped(blanks, [echo], sent, prompt, pad), command, prompt, eol);
  }

  lemma Finishing(inner: seq<string>, body: seq<string>, lines: seq<string>, command: string, prompt: string, eol: string)
    requires SplitLines(NormalizeStreamText(JoinWith(lines, eol))) == lines
    requires WithoutPrompt(DropBack(DropFront(lines)), prompt) == inner
    requires inner != [] && inner[1..] == body && IsEcho(inner[0], command, prompt)
    ensures StripCommandEnvelope(JoinWith(lines, eol), command, prompt) == Strip(JoinLines(RStripped(body)))
  {
    hide SplitLines, NormalizeStreamText, JoinWith, WithoutPrompt, DropBack, DropFront, IsEcho, RStripped, Strip, JoinLines;
  }

  /** A device that does not echo: the body survives exactly when its first line does not read as an echo. */
  lemma WithoutEchoIff(blanks: seq<string>, body: seq<string>, command: string, prompt: string, pad: string, eol: string)
    requires eol in ["\n", "\r\n", "\r"] && IsBody(body) && body != [] && IsLabel(prompt) && AllSpace(pad) && Plain(pad)
    requires forall i :: 0 <= i < |blanks| ==> Blank(blanks[i]) && Plain(blanks[i])
    ensures StripCommandEnvelope(JoinWith(Wrapped(blanks, [], body, prompt, pad), eol), command, prompt) == JoinLines(body)
            <==> body[0] !in [command, prompt + command, prompt + " " + command]
  {
    hide Blank, IsSpace, AllSpace, Plain, RStrip, Trimmed, Strip, DropFront, DropBack, WithoutPrompt, NormalizeStreamText,
      SplitLines, JoinWith, RStripped, JoinLines;
    var lines := Wrapped(blanks, [], body, prompt, pad);
    WrappedIsRead(blanks, [], body, prompt, pad, eol);
    BodyStartsWithInk(body);
    assert [] + body == body;
    EdgesAreRemoved(blanks, body, prompt, pad);
    BodyIsLeft(body);
    FirstLineIsLost(body);
    if IsEchoForm(body[0], command, prompt) {
      Finishing(body, body[1..], lines, command, prompt, eol);
    } else {
      FinishingPlain(body, lines, command, prompt, eol);
    }
  }

  lemma FinishingPlain(inner: seq<string>, lines: seq<string>, command: string, prompt: string, eol: string)
    requires SplitLines(NormalizeStreamText(JoinWith(lines, eol))) == lines
    requires WithoutPrompt(DropBack(DropFront(lines)), prompt) == inner
    requires inner != [] && !IsEcho(inner[0], command, prompt)
    ensures StripCommandEnvelope(JoinWith(lines, eol), command, prompt) == Strip(JoinLines(RStripped(inner)))
  {
    hide SplitLines, NormalizeStreamText, JoinWith, WithoutPrompt, DropBack, DropFront, IsEcho, RStripped, Strip, JoinLines;
  }

  lemma {:induction false} RStrippedIsShorter(lines: seq<string>)
    ensures |JoinLines(RStripped(lines))| <= |JoinLines(lines)| && |RStripped(lines)| == |lines|
  {
    hide RStrip;
    if lines != [] { RStrippedIsShorter(lines[1..]); }
  }

  lemma FirstLineIsLost(body: seq<string>)
    requires body != [] && body[0] != []
    ensures Strip(JoinLines(RStripped(body[1..]))) != JoinLines(body)
  {
    hide IsSpace;
    RStrippedIsShorter(body[1..]);
  }

  // ---- When the response is complete ----

  predicate PadChar(c: char) { c == ' ' || c == '\t' }

  /** The prompt at the start of the last line, spaces and tabs after it, and then the end. */
  ghost predicate EndsWithPrompt(output: string, prompt: string) {
    var text := NormalizeStreamText(output);
    exists i, j :: PromptSpan(text, prompt, i, j)
  }

  predicate PromptSpan(text: string, prompt: string, i: int, j: int) {
    && 0 <= i <= j <= |text| && (i == 0 || text[i - 1] == '\n') && text[i..j] == prompt
    && forall k :: j <= k < |text| ==> PadChar(text[k])
  }

  /** The same by parts: text that is empty or ends a line, the prompt, and spaces and tabs. */
  ghost predicate PromptComesLast(text: string, prompt: string, before: string, pad: string) {
    && text == before + prompt + pad && (before == "" || before[|before| - 1] == '\n')
    && forall c <- pad :: c == ' ' || c == '\t'
  }

  lemma EndsWithPromptIff(output: string, prompt: string)
    ensures EndsWithPrompt(output, prompt) <==>
            exists before, pad :: PromptComesLast(NormalizeStreamText(output), prompt, before, pad)
  {
    hide NormalizeStreamText;
    var text := NormalizeStreamText(output);
    if EndsWithPrompt(output, prompt) {
      var i, j :| PromptSpan(text, prompt, i, j);
      assert text == text[..i] + text[i..j] + text[j..];
      assert PromptComesLast(text, prompt, text[..i], text[j..]);
    }
    if before, pad :| PromptComesLast(text, prompt, before, pad) {
      var i, j := |before|, |before + prompt|;
      assert text[i..j] == prompt && text[j..] == pad;
      forall k | j <= k < |text| ensures PadChar(text[k]) { assert text[k] == pad[k - j] && text[k] in pad; }
      assert i > 0 ==> text[i - 1] == before[i - 1];
      assert PromptSpan(text, prompt, i, j);
    }
  }

  lemma {:induction false} LastLineStarts(lines: seq<string>) returns (i: nat)
    requires lines != []
    ensures var text := JoinLines(lines);
            i <= |text| && (i == 0 || text[i - 1] == '\n') && text[i..] == lines[|lines| - 1]
    decreases |lines|
  {
    if |lines| == 1 {
      i := 0;
    } else {
      var k := LastLineStarts(lines[1..]);
      var head := lines[0] + "\n";
      assert JoinLines(lines) == head + JoinLines(lines[1..]);
      i := |head| + k;
    }
  }

  /** The reader stops at a wrapped response: it ends with the prompt, so stripping it is what comes next. */
  lemma WrappedEndsWithPrompt(blanks: seq<string>, echo: seq<string>, body: seq<string>, prompt: string, pad: string, eol: string)
    requires eol in ["\n", "\r\n", "\r"] && IsBody(body) && IsLabel(prompt) && AllSpace(pad) && Plain(pad)
    requires forall k :: 0 <= k < |pad| ==> pad[k] == ' ' || pad[k] == '\t'
    requires forall i :: 0 <= i < |blanks| ==> Blank(blanks[i]) && Plain(blanks[i])
    requires forall i :: 0 <= i < |echo| ==> Plain(echo[i])
    ensures EndsWithPrompt(JoinWith(Wrapped(blanks, echo, body, prompt, pad), eol), prompt)
  {
    hide Blank, IsSpace, IsBreak, NormalizeNewlines, StripAnsi;
    var lines := Wrapped(blanks, echo, body, prompt, pad);
    NoEscapeJoined(lines, eol);
    NoEscapeToStrip(JoinWith(lines, eol));
    NormalizeJoined(lines, eol);
    var i := LastLineStarts(lines);
    var text := JoinLines(lines);
    assert NormalizeStreamText(JoinWith(lines, eol)) == text;
    assert text[i..] == prompt + pad;
    assert text[i..i + |prompt|] == prompt;
    forall k | i + |prompt| <= k < |text| ensures PadChar(text[k]) { assert text[k] == text[i..][k - i]; }
    assert PromptSpan(text, prompt, i, i + |prompt|);
  }

  // ---- Detecting the prompt ----

  predicate IsPromptEnd(c: char) { c == '#' || c == '>' || c == '$' || c == '%' }

  /** What a prompt can end in. */
  lemma PromptEndTerms(c: char)
    ensures IsPromptEnd(c) <==> c in "#>$%"
  {
  }

  predicate StartsLine(text: string, i: int) { 0 <= i <= |text| && (i == 0 || text[i - 1] == '\n') }

  /**
   A match of the prompt pattern that is followed by white space only: from the start of a line, 1 to 200
   characters of that line and one that ends prompts.
   */
  predicate PromptAtEnd(text: string, i: int, j: int) {
    && StartsLine(text, i) && i + 2 <= j <= i + 201 && j <= |text|
    && '\n' !in text[i..j] && '\r' !in text[i..j] && IsPromptEnd(text[j - 1])
    && AllSpace(text[j..])
  }

  function LineStart(text: string): (i: nat)
    ensures i <= |text| && StartsLine(text, i) && '\n' !in text[i..]
  {
    if text == [] || text[|text| - 1] == '\n' then |text|
    else
      var i := LineStart(text[..|text| - 1]);
      assert text[i..] == text[..|text| - 1][i..] + [text[|text| - 1]];
      i
  }

  /** detect_prompt: the last line with ink, when it looks like a prompt. */
  function DetectPrompt(output: string): Option<string> {
    var text := RStrip(NormalizeStreamText(output));
    var i := LineStart(text);
    if 2 <= |text| - i <= 201 && '\r' !in text[i..] && IsPromptEnd(text[|text| - 1]) then Some(Strip(text[i..])) else None
  }

  lemma PromptEndIsInk(c: char)
    requires IsPromptEnd(c)
    ensures !IsSpace(c) && c != '\n'
  {
  }

  /** A prompt at the end begins with the last line's start and ends with its ink. */
  lemma PromptAtEndIs(text: string, i: int, j: int)
    requires PromptAtEnd(text, i, j)
    ensures RStrip(text) == text[..j] && LineStart(text[..j]) == i
  {
    hide IsSpace, IsPromptEnd, RStrip;
    PromptEndIsInk(text[j - 1]);
    assert text == text[..j] + text[j..];
    RStripOfPadded(text[..j], text[j..]);
    LineStartIs(text[..j], i);
  }

  lemma NoBreakAfter(text: string, i: nat)
    requires i <= |text| && '\n' !in text[i..]
    ensures forall k :: i <= k < |text| ==> text[k] != '\n'
  {
    forall k | i <= k < |text| ensures text[k] != '\n' { assert text[i..][k - i] in text[i..]; }
  }

  lemma LineStartIs(text: string, i: nat)
    requires i <= |text| && StartsLine(text, i) && '\n' !in text[i..]
    ensures LineStart(text) == i
  {
    hide LineStart;
    var k := LineStart(text);
    NoBreakAfter(text, i);
    NoBreakAfter(text, k);
  }

  /** The prompt is detected exactly when the pattern matches with nothing but white space after it. */
  lemma DetectedIff(output: string, prompt: string)
    ensures var text := NormalizeStreamText(output);
            DetectPrompt(output) == Some(prompt) <==>
            exists i, j :: PromptAtEnd(text, i, j) && prompt == Strip(text[i..j])
  {
    hide NormalizeStreamText, RStrip, Strip, LineStart, IsPromptEnd, IsSpace;
    var text := NormalizeStreamText(output);
    var ink := RStrip(text);
    RStripTakesSpace(text);
    var i, j := LineStart(ink), |ink|;
    assert text[..j] == ink;
    if DetectPrompt(output).Some? {
      assert text[i..j] == ink[i..];
      assert PromptAtEnd(text, i, j);
    }
    forall i', j' | PromptAtEnd(text, i', j') ensures i' == i && j' == j {
      PromptAtEndIs(text, i', j');
    }
  }

  /** Escape sequences anywhere in a stream change neither what is stripped nor what is recognised. */
  lemma EscapesDoNotMatter(pieces: seq<Piece>, command: string, prompt: string)
    requires forall i :: 0 <= i < |pieces| ==> IsPiece(pieces[i])
    ensures var sent, plain := Stream(pieces), WordsOf(pieces);
            && StripCommandEnvelope(sent, command, prompt) == StripCommandEnvelope(plain, command, prompt)
            && (EndsWithPrompt(sent, prompt) <==> EndsWithPrompt(plain, prompt))
            && DetectPrompt(sent) == DetectPrompt(plain)
  {
    EscapesAreRemoved(pieces);
    NoEscapeToStrip(WordsOf(pieces));
    assert NormalizeStreamText(Stream(pieces)) == NormalizeStreamText(WordsOf(pieces));
    hide *;
    SameText(Stream(pieces), WordsOf(pieces), command, prompt);
  }

  lemma SameText(a: string, b: string, command: string, prompt: string)
    requires NormalizeStreamText(a) == NormalizeStreamText(b)
    ensures StripCommandEnvelope(a, command, prompt) == StripCommandEnvelope(b, command, prompt)
    ensures EndsWithPrompt(a, prompt) <==> EndsWithPrompt(b, prompt)
    ensures DetectPrompt(a) == DetectPrompt(b)
  {
    hide NormalizeStreamText, StripLines, SplitLines, PromptSpan, RStrip, LineStart, Strip, IsPromptEnd;
  }

  lemma StripOfPromptLine(line: string)
    requires line != [] && !IsSpace(line[|line| - 1])
    ensures var p := Strip(line);
            && p != [] && |p| <= |line| && p == line[|line| - |p|..] && !IsSpace(p[0])
            && (|p| == |line| <==> !IsSpace(line[0]))
  {
    hide IsSpace;
    assert RStrip(line) == line;
    var p := LStrip(line);
    if p == [] { LStripsToNothing(line); }
    if |p| == |line| { assert p == line; }
  }

  lemma PromptLine(text: string, i: nat, j: nat)
    requires PromptAtEnd(text, i, j)
    ensures forall k :: i <= k < j ==> text[k] != '\n'
    ensures forall k :: j <= k < |text| ==> IsSpace(text[k])
    ensures !IsSpace(text[j - 1])
  {
    PromptEndIsInk(text[j - 1]);
    hide IsSpace, IsPromptEnd;
    forall k | i <= k < j ensures text[k] != '\n' { assert text[i..j][k - i] in text[i..j]; }
    forall k | j <= k < |text| ensures IsSpace(text[k]) { assert text[j..][k - j] == text[k]; }
  }

  /** The prompt is found nowhere but right before the white space at the end, and only at a line's start. */
  lemma SpanIsPrompt(text: string, prompt: string, a: int, b: int, i: nat, j: nat)
    requires PromptAtEnd(text, i, j) && PromptSpan(text, prompt, a, b)
    requires prompt != [] && |prompt| <= j - i && !IsSpace(prompt[|prompt| - 1])
    ensures a == i && b == j
  {
    PadIsSpace();
    PromptLine(text, i, j);
    hide IsSpace, PromptAtEnd;
    assert text[b - 1] == prompt[|prompt| - 1];
    assert b == j;
  }

  lemma PadIsSpace()
    ensures forall c :: PadChar(c) ==> IsSpace(c)
  {
  }

  /**
   The prompt found in a banner is the one later responses are waited for with.  A stream that ends in it
   is recognised exactly when the line has no white space before it, and after it only spaces and tabs.
   */
  lemma DetectedIsRecognisedIff(output: string, i: nat, j: nat)
    requires PromptAtEnd(NormalizeStreamText(output), i, j)
    ensures var text := NormalizeStreamText(output);
            var prompt := Strip(text[i..j]);
            && DetectPrompt(output) == Some(prompt)
            && (EndsWithPrompt(output, prompt) <==>
                  !IsSpace(text[i]) && forall k :: j <= k < |text| ==> text[k] == ' ' || text[k] == '\t')
  {
    Bounds(NormalizeStreamText(output), i, j);
    hide NormalizeStreamText, Strip, DetectPrompt, IsSpace, PromptSpan, PadChar;
    var text := NormalizeStreamText(output);
    var prompt := Strip(text[i..j]);
    DetectedIff(output, prompt);
    if EndsWithPrompt(output, prompt) {
      var a, b :| PromptSpan(text, prompt, a, b);
      RecognisedOnlyIf(text, i, j, prompt, a, b);
    }
    if !IsSpace(text[i]) && forall k :: j <= k < |text| ==> PadChar(text[k]) {
      RecognisedIf(text, i, j);
    }
  }

  lemma LineEnds(text: string, i: nat, j: nat)
    requires i < j <= |text|
    ensures var line := text[i..j]; |line| == j - i && line[0] == text[i] && line[|line| - 1] == text[j - 1]
  {
  }

  lemma SpanFacts(text: string, prompt: string, a: int, b: int)
    requires PromptSpan(text, prompt, a, b)
    ensures |prompt| == b - a && forall k :: b <= k < |text| ==> PadChar(text[k])
  {
    hide PadChar;
  }

  lemma Bounds(text: string, i: nat, j: nat)
    requires PromptAtEnd(text, i, j)
    ensures i + 2 <= j <= |text|
  {
    hide StartsLine, IsPromptEnd, AllSpace;
  }

  lemma RecognisedOnlyIf(text: string, i: nat, j: nat, prompt: string, a: int, b: int)
    requires i < j <= |text| && PromptAtEnd(text, i, j) && prompt == Strip(text[i..j]) && PromptSpan(text, prompt, a, b)
    ensures !IsSpace(text[i]) && forall k :: j <= k < |text| ==> PadChar(text[k])
  {
    hide *;
    PromptLine(text, i, j);
    LineEnds(text, i, j);
    StripOfPromptLine(text[i..j]);
    LastOfStripped(text[i..j], prompt);
    SpanIsPrompt(text, prompt, a, b, i, j);
    SpanFacts(text, prompt, a, b);
  }

  lemma LastOfStripped(line: string, prompt: string)
    requires prompt != [] && |prompt| <= |line| && prompt == line[|line| - |prompt|..]
    ensures prompt[|prompt| - 1] == line[|line| - 1]
  {
  }

  lemma RecognisedIf(text: string, i: nat, j: nat)
    requires PromptAtEnd(text, i, j)
    requires !IsSpace(text[i]) && forall k :: j <= k < |text| ==> PadChar(text[k])
    ensures PromptSpan(text, Strip(text[i..j]), i, j)
  {
    var line := text[i..j];
    PromptLine(text, i, j);
    assert line[|line| - 1] == text[j - 1] && line[0] == text[i];
    hide Strip, IsSpace, AllSpace;
    StripOfPromptLine(line);
    assert Strip(line) == line;
  }
}
