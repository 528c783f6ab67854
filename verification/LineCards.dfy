/** The fixed-width line-card table: header search, row slicing, and a printer that the parser undoes. */
module LineCards {
  import opened Basics
  import opened Text
  import opened Lines

  datatype Card = Card(slot: string, cardType: string, status: string, fwVersion: string)

  datatype Error =
    | EmptyOutput
    | MissingHeaders(labels: seq<string>)
    | ColumnOrder
    | MissingValues(lineNumber: nat, labels: seq<string>)
    | NoRows

  // ---- Header patterns ----

  predicate IsWordChar(c: char) { 'a' <= LowerChar(c) <= 'z' || '0' <= c <= '9' || c == '_' }

  predicate WordAt(line: string, i: nat, word: string) {
    i + |word| <= |line| && forall k :: 0 <= k < |word| ==> LowerChar(line[i + k]) == word[k]
  }

  function SkipSpaces(line: string, i: nat): (j: nat)
    ensures i <= j
    decreases |line| - i
  {
    if i < |line| && IsSpace(line[i]) then SkipSpaces(line, i + 1) else i
  }

  /** The words in order, white space between them: where such a match at `i` ends. */
  function WordsEnd(line: string, i: nat, words: seq<string>): Option<nat>
    requires words != []
    decreases |words|
  {
    if !WordAt(line, i, words[0]) then None
    else
      var end := i + |words[0]|;
      if |words| == 1 then Some(end)
      else
        var next := SkipSpaces(line, end);
        if next == end then None else WordsEnd(line, next, words[1..])
  }

  /** \bword\s+word\b at this place. */
  predicate MatchAt(line: string, i: nat, words: seq<string>)
    requires words != []
  {
    && (i == 0 || i > |line| || !IsWordChar(line[i - 1]))
    && WordsEnd(line, i, words).Some?
    && (WordsEnd(line, i, words).value >= |line| || !IsWordChar(line[WordsEnd(line, i, words).value]))
  }

  /** The leftmost match at or after `from`. */
  function Search(line: string, words: seq<string>, from: nat): (r: Option<nat>)
    requires words != []
    decreases |line| - from
  {
    if from >= |line| then None else if MatchAt(line, from, words) then Some(from) else Search(line, words, from + 1)
  }

  const CARD_TYPE := ["card", "type"]
  const STATUS := ["status"]
  const FW_VERSION := ["fw", "version"]

  datatype Positions = Positions(cardType: Option<nat>, status: Option<nat>, fwVersion: Option<nat>)

  function PositionsIn(line: string): Positions {
    Positions(Search(line, CARD_TYPE, 0), Search(line, STATUS, 0), Search(line, FW_VERSION, 0))
  }

  const NOWHERE := Positions(None, None, None)

  function Count(p: Positions): nat {
    (if p.cardType.Some? then 1 else 0) + (if p.status.Some? then 1 else 0) + (if p.fwVersion.Some? then 1 else 0)
  }

  function MissingLabels(p: Positions): seq<string> {
    (if p.cardType.None? then ["Card Type"] else []) + (if p.status.None? then ["Status"] else [])
    + (if p.fwVersion.None? then ["FW Version"] else [])
  }

  lemma NothingMissing(p: Positions)
    ensures MissingLabels(p) == [] <==> p.cardType.Some? && p.status.Some? && p.fwVersion.Some?
  {
  }

  /** The first line with the most header columns, if any line has one. */
  function Best(lines: seq<string>): (r: Option<nat>)
    ensures r.Some? ==> r.value < |lines|
    decreases |lines|
  {
    if lines == [] then None
    else
      var n := |lines| - 1;
      var before := Best(lines[..n]);
      if Count(PositionsIn(lines[n])) > Count(BestPositions(lines[..n], before)) then Some(n) else before
  }

  function BestPositions(lines: seq<string>, best: Option<nat>): Positions
    requires best.Some? ==> best.value < |lines|
  {
    if best.None? then NOWHERE else PositionsIn(lines[best.value])
  }

  // ---- The header words, without the search ----

  /** At `i` the letters of `word`, in any case. */
  ghost predicate Spelled(line: string, i: nat, word: string) {
    i + |word| <= |line| && forall k :: 0 <= k < |word| ==> LowerChar(line[i + k]) == word[k]
  }

  /** No letter, digit or underscore next to what starts at `i` and ends before `end`. */
  ghost predicate StandsAlone(line: string, i: nat, end: nat) {
    && i <= |line| && end <= |line|
    && (i > 0 ==> !IsWordChar(line[i - 1])) && (end < |line| ==> !IsWordChar(line[end]))
  }

  /** Two words, the second at `k`, with nothing but white space between them, and some of it. */
  ghost predicate TwoWords(line: string, i: nat, first: string, k: nat, second: string) {
    && Spelled(line, i, first) && Spelled(line, k, second) && i + |first| < k
    && (forall n :: i + |first| <= n < k ==> IsSpace(line[n]))
    && StandsAlone(line, i, k + |second|)
  }

  lemma OneWordIff(line: string, i: nat, word: string)
    ensures MatchAt(line, i, [word]) <==> Spelled(line, i, word) && StandsAlone(line, i, i + |word|)
  {
  }

  lemma TwoWordsIff(line: string, i: nat, first: string, second: string)
    requires second != "" && IsWordChar(second[0])
    ensures MatchAt(line, i, [first, second]) <==> exists k: nat :: TwoWords(line, i, first, k, second)
  {
    hide IsWordChar, IsSpace, LowerChar, SkipSpaces, WordsEnd, Spelled;
    var end := i + |first|;
    var next := SkipSpaces(line, end);
    TwoWordsEnd(line, i, first, second);
    if Spelled(line, i, first) {
      FitsIn(line, i, first);
      SkipsSpaces(line, end);
      FitsIn(line, next, second);
      if MatchAt(line, i, [first, second]) { assert TwoWords(line, i, first, next, second); }
      if k: nat :| TwoWords(line, i, first, k, second) {
        FirstLetter(line, k, second);
        assert k == next;
      }
    }
  }

  lemma TwoWordsEnd(line: string, i: nat, first: string, second: string)
    ensures var next := SkipSpaces(line, i + |first|);
            WordsEnd(line, i, [first, second]) == if Spelled(line, i, first) && next > i + |first| && Spelled(line, next, second)
                                                  then Some(next + |second|) else None
  {
    hide SkipSpaces, LowerChar;
    assert [first, second][1..] == [second];
    var next := SkipSpaces(line, i + |first|);
    assert WordAt(line, i, first) <==> Spelled(line, i, first);
    assert WordsEnd(line, next, [second]) == if Spelled(line, next, second) then Some(next + |second|) else None;
  }

  lemma FitsIn(line: string, i: nat, word: string)
    ensures Spelled(line, i, word) ==> i + |word| <= |line|
  {
  }

  lemma FirstLetter(line: string, k: nat, word: string)
    requires Spelled(line, k, word) && word != "" && IsWordChar(word[0])
    ensures k < |line| && !IsSpace(line[k])
  {
    assert LowerChar(line[k + 0]) == word[0];
    NoSpaceInWord(line[k], word[0]);
  }

  lemma {:induction false} SkipsSpaces(line: string, i: nat)
    requires i <= |line|
    ensures var j := SkipSpaces(line, i);
            j <= |line| && (forall n :: i <= n < j ==> IsSpace(line[n])) && (j < |line| ==> !IsSpace(line[j]))
    decreases |line| - i
  {
    hide IsSpace;
    if i < |line| && IsSpace(line[i]) { SkipsSpaces(line, i + 1); }
  }

  lemma NoSpaceInWord(c: char, letter: char)
    requires LowerChar(c) == letter && IsWordChar(letter)
    ensures !IsSpace(c)
  {
  }

  /** The first place of a line where the words match, or None when there is none. */
  ghost predicate IsFirst(line: string, words: seq<string>, r: Option<nat>)
    requires words != []
  {
    if r.None? then forall k: nat :: k < |line| ==> !MatchAt(line, k, words)
    else r.value < |line| && MatchAt(line, r.value, words) && forall k: nat :: k < r.value ==> !MatchAt(line, k, words)
  }

  lemma FirstIsOne(line: string, words: seq<string>, a: Option<nat>, b: Option<nat>)
    requires words != [] && IsFirst(line, words, a) && IsFirst(line, words, b)
    ensures a == b
  {
    hide MatchAt;
  }

  /** The three columns are where their header words come first in the line. */
  lemma PositionsIff(line: string, p: Positions)
    ensures PositionsIn(line) == p <==>
            && IsFirst(line, ["card", "type"], p.cardType) && IsFirst(line, ["status"], p.status)
            && IsFirst(line, ["fw", "version"], p.fwVersion)
  {
    hide MatchAt, IsFirst, Search;
    var q := PositionsIn(line);
    SearchIsFirst(line, CARD_TYPE, 0);
    SearchIsFirst(line, STATUS, 0);
    SearchIsFirst(line, FW_VERSION, 0);
    if IsFirst(line, CARD_TYPE, p.cardType) { FirstIsOne(line, CARD_TYPE, p.cardType, q.cardType); }
    if IsFirst(line, STATUS, p.status) { FirstIsOne(line, STATUS, p.status, q.status); }
    if IsFirst(line, FW_VERSION, p.fwVersion) { FirstIsOne(line, FW_VERSION, p.fwVersion, q.fwVersion); }
  }

  lemma {:induction false} SearchIsFirst(line: string, words: seq<string>, from: nat)
    requires words != []
    ensures from == 0 ==> IsFirst(line, words, Search(line, words, 0))
    ensures var r := Search(line, words, from);
            && (r.None? ==> forall k: nat :: from <= k < |line| ==> !MatchAt(line, k, words))
            && (r.Some? ==> from <= r.value < |line| && MatchAt(line, r.value, words)
                            && forall k: nat :: from <= k < r.value ==> !MatchAt(line, k, words))
    decreases |line| - from
  {
    hide MatchAt;
    if from < |line| && !MatchAt(line, from, words) { SearchIsFirst(line, words, from + 1); }
  }

  /** What a word goes on with, by code point: digits, capital letters, underscore, small letters. */
  lemma WordCharTerms(c: char)
    ensures var n := c as int;
            IsWordChar(c) <==> 0x30 <= n <= 0x39 || 0x41 <= n <= 0x5A || n == 0x5F || 0x61 <= n <= 0x7A
  {
  }

  lemma {:induction false} BestIsFirstMost(lines: seq<string>)
    ensures var best := Best(lines);
            && (best.None? <==> forall j :: 0 <= j < |lines| ==> Count(PositionsIn(lines[j])) == 0)
            && (best.Some? ==>
                  && (forall j :: 0 <= j < |lines| ==> Count(PositionsIn(lines[j])) <= Count(PositionsIn(lines[best.value])))
                  && (forall j :: 0 <= j < best.value ==> Count(PositionsIn(lines[j])) < Count(PositionsIn(lines[best.value])))
                  && Count(PositionsIn(lines[best.value])) > 0)
    decreases |lines|
  {
    hide PositionsIn;
    if lines != [] {
      var n := |lines| - 1;
      BestIsFirstMost(lines[..n]);
      forall j | 0 <= j < n ensures lines[..n][j] == lines[j] {}
    }
  }

  /** The loop may stop at the first line that has all three columns: no later line can beat it. */
  lemma {:induction false} FullLineIsBest(lines: seq<string>, i: nat)
    requires i < |lines| && Count(PositionsIn(lines[i])) == 3
    requires forall j :: 0 <= j < i ==> Count(PositionsIn(lines[j])) < 3
    ensures Best(lines) == Some(i)
  {
    BestIsFirstMost(lines);
  }

  method FindHeader(lines: seq<string>) returns (index: Option<nat>, positions: Positions)
    ensures index == Best(lines) && positions == BestPositions(lines, index)
  {
    hide PositionsIn;
    index, positions := None, NOWHERE;
    for i := 0 to |lines|
      invariant index == Best(lines[..i]) && positions == BestPositions(lines[..i], index)
      invariant forall j :: 0 <= j < i ==> Count(PositionsIn(lines[j])) < 3
    {
      assert lines[..i + 1][..i] == lines[..i];
      var found := PositionsIn(lines[i]);
      if Count(found) > Count(positions) {
        index, positions := Some(i), found;
      }
      if Count(found) == 3 {
        FullLineIsBest(lines, i);
        return Some(i), found;
      }
    }
    assert lines[..|lines|] == lines;
  }

  // ---- Rows ----

  /** line[from:to], as Python slices. */
  function Slice(line: string, from: nat, to: nat): string
    requires from <= to
  {
    line[(if from < |line| then from else |line|)..(if to < |line| then to else |line|)]
  }

  predicate IsSeparatorChar(c: char) { IsSpace(c) || c == '=' || c == '+' || c == '|' || c == ':' || c == '-' }

  predicate AllSeparators(s: string) { forall i :: 0 <= i < |s| ==> IsSeparatorChar(s[i]) }

  /** A rule between rows is made of these and white space. */
  lemma SeparatorTerms(c: char)
    ensures IsSeparatorChar(c) <==> IsSpace(c) || c in "=+|:-"
  {
  }

  /** Neither blank nor a rule of separator characters. */
  predicate IsRow(line: string) { !Blank(line) && !(line != [] && AllSeparators(line)) }

  datatype Columns = Columns(cardType: nat, status: nat, fwVersion: nat)

  predicate InOrder(c: Columns) { c.cardType < c.status < c.fwVersion }

  function RecordOf(line: string, c: Columns): Card
    requires InOrder(c)
  {
    Card(Strip(Slice(line, 0, c.cardType)),
         Strip(Slice(line, c.cardType, c.status)),
         Strip(Slice(line, c.status, c.fwVersion)),
         Strip(Slice(line, c.fwVersion, if c.fwVersion < |line| then |line| else c.fwVersion)))
  }

  function MissingIn(card: Card): seq<string> {
    (if card.cardType == [] then ["Card Type"] else []) + (if card.status == [] then ["Status"] else [])
    + (if card.fwVersion == [] then ["FW Version"] else [])
  }

  /** The four slices of a row are the whole row. */
  lemma SlicesAreTheRow(line: string, c: Columns)
    requires InOrder(c)
    ensures Slice(line, 0, c.cardType) + Slice(line, c.cardType, c.status) + Slice(line, c.status, c.fwVersion)
            + Slice(line, c.fwVersion, if c.fwVersion < |line| then |line| else c.fwVersion) == line
  {
  }

  /** The cards of the first `n` lines, or the first row among them that lacks a value; lines count from `first`. */
  function Cards(lines: seq<string>, c: Columns, first: nat): Result<seq<Card>, Error>
    requires InOrder(c)
    decreases |lines|
  {
    if lines == [] then Ok([])
    else
      var n := |lines| - 1;
      var before := Cards(lines[..n], c, first);
      if before.Err? || !IsRow(lines[n]) then before
      else
        var card := RecordOf(lines[n], c);
        if MissingIn(card) != [] then Err(MissingValues(first + n, MissingIn(card))) else Ok(before.value + [card])
  }

  function ParseLines(lines: seq<string>): Result<seq<Card>, Error> {
    var best := Best(lines);
    var p := BestPositions(lines, best);
    if MissingLabels(p) != [] then Err(MissingHeaders(MissingLabels(p)))
    else
      var c := Columns(p.cardType.value, p.status.value, p.fwVersion.value);
      if !InOrder(c) then Err(ColumnOrder)
      else
        var h := best.value;
        var cards := Cards(lines[h + 1..], c, h + 2);
        if cards.Ok? && cards.value == [] then Err(NoRows) else cards
  }

  function Parse(output: string): Result<seq<Card>, Error> {
    if Blank(output) then Err(EmptyOutput) else ParseLines(SplitLines(NormalizeNewlines(output)))
  }

  method ParseLineCardStatus(output: string) returns (r: Result<seq<Card>, Error>)
    ensures r == Parse(output)
  {
    hide Best, BestPositions, Blank, SplitLines, NormalizeNewlines, RecordOf, IsRow, MissingIn, MissingLabels;
    if Blank(output) {
      return Err(EmptyOutput);
    }
    var lines := SplitLines(NormalizeNewlines(output));
    var index, p := FindHeader(lines);
    var missing := MissingLabels(p);
    if missing != [] {
      return Err(MissingHeaders(missing));
    }
    HeaderWasFound(lines);
    NothingMissing(p);
    var c := Columns(p.cardType.value, p.status.value, p.fwVersion.value);
    if !(c.cardType < c.status < c.fwVersion) {
      return Err(ColumnOrder);
    }
    var rows := lines[index.value + 1..];
    var cards: seq<Card> := [];
    for i := 0 to |rows|
      invariant Cards(rows[..i], c, index.value + 2) == Ok(cards)
    {
      assert rows[..i + 1][..i] == rows[..i];
      if !IsRow(rows[i]) {
        continue;
      }
      var card := RecordOf(rows[i], c);
      if MissingIn(card) != [] {
        CardsStop(rows, c, index.value + 2, i + 1);
        return Err(MissingValues(index.value + 2 + i, MissingIn(card)));
      }
      cards := cards + [card];
    }
    assert rows[..|rows|] == rows;
    if cards == [] {
      return Err(NoRows);
    }
    return Ok(cards);
  }

  lemma HeaderWasFound(lines: seq<string>)
    ensures MissingLabels(BestPositions(lines, Best(lines))) == [] ==> Best(lines).Some?
  {
  }

  /** The first bad row decides. */
  lemma {:induction false} CardsStop(lines: seq<string>, c: Columns, first: nat, n: nat)
    requires InOrder(c) && n <= |lines| && Cards(lines[..n], c, first).Err?
    ensures Cards(lines, c, first) == Cards(lines[..n], c, first)
    decreases |lines|
  {
    hide RecordOf, MissingIn, IsRow;
    if n < |lines| {
      var front := lines[..|lines| - 1];
      assert front[..n] == lines[..n];
      CardsStop(front, c, first, n);
    } else {
      assert lines[..n] == lines;
    }
  }

  /** The rows that count. */
  function Rows(lines: seq<string>): seq<string>
    decreases |lines|
  {
    if lines == [] then []
    else Rows(lines[..|lines| - 1]) + if IsRow(lines[|lines| - 1]) then [lines[|lines| - 1]] else []
  }

  /** The cards are the rows, sliced, and each has its three values. */
  predicate ReadFrom(cards: seq<Card>, rows: seq<string>, c: Columns)
    requires InOrder(c)
  {
    && |cards| == |rows|
    && forall i :: 0 <= i < |cards| ==> cards[i] == RecordOf(rows[i], c) && MissingIn(cards[i]) == []
  }

  /**
   No row is lost or invented: on accepted input the cards are, in order and one to one, the slices of the
   lines after the header that are neither blank nor separators, all of them with their three values.
   */
  lemma {:induction false} CardsAreTheRows(lines: seq<string>, c: Columns, first: nat)
    requires InOrder(c)
    ensures var r := Cards(lines, c, first);
            && (r.Ok? ==> ReadFrom(r.value, Rows(lines), c))
            && (r.Err? ==>
                  && r.error.MissingValues? && first <= r.error.lineNumber < first + |lines|
                  && var line := lines[r.error.lineNumber - first];
                     IsRow(line) && r.error.labels == MissingIn(RecordOf(line, c)) != [])
    decreases |lines|
  {
    hide RecordOf, MissingIn, IsRow;
    if lines != [] {
      CardsAreTheRows(lines[..|lines| - 1], c, first);
    }
  }

  /** Which values count as missing, by their labels. */
  lemma MissingTerms(card: Card)
    ensures MissingIn(card) == [] <==> card.cardType != [] && card.status != [] && card.fwVersion != []
    ensures "Card Type" in MissingIn(card) <==> card.cardType == []
    ensures "Status" in MissingIn(card) <==> card.status == []
    ensures "FW Version" in MissingIn(card) <==> card.fwVersion == []
  {
    var a := if card.cardType == [] then ["Card Type"] else [];
    var b := if card.status == [] then ["Status"] else [];
    assert MissingIn(card) == a + b + (if card.fwVersion == [] then ["FW Version"] else []);
  }

  /** Why output is refused, in the order of the checks. */
  lemma RefusedFor(output: string)
    ensures AllSpace(output) ==> Parse(output) == Err(EmptyOutput)
    ensures !AllSpace(output) ==>
              var lines := SplitLines(NormalizeNewlines(output));
              var p := BestPositions(lines, Best(lines));
              && (p.cardType.None? || p.status.None? || p.fwVersion.None? ==>
                    Parse(output) == Err(MissingHeaders((if p.cardType.None? then ["Card Type"] else [])
                                                        + (if p.status.None? then ["Status"] else [])
                                                        + (if p.fwVersion.None? then ["FW Version"] else []))))
              && (p.cardType.Some? && p.status.Some? && p.fwVersion.Some? ==>
                    !(p.cardType.value < p.status.value < p.fwVersion.value) ==> Parse(output) == Err(ColumnOrder))
  {
    BlankIsAllSpace(output);
    hide AllSpace, Blank, SplitLines, NormalizeNewlines, Best, BestPositions, Cards;
  }

  /** On accepted output the snapshot is complete: all rows below the best header line `h`, and nothing else. */
  lemma AcceptedIsComplete(output: string) returns (lines: seq<string>, h: nat, c: Columns)
    requires Parse(output).Ok?
    ensures lines == SplitLines(NormalizeNewlines(output)) && Best(lines) == Some(h) && h < |lines|
    ensures PositionsIn(lines[h]) == Positions(Some(c.cardType), Some(c.status), Some(c.fwVersion)) && InOrder(c)
    ensures Parse(output).value != [] && ReadFrom(Parse(output).value, Rows(lines[h + 1..]), c)
  {
    hide PositionsIn, ReadFrom, SplitLines, NormalizeNewlines, Blank, Best, Cards, Rows, ParseLines, BestPositions;
    lines := SplitLines(NormalizeNewlines(output));
    h, c := AcceptedLines(lines);
  }

  lemma AcceptedLines(lines: seq<string>) returns (h: nat, c: Columns)
    requires ParseLines(lines).Ok?
    ensures Best(lines) == Some(h) && h < |lines|
    ensures PositionsIn(lines[h]) == Positions(Some(c.cardType), Some(c.status), Some(c.fwVersion)) && InOrder(c)
    ensures ParseLines(lines).value != [] && ReadFrom(ParseLines(lines).value, Rows(lines[h + 1..]), c)
  {
    hide PositionsIn, ReadFrom, Best, Cards, Rows, MissingLabels, RecordOf, MissingIn, IsRow;
    HeaderWasFound(lines);
    NothingMissing(BestPositions(lines, Best(lines)));
    h := Best(lines).value;
    var p := PositionsIn(lines[h]);
    c := Columns(p.cardType.value, p.status.value, p.fwVersion.value);
    CardsAreTheRows(lines[h + 1..], c, h + 2);
  }

  // ---- The printer ----

  function Spaces(n: nat): (s: string)
    ensures |s| == n && AllSpace(s) && forall i :: 0 <= i < n ==> s[i] == ' '
  {
    if n == 0 then [] else [' '] + Spaces(n - 1)
  }

  /** Left-justified in a column. */
  function Pad(s: string, width: nat): string { s + Spaces(if |s| < width then width - |s| else 0) }

  /** Room for the header labels with a space between them. */
  predicate Wide(c: Columns) { c.cardType + 10 <= c.status && c.status + 7 <= c.fwVersion }

  function Header(c: Columns): string
    requires Wide(c)
  {
    Spaces(c.cardType) + Pad("Card Type", c.status - c.cardType) + Pad("Status", c.fwVersion - c.status) + "FW Version"
  }

  function RowOf(card: Card, c: Columns): string
    requires Wide(c)
  {
    Pad(card.slot, c.cardType) + Pad(card.cardType, c.status - c.cardType)
    + Pad(card.status, c.fwVersion - c.status) + card.fwVersion
  }

  /** Trimmed fields, the three required ones there. */
  predicate Filled(card: Card) {
    && Trimmed(card.slot) && Trimmed(card.cardType) && Trimmed(card.status) && Trimmed(card.fwVersion)
    && card.cardType != [] && card.status != [] && card.fwVersion != []
  }

  /** Every field but the last within its column. */
  predicate InColumns(card: Card, c: Columns)
    requires Wide(c)
  {
    |card.slot| <= c.cardType && |card.cardType| <= c.status - c.cardType && |card.status| <= c.fwVersion - c.status
  }

  predicate Fits(card: Card, c: Columns)
    requires Wide(c)
  {
    && Filled(card) && InColumns(card, c)
    && OneLine(card.slot) && OneLine(card.cardType) && OneLine(card.status) && OneLine(card.fwVersion)
  }

  function RowsOf(cards: seq<Card>, c: Columns): seq<string>
    requires Wide(c)
    decreases |cards|
  {
    if cards == [] then [] else RowsOf(cards[..|cards| - 1], c) + [RowOf(cards[|cards| - 1], c)]
  }

  function Render(cards: seq<Card>, c: Columns): string
    requires Wide(c)
  {
    JoinLines([Header(c)] + RowsOf(cards, c))
  }

  /** A card whose every character could belong to a rule between rows. */
  predicate LooksLikeARule(card: Card) {
    AllSeparators(card.slot) && AllSeparators(card.cardType) && AllSeparators(card.status) && AllSeparators(card.fwVersion)
  }

  function Visible(cards: seq<Card>): seq<Card>
    decreases |cards|
  {
    if cards == [] then []
    else Visible(cards[..|cards| - 1]) + if LooksLikeARule(cards[|cards| - 1]) then [] else [cards[|cards| - 1]]
  }

  // ---- Parser after printer ----

  /** The fields are read back exactly when each is within its column. */
  lemma RecordOfRowIff(card: Card, c: Columns)
    requires Wide(c) && Filled(card)
    ensures RecordOf(RowOf(card, c), c) == card <==> InColumns(card, c)
  {
    hide IsSpace, Spaces, Strip, OneLine;
    var row := RowOf(card, c);
    if InColumns(card, c) {
      RecordOfRow(card, c);
    } else {
      StripShrinks(Slice(row, 0, c.cardType));
      StripShrinks(Slice(row, c.cardType, c.status));
      StripShrinks(Slice(row, c.status, c.fwVersion));
    }
  }

  lemma StripShrinks(s: string)
    ensures |Strip(s)| <= |s|
  {
  }

  /**
   A card type of one word that is too long for its column is cut in two, its rest read as the status, and
   the row is accepted: no value counts as missing, although the parser is documented to fail closed.
   */
  lemma OverlongIsAccepted(card: Card, c: Columns)
    requires Wide(c) && Filled(card) && |card.slot| <= c.cardType
    requires forall i :: 0 <= i < |card.cardType| ==> !IsSpace(card.cardType[i])
    ensures var read := RecordOf(RowOf(card, c), c);
            MissingIn(read) == [] && (|card.cardType| > c.status - c.cardType ==> read != card)
  {
    hide Spaces, Strip, OneLine;
    RecordOfRowIff(card, c);
    var row, width := RowOf(card, c), c.status - c.cardType;
    var a, b := Pad(card.slot, c.cardType), Pad(card.cardType, width);
    assert row == a + b + Pad(card.status, c.fwVersion - c.status) + card.fwVersion;
    assert row[c.cardType] == card.cardType[0];
    assert row[c.status] == if |card.cardType| > width then card.cardType[width] else card.status[0];
    assert row[|row| - 1] == card.fwVersion[|card.fwVersion| - 1];
    hide IsSpace, Pad, RowOf;
    InkInSlice(row, c.cardType, c.status, c.cardType);
    InkInSlice(row, c.status, c.fwVersion, c.status);
    InkInSlice(row, c.fwVersion, |row|, |row| - 1);
  }

  lemma InkInSlice(row: string, from: nat, to: nat, i: nat)
    requires from <= i < to && i < |row| && !IsSpace(row[i])
    ensures Strip(Slice(row, from, to)) != []
  {
    hide IsSpace, Strip;
    var part := Slice(row, from, to);
    assert part[i - from] == row[i];
    HasInk(part, i - from);
  }

  lemma RecordOfRow(card: Card, c: Columns)
    requires Wide(c) && Filled(card) && InColumns(card, c)
    ensures RecordOf(RowOf(card, c), c) == card && MissingIn(card) == []
  {
    hide IsSpace, Spaces, Strip, OneLine;
    var row := RowOf(card, c);
    var a, b := Pad(card.slot, c.cardType), Pad(card.cardType, c.status - c.cardType);
    var d := Pad(card.status, c.fwVersion - c.status);
    assert row == a + b + d + card.fwVersion;
    assert Slice(row, 0, c.cardType) == a;
    assert Slice(row, c.cardType, c.status) == b;
    assert Slice(row, c.status, c.fwVersion) == d;
    assert Slice(row, c.fwVersion, |row|) == card.fwVersion;
    StripOfPad(card.slot, c.cardType);
    StripOfPad(card.cardType, c.status - c.cardType);
    StripOfPad(card.status, c.fwVersion - c.status);
    StripIsTrimmed(card.fwVersion);
  }

  lemma StripOfPad(s: string, width: nat)
    requires Trimmed(s)
    ensures Strip(Pad(s, width)) == s
  {
    hide IsSpace, Spaces, Strip;
    var right := Spaces(if |s| < width then width - |s| else 0);
    assert AllSpace([]);
    StripOfPadded([], s, right);
    assert [] + s + right == s + right;
  }

  lemma AllSeparatorsConcat(a: string, b: string)
    ensures AllSeparators(a + b) <==> AllSeparators(a) && AllSeparators(b)
  {
    hide IsSeparatorChar;
    if AllSeparators(a + b) {
      forall i | 0 <= i < |a| ensures IsSeparatorChar(a[i]) { assert (a + b)[i] == a[i]; }
      forall i | 0 <= i < |b| ensures IsSeparatorChar(b[i]) { assert (a + b)[|a| + i] == b[i]; }
    }
  }

  lemma SpacesSeparate(s: string, width: nat)
    ensures AllSeparators(Pad(s, width)) <==> AllSeparators(s)
  {
    var right := Spaces(if |s| < width then width - |s| else 0);
    AllSeparatorsConcat(s, right);
  }

  /** A printed row survives exactly when some character of it could not belong to a rule. */
  lemma RowSurvivesIff(card: Card, c: Columns)
    requires Wide(c) && Fits(card, c)
    ensures IsRow(RowOf(card, c)) <==> !LooksLikeARule(card)
  {
    hide IsSpace, Spaces, Strip, OneLine, AllSeparators, Blank;
    var row := RowOf(card, c);
    var a, b := Pad(card.slot, c.cardType), Pad(card.cardType, c.status - c.cardType);
    var d := Pad(card.status, c.fwVersion - c.status);
    AllSeparatorsConcat(a + b + d, card.fwVersion);
    AllSeparatorsConcat(a + b, d);
    AllSeparatorsConcat(a, b);
    SpacesSeparate(card.slot, c.cardType);
    SpacesSeparate(card.cardType, c.status - c.cardType);
    SpacesSeparate(card.status, c.fwVersion - c.status);
    assert row[|a + b + d|] == card.fwVersion[0];
    HasInk(row, |a + b + d|);
  }

  lemma FittingCard(card: Card, c: Columns)
    requires Wide(c) && Fits(card, c)
    ensures Filled(card) && InColumns(card, c)
  {
  }

  lemma {:induction false} CardsOfRows(cards: seq<Card>, c: Columns, first: nat)
    requires Wide(c) && forall i :: 0 <= i < |cards| ==> Fits(cards[i], c)
    ensures Cards(RowsOf(cards, c), c, first) == Ok(Visible(cards))
    ensures |RowsOf(cards, c)| == |cards|
    decreases |cards|
  {
    hide RecordOf, RowOf, IsRow, LooksLikeARule, Fits;
    if cards != [] {
      var n := |cards| - 1;
      CardsOfRows(cards[..n], c, first);
      RowSurvivesIff(cards[n], c);
      FittingCard(cards[n], c);
      RecordOfRow(cards[n], c);
      var rows := RowsOf(cards, c);
      assert rows[..n] == RowsOf(cards[..n], c) && rows[n] == RowOf(cards[n], c);
      assert Visible(cards[..n]) + [] == Visible(cards[..n]);
    }
  }

  lemma {:induction false} SearchFinds(line: string, words: seq<string>, from: nat, at: nat)
    requires words != [] && words[0] != [] && from <= at < |line| && MatchAt(line, at, words)
    requires forall i :: from <= i < at ==> LowerChar(line[i]) != words[0][0]
    ensures Search(line, words, from) == Some(at)
    decreases at - from
  {
    if from < at {
      assert !WordAt(line, from, words[0]) by { assert LowerChar(line[from + 0]) != words[0][0]; }
      SearchFinds(line, words, from + 1, at);
    }
  }

  lemma {:induction false} SkipsOneSpace(line: string, i: nat)
    requires i + 1 < |line| && IsSpace(line[i]) && !IsSpace(line[i + 1])
    ensures SkipSpaces(line, i) == i + 1
  {
    assert SkipSpaces(line, i + 1) == i + 1;
  }

  lemma HeaderLetters(c: Columns)
    requires Wide(c)
    ensures var h := Header(c);
            && |h| == c.fwVersion + 10
            && (forall i :: 0 <= i < c.cardType ==> h[i] == ' ')
            && h[c.cardType..c.cardType + 9] == "Card Type"
            && (forall i :: c.cardType + 9 <= i < c.status ==> h[i] == ' ')
            && h[c.status..c.status + 6] == "Status"
            && (forall i :: c.status + 6 <= i < c.fwVersion ==> h[i] == ' ')
            && h[c.fwVersion..] == "FW Version"
  {
    hide IsSpace, AllSpace;
  }

  /** Each label is found in its own column and nowhere before. */
  lemma HeaderColumns(c: Columns)
    requires Wide(c)
    ensures PositionsIn(Header(c)) == Positions(Some(c.cardType), Some(c.status), Some(c.fwVersion))
  {
    hide Header, Spaces;
    HeaderLetters(c);
    var h := Header(c);
    CardTypeMatches(h, c.cardType);
    StatusMatches(h, c.status);
    FwVersionMatches(h, c.fwVersion);
    NoLetterBefore(h, c);
    SearchFinds(h, CARD_TYPE, 0, c.cardType);
    SearchFinds(h, STATUS, 0, c.status);
    SearchFinds(h, FW_VERSION, 0, c.fwVersion);
  }

  lemma NoLetterBefore(h: string, c: Columns)
    requires Wide(c) && |h| == c.fwVersion + 10
    requires forall i :: 0 <= i < c.cardType ==> h[i] == ' '
    requires h[c.cardType..c.cardType + 9] == "Card Type"
    requires forall i :: c.cardType + 9 <= i < c.status ==> h[i] == ' '
    requires h[c.status..c.status + 6] == "Status"
    requires forall i :: c.status + 6 <= i < c.fwVersion ==> h[i] == ' '
    ensures forall i :: 0 <= i < c.cardType ==> LowerChar(h[i]) != 'c'
    ensures forall i :: 0 <= i < c.status ==> LowerChar(h[i]) != 's'
    ensures forall i :: 0 <= i < c.fwVersion ==> LowerChar(h[i]) != 'f'
  {
    forall i | 0 <= i < c.fwVersion ensures LowerChar(h[i]) != 'f' && (i < c.status ==> LowerChar(h[i]) != 's') {
      if c.cardType <= i < c.cardType + 9 {
        assert h[i] == "Card Type"[i - c.cardType];
      } else if c.status <= i < c.status + 6 {
        assert h[i] == "Status"[i - c.status];
      }
    }
  }

  lemma CardTypeMatches(h: string, at: nat)
    requires at + 9 < |h| && h[at..at + 9] == "Card Type" && h[at + 9] == ' ' && (at > 0 ==> h[at - 1] == ' ')
    ensures MatchAt(h, at, CARD_TYPE)
  {
    forall k | 0 <= k < 9 ensures h[at + k] == "Card Type"[k] { assert h[at..at + 9][k] == h[at + k]; }
    forall k | 0 <= k < 4 ensures LowerChar(h[at + k]) == "card"[k] { assert LowerChar("Card Type"[k]) == "card"[k]; }
    assert WordAt(h, at, "card");
    forall k | 0 <= k < 4 ensures LowerChar(h[at + 5 + k]) == "type"[k] { assert LowerChar("Card Type"[5 + k]) == "type"[k]; }
    assert WordAt(h, at + 5, "type");
    SkipsOneSpace(h, at + 4);
    assert CARD_TYPE[1..] == ["type"];
  }

  lemma StatusMatches(h: string, at: nat)
    requires at + 6 < |h| && h[at..at + 6] == "Status" && h[at + 6] == ' ' && (at > 0 ==> h[at - 1] == ' ')
    ensures MatchAt(h, at, STATUS)
  {
    forall k | 0 <= k < 6 ensures h[at + k] == "Status"[k] { assert h[at..at + 6][k] == h[at + k]; }
    forall k | 0 <= k < 6 ensures LowerChar(h[at + k]) == "status"[k] { assert LowerChar("Status"[k]) == "status"[k]; }
    assert WordAt(h, at, "status");
  }

  lemma FwVersionMatches(h: string, at: nat)
    requires at + 10 == |h| && h[at..] == "FW Version" && (at > 0 ==> h[at - 1] == ' ')
    ensures MatchAt(h, at, FW_VERSION)
  {
    forall k | 0 <= k < 10 ensures h[at + k] == "FW Version"[k] { assert h[at..][k] == h[at + k]; }
    forall k | 0 <= k < 2 ensures LowerChar(h[at + k]) == "fw"[k] { assert LowerChar("FW Version"[k]) == "fw"[k]; }
    assert WordAt(h, at, "fw");
    forall k | 0 <= k < 7 ensures LowerChar(h[at + 3 + k]) == "version"[k] { assert LowerChar("FW Version"[3 + k]) == "version"[k]; }
    assert WordAt(h, at + 3, "version");
    SkipsOneSpace(h, at + 2);
    assert FW_VERSION[1..] == ["version"];
  }

  lemma OneLineConcat(a: string, b: string)
    ensures OneLine(a) && OneLine(b) ==> OneLine(a + b)
  {
    hide IsBreak;
  }

  lemma SpacesAreOneLine(n: nat)
    ensures OneLine(Spaces(n))
  {
  }

  lemma PadIsOneLine(s: string, width: nat)
    requires OneLine(s)
    ensures OneLine(Pad(s, width))
  {
    hide OneLine;
    SpacesAreOneLine(if |s| < width then width - |s| else 0);
    OneLineConcat(s, Spaces(if |s| < width then width - |s| else 0));
  }

  lemma RowIsOneLine(card: Card, c: Columns)
    requires Wide(c) && Fits(card, c)
    ensures OneLine(RowOf(card, c)) && RowOf(card, c) != []
  {
    hide OneLine, Pad, Trimmed;
    PadIsOneLine(card.slot, c.cardType);
    PadIsOneLine(card.cardType, c.status - c.cardType);
    PadIsOneLine(card.status, c.fwVersion - c.status);
    var a, b := Pad(card.slot, c.cardType), Pad(card.cardType, c.status - c.cardType);
    OneLineConcat(a, b);
    OneLineConcat(a + b, Pad(card.status, c.fwVersion - c.status));
    OneLineConcat(a + b + Pad(card.status, c.fwVersion - c.status), card.fwVersion);
  }

  lemma {:induction false} RowsAreOneLine(cards: seq<Card>, c: Columns)
    requires Wide(c) && forall i :: 0 <= i < |cards| ==> Fits(cards[i], c)
    ensures forall i :: 0 <= i < |RowsOf(cards, c)| ==> OneLine(RowsOf(cards, c)[i]) && RowsOf(cards, c)[i] != []
    decreases |cards|
  {
    hide OneLine, Fits, RowOf;
    if cards != [] {
      RowsAreOneLine(cards[..|cards| - 1], c);
      RowIsOneLine(cards[|cards| - 1], c);
    }
  }

  lemma HeaderIsOneLine(c: Columns)
    requires Wide(c)
    ensures OneLine(Header(c)) && Header(c) != []
  {
    hide Header, Spaces;
    HeaderLetters(c);
    var h := Header(c);
    forall i | 0 <= i < |h| ensures !IsBreak(h[i]) {
      if c.cardType <= i < c.cardType + 9 {
        assert h[i] == "Card Type"[i - c.cardType];
      } else if c.status <= i < c.status + 6 {
        assert h[i] == "Status"[i - c.status];
      } else if c.fwVersion <= i {
        assert h[i] == "FW Version"[i - c.fwVersion];
      }
    }
  }

  /**
   The printed table is read back: all the cards in order, but for those that look like a rule between
   rows, which are dropped without an error.
   */
  lemma ParseUndoesRender(cards: seq<Card>, c: Columns)
    requires Wide(c) && forall i :: 0 <= i < |cards| ==> Fits(cards[i], c)
    ensures Parse(Render(cards, c)) == if Visible(cards) == [] then Err(NoRows) else Ok(Visible(cards))
  {
    hide *;
    RenderedLines(cards, c);
    RenderHasInk(cards, c);
    ParseOfLines(Render(cards, c));
    RenderedCards(cards, c);
  }

  lemma ParseOfLines(output: string)
    requires !Blank(output)
    ensures Parse(output) == ParseLines(SplitLines(NormalizeNewlines(output)))
  {
    hide Blank, ParseLines, SplitLines, NormalizeNewlines;
  }

  lemma RenderedLines(cards: seq<Card>, c: Columns)
    requires Wide(c) && forall i :: 0 <= i < |cards| ==> Fits(cards[i], c)
    ensures SplitLines(NormalizeNewlines(Render(cards, c))) == [Header(c)] + RowsOf(cards, c)
  {
    hide Header, RowsOf, Fits, OneLine, SplitLines, JoinLines, NormalizeNewlines;
    var lines := [Header(c)] + RowsOf(cards, c);
    HeaderIsOneLine(c);
    RowsAreOneLine(cards, c);
    SplitUndoesJoin(lines);
    JoinHasNoReturn(lines);
    NormalizeLeaves(Render(cards, c));
  }

  lemma RenderedCards(cards: seq<Card>, c: Columns)
    requires Wide(c) && forall i :: 0 <= i < |cards| ==> Fits(cards[i], c)
    ensures ParseLines([Header(c)] + RowsOf(cards, c)) == if Visible(cards) == [] then Err(NoRows) else Ok(Visible(cards))
  {
    hide Header, RowsOf, Fits, Cards, PositionsIn, Visible, Best;
    var rows := RowsOf(cards, c);
    var lines := [Header(c)] + rows;
    HeaderColumns(c);
    FullLineIsBest(lines, 0);
    CardsOfRows(cards, c, 2);
    assert lines[1..] == rows;
  }

  lemma RenderHasInk(cards: seq<Card>, c: Columns)
    requires Wide(c)
    ensures !Blank(Render(cards, c))
  {
    HeaderLetters(c);
    var lines := [Header(c)] + RowsOf(cards, c);
    var text := JoinLines(lines);
    LineIsInJoin(lines, 0);
    assert Header(c)[c.cardType..c.cardType + 9][0] == 'C';
    assert 'C' in Header(c);
    var i :| 0 <= i < |text| && text[i] == 'C';
    HasInk(text, i);
  }

  /** Every card comes back exactly when none of them looks like a rule. */
  lemma {:induction false} AllVisibleIff(cards: seq<Card>)
    ensures |Visible(cards)| <= |cards|
    ensures Visible(cards) == cards <==> forall i :: 0 <= i < |cards| ==> !LooksLikeARule(cards[i])
    decreases |cards|
  {
    hide LooksLikeARule;
    if cards != [] {
      var n := |cards| - 1;
      AllVisibleIff(cards[..n]);
      assert cards == cards[..n] + [cards[n]];
      forall i | 0 <= i < n ensures cards[..n][i] == cards[i] {}
      if Visible(cards) == cards && !LooksLikeARule(cards[n]) {
        assert Visible(cards)[..n] == Visible(cards[..n]);
      }
    }
  }

  /** A card that is lost: a placeholder of dashes in every column. */
  lemma DashesAreDropped()
    ensures var c := Columns(6, 20, 30);
            Parse(Render([Card("", "-", "-", "-")], c)) == Err(NoRows)
  {
    hide Parse, Render;
    var card := Card("", "-", "-", "-");
    assert LooksLikeARule(card);
    assert Fits(card, Columns(6, 20, 30));
    assert [card][..0] == [];
    assert Visible([card]) == [];
    ParseUndoesRender([card], Columns(6, 20, 30));
  }
}
