/** MLST replies: the facts before an entry's name, section 7.2 of RFC 3659. */
module FtpFacts {
  import opened Basics
  import opened Text

  // ---- One list of facts ----

  /** value.split(";"): never empty. */
  function Items(value: string): (items: seq<string>)
    ensures |items| >= 1
  {
    if value == [] then [[]]
    else
      var rest := Items(value[1..]);
      if value[0] == ';' then [[]] + rest else [[value[0]] + rest[0]] + rest[1..]
  }

  /** item.split("=", 1), when there is a '=' to split at. */
  function CutEquals(item: string): Option<(string, string)> {
    if item == [] then None
    else if item[0] == '=' then Some(([], item[1..]))
    else
      match CutEquals(item[1..])
      case None => None
      case Some((key, value)) => Some(([item[0]] + key, value))
  }

  function Lower(s: string): (r: string)
    ensures |r| == |s| && forall i :: 0 <= i < |s| ==> r[i] == LowerChar(s[i])
  {
    if s == [] then [] else [LowerChar(s[0])] + Lower(s[1..])
  }

  /** What an item sets, if it sets anything. */
  function Setting(item: string): Option<(string, string)> {
    match CutEquals(item)
    case None => None
    case Some((key, value)) => Some((Lower(Strip(key)), Strip(value)))
  }

  /** Item i is the last one to set the key. */
  ghost predicate SetsLast(items: seq<string>, i: int, key: string, value: string) {
    && 0 <= i < |items| && Setting(items[i]) == Some((key, value))
    && forall j :: i < j < |items| ==> Setting(items[j]).None? || Setting(items[j]).value.0 != key
  }

  /** The dictionary holds, for each key that some item sets, the value of the last that does, and nothing else. */
  ghost predicate AreFacts(facts: map<string, string>, items: seq<string>) {
    && (forall key <- facts :: exists i :: SetsLast(items, i, key, facts[key]))
    && (forall i :: 0 <= i < |items| && Setting(items[i]).Some? ==> Setting(items[i]).value.0 in facts)
  }

  function Facts(items: seq<string>): map<string, string> {
    if items == [] then map[]
    else
      var last := |items| - 1;
      match Setting(items[last])
      case None => Facts(items[..last])
      case Some((key, value)) => Facts(items[..last])[key := value]
  }

  /** _parse_facts */
  method ParseFacts(value: string) returns (facts: map<string, string>)
    ensures facts == Facts(Items(value))
    ensures AreFacts(facts, Items(value))
  {
    var items := Items(value);
    facts := map[];
    for k := 0 to |items|
      invariant facts == Facts(items[..k])
    {
      assert items[..k + 1][..k] == items[..k];
      match CutEquals(items[k])
      case None =>
      case Some((key, text)) => facts := facts[Lower(Strip(key)) := Strip(text)];
    }
    assert items[..|items|] == items;
    FactsAreFacts(items);
  }

  lemma {:induction false} FactsAreFacts(items: seq<string>)
    ensures AreFacts(Facts(items), items)
  {
    hide Setting;
    if items != [] {
      var last := |items| - 1;
      var before := items[..last];
      FactsAreFacts(before);
      forall key <- Facts(items) ensures exists i :: SetsLast(items, i, key, Facts(items)[key]) {
        if Setting(items[last]).Some? && Setting(items[last]).value.0 == key {
          assert SetsLast(items, last, key, Facts(items)[key]);
        } else {
          var i :| SetsLast(before, i, key, Facts(before)[key]);
          assert SetsLast(items, i, key, Facts(items)[key]);
        }
      }
      forall i | 0 <= i < |items| && Setting(items[i]).Some? ensures Setting(items[i]).value.0 in Facts(items) {
        if i < last { assert before[i] == items[i]; }
      }
    }
  }

  // ---- Facts printed and read ----

  datatype Fact = Fact(key: string, value: string)

  predicate IsFact(f: Fact) {
    && Trimmed(f.key) && Trimmed(f.value) && ';' !in f.key && '=' !in f.key && ';' !in f.value
  }

  function PrintFact(f: Fact): string { f.key + "=" + f.value }

  /** Each fact ends in a semicolon. */
  function PrintFacts(facts: seq<Fact>): string {
    if facts == [] then "" else PrintFact(facts[0]) + ";" + PrintFacts(facts[1..])
  }

  /** The dictionary that a list of facts means: keys without regard to case, the last one counting. */
  function Meaning(facts: seq<Fact>): map<string, string> {
    if facts == [] then map[]
    else
      var last := |facts| - 1;
      Meaning(facts[..last])[Lower(facts[last].key) := facts[last].value]
  }

  lemma {:induction false} CutAtEquals(key: string, value: string)
    requires '=' !in key
    ensures CutEquals(key + "=" + value) == Some((key, value))
    decreases |key|
  {
    var item := key + "=" + value;
    if key == [] {
      assert item[1..] == value;
    } else {
      assert item[0] == key[0] && key[0] in key;
      assert item[1..] == key[1..] + "=" + value;
      CutAtEquals(key[1..], value);
      assert [key[0]] + key[1..] == key;
    }
  }

  lemma {:induction false} ItemsOf(item: string, rest: string)
    requires ';' !in item
    ensures Items(item + ";" + rest) == [item] + Items(rest)
    decreases |item|
  {
    var value := item + ";" + rest;
    if item == [] {
      assert value[1..] == rest;
    } else {
      assert value[0] == item[0] && item[0] in item;
      assert value[1..] == item[1..] + ";" + rest;
      ItemsOf(item[1..], rest);
      assert [item[0]] + item[1..] == item;
    }
  }

  function Printed(facts: seq<Fact>): (items: seq<string>)
    ensures |items| == |facts| && forall i :: 0 <= i < |facts| ==> items[i] == PrintFact(facts[i])
  {
    if facts == [] then [] else [PrintFact(facts[0])] + Printed(facts[1..])
  }

  lemma {:induction false} ItemsOfFacts(facts: seq<Fact>)
    requires forall i :: 0 <= i < |facts| ==> IsFact(facts[i])
    ensures Items(PrintFacts(facts)) == Printed(facts) + [[]]
    decreases |facts|
  {
    if facts != [] {
      ItemsOf(PrintFact(facts[0]), PrintFacts(facts[1..]));
      ItemsOfFacts(facts[1..]);
    }
  }

  lemma SettingOf(f: Fact)
    requires IsFact(f)
    ensures Setting(PrintFact(f)) == Some((Lower(f.key), f.value))
  {
    hide Lower, Strip, Trimmed;
    CutAtEquals(f.key, f.value);
    StripIsTrimmed(f.key);
    StripIsTrimmed(f.value);
  }

  /** White space around a key and around a value counts for nothing. */
  lemma SettingOfPadded(f: Fact, left: string, right: string, before: string, after: string)
    requires IsFact(f) && AllSpace(left) && AllSpace(right) && AllSpace(before) && AllSpace(after)
    ensures Setting(left + f.key + right + "=" + before + f.value + after) == Some((Lower(f.key), f.value))
  {
    SpaceIsNoEquals(left);
    SpaceIsNoEquals(right);
    hide Lower, Strip, Trimmed, AllSpace, IsSpace;
    var key, value := left + f.key + right, before + f.value + after;
    assert left + f.key + right + "=" + before + f.value + after == key + "=" + value;
    CutAtEquals(key, value);
    StripOfPadded(left, f.key, right);
    StripOfPadded(before, f.value, after);
  }

  lemma SpaceIsNoEquals(s: string)
    requires AllSpace(s)
    ensures '=' !in s
  {
  }

  lemma {:induction false} FactsOfPrinted(facts: seq<Fact>)
    requires forall i :: 0 <= i < |facts| ==> IsFact(facts[i])
    ensures Facts(Printed(facts)) == Meaning(facts)
    decreases |facts|
  {
    hide IsFact, PrintFact, Setting, Lower;
    if facts != [] {
      var last := |facts| - 1;
      assert Printed(facts)[..last] == Printed(facts[..last]);
      FactsOfPrinted(facts[..last]);
      SettingOf(facts[last]);
    }
  }

  /** Facts that are printed are read back, keys in lower case. */
  lemma FactsRoundTrip(facts: seq<Fact>)
    requires forall i :: 0 <= i < |facts| ==> IsFact(facts[i])
    ensures Facts(Items(PrintFacts(facts))) == Meaning(facts)
  {
    hide IsFact, Printed, PrintFacts, Items;
    ItemsOfFacts(facts);
    FactsOfPrinted(facts);
    var items := Printed(facts) + [[]];
    assert items[..|items| - 1] == Printed(facts);
    assert Setting([]).None?;
  }

  // ---- A reply ----

  /** text.split(None, 1)[0] of a stripped text. */
  function FirstWord(text: string): string {
    if text == [] || IsSpace(text[0]) then [] else [text[0]] + FirstWord(text[1..])
  }

  predicate HasCode(line: string) {
    |line| > 4 && IsDigit(line[0]) && IsDigit(line[1]) && IsDigit(line[2]) && (line[3] == '-' || line[3] == ' ')
  }

  function WithoutCode(raw: string): string {
    var line := Strip(raw);
    if HasCode(line) then LStrip(line[4..]) else line
  }

  /** The facts a reply line carries; a line without a "type" fact carries none. */
  function LineFacts(raw: string): Option<map<string, string>> {
    var line := WithoutCode(raw);
    if '=' !in line || ';' !in line then None
    else
      var facts := Facts(Items(FirstWord(line)));
      if "type" in facts then Some(facts) else None
  }

  /** _parse_mlst_response, on the reply's lines: the first line that carries facts, or an error. */
  method ParseMlstResponse(lines: seq<string>) returns (r: Option<map<string, string>>)
    ensures r.None? ==> forall i :: 0 <= i < |lines| ==> LineFacts(lines[i]).None?
    ensures r.Some? ==> exists k :: 0 <= k < |lines| && LineFacts(lines[k]) == r
                                    && forall i :: 0 <= i < k ==> LineFacts(lines[i]).None?
  {
    hide WithoutCode, Facts, AreFacts, Items, FirstWord;
    for k := 0 to |lines|
      invariant forall i :: 0 <= i < k ==> LineFacts(lines[i]).None?
    {
      var line := WithoutCode(lines[k]);
      if '=' !in line || ';' !in line { continue; }
      var facts := ParseFacts(FirstWord(line));
      if "type" in facts {
        assert LineFacts(lines[k]) == Some(facts);
        return Some(facts);
      }
    }
    return None;
  }

  predicate NoSpace(s: string) { forall i :: 0 <= i < |s| ==> !IsSpace(s[i]) }

  lemma {:induction false} FirstWordOf(word: string, rest: string)
    requires NoSpace(word) && (rest == [] || IsSpace(rest[0]))
    ensures FirstWord(word + rest) == word
    decreases |word|
  {
    if word == [] {
      assert word + rest == rest;
    } else {
      assert (word + rest)[1..] == word[1..] + rest;
      FirstWordOf(word[1..], rest);
    }
  }

  lemma {:induction false} PrintedEnds(facts: seq<Fact>)
    requires facts != []
    ensures var text := PrintFacts(facts); text != [] && text[|text| - 1] == ';' && '=' in text
  {
    var f := facts[0];
    assert PrintFacts(facts)[|f.key|] == '=';
    if |facts| > 1 { PrintedEnds(facts[1..]); }
  }

  /** A code at the start of an entry line is one at the start of its facts. */
  lemma CodeOfEntry(text: string, name: string)
    requires text != [] && text[|text| - 1] == ';'
    ensures HasCode(text + " " + name) <==> HasCode(text)
  {
    var line := text + " " + name;
    assert forall i :: 0 <= i < |text| ==> line[i] == text[i];
  }

  lemma SpaceIsSpace()
    ensures AllSpace(" ")
  {
  }

  lemma EntryIsStripped(text: string, name: string)
    requires text != [] && NoSpace(text) && name != [] && Trimmed(name)
    ensures Strip(" " + text + " " + name) == text + " " + name
  {
    hide IsSpace, Strip;
    var line := text + " " + name;
    assert line[|line| - 1] == name[|name| - 1];
    SpaceIsSpace();
    StripOfPadded(" ", line, "");
    assert " " + line + "" == " " + text + " " + name;
  }

  /**
   An entry line of section 7.2 (a space, the facts, a space, the name) carries exactly its facts, unless
   they start like a reply code, with three digits and a dash.  Nothing in the name, white space included, gets into them.
   */
  lemma EntryLineRoundTrip(facts: seq<Fact>, name: string)
    requires forall i :: 0 <= i < |facts| ==> IsFact(facts[i])
    requires NoSpace(PrintFacts(facts)) && name != [] && Trimmed(name)
    requires var text := PrintFacts(facts);
             |text| < 4 || text[3] != '-' || exists c <- text[..3] :: c !in "0123456789"
    requires "type" in Meaning(facts)
    ensures LineFacts(" " + PrintFacts(facts) + " " + name) == Some(Meaning(facts))
  {
    assert facts != [];
    NoCodeNoCode(PrintFacts(facts));
    hide *;
    var text := PrintFacts(facts);
    PrintedEnds(facts);
    EntryIsStripped(text, name);
    CodeOfEntry(text, name);
    FirstWordIsFacts(text, name);
    FactsRoundTrip(facts);
    EntryLine(" " + text + " " + name, text, name, Meaning(facts));
  }

  lemma NoCodeNoCode(text: string)
    requires NoSpace(text) && (|text| < 4 || text[3] != '-' || exists c <- text[..3] :: c !in "0123456789")
    ensures !HasCode(text)
  {
    if |text| >= 4 {
      DigitIff(text[0]);
      DigitIff(text[1]);
      DigitIff(text[2]);
    }
  }

  /**
   An entry on the line of the reply code itself, "250-" or "250 " and then the entry, carries exactly its
   facts: the code is taken off once, whatever the facts start with.
   */
  lemma CodedEntryRoundTrip(code: string, separator: char, gap: string, facts: seq<Fact>, name: string)
    requires |code| == 3 && (forall c <- code :: c in "0123456789") && (separator == '-' || separator == ' ') && AllSpace(gap)
    requires forall i :: 0 <= i < |facts| ==> IsFact(facts[i])
    requires NoSpace(PrintFacts(facts)) && name != [] && Trimmed(name) && "type" in Meaning(facts)
    ensures LineFacts(code + [separator] + gap + PrintFacts(facts) + " " + name) == Some(Meaning(facts))
  {
    assert facts != [];
    var text := PrintFacts(facts);
    var raw := code + [separator] + gap + text + " " + name;
    PrintedEnds(facts);
    CodeIsTakenOff(code, separator, gap, text, name);
    hide *;
    FirstWordIsFacts(text, name);
    FactsRoundTrip(facts);
    EntryFacts(raw, text, name, Meaning(facts));
  }

  lemma CodeIsTakenOff(code: string, separator: char, gap: string, text: string, name: string)
    requires |code| == 3 && (forall c <- code :: c in "0123456789") && (separator == '-' || separator == ' ') && AllSpace(gap)
    requires text != [] && NoSpace(text) && name != [] && Trimmed(name)
    ensures WithoutCode(code + [separator] + gap + text + " " + name) == text + " " + name
  {
    var entry := text + " " + name;
    var raw := code + [separator] + gap + text + " " + name;
    assert raw == code + [separator] + gap + entry;
    DigitIff(code[0]);
    DigitIff(code[1]);
    DigitIff(code[2]);
    assert code[0] in code && code[1] in code && code[2] in code;
    assert raw[0] == code[0] && raw[1] == code[1] && raw[2] == code[2] && raw[3] == separator;
    assert raw[|raw| - 1] == name[|name| - 1];
    DigitIsInk(code[0]);
    assert Trimmed(raw);
    assert raw[4..] == gap + entry;
    hide IsSpace, Strip, IsDigit, LStrip;
    StripIsTrimmed(raw);
    LStripOfPadded(gap, entry);
  }

  lemma DigitIsInk(c: char)
    requires IsDigit(c)
    ensures !IsSpace(c)
  {
  }

  lemma FirstWordIsFacts(text: string, name: string)
    requires NoSpace(text)
    ensures FirstWord(text + " " + name) == text
  {
    FirstWordOf(text, " " + name);
    assert text + (" " + name) == text + " " + name;
  }

  lemma EntryFacts(raw: string, text: string, name: string, facts: map<string, string>)
    requires WithoutCode(raw) == text + " " + name && FirstWord(text + " " + name) == text
    requires text != [] && text[|text| - 1] == ';' && '=' in text
    requires Facts(Items(text)) == facts && "type" in facts
    ensures LineFacts(raw) == Some(facts)
  {
    hide WithoutCode, FirstWord, Facts, Items;
    var line := text + " " + name;
    assert line[|text| - 1] == ';';
    var i :| 0 <= i < |text| && text[i] == '=';
    assert line[i] == '=';
  }

  lemma EntryLine(raw: string, text: string, name: string, facts: map<string, string>)
    requires Strip(raw) == text + " " + name && !HasCode(Strip(raw)) && FirstWord(Strip(raw)) == text
    requires text != [] && text[|text| - 1] == ';' && '=' in text
    requires Facts(Items(text)) == facts && "type" in facts
    ensures LineFacts(raw) == Some(facts)
  {
    hide Strip, HasCode, FirstWord, Facts, Items;
    EntryFacts(raw, text, name, facts);
  }
}
