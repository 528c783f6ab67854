/** The strict parsers of FTP metadata: UNIX LIST lines and MLST facts, with printers they undo. */
module FtpListing {
  import opened Basics
  import opened Text
  import Listings
  import Paths

  // ---- Fields ----

  predicate IsField(s: string) { s != [] && forall i :: 0 <= i < |s| ==> !IsSpace(s[i]) }

  predicate IsGap(s: string) { s != [] && AllSpace(s) }

  function FieldLength(s: string): (n: nat)
    ensures n <= |s|
  {
    if s == [] || IsSpace(s[0]) then 0 else 1 + FieldLength(s[1..])
  }

  /** A field, the white space after it, and what follows. */
  function TakeField(s: string): Option<(string, string)> {
    var n := FieldLength(s);
    var rest := LStrip(s[n..]);
    if n == 0 || |rest| == |s| - n then None else Some((s[..n], rest))
  }

  function TakeFields(s: string, count: nat): Option<(seq<string>, string)> {
    if count == 0 then Some(([], s))
    else
      match TakeField(s)
      case None => None
      case Some((field, rest)) =>
        match TakeFields(rest, count - 1)
        case None => None
        case Some((fields, name)) => Some(([field] + fields, name))
  }

  lemma {:induction false} FieldLengthOf(field: string, rest: string)
    requires (forall i :: 0 <= i < |field| ==> !IsSpace(field[i])) && (rest == [] || IsSpace(rest[0]))
    ensures FieldLength(field + rest) == |field|
    decreases |field|
  {
    if field == [] {
      assert field + rest == rest;
    } else {
      assert (field + rest)[1..] == field[1..] + rest;
      FieldLengthOf(field[1..], rest);
    }
  }

  lemma TakeFieldOf(field: string, gap: string, rest: string)
    requires IsField(field) && IsGap(gap) && rest != [] && !IsSpace(rest[0])
    ensures TakeField(field + gap + rest) == Some((field, rest))
  {
    hide IsSpace;
    assert IsSpace((gap + rest)[0]);
    FieldLengthOf(field, gap + rest);
    var s := field + gap + rest;
    assert s == field + (gap + rest);
    assert s[|field|..] == gap + rest;
    assert s[..|field|] == field;
    LStripOfPadded(gap, rest);
  }

  /** Fields and gaps in turn, then the name. */
  function Spaced(fields: seq<string>, gaps: seq<string>, name: string): string
    requires |fields| == |gaps|
  {
    if fields == [] then name else fields[0] + gaps[0] + Spaced(fields[1..], gaps[1..], name)
  }

  lemma {:induction false} TakeFieldsOf(fields: seq<string>, gaps: seq<string>, name: string)
    requires |fields| == |gaps| && name != [] && !IsSpace(name[0])
    requires forall i :: 0 <= i < |fields| ==> IsField(fields[i]) && IsGap(gaps[i])
    ensures TakeFields(Spaced(fields, gaps, name), |fields|) == Some((fields, name))
    ensures Spaced(fields, gaps, name) != [] && !IsSpace(Spaced(fields, gaps, name)[0])
    decreases |fields|
  {
    hide IsSpace, TakeField, AllSpace;
    if fields != [] {
      TakeFieldsOf(fields[1..], gaps[1..], name);
      TakeFieldOf(fields[0], gaps[0], Spaced(fields[1..], gaps[1..], name));
      assert [fields[0]] + fields[1..] == fields;
    }
  }

  // ---- LIST ----

  datatype Kind = Directory | RegularFile | Symlink

  datatype Entry = Entry(name: string, size: nat, kind: Kind)

  predicate AllDigits(s: string) { s != [] && forall c <- s :: IsDigit(c) }

  predicate AnyOf(s: string, allowed: string) { forall i :: 0 <= i < |s| ==> s[i] in allowed }

  /** [bcdlps-][rwxStTs-]{9}[.+@]? */
  predicate IsMode(s: string) {
    && (|s| == 10 || (|s| == 11 && s[10] in ".+@"))
    && s[0] in "bcdlps-" && AnyOf(s[1..10], "rwxStTs-")
  }

  /** 1 to 12, or 0 for anything else. */
  function MonthNumber(s: string): nat {
    if s == "Jan" then 1 else if s == "Feb" then 2 else if s == "Mar" then 3 else if s == "Apr" then 4
    else if s == "May" then 5 else if s == "Jun" then 6 else if s == "Jul" then 7 else if s == "Aug" then 8
    else if s == "Sep" then 9 else if s == "Oct" then 10 else if s == "Nov" then 11 else if s == "Dec" then 12 else 0
  }

  function DaysIn(year: nat, month: nat): nat {
    if month == 2 then (if year % 4 == 0 && (year % 100 != 0 || year % 400 == 0) then 29 else 28)
    else if month == 4 || month == 6 || month == 9 || month == 11 then 30 else 31
  }

  predicate IsClock(s: string) { |s| == 5 && s[2] == ':' && AllDigits(s[..2]) && AllDigits(s[3..]) }

  predicate IsYear(s: string) { |s| == 4 && AllDigits(s) }

  /** A clock time stands for some day of a leap year. */
  predicate IsDate(month: string, day: string, when: string)
    requires AllDigits(day) && (IsClock(when) || IsYear(when))
  {
    var year := if IsClock(when) then 2000 else DecimalValue(when);
    && (IsClock(when) ==> DecimalValue(when[..2]) < 24 && DecimalValue(when[3..]) < 60)
    && 1 <= year && MonthNumber(month) > 0 && 1 <= DecimalValue(day) <= DaysIn(year, MonthNumber(month))
  }

  /** The eight columns before the name: mode, links, owner, group, size, month, day, time or year. */
  predicate AreColumns(f: seq<string>) {
    && |f| == 8 && IsMode(f[0]) && AllDigits(f[1]) && AllDigits(f[4])
    && MonthNumber(f[5]) > 0 && AllDigits(f[6]) && |f[6]| <= 2 && (IsClock(f[7]) || IsYear(f[7]))
    && IsDate(f[5], f[6], f[7])
  }

  function KindOf(mode: string): Option<Kind>
    requires mode != []
  {
    match mode[0]
    case '-' => Some(RegularFile)
    case 'd' => Some(Directory)
    case 'l' => Some(Symlink)
    case _ => None
  }

  /** How a server spells the kind of an entry: the first letter of its mode. */
  function KindLetter(kind: Kind): char {
    match kind case Directory => 'd' case RegularFile => '-' case Symlink => 'l'
  }

  lemma KindOfLetter(mode: string, kind: Kind)
    requires mode != []
    ensures KindOf(mode) == Some(kind) <==> mode[0] == KindLetter(kind)
  {
  }

  // ---- The columns, character by character ----

  /** A mode is a kind letter, nine permission characters and perhaps one mark. */
  lemma ModeTerms(s: string)
    ensures IsMode(s) <==> exists kind, permissions, mark :: SpellsMode(s, kind, permissions, mark)
  {
    if IsMode(s) {
      MarkOf(s);
      assert s == [s[0]] + s[1..10] + s[10..];
      assert SpellsMode(s, s[0], s[1..10], s[10..]);
    }
    forall kind, permissions, mark | SpellsMode(s, kind, permissions, mark) ensures IsMode(s) {
      assert s[0] == kind && s[1..10] == permissions && s[10..] == mark;
      assert forall i :: 0 <= i < 9 ==> permissions[i] in permissions;
    }
  }

  lemma MarkOf(s: string)
    requires IsMode(s)
    ensures s[10..] in {"", ".", "+", "@"}
  {
    assert s[10..] == if |s| == 11 then [s[10]] else "";
  }

  predicate SpellsMode(s: string, kind: char, permissions: string, mark: string) {
    && s == [kind] + permissions + mark
    && kind in {'b', 'c', 'd', 'l', 'p', 's', '-'}
    && |permissions| == 9 && (forall c <- permissions :: c in {'r', 'w', 'x', 'S', 't', 'T', 's', '-'})
    && mark in {"", ".", "+", "@"}
  }

  /** The months in their order, and how long they are. */
  lemma MonthTerms(s: string, year: nat)
    ensures var months := ["Jan", "Feb", "Mar", "Apr", "May", "Jun", "Jul", "Aug", "Sep", "Oct", "Nov", "Dec"];
            && (MonthNumber(s) == 0 <==> s !in months)
            && (MonthNumber(s) > 0 ==> MonthNumber(s) <= 12 && months[MonthNumber(s) - 1] == s)
    ensures forall m :: 1 <= m <= 12 && m != 2 ==> DaysIn(year, m) == [31, 0, 31, 30, 31, 30, 31, 31, 30, 31, 30, 31][m - 1]
    ensures DaysIn(year, 2) == if LeapYear(year) then 29 else 28
  {
    var months := ["Jan", "Feb", "Mar", "Apr", "May", "Jun", "Jul", "Aug", "Sep", "Oct", "Nov", "Dec"];
    if MonthNumber(s) > 0 { assert months[MonthNumber(s) - 1] == s; }
    if s in months { MonthIsKnown(s); }
    LeapIff(year);
  }

  lemma LeapIff(year: nat)
    ensures LeapYear(year) <==> year % 4 == 0 && (year % 100 != 0 || year % 400 == 0)
  {
    hide *;
    LeapMeans(year);
    MultipleOfFour(year);
    MultipleOfHundred(year);
    MultipleOfFourHundred(year);
  }

  lemma LeapMeans(year: nat)
    ensures LeapYear(year) <==>
            (exists n :: year == 4 * n) && ((exists n :: year == 100 * n) ==> exists n :: year == 400 * n)
  {
  }

  lemma MultipleOfFour(year: nat)
    ensures (exists n :: year == 4 * n) <==> year % 4 == 0
  {
    if year % 4 == 0 { assert year == 4 * (year / 4); }
  }

  lemma MultipleOfHundred(year: nat)
    ensures (exists n :: year == 100 * n) <==> year % 100 == 0
  {
    if year % 100 == 0 { assert year == 100 * (year / 100); }
  }

  lemma MultipleOfFourHundred(year: nat)
    ensures (exists n :: year == 400 * n) <==> year % 400 == 0
  {
    if year % 400 == 0 { assert year == 400 * (year / 400); }
  }

  lemma MonthIsKnown(s: string)
    requires s in ["Jan", "Feb", "Mar", "Apr", "May", "Jun", "Jul", "Aug", "Sep", "Oct", "Nov", "Dec"]
    ensures MonthNumber(s) > 0
  {
  }

  /** Every fourth year, but of the full centuries only every fourth. */
  ghost predicate LeapYear(year: nat) {
    (exists n :: year == 4 * n) && ((exists n :: year == 100 * n) ==> exists n :: year == 400 * n)
  }

  /** A safe name has something in it, no white space at either end, and no separator, NUL or line break. */
  lemma SafeNameTerms(name: string)
    ensures IsSafeName(name) <==>
            && name != [] && !IsSpace(name[0]) && !IsSpace(name[|name| - 1])
            && forall i :: 0 <= i < |name| ==>
                 name[i] != '/' && name[i] != '\\' && name[i] != '\0' && name[i] != '\r' && name[i] != '\n'
  {
    StripIsTrimmed(name);
    assert forall i :: 0 <= i < |name| ==> name[i] in name;
  }

  /** A day is accepted with a clock time up to 23:59, or with a year from 1 on, when its month is that long. */
  lemma DateTerms(month: string, day: string, when: string)
    requires AllDigits(day) && (IsClock(when) || IsYear(when)) && MonthNumber(month) > 0
    ensures IsClock(when) ==>
              (IsDate(month, day, when) <==>
                 && DecimalValue(when[..2]) <= 23 && DecimalValue(when[3..]) <= 59
                 && 1 <= DecimalValue(day) <= [31, 29, 31, 30, 31, 30, 31, 31, 30, 31, 30, 31][MonthNumber(month) - 1])
    ensures IsYear(when) ==>
              (IsDate(month, day, when) <==>
                 && DecimalValue(when) >= 1
                 && 1 <= DecimalValue(day) <= DaysIn(DecimalValue(when), MonthNumber(month)))
  {
    hide DecimalValue;
    MonthTerms(month, 2000);
    assert 2000 == 4 * 500 && 2000 == 400 * 5;
  }

  ghost predicate Number(s: string) { s != "" && forall c <- s :: c in "0123456789" }

  lemma NumberIff(s: string)
    ensures AllDigits(s) <==> Number(s)
  {
    forall c <- s ensures IsDigit(c) <==> c in "0123456789" { DigitIff(c); }
  }

  /** A day of the `m`-th month, counted from 0, with a time of day or with a year. */
  ghost predicate OnCalendar(month: string, day: string, when: string, m: int) {
    && 0 <= m < 12
    && month == ["Jan", "Feb", "Mar", "Apr", "May", "Jun", "Jul", "Aug", "Sep", "Oct", "Nov", "Dec"][m]
    && |day| <= 2 && (InTheDay(day, when, m) || InTheYear(day, when, m))
  }

  ghost predicate InTheDay(day: string, when: string, m: nat)
    requires m < 12
  {
    && Number(day) && |when| == 5 && when[2] == ':' && Number(when[..2]) && Number(when[3..])
    && DecimalValue(when[..2]) <= 23 && DecimalValue(when[3..]) <= 59
    && 1 <= DecimalValue(day) <= [31, 29, 31, 30, 31, 30, 31, 31, 30, 31, 30, 31][m]
  }

  ghost predicate InTheYear(day: string, when: string, m: nat)
    requires m < 12
  {
    && Number(day) && |when| == 4 && Number(when) && DecimalValue(when) >= 1
    && 1 <= DecimalValue(day)
    && DecimalValue(day) <= if m == 1 && !LeapYear(DecimalValue(when)) then 28
                            else [31, 29, 31, 30, 31, 30, 31, 31, 30, 31, 30, 31][m]
  }

  ghost predicate IsMoment(month: string, day: string, when: string) {
    && MonthNumber(month) > 0 && AllDigits(day) && |day| <= 2 && (IsClock(when) || IsYear(when))
    && IsDate(month, day, when)
  }

  lemma MomentIff(month: string, day: string, when: string)
    ensures IsMoment(month, day, when) <==> exists m :: OnCalendar(month, day, when, m)
  {
    hide *;
    if IsMoment(month, day, when) { MomentIsOnCalendar(month, day, when); }
    if m :| OnCalendar(month, day, when, m) { OnCalendarIsMoment(month, day, when, m); }
  }

  lemma MomentIsOnCalendar(month: string, day: string, when: string)
    requires IsMoment(month, day, when)
    ensures OnCalendar(month, day, when, MonthNumber(month) - 1)
  {
    hide MonthNumber, DaysIn, LeapYear, IsDate, Number, DecimalValue;
    NumberIff(day);
    NumberIff(when);
    MonthTerms(month, if IsYear(when) then DecimalValue(when) else 2000);
    DateTerms(month, day, when);
    if IsClock(when) {
      NumberIff(when[..2]);
      NumberIff(when[3..]);
    }
  }

  lemma OnCalendarIsMoment(month: string, day: string, when: string, m: int)
    requires OnCalendar(month, day, when, m)
    ensures IsMoment(month, day, when)
  {
    hide MonthNumber, DaysIn, LeapYear, IsDate, Number, DecimalValue;
    MonthAt(m);
    NumberIff(day);
    NumberIff(when);
    if |when| == 5 {
      NumberIff(when[..2]);
      NumberIff(when[3..]);
    }
    MonthTerms(month, if IsYear(when) then DecimalValue(when) else 2000);
    DateTerms(month, day, when);
  }

  lemma MonthAt(m: nat)
    requires m < 12
    ensures MonthNumber(["Jan", "Feb", "Mar", "Apr", "May", "Jun", "Jul", "Aug", "Sep", "Oct", "Nov", "Dec"][m]) == m + 1
  {
  }

  /** The eight columns, character by character. */
  ghost predicate AreSpelled(f: seq<string>, kind: char, permissions: string, mark: string, m: int) {
    && |f| == 8 && SpellsMode(f[0], kind, permissions, mark) && Number(f[1]) && Number(f[4])
    && OnCalendar(f[5], f[6], f[7], m)
  }

  lemma ColumnsIff(f: seq<string>)
    ensures AreColumns(f) <==> exists kind, permissions, mark, m :: AreSpelled(f, kind, permissions, mark, m)
  {
    hide IsMode, SpellsMode, MonthNumber, OnCalendar, IsDate, AllDigits, Number, IsClock, IsYear;
    if |f| == 8 {
      ModeTerms(f[0]);
      NumberIff(f[1]);
      NumberIff(f[4]);
      MomentIff(f[5], f[6], f[7]);
      if AreColumns(f) {
        var kind, permissions, mark :| SpellsMode(f[0], kind, permissions, mark);
        var m :| OnCalendar(f[5], f[6], f[7], m);
        assert AreSpelled(f, kind, permissions, mark, m);
      }
    }
  }

  const ARROW := " -> "

  predicate ArrowAt(s: string, i: int) { 0 <= i && i + 4 <= |s| && s[i..i + 4] == ARROW }

  /** name.split(" -> ", 1) */
  function CutArrow(s: string): Option<(string, string)> {
    if ArrowAt(s, 0) then Some(([], s[4..]))
    else if s == [] then None
    else
      match CutArrow(s[1..])
      case None => None
      case Some((name, target)) => Some(([s[0]] + name, target))
  }

  predicate IsSafeName(name: string) {
    name != [] && name == Strip(name) && '/' !in name && '\\' !in name && '\0' !in name && '\r' !in name && '\n' !in name
  }

  predicate IsLine(line: string) { line != [] && '\0' !in line && '\r' !in line && '\n' !in line }

  function ParseUnixListLine(line: string): Option<Entry> {
    if !IsLine(line) then None
    else
      match TakeFields(line, 8)
      case None => None
      case Some((f, text)) =>
        if !AreColumns(f) || KindOf(f[0]).None? then None
        else
          var kind, size := KindOf(f[0]).value, DecimalValue(f[4]);
          if kind != Symlink then (if IsSafeName(text) then Some(Entry(text, size, kind)) else None)
          else
            match CutArrow(text)
            case None => None
            case Some((name, target)) =>
              if target != [] && IsSafeName(name) then Some(Entry(name, size, kind)) else None
  }

  // ---- Arrows ----

  ghost predicate HasArrow(s: string) { exists i :: ArrowAt(s, i) }

  /** An arrow, character by character. */
  lemma ArrowCharacters(s: string, i: nat)
    ensures ArrowAt(s, i) <==> i + 4 <= |s| && s[i] == ' ' && s[i + 1] == '-' && s[i + 2] == '>' && s[i + 3] == ' '
  {
    if i + 4 <= |s| {
      var part := s[i..i + 4];
      assert part == [s[i], s[i + 1], s[i + 2], s[i + 3]];
    }
  }

  lemma {:induction false} CutAtFirst(s: string, at: nat)
    requires ArrowAt(s, at) && forall i :: 0 <= i < at ==> !ArrowAt(s, i)
    ensures CutArrow(s) == Some((s[..at], s[at + 4..]))
    decreases |s|
  {
    if at > 0 {
      var rest := s[1..];
      assert rest[at - 1..at + 3] == s[at..at + 4];
      forall i | 0 <= i < at - 1 ensures !ArrowAt(rest, i) {
        assert !ArrowAt(s, i + 1);
        ArrowCharacters(rest, i);
        ArrowCharacters(s, i + 1);
      }
      CutAtFirst(rest, at - 1);
      assert !ArrowAt(s, 0);
      assert [s[0]] + rest[..at - 1] == s[..at];
      assert rest[at + 3..] == s[at + 4..];
    } else {
      assert s[..0] == [];
    }
  }

  /**
   A link's name and target come apart where they were put together exactly when the name, with a space
   after it, has no arrow: a name that merely ends in " ->" is cut too early.
   */
  lemma ArrowIsFoundIff(name: string, target: string)
    ensures CutArrow(name + ARROW + target) == Some((name, target)) <==> !HasArrow(name + " ")
  {
    var s, n := name + ARROW + target, |name|;
    assert s[n..n + 4] == ARROW;
    assert ArrowAt(s, n);
    forall i | 0 <= i < n ensures ArrowAt(s, i) <==> ArrowAt(name + " ", i) {
      ArrowNear(name, target, i);
    }
    if HasArrow(name + " ") {
      var i := FirstArrow(name + " ");
      CutAtFirst(s, i);
      assert |s[..i]| < n;
    } else {
      forall i | 0 <= i < n ensures !ArrowAt(s, i) { assert !ArrowAt(name + " ", i); }
      CutAtFirst(s, n);
      assert s[..n] == name && s[n + 4..] == target;
    }
  }

  /** No arrow can begin in the last two characters of a name that is followed by one. */
  lemma ArrowNear(name: string, target: string, i: nat)
    requires i < |name|
    ensures ArrowAt(name + ARROW + target, i) <==> ArrowAt(name + " ", i)
  {
    hide ArrowAt;
    var s := name + ARROW + target;
    ArrowCharacters(s, i);
    ArrowCharacters(name + " ", i);
    assert s[|name|] == ' ' && (name + " ")[|name|] == ' ';
    assert forall k :: 0 <= k <= |name| ==> s[k] == (name + " ")[k];
  }

  lemma {:induction false} FirstArrow(s: string) returns (at: nat)
    requires HasArrow(s)
    ensures ArrowAt(s, at) && forall i :: 0 <= i < at ==> !ArrowAt(s, i)
  {
    at := 0;
    var some :| ArrowAt(s, some);
    while !ArrowAt(s, at)
      invariant forall i :: 0 <= i < at ==> !ArrowAt(s, i)
      invariant at <= some
      decreases some - at
    {
      at := at + 1;
    }
  }

  // ---- LIST round trip ----

  /** A printed entry of a plain file or directory is read back. */
  lemma ListRoundTrip(f: seq<string>, gaps: seq<string>, entry: Entry)
    requires AreColumns(f) && |gaps| == 8 && f[0][0] == KindLetter(entry.kind) && DecimalValue(f[4]) == entry.size
    requires forall i :: 0 <= i < 8 ==> IsField(f[i]) && IsGap(gaps[i])
    requires IsSafeName(entry.name) && entry.kind != Symlink && IsLine(Spaced(f, gaps, entry.name))
    ensures ParseUnixListLine(Spaced(f, gaps, entry.name)) == Some(entry)
  {
    assert |f| == 8 && f[0] != [];
    KindOfLetter(f[0], entry.kind);
    hide IsField, IsGap, AreColumns, IsSpace, Spaced, TakeFields, IsLine, KindOf, KindLetter;
    StripIsTrimmed(entry.name);
    TakeFieldsOf(f, gaps, entry.name);
  }

  /** A printed link is read back exactly when its name keeps clear of the arrow. */
  lemma LinkRoundTripIff(f: seq<string>, gaps: seq<string>, entry: Entry, target: string)
    requires AreColumns(f) && |gaps| == 8 && f[0][0] == KindLetter(Symlink) && DecimalValue(f[4]) == entry.size
    requires forall i :: 0 <= i < 8 ==> IsField(f[i]) && IsGap(gaps[i])
    requires IsSafeName(entry.name) && entry.kind == Symlink && target != []
    requires IsLine(Spaced(f, gaps, entry.name + ARROW + target))
    ensures ParseUnixListLine(Spaced(f, gaps, entry.name + ARROW + target)) == Some(entry) <==> !HasArrow(entry.name + " ")
  {
    assert |f| == 8 && f[0] != [];
    KindOfLetter(f[0], Symlink);
    hide *;
    var text := entry.name + ARROW + target;
    SafeNameStarts(entry.name);
    assert text != [] && text[0] == entry.name[0];
    TakeFieldsOf(f, gaps, text);
    ArrowIsFoundIff(entry.name, target);
    LinkIsRead(Spaced(f, gaps, text), f, entry, target);
  }

  lemma SafeNameStarts(name: string)
    requires IsSafeName(name)
    ensures name != [] && !IsSpace(name[0])
  {
    StripIsTrimmed(name);
  }

  /** A link line in its columns reads as this entry exactly when the cut gives back these parts. */
  lemma LinkIsRead(line: string, f: seq<string>, entry: Entry, target: string)
    requires IsLine(line) && AreColumns(f) && KindOf(f[0]) == Some(Symlink) && DecimalValue(f[4]) == entry.size
    requires TakeFields(line, 8) == Some((f, entry.name + ARROW + target))
    requires IsSafeName(entry.name) && entry.kind == Symlink && target != []
    ensures ParseUnixListLine(line) == Some(entry) <==> CutArrow(entry.name + ARROW + target) == Some((entry.name, target))
  {
    hide IsSafeName, AreColumns, IsLine, TakeFields, CutArrow;
    var text := entry.name + ARROW + target;
    if CutArrow(text).Some? {
      CutGivesBack(text);
      if CutArrow(text).value.0 == entry.name { SameTarget(entry.name, CutArrow(text).value.1, target); }
    }
  }

  lemma SameTarget(name: string, a: string, b: string)
    requires name + ARROW + a == name + ARROW + b
    ensures a == b
  {
    var n := |name| + 4;
    assert a == (name + ARROW + a)[n..] && b == (name + ARROW + b)[n..];
  }

  /** The two parts of a cut and the arrow between them are the whole. */
  lemma {:induction false} CutGivesBack(s: string)
    requires CutArrow(s).Some?
    ensures s == CutArrow(s).value.0 + ARROW + CutArrow(s).value.1
  {
    if ArrowAt(s, 0) {
      assert s[0..4] == ARROW && s == s[0..4] + s[4..];
      assert [] + ARROW == ARROW;
    } else {
      CutGivesBack(s[1..]);
      var (name, target) := CutArrow(s[1..]).value;
      Prepend(s[0], name, target);
      assert s == [s[0]] + s[1..];
    }
  }

  lemma Prepend(c: char, name: string, target: string)
    ensures [c] + (name + ARROW + target) == ([c] + name) + ARROW + target
  {
  }

  // ---- What is accepted ----

  /** The text after the columns: the name, or for a link its name, an arrow and a target. */
  ghost predicate IsNameText(text: string, entry: Entry) {
    if entry.kind != Symlink then text == entry.name
    else exists target :: target != [] && text == entry.name + ARROW + target && !HasArrow(entry.name + " ")
  }

  /** The line is eight good columns and a safe name, with white space between, and describes the entry. */
  ghost predicate Describes(line: string, f: seq<string>, gaps: seq<string>, text: string, entry: Entry) {
    && AreColumns(f) && |gaps| == 8 && (forall i :: 0 <= i < 8 ==> IsField(f[i]) && IsGap(gaps[i]))
    && line == Spaced(f, gaps, text)
    && f[0][0] == KindLetter(entry.kind) && DecimalValue(f[4]) == entry.size
    && IsSafeName(entry.name) && IsNameText(text, entry)
  }

  lemma TakeFieldGives(s: string) returns (gap: string)
    requires TakeField(s).Some?
    ensures var (field, rest) := TakeField(s).value;
            IsField(field) && IsGap(gap) && s == field + gap + rest && (rest == [] || !IsSpace(rest[0]))
  {
    hide IsSpace, LStrip, FieldLength, AllSpace;
    var n := FieldLength(s);
    var tail := s[n..];
    var rest := LStrip(tail);
    LStripTakesSpace(tail);
    gap := tail[..|tail| - |rest|];
    FieldIsClean(s);
    ThreeParts(s, n, gap, rest);
  }

  lemma ThreeParts(s: string, n: nat, gap: string, rest: string)
    requires n <= |s| && |gap| + |rest| == |s| - n
    requires s[n..][..|gap|] == gap && s[n..][|gap|..] == rest
    ensures s == s[..n] + gap + rest
  {
    assert s[n..] == gap + rest;
    assert s == s[..n] + s[n..];
  }

  lemma {:induction false} FieldIsClean(s: string)
    ensures forall i :: 0 <= i < FieldLength(s) ==> !IsSpace(s[i])
  {
    hide IsSpace;
    if s != [] && !IsSpace(s[0]) {
      var rest := s[1..];
      FieldIsClean(rest);
      forall i | 0 <= i < FieldLength(s) ensures !IsSpace(s[i]) {
        if i > 0 { assert s[i] == rest[i - 1]; }
      }
    }
  }

  lemma {:induction false} TakeFieldsGive(s: string, count: nat) returns (gaps: seq<string>)
    requires TakeFields(s, count).Some? && count > 0
    ensures var (fields, name) := TakeFields(s, count).value;
            && |fields| == |gaps| == count && s == Spaced(fields, gaps, name)
            && (forall i :: 0 <= i < count ==> IsField(fields[i]) && IsGap(gaps[i]))
            && (name == [] || !IsSpace(name[0]))
    decreases count
  {
    hide IsField, IsGap, TakeField, IsSpace;
    var gap := TakeFieldGives(s);
    var (field, rest) := TakeField(s).value;
    var (fields, name) := TakeFields(s, count).value;
    assert fields[1..] == TakeFields(rest, count - 1).value.0;
    gaps := [gap];
    if count > 1 {
      var more := TakeFieldsGive(rest, count - 1);
      gaps := [gap] + more;
      assert gaps[1..] == more;
    }
  }

  /** The strict format, without the parser: a line is read as an entry exactly when it describes it. */
  lemma ReadIffDescribed(line: string, entry: Entry)
    ensures ParseUnixListLine(line) == Some(entry) <==>
            IsLine(line) && exists f, gaps, text :: Describes(line, f, gaps, text, entry)
  {
    if ParseUnixListLine(line) == Some(entry) {
      var f, gaps, text := ReadIsDescribed(line, entry);
      assert Describes(line, f, gaps, text, entry);
    }
    if IsLine(line) && exists f, gaps, text :: Describes(line, f, gaps, text, entry) {
      var f, gaps, text :| Describes(line, f, gaps, text, entry);
      DescribedIsRead(line, f, gaps, text, entry);
    }
  }

  // ---- The format, character by character ----

  function Letter(kind: Kind): char {
    if kind == Symlink then 'l' else if kind == Directory then 'd' else '-'
  }

  ghost predicate SpellsColumns(f: seq<string>, gaps: seq<string>, entry: Entry) {
    && |f| == 8 && |gaps| == 8
    && (exists permissions, mark, m :: AreSpelled(f, Letter(entry.kind), permissions, mark, m))
    && Number(f[4]) && DecimalValue(f[4]) == entry.size
    && forall i :: 0 <= i < 8 ==>
         && f[i] != "" && (forall k :: 0 <= k < |f[i]| ==> !IsSpace(f[i][k]))
         && gaps[i] != "" && (forall k :: 0 <= k < |gaps[i]| ==> IsSpace(gaps[i][k]))
  }

  ghost predicate SpellsName(text: string, entry: Entry) {
    && entry.name != "" && !IsSpace(entry.name[0]) && !IsSpace(entry.name[|entry.name| - 1])
    && (forall i :: 0 <= i < |entry.name| ==>
          && entry.name[i] != '/' && entry.name[i] != '\\' && entry.name[i] != '\0'
          && entry.name[i] != '\r' && entry.name[i] != '\n')
    && if entry.kind != Symlink then text == entry.name
       else (exists target :: target != "" && text == entry.name + " -> " + target)
            && NoArrow(entry.name)
  }

  ghost predicate Spells(line: string, f: seq<string>, gaps: seq<string>, text: string, entry: Entry) {
    SpellsColumns(f, gaps, entry) && SpellsName(text, entry) && line == Spaced(f, gaps, text)
  }

  /** The same in characters: a line is read as an entry exactly when it spells it. */
  lemma ReadIffSpelled(line: string, entry: Entry)
    ensures ParseUnixListLine(line) == Some(entry) <==>
            && (forall i :: 0 <= i < |line| ==> line[i] != '\0' && line[i] != '\r' && line[i] != '\n')
            && exists f, gaps, text :: Spells(line, f, gaps, text, entry)
  {
    hide *;
    ReadIffDescribed(line, entry);
    LineTerms(line);
    if f, gaps, text :| Describes(line, f, gaps, text, entry) { DescribesIff(line, f, gaps, text, entry); }
    if f, gaps, text :| Spells(line, f, gaps, text, entry) {
      DescribesIff(line, f, gaps, text, entry);
      SpelledIsNotEmpty(line, f, gaps, text, entry);
    }
  }

  lemma LineTerms(line: string)
    ensures IsLine(line) <==>
            line != "" && forall i :: 0 <= i < |line| ==> line[i] != '\0' && line[i] != '\r' && line[i] != '\n'
  {
    assert forall i :: 0 <= i < |line| ==> line[i] in line;
  }

  lemma SpelledIsNotEmpty(line: string, f: seq<string>, gaps: seq<string>, text: string, entry: Entry)
    requires Spells(line, f, gaps, text, entry)
    ensures line != ""
  {
    hide AreSpelled, Number;
    assert f[0] != "";
  }

  lemma DescribesIff(line: string, f: seq<string>, gaps: seq<string>, text: string, entry: Entry)
    ensures Describes(line, f, gaps, text, entry) <==> Spells(line, f, gaps, text, entry)
  {
    hide AreColumns, IsField, IsGap, Spaced, IsSafeName, IsNameText, KindLetter, SpellsColumns, SpellsName;
    SpellsColumnsIff(f, gaps, entry);
    SpellsNameIff(text, entry);
    if AreColumns(f) { ColumnsHaveMode(f); }
  }

  lemma SpellsColumnsIff(f: seq<string>, gaps: seq<string>, entry: Entry)
    ensures SpellsColumns(f, gaps, entry) <==>
            && AreColumns(f) && |gaps| == 8 && (forall i :: 0 <= i < 8 ==> IsField(f[i]) && IsGap(gaps[i]))
            && f[0][0] == KindLetter(entry.kind) && DecimalValue(f[4]) == entry.size
  {
    hide AreColumns, AreSpelled, DecimalValue, Number, IsSpace;
    ColumnsIff(f);
    forall kind, permissions, mark, m | AreSpelled(f, kind, permissions, mark, m)
      ensures |f| == 8 && f[0] != "" && f[0][0] == kind && Number(f[4])
    {
      SpelledColumns(f, kind, permissions, mark, m);
    }
    if AreColumns(f) && f[0][0] == Letter(entry.kind) {
      var kind, permissions, mark, m :| AreSpelled(f, kind, permissions, mark, m);
      assert AreSpelled(f, Letter(entry.kind), permissions, mark, m);
    }
  }

  lemma SpelledColumns(f: seq<string>, kind: char, permissions: string, mark: string, m: int)
    requires AreSpelled(f, kind, permissions, mark, m)
    ensures |f| == 8 && f[0] != "" && f[0][0] == kind && Number(f[4])
  {
  }

  /** No arrow in the name, nor one made of its end and a space. */
  ghost predicate NoArrow(name: string) {
    forall i :: 0 <= i <= |name| - 3 ==> !ArrowStarts(name, i)
  }

  predicate ArrowStarts(name: string, i: nat)
    requires i + 3 <= |name|
  {
    name[i] == ' ' && name[i + 1] == '-' && name[i + 2] == '>' && (i + 3 == |name| || name[i + 3] == ' ')
  }

  lemma NoArrowIff(name: string)
    ensures HasArrow(name + " ") <==> !NoArrow(name)
  {
    hide ArrowAt;
    var s := name + " ";
    forall i ensures ArrowAt(s, i) ==> 0 <= i <= |name| - 3 { ArrowIsInside(s, i); }
    forall i | 0 <= i <= |name| - 3 ensures ArrowAt(s, i) <==> ArrowStarts(name, i) {
      ArrowCharacters(s, i);
      assert s[i] == name[i] && s[i + 1] == name[i + 1] && s[i + 2] == name[i + 2];
      assert s[i + 3] == if i + 3 == |name| then ' ' else name[i + 3];
    }
  }

  lemma ArrowIsInside(s: string, i: int)
    ensures ArrowAt(s, i) ==> 0 <= i <= |s| - 4
  {
  }

  lemma SpellsNameIff(text: string, entry: Entry)
    ensures SpellsName(text, entry) <==> IsSafeName(entry.name) && IsNameText(text, entry)
  {
    hide IsSafeName, HasArrow, NoArrow, IsSpace;
    SafeNameTerms(entry.name);
    NoArrowIff(entry.name);
    if entry.kind == Symlink && IsNameText(text, entry) {
      var target :| target != [] && text == entry.name + ARROW + target;
      assert target != "" && text == entry.name + " -> " + target;
    }
  }

  lemma DescribedIsRead(line: string, f: seq<string>, gaps: seq<string>, text: string, entry: Entry)
    requires IsLine(line) && Describes(line, f, gaps, text, entry)
    ensures ParseUnixListLine(line) == Some(entry)
  {
    hide ParseUnixListLine, AreColumns, IsField, IsGap, Spaced, IsSafeName, HasArrow, IsLine;
    if entry.kind == Symlink {
      var target :| target != [] && text == entry.name + ARROW + target && !HasArrow(entry.name + " ");
      LinkRoundTripIff(f, gaps, entry, target);
    } else {
      ListRoundTrip(f, gaps, entry);
    }
  }

  lemma ColumnsHaveMode(f: seq<string>)
    requires AreColumns(f)
    ensures |f| == 8 && f[0] != []
  {
  }

  lemma ReadIsDescribed(line: string, entry: Entry) returns (f: seq<string>, gaps: seq<string>, text: string)
    requires ParseUnixListLine(line) == Some(entry)
    ensures IsLine(line) && Describes(line, f, gaps, text, entry)
  {
    hide AreColumns, IsField, IsGap, IsSafeName, HasArrow, IsLine, TakeFields, CutArrow, Spaced;
    f, text := TakeFields(line, 8).value.0, TakeFields(line, 8).value.1;
    gaps := TakeFieldsGive(line, 8);
    ColumnsHaveMode(f);
    KindOfLetter(f[0], entry.kind);
    if entry.kind == Symlink {
      var (name, target) := CutArrow(text).value;
      CutGivesBack(text);
      ArrowIsFoundIff(name, target);
    }
  }

  // ---- A whole listing ----

  datatype Info = Info(size: nat, kind: Kind)

  type Listed = Listings.Row<Info>

  predicate IsDots(name: string) { name == "." || name == ".." }

  /** The entries that the lines of a listing stand for, in order, the two dot entries left out. */
  function Shown(lines: seq<string>): seq<Entry> {
    if lines == [] then []
    else
      var entry := ParseUnixListLine(lines[|lines| - 1]);
      Shown(lines[..|lines| - 1]) + if entry.None? || IsDots(entry.value.name) then [] else [entry.value]
  }

  /** One row an entry, in the same order, right in the directory: the parent's components, then the name. */
  function ChildRows(entries: seq<Entry>, parent: Paths.Path): (rows: seq<Listed>)
    ensures |rows| == |entries|
  {
    if entries == [] then []
    else
      var last := entries[|entries| - 1];
      ChildRows(entries[..|entries| - 1], parent)
      + [Listings.Row(Paths.Print(Paths.Path(parent.anchor, parent.names + [last.name])), Info(last.size, last.kind))]
  }

  /** Where no entry of a listing can land: "//", or a root with a line break in it. */
  predicate Barren(directory: string) { directory == "//" || Paths.HasLineBreak(directory) }

  /** An accepted name is a single component: it lands right in the directory, unless nothing can. */
  lemma AcceptedNameIsAChild(root: string, remotePath: string, line: string)
    requires Paths.ResolveFtp(root, remotePath).Some?
    requires ParseUnixListLine(line).Some? && !IsDots(ParseUnixListLine(line).value.name)
    ensures var directory := Paths.ResolveFtp(root, remotePath).value;
            var parent, name := Paths.Parse(directory), ParseUnixListLine(line).value.name;
            var r := Paths.ResolveFtp(root, Paths.JoinRemote(directory, name));
            && r == (if Barren(directory) then None else Some(Paths.Print(Paths.Path(parent.anchor, parent.names + [name]))))
            && (r.Some? ==> Paths.Inside(root, r.value)
                            && Paths.Parse(r.value) == Paths.Path(parent.anchor, parent.names + [name]))
  {
    var directory := Paths.ResolveFtp(root, remotePath).value;
    var parent, name := Paths.Parse(directory), ParseUnixListLine(line).value.name;
    hide ParseUnixListLine, Paths.ResolveFtp, Paths.Parse, Paths.Print, Paths.JoinRemote, Paths.HasLineBreak, IsSafeName,
         Paths.IsName, Paths.Clean, Paths.ValidPath, IsDots, Paths.Inside;
    AcceptedNameIsSafe(line);
    SafeNameIsAComponent(name);
    Paths.FtpEntryIsResolved(root, remotePath, name);
    FtpIsInside(root, Paths.JoinRemote(directory, name));
    ChildIsValid(directory, name);
    Paths.ParseUndoesPrint(Paths.Path(parent.anchor, parent.names + [name]));
  }

  lemma FtpIsInside(root: string, path: string)
    ensures Paths.ResolveFtp(root, path).Some? ==> Paths.Inside(root, Paths.ResolveFtp(root, path).value)
  {
    hide Paths.ResolveRemotePath, Paths.Inside;
    Paths.ResolvedIsInside(root, path);
  }

  lemma SafeNameIsAComponent(name: string)
    requires IsSafeName(name) && !IsDots(name)
    ensures Paths.IsName(name) && name != ".." && Paths.Clean(name) && !Paths.HasLineBreak(name)
  {
    hide Strip;
  }

  lemma ChildIsValid(directory: string, name: string)
    requires Paths.IsName(name)
    ensures var parent := Paths.Parse(directory); Paths.ValidPath(Paths.Path(parent.anchor, parent.names + [name]))
  {
    hide Paths.Parse, Paths.IsName;
    var parent := Paths.Parse(directory);
    assert Paths.ValidPath(parent);
  }

  lemma AcceptedNameIsSafe(line: string)
    requires ParseUnixListLine(line).Some?
    ensures IsSafeName(ParseUnixListLine(line).value.name)
  {
    hide IsSafeName, TakeFields, AreColumns, CutArrow, IsLine;
  }

  lemma ShownStep(lines: seq<string>, k: nat)
    requires k < |lines| && ParseUnixListLine(lines[k]).Some?
    ensures var entry := ParseUnixListLine(lines[k]).value;
            Shown(lines[..k + 1]) ==
            if entry.name == "." || entry.name == ".." then Shown(lines[..k]) else Shown(lines[..k]) + [entry]
  {
    hide ParseUnixListLine;
    assert lines[..k + 1][..k] == lines[..k];
  }

  lemma ChildRowsStep(entries: seq<Entry>, entry: Entry, parent: Paths.Path)
    ensures ChildRows(entries + [entry], parent) == ChildRows(entries, parent) +
            [Listings.Row(Paths.Print(Paths.Path(parent.anchor, parent.names + [entry.name])), Info(entry.size, entry.kind))]
  {
    hide Paths.Print;
    assert (entries + [entry])[..|entries|] == entries;
  }

  lemma NothingShown(lines: seq<string>, parent: Paths.Path)
    ensures ChildRows(Shown(lines[..0]), parent) == []
  {
  }

  /** A line outside the strict format is refused, and where nothing can land so is every entry. */
  predicate IsRefused(line: string, directory: string) {
    ParseUnixListLine(line).None? || (Barren(directory) && !IsDots(ParseUnixListLine(line).value.name))
  }

  /**
   _legacy_list_files, on the lines the server sent.  All or nothing: one line that does not parse fails the
   listing, and otherwise every line but the dot entries gives one row, right in the directory, the rows in
   order of their paths.
   */
  method LegacyListFiles(root: string, remotePath: string, lines: seq<string>) returns (r: Option<seq<Listed>>)
    requires Paths.ResolveFtp(root, remotePath).Some?
    ensures var directory := Paths.ResolveFtp(root, remotePath).value;
            && (r.None? <==> exists i :: 0 <= i < |lines| && IsRefused(lines[i], directory))
            && (r.Some? ==> r.value == Listings.SortByPath(ChildRows(Shown(lines), Paths.Parse(directory))))
            && (r.Some? ==> Listings.Sorted(r.value) && |r.value| == |Shown(lines)|)
            && (r.Some? ==> forall row <- r.value :: Paths.Inside(root, row.path))
  {
    hide ParseUnixListLine, Paths.ResolveFtp, Paths.Parse, Paths.Print, Paths.JoinRemote, Paths.Inside, Shown,
         ChildRows, Barren, Listings.SortByPath, Listings.Sorted;
    var directory := Paths.ResolveFtp(root, remotePath).value;
    ghost var parent := Paths.Parse(directory);
    NothingShown(lines, parent);
    var rows: seq<Listed> := [];
    for k := 0 to |lines|
      invariant forall i :: 0 <= i < k ==> !IsRefused(lines[i], directory)
      invariant rows == ChildRows(Shown(lines[..k]), parent)
      invariant forall row <- rows :: Paths.Inside(root, row.path)
    {
      var entry := ParseUnixListLine(lines[k]);
      if entry.None? { return None; }
      ShownStep(lines, k);
      if IsDots(entry.value.name) { continue; }
      AcceptedNameIsAChild(root, remotePath, lines[k]);
      var path := Paths.ResolveFtp(root, Paths.JoinRemote(directory, entry.value.name));
      if path.None? { return None; }
      ChildRowsStep(Shown(lines[..k]), entry.value, parent);
      rows := rows + [Listings.Row(path.value, Info(entry.value.size, entry.value.kind))];
    }
    assert lines[..|lines|] == lines;
    Listings.SortedInside(root, rows);
    return Some(Listings.SortByPath(rows));
  }
}
