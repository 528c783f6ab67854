/** Python's view of text: white space, strip, blank lines. */
module Text {
  import opened Basics

  /** str.isspace for one character. */
  predicate IsSpace(c: char) {
    var n := c as int;
    || 9 <= n <= 13 || 28 <= n <= 32 || n == 0x85 || n == 0xA0 || n == 0x1680
    || 0x2000 <= n <= 0x200A || n == 0x2028 || n == 0x2029 || n == 0x202F || n == 0x205F || n == 0x3000
  }

  /** str.lower for one ASCII character. */
  function LowerChar(c: char): char {
    if 'A' <= c <= 'Z' then c - 'A' + 'a' else c
  }

  /** Capital letters become the small ones in the same place of the alphabet; nothing else changes. */
  lemma LowerTerms(c: char)
    ensures c !in "ABCDEFGHIJKLMNOPQRSTUVWXYZ" ==> LowerChar(c) == c
    ensures forall i :: 0 <= i < 26 && c == "ABCDEFGHIJKLMNOPQRSTUVWXYZ"[i] ==> LowerChar(c) == "abcdefghijklmnopqrstuvwxyz"[i]
  {
    hide *;
    OthersStay(c);
    forall i | 0 <= i < 26 && c == "ABCDEFGHIJKLMNOPQRSTUVWXYZ"[i] ensures LowerChar(c) == "abcdefghijklmnopqrstuvwxyz"[i] {
      CapitalsChange(i);
    }
  }

  lemma OthersStay(c: char)
    ensures LowerChar(c) != c ==> c in "ABCDEFGHIJKLMNOPQRSTUVWXYZ"
  {
    if 'A' <= c <= 'Z' { assert "ABCDEFGHIJKLMNOPQRSTUVWXYZ"[c as int - 'A' as int] == c; }
  }

  lemma CapitalsChange(i: nat)
    requires i < 26
    ensures LowerChar("ABCDEFGHIJKLMNOPQRSTUVWXYZ"[i]) == "abcdefghijklmnopqrstuvwxyz"[i]
  {
    assert "ABCDEFGHIJKLMNOPQRSTUVWXYZ"[i] as int == 'A' as int + i;
    assert "abcdefghijklmnopqrstuvwxyz"[i] as int == 'a' as int + i;
  }

  predicate AllSpace(s: string) { forall i :: 0 <= i < |s| ==> IsSpace(s[i]) }

  function LStrip(s: string): (r: string)
    ensures r == [] || !IsSpace(r[0])
    ensures |r| <= |s| && s[|s| - |r|..] == r
  {
    if s != [] && IsSpace(s[0]) then LStrip(s[1..]) else s
  }

  function RStrip(s: string): (r: string)
    ensures r == [] || !IsSpace(r[|r| - 1])
    ensures |r| <= |s| && s[..|r|] == r
  {
    if s != [] && IsSpace(s[|s| - 1]) then RStrip(s[..|s| - 1]) else s
  }

  function Strip(s: string): string { LStrip(RStrip(s)) }

  predicate Blank(s: string) { Strip(s) == [] }

  predicate Trimmed(s: string) { s == [] || (!IsSpace(s[0]) && !IsSpace(s[|s| - 1])) }

  lemma {:induction false} LStripOfPadded(left: string, rest: string)
    requires AllSpace(left) && (rest == [] || !IsSpace(rest[0]))
    ensures LStrip(left + rest) == rest
    decreases |left|
  {
    if left == [] {
      assert left + rest == rest;
    } else {
      assert (left + rest)[1..] == left[1..] + rest;
      LStripOfPadded(left[1..], rest);
    }
  }

  lemma {:induction false} RStripOfPadded(rest: string, right: string)
    requires AllSpace(right) && (rest == [] || !IsSpace(rest[|rest| - 1]))
    ensures RStrip(rest + right) == rest
    decreases |right|
  {
    if right == [] {
      assert rest + right == rest;
    } else {
      assert (rest + right)[..|rest + right| - 1] == rest + right[..|right| - 1];
      RStripOfPadded(rest, right[..|right| - 1]);
    }
  }

  /** strip takes white space off both ends and nothing else: the core it leaves is the only one. */
  lemma StripOfPadded(left: string, core: string, right: string)
    requires AllSpace(left) && AllSpace(right) && Trimmed(core)
    ensures Strip(left + core + right) == core
  {
    if core == [] {
      assert left + core + right == [] + (left + right);
      RStripOfPadded([], left + right);
    } else {
      RStripOfPadded(left + core, right);
      LStripOfPadded(left, core);
    }
  }

  /** The white space that strip takes off. */
  lemma StripPads(s: string) returns (left: string, right: string)
    ensures s == left + Strip(s) + right && AllSpace(left) && AllSpace(right)
  {
    hide IsSpace, AllSpace, LStrip, RStrip;
    var r := RStrip(s);
    var core := LStrip(r);
    LStripTakesSpace(r);
    RStripTakesSpace(s);
    left, right := r[..|r| - |core|], s[|r|..];
    InThree(s, r, core);
  }

  lemma InThree(s: string, r: string, core: string)
    requires |core| <= |r| <= |s| && s[..|r|] == r && r[|r| - |core|..] == core
    ensures s == r[..|r| - |core|] + core + s[|r|..]
  {
    assert r == r[..|r| - |core|] + core;
  }

  lemma {:induction false} LStripTakesSpace(s: string)
    ensures AllSpace(s[..|s| - |LStrip(s)|])
  {
    hide IsSpace, LStrip;
    if s != [] { LStripStep(s); }
    if s != [] && IsSpace(s[0]) {
      var rest := s[1..];
      LStripTakesSpace(rest);
      forall i | 0 <= i < |s| - |LStrip(s)| ensures IsSpace(s[i]) {
        if i > 0 { assert s[i] == rest[..|rest| - |LStrip(rest)|][i - 1]; }
      }
    }
  }

  lemma LStripStep(s: string)
    requires s != []
    ensures LStrip(s) == if IsSpace(s[0]) then LStrip(s[1..]) else s
  {
    hide IsSpace;
  }

  lemma {:induction false} RStripTakesSpace(s: string)
    ensures AllSpace(s[|RStrip(s)|..])
  {
    hide IsSpace;
    if s != [] && IsSpace(s[|s| - 1]) {
      var front := s[..|s| - 1];
      RStripTakesSpace(front);
      assert s[|RStrip(s)|..] == front[|RStrip(s)|..] + [s[|s| - 1]];
    }
  }

  /** The white space characters, all of them: those of ASCII and those beyond. */
  lemma SpaceTerms(c: char)
    ensures c as int < 128 ==> (IsSpace(c) <==> c in " \t\n\r" || c as int in {11, 12, 28, 29, 30, 31})
    ensures c as int >= 128 ==>
              (IsSpace(c) <==>
                 c as int in {133, 160, 5760, 8192, 8193, 8194, 8195, 8196, 8197, 8198, 8199, 8200, 8201, 8202,
                              8232, 8233, 8239, 8287, 12288})
  {
  }

  lemma StripIsTrimmed(s: string)
    ensures Trimmed(Strip(s))
    ensures Trimmed(s) ==> Strip(s) == s
  {
    var r := RStrip(s);
    var l := LStrip(r);
    if l != [] {
      assert l[|l| - 1] == r[|r| - 1];
    }
    if Trimmed(s) {
      StripOfPadded([], s, []);
      assert [] + s + [] == s;
    }
  }

  lemma BlankIsAllSpace(s: string)
    ensures Blank(s) <==> AllSpace(s)
  {
    hide AllSpace, Strip;
    if AllSpace(s) { AllSpaceIsBlank(s); }
    if Blank(s) { StripsToNothing(s); }
  }

  lemma HasInk(s: string, i: nat)
    requires i < |s| && !IsSpace(s[i])
    ensures !Blank(s)
  {
    BlankIsAllSpace(s);
  }

  lemma AllSpaceIsBlank(s: string)
    requires AllSpace(s)
    ensures Blank(s)
  {
    hide IsSpace, AllSpace, RStrip;
    RStripOfPadded([], s);
    assert [] + s == s;
  }

  lemma StripsToNothing(s: string)
    requires Blank(s)
    ensures AllSpace(s)
  {
    hide IsSpace, LStrip, RStrip;
    var r := RStrip(s);
    LStripsToNothing(r);
    assert r == [];
    RStripsToNothing(s);
  }

  lemma {:induction false} LStripsToNothing(s: string)
    requires LStrip(s) == []
    ensures AllSpace(s)
  {
    hide IsSpace;
    if s != [] {
      var rest := s[1..];
      LStripsToNothing(rest);
      forall i | 0 <= i < |s| ensures IsSpace(s[i]) {
        if i > 0 { assert s[i] == rest[i - 1]; }
      }
    }
  }

  lemma {:induction false} RStripsToNothing(s: string)
    requires RStrip(s) == []
    ensures AllSpace(s)
  {
    hide IsSpace;
    if s != [] {
      RStripsToNothing(s[..|s| - 1]);
      assert s == s[..|s| - 1] + [s[|s| - 1]];
    }
  }
}
