/** POSIX paths as PurePosixPath reads and prints them, and their confinement to a remote root. */
module Paths {
  import opened Basics
  import opened Text

  /** `anchor` is empty for a relative path; two leading slashes, and no more, are an anchor of their own. */
  datatype Path = Path(anchor: string, names: seq<string>)

  predicate IsName(s: string) { s != [] && s != "." && '/' !in s }

  predicate IsAnchor(s: string) { s == "" || s == "/" || s == "//" }

  ghost predicate ValidPath(p: Path) { IsAnchor(p.anchor) && forall i :: 0 <= i < |p.names| ==> IsName(p.names[i]) }

  // ---- Parse and print ----

  function Anchor(text: string): string {
    if text == [] || text[0] != '/' then ""
    else if |text| >= 2 && text[1] == '/' && (|text| == 2 || text[2] != '/') then "//"
    else "/"
  }

  /** text.split("/"): never empty. */
  function Split(text: string): (parts: seq<string>)
    ensures |parts| >= 1 && forall i :: 0 <= i < |parts| ==> '/' !in parts[i]
  {
    if text == [] then [[]]
    else
      var rest := Split(text[1..]);
      if text[0] == '/' then [[]] + rest
      else [[text[0]] + rest[0]] + rest[1..]
  }

  /** Empty parts and single dots are dropped. */
  function Names(parts: seq<string>): (names: seq<string>)
    requires forall i :: 0 <= i < |parts| ==> '/' !in parts[i]
    ensures forall i :: 0 <= i < |names| ==> IsName(names[i])
  {
    if parts == [] then []
    else (if parts[0] == [] || parts[0] == "." then [] else [parts[0]]) + Names(parts[1..])
  }

  function Parse(text: string): (p: Path)
    ensures ValidPath(p)
  {
    Path(Anchor(text), Names(Split(text)))
  }

  function Joined(names: seq<string>): string {
    if names == [] then "" else if |names| == 1 then names[0] else names[0] + "/" + Joined(names[1..])
  }

  function Print(p: Path): string {
    if p.anchor == "" && p.names == [] then "." else p.anchor + Joined(p.names)
  }

  // ---- Parse undoes print ----

  lemma SplitHead(text: string)
    requires text != [] && text[0] != '/'
    ensures Split(text) == [[text[0]] + Split(text[1..])[0]] + Split(text[1..])[1..]
  {
  }

  lemma {:induction false} SplitName(name: string, rest: string)
    requires '/' !in name
    ensures Split(name + "/" + rest) == [name] + Split(rest)
    ensures Split(name) == [name]
    decreases |name|
  {
    if name == [] {
      assert (name + "/" + rest)[1..] == rest;
    } else {
      var text := name + "/" + rest;
      assert text[1..] == name[1..] + "/" + rest;
      assert name[0] in name;
      SplitName(name[1..], rest);
      SplitHead(text);
      SplitHead(name);
      assert [name[0]] + name[1..] == name;
    }
  }

  lemma {:induction false} NamesOfJoined(names: seq<string>)
    requires forall i :: 0 <= i < |names| ==> IsName(names[i])
    ensures Names(Split(Joined(names))) == names
    decreases |names|
  {
    if names == [] {
      assert Names([[]]) == [];
    } else if |names| == 1 {
      SplitName(names[0], "");
      assert Names([names[0]]) == [names[0]];
    } else {
      SplitName(names[0], Joined(names[1..]));
      NamesOfJoined(names[1..]);
      assert ([names[0]] + Split(Joined(names[1..])))[1..] == Split(Joined(names[1..]));
    }
  }

  lemma NamesOfSlash(text: string)
    ensures Names(Split("/" + text)) == Names(Split(text))
  {
    assert ("/" + text)[1..] == text;
    assert ([[]] + Split(text))[1..] == Split(text);
  }

  lemma JoinedHead(names: seq<string>)
    requires forall i :: 0 <= i < |names| ==> IsName(names[i])
    ensures names == [] ==> Joined(names) == []
    ensures names != [] ==> Joined(names) != [] && Joined(names)[0] != '/'
  {
    if names != [] {
      assert names[0][0] in names[0];
    }
  }

  /** Every valid path is read back from its text. */
  lemma ParseUndoesPrint(p: Path)
    requires ValidPath(p)
    ensures Parse(Print(p)) == p
  {
    hide Split, Names, IsName;
    NamesOfJoined(p.names);
    JoinedHead(p.names);
    var j := Joined(p.names);
    if p.anchor == "" {
      assert "" + j == j;
      if p.names == [] { ParseDot(); }
    } else if p.anchor == "/" {
      NamesOfSlash(j);
    } else {
      assert "//" + j == "/" + ("/" + j);
      NamesOfSlash("/" + j);
      NamesOfSlash(j);
    }
  }

  lemma ParseDot()
    ensures Parse(".") == Path("", [])
  {
    SplitName(".", "");
    assert Names(["."]) == [];
  }

  // ---- Resolution ----

  predicate Allowed(text: string) { !Blank(text) && '\0' !in text && '\\' !in text }

  predicate IsPrefix(a: seq<string>, b: seq<string>) { |a| <= |b| && b[..|a|] == a }

  /** The path asked for, taken from the root when it is relative. */
  function Candidate(root: Path, requested: Path): Path {
    if requested.anchor != "" then requested else Path(root.anchor, root.names + requested.names)
  }

  function ResolveRemotePath(remoteRoot: string, remotePath: string): Option<string> {
    if !Allowed(remoteRoot) || !Allowed(remotePath) then None
    else
      var root, requested := Parse(remoteRoot), Parse(remotePath);
      if root.anchor == "" then None
      else if ".." in root.names || ".." in requested.names then None
      else
        var candidate := Candidate(root, requested);
        if candidate.anchor != root.anchor || !IsPrefix(root.names, candidate.names) then None
        else Some(Print(candidate))
  }

  /** Inside the root: the root's components, then some more, and no ".." anywhere. */
  ghost predicate Inside(remoteRoot: string, path: string) {
    var root, p := Parse(remoteRoot), Parse(path);
    root.anchor != "" && p.anchor == root.anchor && Extends(p.names, root.names) && ".." !in p.names
  }

  ghost predicate Extends(names: seq<string>, first: seq<string>) { exists more: seq<string> :: names == first + more }

  lemma PrefixIff(a: seq<string>, b: seq<string>)
    ensures IsPrefix(a, b) <==> Extends(b, a)
  {
    if IsPrefix(a, b) { assert b == a + b[|a|..]; }
  }

  /** Text that is refused as a root and as a request: blank, or with a NUL or a backslash in it. */
  predicate Unfit(text: string) { (forall i :: 0 <= i < |text| ==> IsSpace(text[i])) || '\0' in text || '\\' in text }

  lemma AllowedIff(text: string)
    ensures Allowed(text) <==> !Unfit(text)
  {
    BlankIsAllSpace(text);
  }

  /**
   The resolver in plain terms.  An answer is the root's anchor and names and then more names, none of them
   "..": for a relative request its own; for an absolute one what it has beyond the root, and when it is not
   the root's names followed by anything, it is refused.
   */
  lemma ResolvedTerms(remoteRoot: string, remotePath: string)
    ensures var r, root, asked := ResolveRemotePath(remoteRoot, remotePath), Parse(remoteRoot), Parse(remotePath);
            && (Unfit(remoteRoot) || Unfit(remotePath) || root.anchor == "" || ".." in root.names || ".." in asked.names ==>
                  r.None?)
            && (!Unfit(remoteRoot) && !Unfit(remotePath) && root.anchor != "" && ".." !in root.names && ".." !in asked.names ==>
                  && (asked.anchor == "" ==> r.Some? && Parse(r.value) == Path(root.anchor, root.names + asked.names))
                  && (asked.anchor != "" && asked.anchor == root.anchor ==>
                        (r.Some? <==> exists more :: asked.names == root.names + more))
                  && (asked.anchor != "" && asked.anchor != root.anchor ==> r.None?)
                  && (asked.anchor != "" && r.Some? ==> Parse(r.value) == asked))
  {
    hide Allowed, Unfit, Parse, Print, IsPrefix;
    AllowedIff(remoteRoot);
    AllowedIff(remotePath);
    var root, asked := Parse(remoteRoot), Parse(remotePath);
    var candidate := Candidate(root, asked);
    PrefixIff(root.names, candidate.names);
    ParseUndoesPrint(candidate);
    if asked.anchor == "" { assert candidate.names == root.names + asked.names; }
  }

  // ---- Reading and writing paths, piece by piece ----

  /** Two leading slashes, and no more, make the other anchor. */
  lemma AnchorTerms(rest: string)
    ensures rest == [] || rest[0] != '/' ==> Anchor(rest) == "" && Anchor("/" + rest) == "/" && Anchor("//" + rest) == "//"
    ensures Anchor("///" + rest) == "/"
  {
  }

  /** A component is a name; nothing and a single dot are none; slashes separate, any number of them alike. */
  lemma NamesTerms(a: string, b: string, name: string)
    requires '/' !in name
    ensures Parse(name).names == if name == "" || name == "." then [] else [name]
    ensures Parse(a + "/" + b).names == Parse(a).names + Parse(b).names
  {
    SplitName(name, "");
    NamesAtSlash(a, b);
    hide Split;
    assert Names([name]) == if name == "" || name == "." then [] else [name];
  }

  /** A path is written with one slash between names and none at the end. */
  lemma PrintTerms(anchor: string, names: seq<string>, name: string)
    requires IsAnchor(anchor)
    ensures Print(Path(anchor, [])) == if anchor == "" then "." else anchor
    ensures Print(Path(anchor, [name])) == anchor + name
    ensures names != [] ==> Print(Path(anchor, names + [name])) == Print(Path(anchor, names)) + "/" + name
  {
    assert anchor + [] == anchor;
    if names != [] {
      JoinedSnoc(names, name);
      assert anchor + (Joined(names) + "/" + name) == anchor + Joined(names) + "/" + name;
    }
  }

  /**
   Confinement, and its converse: what comes back is inside the root and is the path asked for; and
   every allowed request that names a place inside the root without ".." gets it.
   */
  lemma ResolvedIsInside(remoteRoot: string, remotePath: string)
    ensures var r := ResolveRemotePath(remoteRoot, remotePath);
            && (r.Some? ==> Inside(remoteRoot, r.value)
                            && Parse(r.value) == Candidate(Parse(remoteRoot), Parse(remotePath)))
            && (r.Some? <==>
                  && Allowed(remoteRoot) && Allowed(remotePath)
                  && ".." !in Parse(remotePath).names
                  && Inside(remoteRoot, Print(Candidate(Parse(remoteRoot), Parse(remotePath)))))
  {
    hide Allowed, Parse, Print;
    var root, requested := Parse(remoteRoot), Parse(remotePath);
    var candidate := Candidate(root, requested);
    ParseUndoesPrint(candidate);
    PrefixIff(root.names, candidate.names);
    DotDotInCandidate(root, requested);
  }

  lemma DotDotInCandidate(root: Path, requested: Path)
    ensures ".." !in root.names && ".." !in requested.names ==> ".." !in Candidate(root, requested).names
    ensures (IsPrefix(root.names, Candidate(root, requested).names) && ".." in root.names) ==>
              ".." in Candidate(root, requested).names
  {
    var c := Candidate(root, requested).names;
    if IsPrefix(root.names, c) && ".." in root.names {
      var i :| 0 <= i < |root.names| && root.names[i] == "..";
      assert c[..|root.names|][i] == "..";
    }
  }

  /** The printed form of an accepted path is itself an allowed, absolute request. */
  lemma AllowedResult(remoteRoot: string, remotePath: string)
    requires ResolveRemotePath(remoteRoot, remotePath).Some?
    ensures Allowed(ResolveRemotePath(remoteRoot, remotePath).value)
  {
    hide Allowed, Parse, Print;
    var root, requested := Parse(remoteRoot), Parse(remotePath);
    PartsAllowed(remoteRoot);
    PartsAllowed(remotePath);
    CleanPrint(Candidate(root, requested));
  }

  predicate Clean(s: string) { '\0' !in s && '\\' !in s }

  lemma PartsAllowed(text: string)
    requires Allowed(text)
    ensures forall i :: 0 <= i < |Parse(text).names| ==> Clean(Parse(text).names[i])
  {
    hide Blank;
    CleanSplit(text);
    CleanNames(Split(text));
  }

  lemma {:induction false} CleanSplit(text: string)
    requires Clean(text)
    ensures forall i :: 0 <= i < |Split(text)| ==> Clean(Split(text)[i])
  {
    if text != [] {
      assert Clean(text[1..]);
      CleanSplit(text[1..]);
    }
  }

  lemma {:induction false} CleanNames(parts: seq<string>)
    requires forall i :: 0 <= i < |parts| ==> '/' !in parts[i] && Clean(parts[i])
    ensures forall i :: 0 <= i < |Names(parts)| ==> Clean(Names(parts)[i])
  {
    hide Clean;
    if parts != [] {
      CleanNames(parts[1..]);
    }
  }

  lemma {:induction false} CleanJoined(names: seq<string>)
    requires forall i :: 0 <= i < |names| ==> Clean(names[i])
    ensures Clean(Joined(names))
  {
    if |names| > 1 { CleanJoined(names[1..]); }
  }

  lemma CleanPrint(p: Path)
    requires p.anchor == "/" || p.anchor == "//"
    requires forall i :: 0 <= i < |p.names| ==> Clean(p.names[i])
    ensures Allowed(Print(p))
  {
    hide Blank;
    CleanJoined(p.names);
    var text := Print(p);
    assert text[0] == '/';
    HasInk(text, 0);
  }

  /** Resolving a result again returns it unchanged. */
  lemma ResolveIsIdempotent(remoteRoot: string, remotePath: string)
    requires ResolveRemotePath(remoteRoot, remotePath).Some?
    ensures var r := ResolveRemotePath(remoteRoot, remotePath).value;
            ResolveRemotePath(remoteRoot, r) == Some(r)
  {
    hide Allowed, Parse, Print;
    ResolvedIsInside(remoteRoot, remotePath);
    AllowedResult(remoteRoot, remotePath);
  }

  /** A root normalised as the clients do it (resolved against itself at ".") resolves everything alike. */
  lemma NormalisedRootIsTheRoot(remoteRoot: string, remotePath: string)
    requires ResolveRemotePath(remoteRoot, ".").Some?
    ensures ResolveRemotePath(ResolveRemotePath(remoteRoot, ".").value, remotePath)
            == ResolveRemotePath(remoteRoot, remotePath)
  {
    hide Allowed, Parse, Print;
    ResolvedIsInside(remoteRoot, ".");
    AllowedResult(remoteRoot, ".");
    ParseDot();
    assert Parse(remoteRoot).names + [] == Parse(remoteRoot).names;
  }

  // ---- Directory entries: SFTP ----

  /** posixpath.join(directory, name). */
  function PosixJoin(directory: string, name: string): string {
    if name != [] && name[0] == '/' then name
    else if directory == [] || directory[|directory| - 1] == '/' then directory + name
    else directory + "/" + name
  }

  lemma {:induction false} SplitAtSlash(a: string, b: string)
    ensures Split(a + "/" + b) == Split(a) + Split(b)
    decreases |a|
  {
    var text := a + "/" + b;
    if a == [] {
      assert text[1..] == b;
    } else {
      assert text[1..] == a[1..] + "/" + b;
      SplitAtSlash(a[1..], b);
    }
  }

  lemma {:induction false} NamesConcat(a: seq<string>, b: seq<string>)
    requires forall i :: 0 <= i < |a| ==> '/' !in a[i]
    requires forall i :: 0 <= i < |b| ==> '/' !in b[i]
    ensures Names(a + b) == Names(a) + Names(b)
    decreases |a|
  {
    if a == [] {
      assert a + b == b;
    } else {
      assert (a + b)[1..] == a[1..] + b;
      NamesConcat(a[1..], b);
    }
  }

  /** The names of two texts with a slash between them. */
  lemma NamesAtSlash(a: string, b: string)
    ensures Names(Split(a + "/" + b)) == Names(Split(a)) + Names(Split(b))
  {
    hide Names, Split;
    SplitAtSlash(a, b);
    NamesConcat(Split(a), Split(b));
  }

  /** Joining a name of any shape to a directory is asking for it from there. */
  lemma PosixJoinIsCandidate(p: Path, name: string)
    requires ValidPath(p) && p.anchor != ""
    ensures Parse(PosixJoin(Print(p), name)) == Candidate(p, Parse(name))
  {
    hide Split, Names, IsName;
    var directory := Print(p);
    ParseUndoesPrint(p);
    JoinedHead(p.names);
    if name != [] && name[0] == '/' {
    } else if p.names == [] {
      assert directory == p.anchor by { assert p.anchor + Joined([]) == p.anchor; }
      RelativeName(p.anchor, name);
    } else {
      JoinedLast(p.names);
      var j := Joined(p.names);
      assert directory == p.anchor + j && directory[|directory| - 1] == j[|j| - 1];
      NamesAtSlash(directory, name);
      KeepsAnchor(p.anchor, j, name);
    }
  }

  lemma RelativeName(anchor: string, name: string)
    requires (anchor == "/" || anchor == "//") && (name == [] || name[0] != '/')
    ensures Parse(anchor + name) == Path(anchor, Parse(name).names)
  {
    hide Split, Names;
    NamesOfSlash(name);
    if anchor == "//" {
      assert anchor + name == "/" + ("/" + name);
      NamesOfSlash("/" + name);
    }
  }

  lemma KeepsAnchor(anchor: string, names: string, name: string)
    requires (anchor == "/" || anchor == "//") && names != [] && names[0] != '/'
    ensures Anchor(anchor + names + "/" + name) == anchor == Anchor(anchor + names)
  {
    var text := anchor + names + "/" + name;
    assert text[|anchor|] == names[0];
  }

  /**
   SFTP: what becomes of an entry name of any shape.  A relative one without ".." lands in the listed
   directory under its own components, below "//" as well; an absolute one is a request of its own; the
   rest is refused.
   */
  lemma SftpEntryIsResolved(remoteRoot: string, remotePath: string, name: string)
    requires ResolveRemotePath(remoteRoot, remotePath).Some?
    ensures var directory := ResolveRemotePath(remoteRoot, remotePath).value;
            var p, q := Parse(directory), Parse(name);
            ResolveRemotePath(remoteRoot, PosixJoin(directory, name)) ==
            if q.anchor != "" then ResolveRemotePath(remoteRoot, name)
            else if !Clean(name) || ".." in q.names then None
            else Some(Print(Path(p.anchor, p.names + q.names)))
  {
    hide Allowed, Parse, Print, IsName, Clean;
    ResolvedIsInside(remoteRoot, remotePath);
    AllowedResult(remoteRoot, remotePath);
    var directory := ResolveRemotePath(remoteRoot, remotePath).value;
    var p, q := Parse(directory), Parse(name);
    ParseUndoesPrint(Candidate(Parse(remoteRoot), Parse(remotePath)));
    assert directory == Print(p);
    AnchoredName(name);
    if q.anchor == "" {
      PosixJoinIsCandidate(p, name);
      JoinedIsAllowed(directory, name);
      ResolvedIsInside(remoteRoot, PosixJoin(directory, name));
      ManyMoreNames(Parse(remoteRoot).names, p.names, q.names);
      ParseUndoesPrint(Path(p.anchor, p.names + q.names));
      DotDotConcat(p.names, q.names);
    }
  }

  lemma AnchoredName(name: string)
    ensures Parse(name).anchor == "" <==> name == [] || name[0] != '/'
  {
    hide Split, Names;
  }

  lemma JoinedIsAllowed(directory: string, name: string)
    requires Allowed(directory) && (name == [] || name[0] != '/')
    ensures Allowed(PosixJoin(directory, name)) <==> Clean(name)
  {
    hide Blank;
    var text := PosixJoin(directory, name);
    CleanJoin(directory, name);
    SomeInk(directory, text);
  }

  lemma CleanJoin(directory: string, name: string)
    requires Clean(directory) && (name == [] || name[0] != '/')
    ensures Clean(PosixJoin(directory, name)) <==> Clean(name)
  {
    var text := PosixJoin(directory, name);
    assert text == directory + name || text == directory + "/" + name;
    assert forall c :: c in text <==> c in directory || c in name || (c == '/' && text == directory + "/" + name);
  }

  lemma SomeInk(text: string, more: string)
    requires !Blank(text) && text <= more
    ensures !Blank(more)
  {
    BlankIsAllSpace(text);
    BlankIsAllSpace(more);
    hide Blank, IsSpace;
    var i :| 0 <= i < |text| && !IsSpace(text[i]);
    assert more[i] == text[i];
  }

  lemma ManyMoreNames(a: seq<string>, b: seq<string>, c: seq<string>)
    requires IsPrefix(a, b)
    ensures IsPrefix(a, b + c)
  {
    assert (b + c)[..|a|] == b[..|a|];
  }

  lemma DotDotConcat(a: seq<string>, b: seq<string>)
    ensures ".." in a + b <==> ".." in a || ".." in b
  {
  }

  // ---- Directory entries: FTP ----

  predicate HasLineBreak(s: string) { '\r' in s || '\n' in s }

  /** The FTP client's _resolve: no line breaks in what is sent. */
  function ResolveFtp(remoteRoot: string, remotePath: string): Option<string> {
    if HasLineBreak(remotePath) then None else ResolveRemotePath(remoteRoot, remotePath)
  }

  function WithoutTrailing(directory: string): string
    decreases |directory|
  {
    if directory != [] && directory[|directory| - 1] == '/' then WithoutTrailing(directory[..|directory| - 1]) else directory
  }

  /** _join_remote. */
  function JoinRemote(directory: string, name: string): string {
    if directory == "/" then "/" + name else WithoutTrailing(directory) + "/" + name
  }

  lemma {:induction false} TrailingHasNoBreak(directory: string)
    ensures HasLineBreak(WithoutTrailing(directory)) <==> HasLineBreak(directory)
    decreases |directory|
  {
    if directory != [] && directory[|directory| - 1] == '/' {
      var front := directory[..|directory| - 1];
      TrailingHasNoBreak(front);
      assert directory == front + ['/'];
    }
  }

  lemma JoinedLineBreak(directory: string, name: string)
    ensures HasLineBreak(JoinRemote(directory, name)) <==> HasLineBreak(directory) || HasLineBreak(name)
  {
    hide WithoutTrailing;
    TrailingHasNoBreak(directory);
    assert forall c :: c in WithoutTrailing(directory) + "/" + name <==> c in WithoutTrailing(directory) || c == '/' || c in name;
    assert forall c :: c in "/" + name <==> c == '/' || c in name;
  }

  lemma LineBreakIn(a: string, b: string)
    ensures '\r' in a + b || '\n' in a + b <==> HasLineBreak(a) || HasLineBreak(b)
  {
  }

  /**
   FTP: a plain entry name lands right in the directory that was listed, unless there is a line break in
   the name or in the root, and save under "//", where every entry is refused.
   */
  lemma FtpEntryIsResolved(remoteRoot: string, remotePath: string, name: string)
    requires ResolveFtp(remoteRoot, remotePath).Some?
    requires IsName(name) && name != ".." && Clean(name)
    ensures var directory := ResolveFtp(remoteRoot, remotePath).value;
            var p := Parse(directory);
            ResolveFtp(remoteRoot, JoinRemote(directory, name)) ==
            if directory == "//" || '\r' in directory + name || '\n' in directory + name then None
            else Some(Print(Path(p.anchor, p.names + [name])))
  {
    LineBreakIn(ResolveFtp(remoteRoot, remotePath).value, name);
    hide ResolveRemotePath, JoinRemote, HasLineBreak, IsName, Clean, Parse, Print;
    JoinedLineBreak(ResolveFtp(remoteRoot, remotePath).value, name);
    ListedIsInDirectory(remoteRoot, remotePath, name);
  }

  lemma ListedIsInDirectory(remoteRoot: string, remotePath: string, name: string)
    requires ResolveRemotePath(remoteRoot, remotePath).Some?
    requires IsName(name) && name != ".." && Clean(name)
    ensures var directory := ResolveRemotePath(remoteRoot, remotePath).value;
            var p := Parse(directory);
            ResolveRemotePath(remoteRoot, JoinRemote(directory, name)) ==
            if directory == "//" then None else Some(Print(Path(p.anchor, p.names + [name])))
  {
    hide Allowed, Parse, Print, IsName, Clean;
    ResolvedIsInside(remoteRoot, remotePath);
    AllowedResult(remoteRoot, remotePath);
    var directory := ResolveRemotePath(remoteRoot, remotePath).value;
    var p := Parse(directory);
    PartsAllowed(directory);
    JoinedEntry(p, name);
    ParseUndoesPrint(p);
    if directory == "//" {
      DoubleSlash(p);
      ParseUndoesPrint(Path("/", [name]));
    } else {
      ParseUndoesPrint(Path(p.anchor, p.names + [name]));
      CleanPrint(Path(p.anchor, p.names + [name]));
      DotDotConcat(p.names, [name]);
      ManyMoreNames(Parse(remoteRoot).names, p.names, [name]);
    }
  }

  lemma DoubleSlash(p: Path)
    requires ValidPath(p) && Print(p) == "//"
    ensures p == Path("//", [])
  {
    hide Split, Names, IsName;
    ParseUndoesPrint(p);
    assert Path("//", []).anchor + Joined([]) == "//";
    ParseUndoesPrint(Path("//", []));
  }

  /** What _join_remote makes of a printed directory and a name. */
  lemma JoinedEntry(p: Path, name: string)
    requires ValidPath(p) && p.anchor != "" && IsName(name)
    ensures JoinRemote(Print(p), name) ==
            if Print(p) == "//" then Print(Path("/", [name])) else Print(Path(p.anchor, p.names + [name]))
  {
    hide Joined, JoinRemote, IsName;
    if p.names == [] {
      assert p.names + [name] == [name] && p == Path(p.anchor, []);
      RootEntry(p.anchor, name);
    } else {
      JoinedSnoc(p.names, name);
      JoinedLast(p.names);
      EntryBelow(p.anchor, Joined(p.names), name);
    }
  }

  lemma RootEntry(anchor: string, name: string)
    requires anchor == "/" || anchor == "//"
    ensures JoinRemote(Print(Path(anchor, [])), name) == Print(Path("/", [name]))
    ensures Print(Path(anchor, [])) == anchor
  {
    hide WithoutTrailing;
    SlashesGo();
    assert Joined([]) == [] && Joined([name]) == name;
    assert anchor + [] == anchor;
  }

  lemma SlashesGo()
    ensures WithoutTrailing("//") == WithoutTrailing("/") == ""
  {
    assert "//"[..1] == "/" && "/"[..0] == "";
  }

  lemma EntryBelow(anchor: string, names: string, name: string)
    requires names != [] && names[|names| - 1] != '/'
    ensures JoinRemote(anchor + names, name) == anchor + (names + "/" + name)
    ensures anchor + names != "//" && anchor + names != "/"
  {
    var directory := anchor + names;
    assert directory[|directory| - 1] == names[|names| - 1];
    assert directory + "/" + name == anchor + (names + "/" + name);
  }

  lemma {:induction false} JoinedSnoc(names: seq<string>, name: string)
    requires names != []
    ensures Joined(names + [name]) == Joined(names) + "/" + name
  {
    if |names| > 1 {
      assert (names + [name])[1..] == names[1..] + [name];
      JoinedSnoc(names[1..], name);
    } else {
      assert (names + [name])[1..] == [name];
    }
  }

  lemma {:induction false} JoinedLast(names: seq<string>)
    requires names != [] && forall i :: 0 <= i < |names| ==> IsName(names[i])
    ensures Joined(names) != [] && Joined(names)[|Joined(names)| - 1] != '/'
  {
    if |names| > 1 {
      JoinedLast(names[1..]);
    } else {
      assert names[0][|names[0]| - 1] in names[0];
    }
  }
}
