/**
 The bounded, all-or-nothing download that the SFTP and the FTP client share: a remote file is read in
 chunks into a temporary file, checked, and committed to its destination, while other programs use the
 same directory.
 */
module Download {
  import opened Basics

  type FileName = string
  type Bytes = seq<byte>
  type Files = map<FileName, Bytes>

  datatype Event =
    | Put(name: FileName, content: Bytes)   // another program creates or overwrites a file
    | Delete(name: FileName)                // ... or removes one
    | CreateTemporary                       // exclusive creation
    | Append(chunk: Bytes)                  // to the temporary
    | UnlinkTemporary                       // missing_ok
    | UnlinkRaises                          // ... or the attempt raises
    | Link                                  // hard link of the temporary as destination
    | Replace                               // rename of the temporary over the destination

  /** The two names a download writes to; the temporary's random one is used by nobody else. */
  datatype Place = Place(temporary: FileName, destination: FileName)

  predicate IsOwn(e: Event) { !e.Put? && !e.Delete? }

  predicate Commits(e: Event) { e.Link? || e.Replace? }

  predicate Foreign(p: Place, e: Event) { !IsOwn(e) && e.name != p.temporary }

  predicate Possible(p: Place, files: Files, e: Event) {
    match e
    case CreateTemporary => p.temporary !in files
    case Append(_) => p.temporary in files
    case Link => p.temporary in files && p.destination !in files
    case Replace => p.temporary in files
    case _ => true
  }

  function Next(p: Place, files: Files, e: Event): Files {
    if !Possible(p, files, e) then files
    else match e
      case Put(name, content) => files[name := content]
      case Delete(name) => files - {name}
      case CreateTemporary => files[p.temporary := []]
      case Append(chunk) => files[p.temporary := files[p.temporary] + chunk]
      case UnlinkTemporary => files - {p.temporary}
      case UnlinkRaises => files
      case Link => files[p.destination := files[p.temporary]]
      case Replace => files[p.destination := files[p.temporary]] - {p.temporary}
  }

  function Run(p: Place, files: Files, log: seq<Event>): Files
    decreases |log|
  {
    if log == [] then files else Next(p, Run(p, files, log[..|log| - 1]), log[|log| - 1])
  }

  function Own(log: seq<Event>): seq<Event>
    decreases |log|
  {
    if log == [] then []
    else Own(log[..|log| - 1]) + if IsOwn(log[|log| - 1]) then [log[|log| - 1]] else []
  }

  function Others(log: seq<Event>): seq<Event>
    decreases |log|
  {
    if log == [] then []
    else Others(log[..|log| - 1]) + if IsOwn(log[|log| - 1]) then [] else [log[|log| - 1]]
  }

  /** Own events happen when they can; the others keep off the temporary. */
  ghost predicate Legal(p: Place, files: Files, log: seq<Event>)
    decreases |log|
  {
    log == [] ||
    var front, last := log[..|log| - 1], log[|log| - 1];
    Legal(p, files, front) && if IsOwn(last) then Possible(p, Run(p, files, front), last) else Foreign(p, last)
  }

  // ---- What a log does ----

  /** The temporary is made by own events alone. */
  function TemporaryAfter(own: seq<Event>): Option<Bytes>
    decreases |own|
  {
    if own == [] then None
    else
      var before := TemporaryAfter(own[..|own| - 1]);
      match own[|own| - 1]
      case CreateTemporary => Some([])
      case Append(chunk) => if before.Some? then Some(before.value + chunk) else None
      case UnlinkTemporary => None
      case Replace => None
      case _ => before
  }

  ghost predicate HasTemporary(p: Place, files: Files, content: Option<Bytes>) {
    if content.Some? then p.temporary in files && files[p.temporary] == content.value else p.temporary !in files
  }

  lemma TemporarySnoc(own: seq<Event>, e: Event)
    ensures TemporaryAfter(own + [e]) ==
            match e
            case CreateTemporary => Some([])
            case Append(chunk) => if TemporaryAfter(own).Some? then Some(TemporaryAfter(own).value + chunk) else None
            case UnlinkTemporary => None
            case Replace => None
            case _ => TemporaryAfter(own)
  {
    assert (own + [e])[..|own|] == own;
  }

  lemma {:induction false} TemporaryIsOwn(p: Place, files: Files, log: seq<Event>)
    requires p.temporary != p.destination && p.temporary !in files && Legal(p, files, log)
    ensures HasTemporary(p, Run(p, files, log), TemporaryAfter(Own(log)))
    decreases |log|
  {
    hide TemporaryAfter;
    if log == [] {
      assert TemporaryAfter([]) == None by { NoTemporary(); }
    } else {
      var front, last := log[..|log| - 1], log[|log| - 1];
      TemporaryIsOwn(p, files, front);
      TemporarySnoc(Own(front), last);
      if !IsOwn(last) { assert Own(log) == Own(front); }
    }
  }

  lemma NoTemporary()
    ensures TemporaryAfter([]) == None
  {
  }

  ghost predicate NoCommit(own: seq<Event>) { forall i :: 0 <= i < |own| ==> !Commits(own[i]) }

  /** Outside the temporary, a log without a commit leaves what the other programs alone would have left. */
  lemma {:induction false} WithoutCommitOnlyOthersShow(p: Place, files: Files, log: seq<Event>)
    requires p.temporary !in files && Legal(p, files, log) && NoCommit(Own(log))
    ensures Run(p, files, log) - {p.temporary} == Run(p, files, Others(log)) - {p.temporary}
    decreases |log|
  {
    if log != [] {
      var front, last := log[..|log| - 1], log[|log| - 1];
      assert NoCommit(Own(front)) by {
        forall i | 0 <= i < |Own(front)| ensures !Commits(Own(front)[i]) { assert Own(log)[i] == Own(front)[i]; }
      }
      WithoutCommitOnlyOthersShow(p, files, front);
      var now, alone := Run(p, files, front), Run(p, files, Others(front));
      if IsOwn(last) {
        assert Own(log)[|Own(front)|] == last;
        assert Others(log) == Others(front);
        SameOutside(p, now, last);
      } else {
        assert Others(log)[..|Others(front)|] == Others(front);
        ForeignAlike(p, now, alone, last);
      }
    }
  }

  lemma SameOutside(p: Place, files: Files, e: Event)
    requires IsOwn(e) && !Commits(e)
    ensures Next(p, files, e) - {p.temporary} == files - {p.temporary}
  {
  }

  lemma ForeignAlike(p: Place, a: Files, b: Files, e: Event)
    requires Foreign(p, e) && a - {p.temporary} == b - {p.temporary}
    ensures Next(p, a, e) - {p.temporary} == Next(p, b, e) - {p.temporary}
  {
    var t := {p.temporary};
    forall name ensures (name in Next(p, a, e) - t) == (name in Next(p, b, e) - t) {
      assert (name in a - t) == (name in b - t);
    }
    forall name | name in Next(p, a, e) - t ensures Next(p, a, e)[name] == Next(p, b, e)[name] {
      if name in a { assert (a - t)[name] == a[name]; }
      if name in b { assert (b - t)[name] == b[name]; }
    }
  }

  /** Without overwrite: no step of a download changes or removes a file that is there, save its own temporary. */
  lemma ExistingFilesAreSafe(p: Place, files: Files, e: Event, name: FileName)
    requires IsOwn(e) && !e.Replace? && name in files && name != p.temporary
    ensures name in Next(p, files, e) && Next(p, files, e)[name] == files[name]
  {
  }

  // ---- What a download writes ----

  /** A read block; an empty one would be the end of the file. */
  type Chunk = c: Bytes | c != [] witness [0]

  function Concat(chunks: seq<Chunk>): Bytes
    decreases |chunks|
  {
    if chunks == [] then [] else Concat(chunks[..|chunks| - 1]) + chunks[|chunks| - 1]
  }

  function WriteAll(chunks: seq<Chunk>): seq<Event>
    decreases |chunks|
  {
    if chunks == [] then [CreateTemporary]
    else WriteAll(chunks[..|chunks| - 1]) + [Append(chunks[|chunks| - 1])]
  }

  function CommitSteps(overwrite: bool): seq<Event> {
    if overwrite then [Replace] else [Link, UnlinkTemporary]
  }

  lemma {:induction false} WriteAllWrites(chunks: seq<Chunk>)
    ensures TemporaryAfter(WriteAll(chunks)) == Some(Concat(chunks)) && NoCommit(WriteAll(chunks))
    decreases |chunks|
  {
    hide TemporaryAfter;
    if chunks == [] {
      TemporarySnoc([], CreateTemporary);
      assert [] + [CreateTemporary] == [CreateTemporary];
    } else {
      var n := |chunks| - 1;
      WriteAllWrites(chunks[..n]);
      TemporarySnoc(WriteAll(chunks[..n]), Append(chunks[n]));
    }
  }

  /** Where an own event stands in the log of everybody's events. */
  lemma {:induction false} FindOwn(log: seq<Event>, a: seq<Event>, e: Event, b: seq<Event>) returns (k: nat)
    requires Own(log) == a + [e] + b
    ensures k < |log| && log[k] == e && Own(log[..k]) == a
    decreases |log|
  {
    var n := |log| - 1;
    var front, last := log[..n], log[n];
    if IsOwn(last) {
      assert Own(log)[|Own(log)| - 1] == last;
      if b == [] {
        assert Own(front) == a by { assert Own(log)[..|Own(log)| - 1] == Own(front); assert (a + [e] + b)[..|a|] == a; }
        assert last == e;
        k := n;
      } else {
        var m := |b| - 1;
        assert Own(front) == a + [e] + b[..m] by {
          assert Own(log)[..|Own(log)| - 1] == Own(front);
          assert (a + [e] + b)[..|a| + 1 + m] == a + [e] + b[..m];
        }
        k := FindOwn(front, a, e, b[..m]);
        assert log[..k] == front[..k];
      }
    } else {
      assert Own(front) == Own(log);
      k := FindOwn(front, a, e, b);
      assert log[..k] == front[..k];
    }
  }

  lemma {:induction false} LegalPrefix(p: Place, files: Files, log: seq<Event>, k: nat)
    requires Legal(p, files, log) && k <= |log|
    ensures Legal(p, files, log[..k])
    ensures k < |log| && IsOwn(log[k]) ==> Possible(p, Run(p, files, log[..k]), log[k])
    decreases |log|
  {
    if k < |log| {
      var front := log[..|log| - 1];
      assert k < |front| ==> front[k] == log[k];
      LegalPrefix(p, files, front, k);
      assert front[..k] == log[..k];
    } else {
      assert log[..k] == log;
    }
  }

  /**
   A successful download: at one moment the destination gets the whole content at once; up to then only
   the others' changes show; without overwrite nothing was there at that moment; the temporary is gone.
   */
  lemma CommittedAtOnce(p: Place, files: Files, log: seq<Event>, chunks: seq<Chunk>, overwrite: bool) returns (k: nat)
    requires p.temporary != p.destination && p.temporary !in files && Legal(p, files, log)
    requires Own(log) == WriteAll(chunks) + CommitSteps(overwrite)
    ensures k < |log| && Commits(log[k])
    ensures var before, after := Run(p, files, log[..k]), Run(p, files, log[..k + 1]);
            && before - {p.temporary} == Run(p, files, Others(log[..k])) - {p.temporary}
            && p.destination in after && after[p.destination] == Concat(chunks)
            && (!overwrite ==> p.destination !in before)
    ensures p.temporary !in Run(p, files, log)
  {
    hide TemporaryAfter, Legal, Own, Others;
    var commit := CommitSteps(overwrite)[0];
    assert Own(log) == WriteAll(chunks) + [commit] + CommitSteps(overwrite)[1..];
    k := FindOwn(log, WriteAll(chunks), commit, CommitSteps(overwrite)[1..]);
    WriteAllWrites(chunks);
    LegalPrefix(p, files, log, k);
    TemporaryIsOwn(p, files, log[..k]);
    WithoutCommitOnlyOthersShow(p, files, log[..k]);
    assert log[..k + 1][..k] == log[..k];
    TemporaryIsOwn(p, files, log);
    TemporarySnoc(WriteAll(chunks), commit);
    if !overwrite {
      TemporarySnoc(WriteAll(chunks) + [Link], UnlinkTemporary);
      assert WriteAll(chunks) + [Link] + [UnlinkTemporary] == Own(log);
    } else {
      assert WriteAll(chunks) + [Replace] == Own(log);
    }
  }

  /** A failed download, when unlink works: the others' changes are all that shows, and the temporary is gone. */
  lemma FailedWithoutTrace(p: Place, files: Files, log: seq<Event>)
    requires p.temporary != p.destination && p.temporary !in files && Legal(p, files, log)
    requires NoCommit(Own(log)) && TemporaryAfter(Own(log)).None?
    ensures p.temporary !in Run(p, files, log)
    ensures Run(p, files, log) == Run(p, files, Others(log)) - {p.temporary}
  {
    hide TemporaryAfter, Legal, Own, Others, Next;
    TemporaryIsOwn(p, files, log);
    WithoutCommitOnlyOthersShow(p, files, log);
    assert Run(p, files, log) - {p.temporary} == Run(p, files, log);
  }
}
