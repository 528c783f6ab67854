/** The two download methods, SFTP's read loop and FTP's block callback, against one specification. */
module Transfer {
  import opened Basics
  import opened Download

  datatype FileInfo = FileInfo(
    path: string,
    size: int,
    modifiedTime: Option<real>,
    isDirectory: bool,
    isRegularFile: bool,
    isSymlink: bool)

  datatype DownloadResult = DownloadResult(remotePath: string, localPath: string, size: nat, sha256: string)

  datatype Error =
    | StatFailed
    | NotRegular
    | TransferLimit
    | DestinationExists
    | TransferFailed      // a read, write, flush, open or RETR raised
    | SizeMismatch
    | MetadataChanged
    | CommitFailed
    | CleanupFailed       // unlink itself raised

  /** One block read, or a read that raises. */
  datatype Read = Block(chunk: Chunk) | Raises

  /**
   What the server answers: the stat before, whether the transfer starts, the reads, whether it completes
   (with the local flush), the stat after.
   */
  datatype Remote = Remote(before: Option<FileInfo>, starts: bool, blocks: seq<Read>, completes: bool, after: Option<FileInfo>)

  datatype Request = Request(overwrite: bool, maxDownloadBytes: nat)

  /** The blocks of a source that never raises. */
  function Blocks(blocks: seq<Read>): Option<seq<Chunk>>
    decreases |blocks|
  {
    if blocks == [] then Some([])
    else
      var front := Blocks(blocks[..|blocks| - 1]);
      if front.None? || blocks[|blocks| - 1].Raises? then None else Some(front.value + [blocks[|blocks| - 1].chunk])
  }

  predicate SameFile(a: FileInfo, b: FileInfo) { a.(path := b.path) == b }

  /** What reading comes to when no local step raises: the first raise or the first block beyond the limit decides. */
  function Received(blocks: seq<Read>, limit: nat): Result<seq<Chunk>, Error>
    decreases |blocks|
  {
    if blocks == [] then Ok([])
    else
      var last := blocks[|blocks| - 1];
      match Received(blocks[..|blocks| - 1], limit)
      case Err(e) => Err(e)
      case Ok(chunks) =>
        if last.Raises? then Err(TransferFailed)
        else if |Concat(chunks)| + |last.chunk| > limit then Err(TransferLimit)
        else Ok(chunks + [last.chunk])
  }

  function ReadingError(remote: Remote, limit: nat): Option<Error> {
    if !remote.starts then Some(TransferFailed)
    else
      match Received(remote.blocks, limit)
      case Err(e) => Some(e)
      case Ok(_) => if remote.completes then None else Some(TransferFailed)
  }

  function CheckError(remote: Remote, downloaded: nat): Option<Error>
    requires remote.before.Some?
  {
    if downloaded != remote.before.value.size then Some(SizeMismatch)
    else if remote.after.None? then Some(StatFailed)
    else if !SameFile(remote.before.value, remote.after.value) then Some(MetadataChanged)
    else None
  }

  function GuardError(remote: Remote, request: Request, occupied: bool): Option<Error> {
    if remote.before.None? then Some(StatFailed)
    else if !remote.before.value.isRegularFile || remote.before.value.isSymlink then Some(NotRegular)
    else if remote.before.value.size > request.maxDownloadBytes then Some(TransferLimit)
    else if occupied && !request.overwrite then Some(DestinationExists)
    else None
  }

  function FinishError(remote: Remote, limit: nat): Option<Error>
    requires remote.before.Some?
  {
    if ReadingError(remote, limit).Some? then ReadingError(remote, limit)
    else CheckError(remote, |Concat(Received(remote.blocks, limit).value)|)
  }

  /** Why a download fails although no local step raises, if it does. */
  function Verdict(remote: Remote, request: Request, occupied: bool): Option<Error> {
    if GuardError(remote, request, occupied).Some? then GuardError(remote, request, occupied)
    else FinishError(remote, request.maxDownloadBytes)
  }

  /**
   The answer to the caller: a result exactly when no local step raised and there is nothing to fail for;
   and nothing is committed that there is something to fail for.
   */
  ghost predicate AnswersAs(verdict: Option<Error>, own: seq<Event>, failed: bool, r: Result<DownloadResult, Error>) {
    && (r.Ok? <==> !failed && verdict.None?)
    && (!failed && verdict.Some? ==> r == Err(verdict.value))
    && (UnlinkRaises in own ==> failed)
    && (!NoCommit(own) ==> verdict.None?)
  }

  /** The destination was linked, and the unlink of the temporary right after it raised. */
  ghost predicate LinkedThenRaised(own: seq<Event>) {
    exists i :: 0 <= i < |own| - 1 && own[i] == Link && own[i + 1] == UnlinkRaises
  }

  predicate Undone(own: seq<Event>) { own == [] || own[|own| - 1] == UnlinkTemporary || own[|own| - 1] == UnlinkRaises }

  /** At no moment has the temporary more than the limit. */
  ghost predicate Bounded(own: seq<Event>, limit: nat) {
    forall k :: 0 <= k <= |own| ==>
      TemporaryAfter(own[..k]).Some? ==> |TemporaryAfter(own[..k]).value| <= limit
  }

  /** The specification both clients meet. */
  ghost predicate Meets(p: Place, files: Files, log: seq<Event>, end: Files, remote: Remote, request: Request,
                        sha256: Bytes -> string, r: Result<DownloadResult, Error>)
  {
    && Legal(p, files, log) && end == Run(p, files, log)
    && Bounded(Own(log), request.maxDownloadBytes)
    && (r.Ok? ==>
          && Blocks(remote.blocks).Some? && remote.before.Some? && remote.after.Some?
          && Own(log) == WriteAll(Blocks(remote.blocks).value) + CommitSteps(request.overwrite)
          && var content, info := Concat(Blocks(remote.blocks).value), remote.before.value;
          && |content| == info.size && |content| <= request.maxDownloadBytes
          && info.isRegularFile && !info.isSymlink && SameFile(info, remote.after.value)
          && r.value == DownloadResult(info.path, p.destination, |content|, sha256(content)))
    && (r.Err? ==> Undone(Own(log)) && (!NoCommit(Own(log)) <==> LinkedThenRaised(Own(log))))
    && (r.Err? && LinkedThenRaised(Own(log)) ==>
          Blocks(remote.blocks).Some? && WriteAll(Blocks(remote.blocks).value) + [Link] <= Own(log))
    && (!request.overwrite ==> forall i :: 0 <= i < |Own(log)| ==> !Own(log)[i].Replace?)
  }

  // ---- Bookkeeping ----

  lemma BoundedSnoc(own: seq<Event>, e: Event, limit: nat)
    requires Bounded(own, limit)
    requires TemporaryAfter(own + [e]).Some? ==> |TemporaryAfter(own + [e]).value| <= limit
    ensures Bounded(own + [e], limit)
  {
    hide TemporaryAfter;
    forall k | 0 <= k <= |own| + 1
      ensures TemporaryAfter((own + [e])[..k]).Some? ==> |TemporaryAfter((own + [e])[..k]).value| <= limit
    {
      if k <= |own| { assert (own + [e])[..k] == own[..k]; } else { assert (own + [e])[..k] == own + [e]; }
    }
  }

  lemma NothingWritten(limit: nat)
    ensures Bounded([], limit) && NoCommit([]) && TemporaryAfter([]).None?
  {
  }

  lemma {:induction false} LegalForeign(p: Place, files: Files, log: seq<Event>, others: seq<Event>)
    requires Legal(p, files, log) && forall i :: 0 <= i < |others| ==> Foreign(p, others[i])
    ensures Legal(p, files, log + others) && Own(log + others) == Own(log)
    ensures Run(p, files, log + others) == Run(p, Run(p, files, log), others)
    decreases |others|
  {
    hide Next;
    if others == [] {
      assert log + others == log;
    } else {
      var n := |others| - 1;
      LegalForeign(p, files, log, others[..n]);
      assert (log + others)[..|log| + n] == log + others[..n];
    }
  }

  /** The local directory, with the other programs that use it. */
  class LocalDirectory {
    const place: Place
    ghost var failed: bool   // some step of the download raised
    var files: Files
    var turns: seq<seq<Event>>

    constructor (place: Place, files: Files, turns: seq<seq<Event>>)
      ensures this.place == place && this.files == files && this.turns == turns
      ensures !failed
    {
      this.place, this.files, this.turns := place, files, turns;
      failed := false;
    }

    ghost predicate Explains(start: Files, log: seq<Event>)
      reads this
    {
      Legal(place, start, log) && files == Run(place, start, log)
    }

    /** The others act, then this download's step takes place or raises without effect; a raising unlink is noted down. */
    method Try(e: Event, ghost start: Files, ghost log: seq<Event>) returns (done: bool, ghost log': seq<Event>)
      requires IsOwn(e) && Explains(start, log)
      modifies this
      ensures Explains(start, log')
      ensures Own(log') == Own(log) + if done then [e] else if e.UnlinkTemporary? then [UnlinkRaises] else []
      ensures failed == (old(failed) || !done)
    {
      hide Legal, Run, Own, Next;
      var others := [];
      if turns != [] {
        others := if forall i :: 0 <= i < |turns[0]| ==> Foreign(place, turns[0][i]) then turns[0] else [];
        turns := turns[1..];
      }
      LegalForeign(place, start, log, others);
      files := Run(place, files, others);
      log' := log + others;
      var works := *;
      done := works && Possible(place, files, e);
      if done {
        StepIsLegal(place, start, log', e);
        files := Next(place, files, e);
        log' := log' + [e];
      } else if e.UnlinkTemporary? {
        StepIsLegal(place, start, log', UnlinkRaises);
        assert Next(place, files, UnlinkRaises) == files by { RaisingChangesNothing(place, files); }
        log' := log' + [UnlinkRaises];
      }
      failed := failed || !done;
    }
  }

  lemma RaisingChangesNothing(p: Place, files: Files)
    ensures Next(p, files, UnlinkRaises) == files && Possible(p, files, UnlinkRaises)
  {
  }

  lemma StepIsLegal(p: Place, files: Files, log: seq<Event>, e: Event)
    requires Legal(p, files, log) && IsOwn(e) && Possible(p, Run(p, files, log), e)
    ensures Legal(p, files, log + [e]) && Own(log + [e]) == Own(log) + [e]
    ensures Run(p, files, log + [e]) == Next(p, Run(p, files, log), e)
  {
    assert (log + [e])[..|log|] == log;
  }

  // ---- The read loop and the block callback ----

  /** What both do with a block: count, stop at the limit, write, digest. */
  class Receiver {
    var downloaded: nat
    var digested: Bytes
    ghost var chunks: seq<Chunk>

    constructor ()
      ensures chunks == [] && Valid()
    {
      downloaded, digested, chunks := 0, [], [];
    }

    ghost predicate Valid()
      reads this
    {
      downloaded == |Concat(chunks)| && digested == Concat(chunks)
    }

    method Receive(directory: LocalDirectory, chunk: Chunk, limit: nat, ghost start: Files, ghost log: seq<Event>)
      returns (error: Option<Error>, ghost log': seq<Event>)
      requires Valid() && directory.Explains(start, log) && Own(log) == WriteAll(chunks) && Bounded(Own(log), limit)
      modifies this, directory
      ensures directory.Explains(start, log') && Bounded(Own(log'), limit)
      ensures Own(log') == WriteAll(chunks)
      ensures error.None? ==> Valid() && chunks == old(chunks) + [chunk]
      ensures error.Some? ==> chunks == old(chunks)
      ensures var beyond := |Concat(old(chunks))| + |chunk| > limit;
              && (beyond ==> error == Some(TransferLimit) && directory.failed == old(directory.failed))
              && (!beyond && error.Some? ==> directory.failed)
              && (!beyond && error.None? ==> directory.failed == old(directory.failed))
    {
      hide Own, Bounded, WriteAll, Concat, TemporaryAfter;
      downloaded := downloaded + |chunk|;
      if downloaded > limit {
        return Some(TransferLimit), log;
      }
      var done;
      done, log' := directory.Try(Append(chunk), start, log);
      if !done {
        assert Own(log') == Own(log);
        return Some(TransferFailed), log';
      }
      digested := digested + chunk;
      WriteNext(chunks, chunk);
      WriteAllWrites(chunks + [chunk]);
      BoundedSnoc(Own(log), Append(chunk), limit);
      chunks := chunks + [chunk];
      error := None;
    }
  }

  lemma WriteNext(chunks: seq<Chunk>, chunk: Chunk)
    ensures WriteAll(chunks + [chunk]) == WriteAll(chunks) + [Append(chunk)]
    ensures Concat(chunks + [chunk]) == Concat(chunks) + chunk
  {
    assert (chunks + [chunk])[..|chunks|] == chunks;
  }

  lemma ReceivedNothing(blocks: seq<Read>, limit: nat)
    ensures Received(blocks[..0], limit) == Ok([])
  {
  }

  lemma ReceivedNext(blocks: seq<Read>, limit: nat, n: nat)
    requires n < |blocks| && Received(blocks[..n], limit).Ok?
    ensures var chunks := Received(blocks[..n], limit).value;
            Received(blocks[..n + 1], limit) ==
            if blocks[n].Raises? then Err(TransferFailed)
            else if |Concat(chunks)| + |blocks[n].chunk| > limit then Err(TransferLimit)
            else Ok(chunks + [blocks[n].chunk])
  {
    assert blocks[..n + 1][..n] == blocks[..n];
  }

  lemma {:induction false} ReceivedStops(blocks: seq<Read>, limit: nat, n: nat)
    requires n <= |blocks| && Received(blocks[..n], limit).Err?
    ensures Received(blocks, limit) == Received(blocks[..n], limit)
    decreases |blocks|
  {
    hide Concat;
    if n < |blocks| {
      var front := blocks[..|blocks| - 1];
      assert front[..n] == blocks[..n];
      ReceivedStops(front, limit, n);
    } else {
      assert blocks[..n] == blocks;
    }
  }

  /** Reading succeeds exactly when no block raises and all of them together keep to the limit. */
  lemma {:induction false} ReceivedIff(blocks: seq<Read>, limit: nat)
    ensures Received(blocks, limit).Ok? <==> Blocks(blocks).Some? && |Concat(Blocks(blocks).value)| <= limit
    ensures Received(blocks, limit).Ok? ==> Blocks(blocks) == Some(Received(blocks, limit).value)
    decreases |blocks|
  {
    hide Concat;
    assert Concat([]) == [] by { ConcatNothing(); }
    if blocks != [] {
      var front := blocks[..|blocks| - 1];
      ReceivedIff(front, limit);
      if Blocks(front).Some? && blocks[|blocks| - 1].Block? {
        WriteNext(Blocks(front).value, blocks[|blocks| - 1].chunk);
      }
    }
  }

  lemma ConcatNothing()
    ensures Concat([]) == []
  {
  }

  method CreateTemporaryFile(directory: LocalDirectory, limit: nat, ghost start: Files, ghost log: seq<Event>)
    returns (done: bool, ghost log': seq<Event>)
    requires directory.Explains(start, log) && Own(log) == []
    modifies directory
    ensures directory.Explains(start, log') && Bounded(Own(log'), limit)
    ensures Own(log') == if done then WriteAll([]) else []
    ensures directory.failed == (old(directory.failed) || !done)
  {
    hide Own, Bounded, TemporaryAfter;
    NothingWritten(limit);
    done, log' := directory.Try(CreateTemporary, start, log);
    WriteAllWrites([]);
    assert [] + [CreateTemporary] == WriteAll([]);
    BoundedSnoc([], CreateTemporary, limit);
  }

  /** SFTP: the source is opened, then the temporary, then read until an empty block. */
  method ReadSftp(directory: LocalDirectory, remote: Remote, limit: nat, receiver: Receiver,
                  ghost start: Files, ghost log: seq<Event>)
    returns (error: Option<Error>, ghost log': seq<Event>)
    requires directory.Explains(start, log) && Own(log) == [] && receiver.Valid() && receiver.chunks == []
    requires !directory.failed
    modifies directory, receiver
    ensures directory.Explains(start, log') && Bounded(Own(log'), limit)
    ensures Own(log') == [] || Own(log') == WriteAll(receiver.chunks)
    ensures error.None? ==> Own(log') == WriteAll(receiver.chunks) && receiver.Valid()
                            && Received(remote.blocks, limit) == Ok(receiver.chunks)
    ensures if directory.failed then error.Some? else error == ReadingError(remote, limit)
  {
    hide Own, Bounded, WriteAll, Concat, Received;
    log' := log;
    NothingWritten(limit);
    if !remote.starts {
      return Some(TransferFailed), log';
    }
    var done;
    done, log' := CreateTemporaryFile(directory, limit, start, log');
    if !done {
      return Some(TransferFailed), log';
    }
    ReceivedNothing(remote.blocks, limit);
    var i := 0;
    while true
      invariant directory.Explains(start, log') && Bounded(Own(log'), limit)
      invariant 0 <= i <= |remote.blocks| && Received(remote.blocks[..i], limit) == Ok(receiver.chunks)
      invariant !directory.failed
      invariant receiver.Valid() && Own(log') == WriteAll(receiver.chunks)
      decreases |remote.blocks| - i
    {
      if i == |remote.blocks| {
        break;   // an empty block
      }
      ReceivedNext(remote.blocks, limit, i);
      if remote.blocks[i].Raises? {
        ReceivedStops(remote.blocks, limit, i + 1);
        return Some(TransferFailed), log';
      }
      error, log' := receiver.Receive(directory, remote.blocks[i].chunk, limit, start, log');
      if error.Some? {
        if !directory.failed { ReceivedStops(remote.blocks, limit, i + 1); }
        return error, log';
      }
      i := i + 1;
    }
    assert remote.blocks[..|remote.blocks|] == remote.blocks;
    error := if remote.completes then None else Some(TransferFailed);
  }

  /** FTP: the temporary is opened, then RETR hands every block to the callback and waits for its reply. */
  method ReadFtp(directory: LocalDirectory, remote: Remote, limit: nat, receiver: Receiver,
                 ghost start: Files, ghost log: seq<Event>)
    returns (error: Option<Error>, ghost log': seq<Event>)
    requires directory.Explains(start, log) && Own(log) == [] && receiver.Valid() && receiver.chunks == []
    requires !directory.failed
    modifies directory, receiver
    ensures directory.Explains(start, log') && Bounded(Own(log'), limit)
    ensures Own(log') == [] || Own(log') == WriteAll(receiver.chunks)
    ensures error.None? ==> Own(log') == WriteAll(receiver.chunks) && receiver.Valid()
                            && Received(remote.blocks, limit) == Ok(receiver.chunks)
    ensures if directory.failed then error.Some? else error == ReadingError(remote, limit)
  {
    hide Own, Bounded, WriteAll, Concat, Received;
    var done;
    done, log' := CreateTemporaryFile(directory, limit, start, log);
    if !done {
      return Some(TransferFailed), log';
    }
    if !remote.starts {
      return Some(TransferFailed), log';
    }
    ReceivedNothing(remote.blocks, limit);
    for i := 0 to |remote.blocks|
      invariant directory.Explains(start, log') && Bounded(Own(log'), limit)
      invariant Received(remote.blocks[..i], limit) == Ok(receiver.chunks) && !directory.failed
      invariant receiver.Valid() && Own(log') == WriteAll(receiver.chunks)
    {
      ReceivedNext(remote.blocks, limit, i);
      if remote.blocks[i].Raises? {
        ReceivedStops(remote.blocks, limit, i + 1);
        return Some(TransferFailed), log';
      }
      error, log' := receiver.Receive(directory, remote.blocks[i].chunk, limit, start, log');
      if error.Some? {
        if !directory.failed { ReceivedStops(remote.blocks, limit, i + 1); }
        return error, log';
      }
    }
    assert remote.blocks[..|remote.blocks|] == remote.blocks;
    error := if remote.completes then None else Some(TransferFailed);
  }

  // ---- The whole download ----

  lemma AppendOwn(own: seq<Event>, e: Event, limit: nat)
    requires Bounded(own, limit) && !e.CreateTemporary? && !e.Append?
    ensures Bounded(own + [e], limit)
    ensures NoCommit(own + [e]) <==> NoCommit(own) && !Commits(e)
    ensures TemporaryAfter(own + [e]) == if e.UnlinkTemporary? || e.Replace? then None else TemporaryAfter(own)
  {
    hide TemporaryAfter;
    TemporarySnoc(own, e);
    assert own[..|own|] == own;
    BoundedSnoc(own, e, limit);
    NoCommitSnoc(own, e);
  }

  lemma NoCommitSnoc(own: seq<Event>, e: Event)
    ensures NoCommit(own + [e]) <==> NoCommit(own) && !Commits(e)
  {
    assert (own + [e])[|own|] == e;
    if NoCommit(own + [e]) {
      forall i | 0 <= i < |own| ensures !Commits(own[i]) { assert (own + [e])[i] == own[i]; }
    }
  }

  /** Nothing but an unlink that raises right after a link makes a log of this kind. */
  lemma LinkedThenRaisedSnoc(own: seq<Event>, e: Event)
    ensures LinkedThenRaised(own + [e]) <==>
            LinkedThenRaised(own) || (own != [] && own[|own| - 1] == Link && e == UnlinkRaises)
  {
    var all, n := own + [e], |own|;
    if LinkedThenRaised(own) {
      var i :| 0 <= i < n - 1 && own[i] == Link && own[i + 1] == UnlinkRaises;
      assert all[i] == Link && all[i + 1] == UnlinkRaises;
    }
    if own != [] && own[n - 1] == Link && e == UnlinkRaises { assert all[n - 1] == Link && all[n - 1 + 1] == UnlinkRaises; }
    if LinkedThenRaised(all) {
      var i :| 0 <= i < n && all[i] == Link && all[i + 1] == UnlinkRaises;
      if i < n - 1 { assert own[i] == Link && own[i + 1] == UnlinkRaises; }
    }
  }

  /** So far nothing committed, nothing linked, no unlink raised. */
  ghost predicate OnlyWrites(own: seq<Event>) {
    NoCommit(own) && !LinkedThenRaised(own) && UnlinkRaises !in own && forall i :: 0 <= i < |own| ==> !own[i].Replace?
  }

  /** The handler of every failure: unlink the temporary, then raise again, or raise unlink's own error. */
  method Undo(directory: LocalDirectory, error: Error, limit: nat, ghost start: Files, ghost log: seq<Event>)
    returns (raised: Error, ghost log': seq<Event>)
    requires directory.Explains(start, log) && Bounded(Own(log), limit)
    modifies directory
    ensures directory.Explains(start, log') && Bounded(Own(log'), limit)
    ensures |Own(log')| == |Own(log)| + 1 && Own(log) <= Own(log') && Undone(Own(log'))
    ensures Own(log')[|Own(log)|] == UnlinkRaises ==> directory.failed && raised == CleanupFailed
    ensures Own(log')[|Own(log)|] == UnlinkTemporary ==> directory.failed == old(directory.failed) && raised == error
  {
    hide Own, Bounded, TemporaryAfter, NoCommit;
    var done;
    done, log' := directory.Try(UnlinkTemporary, start, log);
    raised := if done then error else CleanupFailed;
    AppendOwn(Own(log), if done then UnlinkTemporary else UnlinkRaises, limit);
  }

  /** Size, second stat, commit: as both clients do after the last block. */
  method CheckAndCommit(directory: LocalDirectory, remote: Remote, overwrite: bool, downloaded: nat, limit: nat,
                        ghost start: Files, ghost log: seq<Event>)
    returns (error: Option<Error>, ghost log': seq<Event>)
    requires remote.before.Some? && directory.Explains(start, log) && Bounded(Own(log), limit)
    requires !directory.failed
    modifies directory
    ensures if directory.failed then error.Some? else error == CheckError(remote, downloaded)
    ensures directory.Explains(start, log') && Bounded(Own(log'), limit)
    ensures error.None? ==>
              && Own(log') == Own(log) + CommitSteps(overwrite) && downloaded == remote.before.value.size
              && remote.after.Some? && SameFile(remote.before.value, remote.after.value)
    ensures error.Some? ==>
              || Own(log') == Own(log)
              || (Own(log') == Own(log) + [Link, UnlinkRaises] && !overwrite && CheckError(remote, downloaded).None? && directory.failed)
  {
    hide Own, Bounded, TemporaryAfter, NoCommit;
    log' := log;
    if downloaded != remote.before.value.size {
      return Some(SizeMismatch), log';
    }
    if remote.after.None? {
      return Some(StatFailed), log';
    }
    if !SameFile(remote.before.value, remote.after.value) {
      return Some(MetadataChanged), log';
    }
    var commit := if overwrite then Replace else Link;
    var done;
    done, log' := directory.Try(commit, start, log');
    if !done {
      assert Own(log') == Own(log);
      return Some(CommitFailed), log';
    }
    AppendOwn(Own(log), commit, limit);
    if overwrite {
      return None, log';
    }
    ghost var linked := Own(log');
    done, log' := directory.Try(UnlinkTemporary, start, log');
    AppendOwn(linked, if done then UnlinkTemporary else UnlinkRaises, limit);
    assert Own(log) + [Link] + [UnlinkTemporary] == Own(log) + CommitSteps(false);
    assert Own(log) + [Link] + [UnlinkRaises] == Own(log) + [Link, UnlinkRaises];
    error := if done then None else Some(CleanupFailed);
  }

  /** What both check before they write anything. */
  method Guard(directory: LocalDirectory, remote: Remote, request: Request) returns (error: Option<Error>)
    ensures error == GuardError(remote, request, directory.place.destination in directory.files)
  {
    if remote.before.None? {
      return Some(StatFailed);
    }
    if !remote.before.value.isRegularFile || remote.before.value.isSymlink {
      return Some(NotRegular);
    }
    if remote.before.value.size > request.maxDownloadBytes {
      return Some(TransferLimit);
    }
    if directory.place.destination in directory.files && !request.overwrite {
      return Some(DestinationExists);
    }
    error := None;
  }

  /** From the last block on: the checks, the commit and the handler of failures. */
  method Finish(directory: LocalDirectory, remote: Remote, request: Request, sha256: Bytes -> string, receiver: Receiver,
                error: Option<Error>, ghost start: Files, ghost log: seq<Event>)
    returns (r: Result<DownloadResult, Error>, ghost log': seq<Event>)
    requires remote.before.Some? && remote.before.value.isRegularFile && !remote.before.value.isSymlink
    requires remote.before.value.size <= request.maxDownloadBytes
    requires directory.Explains(start, log) && Bounded(Own(log), request.maxDownloadBytes)
    requires Own(log) == [] || Own(log) == WriteAll(receiver.chunks)
    requires error.None? ==> Own(log) == WriteAll(receiver.chunks) && receiver.Valid()
                             && Received(remote.blocks, request.maxDownloadBytes) == Ok(receiver.chunks)
    requires if directory.failed then error.Some? else error == ReadingError(remote, request.maxDownloadBytes)
    modifies directory
    ensures Meets(directory.place, start, log', directory.files, remote, request, sha256, r)
    ensures AnswersAs(FinishError(remote, request.maxDownloadBytes), Own(log'), directory.failed, r)
  {
    hide Own, Bounded, TemporaryAfter, WriteAll, Concat, Blocks, Received, SameFile, NoCommit, LinkedThenRaised;
    var limit := request.maxDownloadBytes;
    ReceivedIff(remote.blocks, limit);
    OnlyWritesWritten(receiver.chunks);
    NothingYet(limit);
    var failure := error;
    ghost var written := Own(log);
    log' := log;
    if failure.None? {
      failure, log' := CheckAndCommit(directory, remote, request.overwrite, receiver.downloaded, limit, start, log);
    }
    if failure.Some? {
      ghost var before := Own(log');
      var raised;
      raised, log' := Undo(directory, failure.value, limit, start, log');
      ghost var last := Own(log')[|before|];
      assert Own(log') == before + [last];
      if before == written { OnlyWritesUndone(written, last); } else { LinkedUndone(written, last); }
      return Err(raised), log';
    }
    CommittedLog(written, request.overwrite);
    r := Ok(DownloadResult(remote.before.value.path, directory.place.destination, receiver.downloaded,
                           sha256(receiver.digested)));
  }

  lemma OnlyWritesUndone(own: seq<Event>, last: Event)
    requires OnlyWrites(own) && (last == UnlinkTemporary || last == UnlinkRaises)
    ensures var all := own + [last];
            && NoCommit(all) && !LinkedThenRaised(all) && (UnlinkRaises in all <==> last == UnlinkRaises)
            && forall i :: 0 <= i < |all| ==> !all[i].Replace?
  {
    hide LinkedThenRaised;
    NoCommitSnoc(own, last);
    LinkedThenRaisedSnoc(own, last);
  }

  lemma LinkedUndone(own: seq<Event>, last: Event)
    requires OnlyWrites(own) && (last == UnlinkTemporary || last == UnlinkRaises)
    ensures var all := own + [Link, UnlinkRaises] + [last];
            && !NoCommit(all) && LinkedThenRaised(all) && UnlinkRaises in all && own + [Link] <= all
            && forall i :: 0 <= i < |all| ==> !all[i].Replace?
  {
    var all, n := own + [Link, UnlinkRaises] + [last], |own|;
    assert all[n] == Link && all[n + 1] == UnlinkRaises && Commits(all[n]);
  }

  lemma CommittedLog(own: seq<Event>, overwrite: bool)
    requires OnlyWrites(own)
    ensures var all := own + CommitSteps(overwrite);
            UnlinkRaises !in all && (!overwrite ==> forall i :: 0 <= i < |all| ==> !all[i].Replace?)
  {
  }

  lemma OnlyWritesWritten(chunks: seq<Chunk>)
    ensures OnlyWrites(WriteAll(chunks)) && OnlyWrites([])
  {
    hide WriteAll;
    WriteAllWrites(chunks);
    WritesOnly(chunks);
  }

  lemma {:induction false} WritesOnly(chunks: seq<Chunk>)
    ensures forall i :: 0 <= i < |WriteAll(chunks)| ==> WriteAll(chunks)[i].CreateTemporary? || WriteAll(chunks)[i].Append?
    decreases |chunks|
  {
    if chunks != [] { WritesOnly(chunks[..|chunks| - 1]); }
  }

  method DownloadSftp(directory: LocalDirectory, remote: Remote, request: Request, sha256: Bytes -> string)
    returns (r: Result<DownloadResult, Error>, ghost log: seq<Event>)
    modifies directory
    ensures Meets(directory.place, old(directory.files), log, directory.files, remote, request, sha256, r)
    ensures AnswersAs(Verdict(remote, request, directory.place.destination in old(directory.files)), Own(log),
                      directory.failed, r)
    ensures GuardError(remote, request, directory.place.destination in old(directory.files)).Some? ==> log == []
  {
    hide Own, Bounded, TemporaryAfter, WriteAll, Concat, Blocks, Received, ReadingError, CheckError, SameFile;
    directory.failed := false;
    log := [];
    NothingYet(request.maxDownloadBytes);
    var refused := Guard(directory, remote, request);
    if refused.Some? {
      return Err(refused.value), log;
    }
    var receiver := new Receiver();
    ghost var start := directory.files;
    var error;
    error, log := ReadSftp(directory, remote, request.maxDownloadBytes, receiver, start, log);
    r, log := Finish(directory, remote, request, sha256, receiver, error, start, log);
  }

  method DownloadFtp(directory: LocalDirectory, remote: Remote, request: Request, sha256: Bytes -> string)
    returns (r: Result<DownloadResult, Error>, ghost log: seq<Event>)
    modifies directory
    ensures Meets(directory.place, old(directory.files), log, directory.files, remote, request, sha256, r)
    ensures AnswersAs(Verdict(remote, request, directory.place.destination in old(directory.files)), Own(log),
                      directory.failed, r)
    ensures GuardError(remote, request, directory.place.destination in old(directory.files)).Some? ==> log == []
  {
    hide Own, Bounded, TemporaryAfter, WriteAll, Concat, Blocks, Received, ReadingError, CheckError, SameFile;
    directory.failed := false;
    log := [];
    NothingYet(request.maxDownloadBytes);
    var refused := Guard(directory, remote, request);
    if refused.Some? {
      return Err(refused.value), log;
    }
    var receiver := new Receiver();
    ghost var start := directory.files;
    var error;
    error, log := ReadFtp(directory, remote, request.maxDownloadBytes, receiver, start, log);
    r, log := Finish(directory, remote, request, sha256, receiver, error, start, log);
  }

  lemma NothingYet(limit: nat)
    ensures Own([]) == [] && Bounded([], limit) && NoCommit([]) && !LinkedThenRaised([]) && TemporaryAfter([]).None?
  {
    NothingWritten(limit);
  }

  /** So with a directory in which nothing raises, a download succeeds exactly under these conditions. */
  lemma SucceedsIff(remote: Remote, request: Request, occupied: bool)
    ensures Verdict(remote, request, occupied).None? <==>
            && remote.before.Some? && remote.after.Some? && remote.starts && remote.completes
            && Blocks(remote.blocks).Some?
            && var info, content := remote.before.value, Concat(Blocks(remote.blocks).value);
            && info.isRegularFile && !info.isSymlink && (occupied ==> request.overwrite)
            && |content| == info.size <= request.maxDownloadBytes
            && var later := remote.after.value;
            && info.size == later.size && info.modifiedTime == later.modifiedTime && info.isDirectory == later.isDirectory
            && info.isRegularFile == later.isRegularFile && info.isSymlink == later.isSymlink
  {
    hide Received, Blocks, Concat;
    ReceivedIff(remote.blocks, request.maxDownloadBytes);
  }

  /** Five things tell whether a file changed; its path is none of them. */
  lemma SameFileIff(a: FileInfo, b: FileInfo)
    ensures SameFile(a, b) <==>
            a.size == b.size && a.modifiedTime == b.modifiedTime && a.isDirectory == b.isDirectory
            && a.isRegularFile == b.isRegularFile && a.isSymlink == b.isSymlink
  {
  }

  /** Before anything is written: which error, and in which order of precedence. */
  lemma RefusedFor(remote: Remote, request: Request, occupied: bool)
    ensures var error := Verdict(remote, request, occupied);
            && (remote.before.None? ==> error == Some(StatFailed))
            && (remote.before.Some? ==>
                  var info := remote.before.value;
                  var regular := info.isRegularFile && !info.isSymlink;
                  && (!regular ==> error == Some(NotRegular))
                  && (regular && info.size > request.maxDownloadBytes ==> error == Some(TransferLimit))
                  && (regular && info.size <= request.maxDownloadBytes && occupied && !request.overwrite ==>
                        error == Some(DestinationExists)))
  {
  }

  /**
   Of a file that is not refused: which error the transfer ends in when no local step raises.  Reading comes
   first, then the size, the second stat, and each of the five things it is compared by.
   */
  lemma FailsFor(remote: Remote, request: Request, occupied: bool)
    requires remote.before.Some? && remote.before.value.isRegularFile && !remote.before.value.isSymlink
    requires remote.before.value.size <= request.maxDownloadBytes && (occupied ==> request.overwrite)
    ensures var error, info := Verdict(remote, request, occupied), remote.before.value;
            var whole := remote.starts && remote.completes && Blocks(remote.blocks).Some?;
            && (!remote.starts ==> error == Some(TransferFailed))
            && (remote.starts && Blocks(remote.blocks).None? ==>
                  error == if TooMuch(remote.blocks, request.maxDownloadBytes) then Some(TransferLimit) else Some(TransferFailed))
            && (remote.starts && Blocks(remote.blocks).Some? ==>
                  var size := |Concat(Blocks(remote.blocks).value)|;
                  && (size > request.maxDownloadBytes ==> error == Some(TransferLimit))
                  && (size <= request.maxDownloadBytes && !remote.completes ==> error == Some(TransferFailed))
                  && (whole && size <= request.maxDownloadBytes && size != info.size ==> error == Some(SizeMismatch))
                  && (whole && size == info.size && remote.after.None? ==> error == Some(StatFailed))
                  && (whole && size == info.size && remote.after.Some? ==>
                        var later := remote.after.value;
                        error == if info.size != later.size || info.modifiedTime != later.modifiedTime
                                    || info.isDirectory != later.isDirectory || info.isRegularFile != later.isRegularFile
                                    || info.isSymlink != later.isSymlink
                                 then Some(MetadataChanged) else None))
  {
    ReceivedIff(remote.blocks, request.maxDownloadBytes);
    if Blocks(remote.blocks).None? {
      ReceivedFails(remote.blocks, request.maxDownloadBytes);
      TooMuchIff(remote.blocks, request.maxDownloadBytes);
    }
    if Received(remote.blocks, request.maxDownloadBytes).Err? && Blocks(remote.blocks).Some? {
      ReceivedTooMuch(remote.blocks, request.maxDownloadBytes);
    }
    hide Received, Blocks, Concat;
  }

  lemma {:induction false} ReceivedFails(blocks: seq<Read>, limit: nat)
    requires Received(blocks, limit).Err?
    ensures Received(blocks, limit).error == TransferFailed || Received(blocks, limit).error == TransferLimit
    decreases |blocks|
  {
    hide Concat;
    if Received(blocks[..|blocks| - 1], limit).Err? { ReceivedFails(blocks[..|blocks| - 1], limit); }
  }

  /** Some first blocks, none of which raises, are more than the limit. */
  ghost predicate TooMuch(blocks: seq<Read>, limit: nat) {
    exists n :: 0 <= n <= |blocks| && TooMuchAt(blocks, limit, n)
  }

  predicate TooMuchAt(blocks: seq<Read>, limit: nat, n: nat)
    requires n <= |blocks|
  {
    Blocks(blocks[..n]).Some? && |Concat(Blocks(blocks[..n]).value)| > limit
  }

  /** The limit is what reading fails for exactly when it is passed before anything raises. */
  lemma {:induction false} TooMuchIff(blocks: seq<Read>, limit: nat)
    ensures Received(blocks, limit) == Err(TransferLimit) <==> TooMuch(blocks, limit)
    decreases |blocks|
  {
    hide Concat, Blocks;
    if n :| 0 <= n <= |blocks| && TooMuchAt(blocks, limit, n) {
      ReceivedIff(blocks[..n], limit);
      ReceivedTooMuch(blocks[..n], limit);
      ReceivedStops(blocks, limit, n);
    }
    if Received(blocks, limit) == Err(TransferLimit) {
      var front := blocks[..|blocks| - 1];
      ReceivedIff(front, limit);
      ReceivedIff(blocks, limit);
      TooMuchIff(front, limit);
      if Received(front, limit).Err? {
        var n :| 0 <= n <= |front| && TooMuchAt(front, limit, n);
        assert front[..n] == blocks[..n];
        assert TooMuchAt(blocks, limit, n);
      } else {
        assert blocks[..|blocks|] == blocks;
        LastPasses(blocks, limit);
        assert TooMuchAt(blocks, limit, |blocks|);
      }
    }
  }

  lemma LastPasses(blocks: seq<Read>, limit: nat)
    requires blocks != [] && Received(blocks[..|blocks| - 1], limit).Ok? && Received(blocks, limit) == Err(TransferLimit)
    ensures Blocks(blocks).Some? && |Concat(Blocks(blocks).value)| > limit
  {
    ReceivedIff(blocks[..|blocks| - 1], limit);
    ReceivedIff(blocks, limit);
    hide Concat;
  }

  lemma {:induction false} ReceivedTooMuch(blocks: seq<Read>, limit: nat)
    requires Received(blocks, limit).Err? && Blocks(blocks).Some?
    ensures Received(blocks, limit).error == TransferLimit
    decreases |blocks|
  {
    hide Concat;
    if Received(blocks[..|blocks| - 1], limit).Err? { ReceivedTooMuch(blocks[..|blocks| - 1], limit); }
  }

  /** The blocks of a read are all of them, in order, and there are none when one raises. */
  lemma {:induction false} BlocksAre(blocks: seq<Read>)
    ensures Blocks(blocks).None? <==> exists i :: 0 <= i < |blocks| && blocks[i].Raises?
    ensures Blocks(blocks).Some? ==>
              |Blocks(blocks).value| == |blocks| && forall i :: 0 <= i < |blocks| ==> blocks[i] == Block(Blocks(blocks).value[i])
    decreases |blocks|
  {
    if blocks != [] {
      var n := |blocks| - 1;
      var front := blocks[..n];
      BlocksAre(front);
      forall i | 0 <= i < n ensures front[i] == blocks[i] {}
    }
  }

  /** What a caller with a result knows, of either client: the file did not change, and how it was committed. */
  lemma ResultMeans(p: Place, files: Files, log: seq<Event>, end: Files, remote: Remote, request: Request,
                    sha256: Bytes -> string, r: Result<DownloadResult, Error>)
    requires Meets(p, files, log, end, remote, request, sha256, r) && r.Ok?
    ensures remote.before.Some? && remote.after.Some?
    ensures var info, later := remote.before.value, remote.after.value;
            && info.size == later.size && info.modifiedTime == later.modifiedTime && info.isDirectory == later.isDirectory
            && info.isRegularFile == later.isRegularFile && info.isSymlink == later.isSymlink
    ensures |Own(log)| >= 2
    ensures request.overwrite ==> Own(log)[|Own(log)| - 1] == Replace
    ensures !request.overwrite ==> Own(log)[|Own(log)| - 1] == UnlinkTemporary && Own(log)[|Own(log)| - 2] == Link
  {
    hide Own, Run, Legal, Bounded, Concat, TemporaryAfter;
    SameFileIff(remote.before.value, remote.after.value);
    OnlyWritesWritten(Blocks(remote.blocks).value);
    assert |WriteAll(Blocks(remote.blocks).value)| >= 1;
  }

  /**
   All or nothing, for either client, any chunking, any failure and anything the other programs do: a
   result means that at one moment the destination got exactly the bytes read, as many as the stat said
   and no more than the limit, and without overwrite in a free place; an error (when no unlink raised)
   means that the download shows nowhere.  Either way the temporary is gone.
   */
  lemma AllOrNothing(p: Place, files: Files, log: seq<Event>, end: Files, remote: Remote, request: Request,
                     sha256: Bytes -> string, r: Result<DownloadResult, Error>)
    requires p.temporary != p.destination && p.temporary !in files
    requires Meets(p, files, log, end, remote, request, sha256, r)
    ensures r.Ok? ==>
              && p.temporary !in end && remote.before.Some? && Blocks(remote.blocks).Some?
              && exists k ::
                   && 0 <= k < |log| && Commits(log[k])
                   && var before, after := Run(p, files, log[..k]), Run(p, files, log[..k + 1]);
                   && before - {p.temporary} == Run(p, files, Others(log[..k])) - {p.temporary}
                   && p.destination in after && after[p.destination] == Concat(Blocks(remote.blocks).value)
                   && (!request.overwrite ==> p.destination !in before)
    ensures r.Ok? ==> |Concat(Blocks(remote.blocks).value)| == remote.before.value.size == r.value.size <= request.maxDownloadBytes
                      && r.value.sha256 == sha256(Concat(Blocks(remote.blocks).value))
    ensures r.Err? && UnlinkRaises !in Own(log) ==>
              p.temporary !in end && end == Run(p, files, Others(log)) - {p.temporary}
  {
    hide Own, Others, Bounded, TemporaryAfter, WriteAll, Concat, Blocks, Next, Run, Legal;
    if r.Ok? {
      var k := CommittedAtOnce(p, files, log, Blocks(remote.blocks).value, request.overwrite);
    } else if UnlinkRaises !in Own(log) {
      UndoneIsGone(Own(log));
      FailedWithoutTrace(p, files, log);
    }
  }

  lemma UndoneIsGone(own: seq<Event>)
    requires Undone(own) && UnlinkRaises !in own
    ensures TemporaryAfter(own).None? && !LinkedThenRaised(own)
  {
    hide TemporaryAfter;
    if own != [] {
      var n := |own| - 1;
      assert own[n] != UnlinkRaises;
      assert own == own[..n] + [UnlinkTemporary];
      TemporarySnoc(own[..n], UnlinkTemporary);
    } else {
      NoTemporary();
    }
  }

  /** The whole content is committed at some moment of the log. */
  ghost predicate CommitsWhole(p: Place, files: Files, log: seq<Event>, content: Bytes) {
    exists k :: 0 <= k < |log| && Commits(log[k]) && p.destination in Run(p, files, log[..k + 1])
                && Run(p, files, log[..k + 1])[p.destination] == content
  }

  /**
   An error leaves the destination committed, with the whole content, exactly when it was linked and the
   unlink right after that raised; every other error, raising unlinks included, commits nothing at all.
   */
  lemma ErrorCommitsIff(p: Place, files: Files, log: seq<Event>, end: Files, remote: Remote, request: Request,
                        sha256: Bytes -> string, r: Result<DownloadResult, Error>)
    requires p.temporary != p.destination && p.temporary !in files
    requires Meets(p, files, log, end, remote, request, sha256, r) && r.Err?
    ensures (exists k :: 0 <= k < |log| && Commits(log[k])) <==> LinkedThenRaised(Own(log))
    ensures LinkedThenRaised(Own(log)) ==>
              Blocks(remote.blocks).Some? && CommitsWhole(p, files, log, Concat(Blocks(remote.blocks).value))
  {
    hide Own, Bounded, TemporaryAfter, WriteAll, Concat, Blocks, Legal, LinkedThenRaised, Run;
    if k :| 0 <= k < |log| && Commits(log[k]) {
      var i := OwnHolds(log, k);
      assert !NoCommit(Own(log));
    }
    if LinkedThenRaised(Own(log)) {
      var k := LinkCommits(p, files, log, Blocks(remote.blocks).value);
      assert CommitsWhole(p, files, log, Concat(Blocks(remote.blocks).value));
    }
  }

  lemma LinkCommits(p: Place, files: Files, log: seq<Event>, chunks: seq<Chunk>) returns (k: nat)
    requires p.temporary != p.destination && p.temporary !in files && Legal(p, files, log)
    requires WriteAll(chunks) + [Link] <= Own(log)
    ensures k < |log| && log[k] == Link && p.destination in Run(p, files, log[..k + 1])
    ensures Run(p, files, log[..k + 1])[p.destination] == Concat(chunks)
  {
    hide Own, Others, Bounded, TemporaryAfter, WriteAll, Concat, Blocks, Legal;
    var written := WriteAll(chunks);
    var rest := Own(log)[|written| + 1..];
    assert Own(log) == written + [Link] + rest;
    k := FindOwn(log, written, Link, rest);
    WriteAllWrites(chunks);
    LegalPrefix(p, files, log, k);
    TemporaryIsOwn(p, files, log[..k]);
    assert log[..k + 1][..k] == log[..k];
  }

  // ---- An error with the file in place ----

  /** Writing takes place when nothing stands in the way. */
  lemma {:induction false} WritingIsLegal(p: Place, files: Files, chunks: seq<Chunk>)
    requires p.temporary !in files
    ensures var log := WriteAll(chunks);
            Legal(p, files, log) && Own(log) == log && Run(p, files, log) == files[p.temporary := Concat(chunks)]
    decreases |chunks|
  {
    hide Legal, Own, Run;
    if chunks == [] {
      StartIsLegal(p, files);
      StepIsLegal(p, files, [], CreateTemporary);
      assert [] + [CreateTemporary] == WriteAll([]);
    } else {
      var n := |chunks| - 1;
      WritingIsLegal(p, files, chunks[..n]);
      StepIsLegal(p, files, WriteAll(chunks[..n]), Append(chunks[n]));
      assert files[p.temporary := Concat(chunks[..n])][p.temporary := Concat(chunks)] == files[p.temporary := Concat(chunks)];
    }
  }

  lemma StartIsLegal(p: Place, files: Files)
    ensures Legal(p, files, []) && Own([]) == [] && Run(p, files, []) == files
  {
  }

  lemma {:induction false} WritingIsBounded(chunks: seq<Chunk>, limit: nat)
    requires |Concat(chunks)| <= limit
    ensures Bounded(WriteAll(chunks), limit)
    decreases |chunks|
  {
    hide Bounded, TemporaryAfter;
    WriteAllWrites(chunks);
    if chunks == [] {
      NothingYet(limit);
      assert [] + [CreateTemporary] == WriteAll([]);
      BoundedSnoc([], CreateTemporary, limit);
    } else {
      WritingIsBounded(chunks[..|chunks| - 1], limit);
      BoundedSnoc(WriteAll(chunks[..|chunks| - 1]), Append(chunks[|chunks| - 1]), limit);
    }
  }

  /**
   For every download without overwrite that has nothing to fail for: if just the unlink after its link
   raises, the caller gets an error, the temporary is gone and the whole file is in place.
   */
  lemma LinkedThenFailed(p: Place, files: Files, remote: Remote, request: Request, sha256: Bytes -> string)
    returns (log: seq<Event>, end: Files, r: Result<DownloadResult, Error>)
    requires p.temporary != p.destination && p.temporary !in files && p.destination !in files
    requires !request.overwrite && Verdict(remote, request, false).None?
    ensures r == Err(CleanupFailed) && Meets(p, files, log, end, remote, request, sha256, r)
    ensures AnswersAs(Verdict(remote, request, false), Own(log), true, r)
    ensures Blocks(remote.blocks).Some? && end == files[p.destination := Concat(Blocks(remote.blocks).value)]
  {
    SucceedsIff(remote, request, false);
    var chunks, limit := Blocks(remote.blocks).value, request.maxDownloadBytes;
    r := Err(CleanupFailed);
    log, end := LinkedLog(p, files, chunks, limit);
    hide Own, Legal, Run, Bounded, WriteAll, Concat, Blocks, NoCommit, LinkedThenRaised, Verdict;
    OnlyWritesWritten(chunks);
    LinkedUndone(WriteAll(chunks), UnlinkTemporary);
  }

  lemma LinkedLog(p: Place, files: Files, chunks: seq<Chunk>, limit: nat) returns (log: seq<Event>, end: Files)
    requires p.temporary != p.destination && p.temporary !in files && p.destination !in files && |Concat(chunks)| <= limit
    ensures Own(log) == WriteAll(chunks) + [Link, UnlinkRaises] + [UnlinkTemporary] && Bounded(Own(log), limit)
    ensures Legal(p, files, log) && end == Run(p, files, log) == files[p.destination := Concat(chunks)]
  {
    hide Own, Legal, Run, Bounded, WriteAll, Concat;
    var content, written := Concat(chunks), WriteAll(chunks);
    WritingIsLegal(p, files, chunks);
    WritingIsBounded(chunks, limit);
    var made := files[p.temporary := content];
    StepIsLegal(p, files, written, Link);
    RaisingChangesNothing(p, made[p.destination := content]);
    StepIsLegal(p, files, written + [Link], UnlinkRaises);
    StepIsLegal(p, files, written + [Link] + [UnlinkRaises], UnlinkTemporary);
    AppendOwn(written, Link, limit);
    AppendOwn(written + [Link], UnlinkRaises, limit);
    AppendOwn(written + [Link] + [UnlinkRaises], UnlinkTemporary, limit);
    log := written + [Link] + [UnlinkRaises] + [UnlinkTemporary];
    assert log == written + [Link, UnlinkRaises] + [UnlinkTemporary];
    end := Run(p, files, log);
    assert end == made[p.destination := content] - {p.temporary} == files[p.destination := content];
  }

  lemma {:induction false} OwnHolds(log: seq<Event>, k: nat) returns (i: nat)
    requires k < |log| && IsOwn(log[k])
    ensures i < |Own(log)| && Own(log)[i] == log[k]
    decreases |log|
  {
    var n := |log| - 1;
    if k == n {
      i := |Own(log[..n])|;
    } else {
      i := OwnHolds(log[..n], k);
    }
  }

  /**
   Without overwrite, whatever other programs create and whenever, no step of a download, successful or
   not, changes or removes any file that is there at that moment, save its own temporary.
   */
  lemma NoOverwriteNeverTouches(p: Place, files: Files, log: seq<Event>, end: Files, remote: Remote, request: Request,
                                sha256: Bytes -> string, r: Result<DownloadResult, Error>,
                                k: nat, name: FileName)
    requires Meets(p, files, log, end, remote, request, sha256, r) && !request.overwrite
    requires k < |log| && IsOwn(log[k])
    requires name != p.temporary && name in Run(p, files, log[..k])
    ensures var after := Run(p, files, log[..k + 1]);
            name in after && after[name] == Run(p, files, log[..k])[name]
  {
    hide Own, Bounded, TemporaryAfter, WriteAll, Concat, Blocks, Legal;
    var i := OwnHolds(log, k);
    assert log[..k + 1][..k] == log[..k];
    ExistingFilesAreSafe(p, Run(p, files, log[..k]), log[k], name);
  }
}
