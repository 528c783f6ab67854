# Device CLI tool: verified model

A Dafny model of the parts of the tool where a mistake is expensive: the NETCONF confirmed-commit
transaction, the SSH session pool and its cross-process token semaphore, the Telnet stream decoder, the
bounded download with root-confined paths, and the strict text parsers. Where the tool changes state in
place (client and pool objects, carry-over buffers, retry and read loops) the model does too, with classes
and loops proved against specifications; everything else is functions and lemmas.

`dafny verify dfyconfig.toml` checks the whole project.

## Reading order

| files | part of the tool |
|---|---|
| `NetconfDevice`, `NetconfClient`, `NetconfSafety` | the RFC 6241 server as a state machine; the client's transaction against it; what the transaction guarantees |
| `NetconfRuns`, `NetconfCandidate` | whole calls step by step; which candidate a run, and a call, leaves |
| `Semaphore`, `Pool`, `PoolOnHost`, `SshConnect` | token files shared by processes; the pool of sessions that own tokens; both together; connect with backoff |
| `Telnet` | the decoder as a tokenizer, the loop that implements it, the session's carry-over buffer |
| `Paths`, `Download`, `Transfer` | POSIX paths and the remote root; what a download does to a shared directory; the SFTP and FTP methods |
| `Listings`, `FtpListing`, `FtpFacts` | directory listings; UNIX LIST lines; MLST replies |
| `LineCards`, `Readiness` | the `show lc st` table; prompt detection and the command envelope |
| `Basics`, `Text`, `Lines` | decimal numerals, Python's `strip`, `splitlines` |

## How failures and other parties are modelled

* NETCONF: every operation ends in one of three ways: carried out and answered, refused without effect, or
  carried out with its reply lost. A server may refuse anything. Before each operation any number of other
  sessions' operations, session losses and clock ticks may come in. The server follows sections 7.5, 7.6,
  8.3.4, 8.3.5.2, 8.4.1 and 8.4.4.1 of RFC 6241; the order in which a session's end reverts its commit and
  releases its lock is the server's choice. An edit is an arbitrary function on configurations.
* The client never locks `running`, so other sessions could write it directly; the model's sessions do not
  have that operation. Everything else that other sessions can do to the candidate is in the model.
* Semaphore and pool: processes and threads interleave step by step; a crash can come anywhere. `TokenBound`
  needs two things to be single steps (creating a token with its content, and checking a token with
  unlinking it) and one user for all processes; further lemmas show that without any of the three the bound
  breaks, and `ExclusiveIffOneUser` that the last one is exactly what is needed. `PoolBound` and
  `RunKeepsBalance` rest on the same premises, because every acquire sweeps: in the pool's own machine a sweep
  is a token of others going away. `PoolOnHost` runs both machines together and proves that under the
  premises no sweep by anybody takes a token of the pool.
* Download: other programs create, overwrite and remove files of the same directory between any two steps;
  they keep off the temporary, whose name is random. Every own step may raise; an unlink that raises is noted
  in the log. The hash is an arbitrary function of the bytes.

## What turned out not to hold as documented

* `ErrorAfterFinalizeCanBePermanent`: an error from a call with `finalize=True` may come after the change
  has become permanent (lost reply of the confirming commit). `FinalizeDecides` gives the exact condition.
* `UnfinalizedCallLeavesItsEdit`: an ordinary call without finalize, fully answered, gives running its old
  configuration back but leaves its edit on the candidate: unlock comes while the commit is pending, so the
  candidate then becomes what running is, edit included, and the rollback reverts running alone. Nothing is
  marked as outstanding and nothing is locked. `OnlyOwnEditsIff`: a later finalized call makes only its own
  edit permanent exactly when candidate and running agree when it starts; `RolledBackEditComesBack` is the
  pair of calls in which the first one's edit becomes permanent with the second's. `CallLeavesCandidateIff`
  says for all calls when the two agree.
* `ConfirmKeepsRunningIff`: confirming a persisted commit commits whatever the candidate holds by then, which
  is what the other interfaces observed only if nobody edited the candidate meanwhile.
* `ExclusiveIffOneUser`: a live process of another user cannot be signalled, so its token reads as stale; the
  tokens exclude one another over all runs exactly when all processes belong to one user.
* `SweptIff`: a crashed process's token stays when its pid is in use again.
* `LeaksExactlyWhenCloseRaises`: the pool loses a token exactly when closing a session raises, because the
  release comes after the close.
* `SubnegotiationIsSilentIff`: the search for the end of a subnegotiation does not track doubled 255s, so a
  payload that holds 255, 240 before its end lets its rest through as visible text.
* `ErrorCommitsIff`: a download reports an error with the complete file in place exactly when, without
  overwrite, the unlink right after its link raised; `LinkedThenFailed` gives that run for every such download.
* `FtpEntryIsResolved`: below a root spelled `//`, or one with a line break in it, the FTP client refuses every
  entry of a listing. The SFTP client does not (`SftpEntryIsResolved`).
* `DashesAreDropped`: a row of dashes counts as a rule between rows, although the parser is documented to
  fail on what it cannot read. `RowSurvivesIff` says exactly which rows are dropped.
* `OverlongIsAccepted`: a card type too long for its column is cut in two and the row accepted with a wrong
  status. `RecordOfRowIff`: a row is read back exactly when each field is within its column.
* `WithoutEchoIff`: on a device that does not echo, a body whose first line reads as an echo loses it.
* `DetectedIsRecognisedIff`: a prompt with white space before it is detected at login and then never
  recognised again.
* `LinkRoundTripIff`: the name of a symbolic link that ends in ` ->` is cut too early.

## Model

| member | source | states |
|---|---|---|
| NetconfSafety.UnfinalizedCallChangesNothingForGood | cli_tool/transport/netconf.py:152-205 | main result: for every pattern of refused operations and lost replies, a call without finalize leaves the configuration that running has or reverts to as it was, also when the commit took effect without its reply |
| NetconfSafety.UnfinalizedCallRollsBack | cli_tool/transport/netconf.py:139-147 | main result: once the session is gone (no persist) or the timeout has passed, over any later run without a foreign confirm, nothing of the call is pending, and running is what it was before unless somebody else's commit is pending |
| NetconfSafety.CancelRestores | cli_tool/transport/netconf.py:214-219 | after an unfinalized persisted call and any later run without a confirm, a matching cancel puts running back to its value before the call |
| NetconfSafety.FinalizeDecides | cli_tool/transport/netconf.py:183-187 | main result: what a call makes permanent is the edit applied to the candidate it locked if its confirming commit was carried out, and nothing otherwise |
| NetconfSafety.FinalizedResultIsPermanent | cli_tool/transport/netconf.py:183-205 | a result says finalized exactly when the confirming commit was carried out and the edit is permanent; a call with a result sent no discard |
| NetconfSafety.CleanupSentIff | cli_tool/transport/netconf.py:188-197 | discard is sent exactly when the lock was answered and the commit was not, unlock exactly when the lock was answered |
| NetconfRuns.ErrorAfterFinalizeCanBePermanent | cli_tool/transport/netconf.py:183-199 | from any settled device and for any edit that changes something, a run in which the caller gets an error and the edit is permanent all the same |
| NetconfSafety.LockDiscipline | cli_tool/transport/netconf.py:165-197 | main result: everything the call sends between lock and unlock (edit, validate, commit, verify, finalize, discard) arrives only while this session holds the candidate lock, and without a lock reply none of it is sent |
| NetconfSafety.BodyHolds | cli_tool/transport/netconf.py:165-187 | from the lock reply on, at every arrival the candidate is the locked one, with the edit in it once that was answered |
| NetconfSafety.RunKeepsHold | cli_tool/transport/netconf.py:165 | under the lock no other session can edit, commit or confirm, over any run |
| NetconfSafety.NobodyConfirmsUnderLock | cli_tool/transport/netconf.py:165-197 | so from the lock reply to the first cleanup operation the premise about foreign confirms holds by itself |
| NetconfSafety.NoOutstandingChanges | cli_tool/transport/netconf.py:188-199 | when the session is gone and the others did not edit, no change is outstanding on the candidate and this session holds no lock, however the call ended, so the next lock is not refused for it; it does not say what the candidate holds |
| NetconfCandidate.CallLeavesCandidateIff | cli_tool/transport/netconf.py:152-199 | main result: for every pattern of failures and anything the others do, a call that leaves nothing outstanding leaves the candidate of the moment when candidate and running last became equal, and the two agree exactly when no commit pending at that moment has changed running by its rollback |
| NetconfCandidate.UnfinalizedCallLeavesItsEdit | cli_tool/transport/netconf.py:181-199 | main result: after a fully answered call without finalize whose unlock came while its commit was pending, once that is rolled back running is what it was and the candidate holds the edit; they agree exactly when the edit gives what running had |
| NetconfCandidate.OnlyOwnEditsIff | cli_tool/transport/netconf.py:165-187 | main result: from a settled device every finalized call makes just its own edit of running permanent exactly when candidate and running agree |
| NetconfCandidate.FinalizedCallBuildsOnCandidate | cli_tool/transport/netconf.py:165-187 | what a finalized call makes permanent is its edit of the candidate it finds |
| NetconfCandidate.RolledBackEditComesBack | cli_tool/transport/netconf.py:139-147 | two calls in a row, the first rolled back, the second finalized: both edits are permanent |
| NetconfCandidate.RunFromLastLevelled | cli_tool/transport/netconf.py:139-147 | over every run of the device, running and candidate follow from the moment they last became equal: running by a rollback or not at all, the candidate by outstanding edits or not at all |
| NetconfRuns.AnsweredWithoutFinalize | cli_tool/transport/netconf.py:152-205 | from any settled device and for any edit, the undisturbed call without finalize, and the whole device it leaves |
| NetconfSafety.ConfirmedIsWhatWasObserved | cli_tool/transport/netconf.py:141-147 | execute with persist, then any run without candidate edits, then a confirm: what becomes permanent is what running showed |
| NetconfSafety.ConfirmKeepsRunningIff | cli_tool/transport/netconf.py:207-212 | a confirm keeps running as observed exactly when the candidate equals running at that moment |
| NetconfSafety.AnsweredCancelReverts | cli_tool/transport/netconf.py:214-241 | an answered cancel: the matching commit was pending and running is back at its value before it |
| NetconfDevice.RunningFollowsConfirmations | cli_tool/transport/netconf.py:139-147 | over every run of the device, what running has once nothing is pending is the candidate of the last confirming commit carried out |
| NetconfDevice.NoConfirmationNoChange | cli_tool/transport/netconf.py:139-147 | without a confirming commit carried out, nothing changes for good |
| NetconfDevice.ConfirmingIsAuthorised | cli_tool/transport/netconf.py:183-187 | a confirming commit is carried out exactly when it comes from a live session, not against a foreign lock, and from the issuing session or, if the pending commit persists, with its persist id |
| NetconfDevice.CarriedOutIff | cli_tool/transport/netconf.py:165-187 | the device carries out an operation exactly when its requirements in RFC 6241 are met: a live session, a free and clean candidate for a lock, no foreign lock for edit, commit and discard, the own lock for unlock, the right session or token against a pending commit |
| NetconfDevice.StepKeepsStable | cli_tool/transport/netconf.py:139-147 | no single event but a confirming commit carried out moves the stable configuration |
| NetconfDevice.EndSessionKeepsInv | cli_tool/transport/netconf.py:432-436 | a session's end leaves it neither lock nor unpersisted commit and keeps the stable configuration |
| NetconfDevice.EndSessionTerms | cli_tool/transport/netconf.py:139-147 | a session's end reverts its own commit that does not persist, and no other, and gives up its own lock and no other |
| NetconfDevice.ExpiryTerms | cli_tool/transport/netconf.py:139-147 | a pending commit is reverted by the clock exactly from its deadline on |
| NetconfClient.ExecuteConfirmedCommit | cli_tool/transport/netconf.py:123-205 | the whole call: refused arguments touch nothing; a session that does not open sends nothing; operations are sent exactly when the server advertises candidate and, with persist, confirmed-commit 1.1, or, without, either version of it, and otherwise the error names exactly what is lacking; the device's change is accounted for by lock, edit, validate, commit, verify, finalize cut at the first failure, discard exactly when the lock was answered and the commit was not, unlock, close; and the answer follows from that record |
| NetconfClient.RunPlan | cli_tool/transport/netconf.py:165-187 | the planned operations in order, each sent only after the reply to the one before, and which step failed |
| NetconfClient.CleanUp | cli_tool/transport/netconf.py:188-197 | discard unless the commit was answered, then unlock, both whatever the other does |
| NetconfClient.TimeStep | cli_tool/transport/netconf.py:439-444 | a step is recorded exactly when its reply arrives |
| NetconfClient.RunPersistStep | cli_tool/transport/netconf.py:221-241 | one operation in a session of its own, sent exactly when the server advertises candidate and confirmed-commit 1.1; the session is closed in every case |
| NetconfClient.ConfirmPersistedCommit | cli_tool/transport/netconf.py:207-212 | a blank token is refused without a session; else one confirming commit with that token is sent |
| NetconfClient.CancelPersistedCommit | cli_tool/transport/netconf.py:214-219 | the same for cancel-commit |
| NetconfClient.NothingMissingIff | cli_tool/transport/netconf.py:362-364 | nothing is missing exactly when every requirement has one of its URIs advertised |
| NetconfClient.AdvertisesIff | cli_tool/transport/netconf.py:362-364 | a capability counts as advertised exactly when some text of the server is its URI, white space around it and anything after a question mark aside |
| NetconfClient.ConfirmTimeoutText | cli_tool/transport/netconf.py:337-349 | a text is given exactly for whole numbers from 1 on, and reads back as that number |
| Semaphore.TokenBound | cli_tool/transport/ssh.py:352-408 | main result: in every interleaving of acquire, release, sweep and crash there are at most maxTokens live holders and no two share an index |
| Semaphore.RunKeepsInv | cli_tool/transport/ssh.py:352-408 | every live holder keeps its own token file over every run |
| Semaphore.CrashIsRecovered | cli_tool/transport/ssh.py:390-408 | after a crash and any run in which the pid is not used again, the process's tokens are among those it had, and a sweep takes the one it looks at and nobody's hold |
| Semaphore.SweptIff | cli_tool/transport/ssh.py:396-408 | with one user, a sweep takes another process's token exactly when no process has its pid |
| Semaphore.ReleaseUndoesCreate | cli_tool/transport/ssh.py:361-388 | acquire and release put directory and holds back as they were |
| Semaphore.SplitCreationBreaksTheBound | cli_tool/transport/ssh.py:361-373 | with creation and writing apart, a run in which two processes hold the only token |
| Semaphore.SplitSweepBreaksTheBound | cli_tool/transport/ssh.py:390-393 | with stale check and unlink apart, such a run |
| Semaphore.ExclusiveIffOneUser | cli_tool/transport/ssh.py:352-408 | main result: on an empty directory with at least one token, no two live holders ever share an index over all atomic runs exactly when all processes belong to one user |
| Semaphore.TwoUsersBreakTheBound | cli_tool/transport/ssh.py:404-407 | for any two different users and any number of tokens, a run in which both hold one index |
| Semaphore.TokenDirectory.Acquire | cli_tool/transport/ssh.py:352-380 | a token comes back as this attempt's own file; a timeout only at the deadline and at the end of a pass that swept every token it found and then saw the indices taken one after the other, the last one at the moment of return; all the time that passes, but what the others take, is pauses of 200 ms, each begun before the deadline |
| Semaphore.OthersTerms | cli_tool/transport/ssh.py:352-408 | what others may do between the steps of an attempt: start, crash, create, release and sweep as they like, except end this process or act for this attempt |
| Semaphore.TokenDirectory.RemoveStaleTokens | cli_tool/transport/ssh.py:390-393 | every token there was when the sweep began is swept, in single steps that keep the attempt's standing |
| Pool.PoolBound | cli_tool/transport/ssh.py:434-560 | main result: in every reachable state idle and busy sessions are at most maxSessions and every token has exactly one owner and its file |
| Pool.RunKeepsBalance | cli_tool/transport/ssh.py:434-560 | token files and owners stay in balance over every interleaving of threads, foreign processes, failures and raising closes |
| Pool.LeaksExactlyWhenCloseRaises | cli_tool/transport/ssh.py:548-552 | a step leaks tokens exactly when a session that does not come back raises while closing; a failed connect never leaks |
| Pool.SshSessionPool.RunCommands | cli_tool/transport/ssh.py:418-490 | one call takes the last healthy idle session, and makes a new one only when none is healthy; it succeeds exactly when a session was handed out and no command raised; then a reusable healthy session goes back to idle, and in every other case it is closed and its own token released, or leaked when that close raises |
| Pool.SshSessionPool.Acquire | cli_tool/transport/ssh.py:492-539 | the last of the healthy idle sessions, a new one only when no idle one is healthy, and nothing left behind without one |
| Pool.SshSessionPool.TakeIdle | cli_tool/transport/ssh.py:493-508 | hands out the last healthy idle session; those behind it, all of them unhealthy, are closed and their tokens released, or one leaks when its close raises; nothing found means the list is empty |
| Pool.SshSessionPool.Connect | cli_tool/transport/ssh.py:510-539 | a session comes back exactly when a token was free and its connect worked; a failed connect gives the token back at once |
| Pool.SshSessionPool.Release | cli_tool/transport/ssh.py:541-546 | back to the idle list when it may be reused, else closed and its token released |
| Pool.SshSessionPool.CloseAll | cli_tool/transport/ssh.py:554-560 | the idle list is emptied; the tokens of the sessions closed are released, and from the first close that raises on the rest leak |
| PoolOnHost.PoolBoundOnHost | cli_tool/transport/ssh.py:352-560 | main result: pool and semaphore together, with crashes of others and everybody's sweeps: the pool's sessions are at most maxTokens, each token it owns is owned once and has its file with this process's pid, and no sweep takes it |
| PoolOnHost.RunKeepsCoupled | cli_tool/transport/ssh.py:352-560 | both machines keep their invariants about the same directory, and what the pool owns is what its process holds |
| PoolOnHost.StartsCoupled | cli_tool/transport/ssh.py:435-477 | a pool that starts in a directory in order, whatever tokens others have there, starts in that coupling |
| PoolOnHost.PoolFollows | cli_tool/transport/ssh.py:492-560 | seen from the pool, every joint run is a run of the pool's machine |
| SshConnect.TotalBackoff | cli_tool/transport/ssh.py:275 | the total pause before try k is base times 2^(k-1) - 1 |
| SshConnect.BackoffsDouble | cli_tool/transport/ssh.py:275 | the first pause is the base and each later one twice the one before |
| SshConnect.SshCliSession.Connect | cli_tool/transport/ssh.py:225-275 | what is tried again, and that always short of the last allowed attempt, is a transient error in the attempt; an authentication error, an unforeseen one and one before the try block end the series and are raised; pauses between tries only, the first the base and each later one twice the one before; on failure neither client nor channel stays, but for a failure before the try block |
| SshConnect.EndsOnce | cli_tool/transport/ssh.py:233-275 | where a series of tries ends is determined by the attempts alone |
| Telnet.FragmentationInvariance | cli_tool/transport/telnet.py:214-218 | main result: any chunking of a stream gives the same visible bytes, responses and leftover as one pass over the whole |
| Telnet.DecodeSplit | cli_tool/transport/telnet.py:214-218 | the law for one cut, at any place |
| Telnet.DecodeUndoesEncode | cli_tool/transport/telnet.py:229-266 | main result: any token list encoded and decoded gives exactly its data, one refusal per DO or WILL in order, and no remainder |
| Telnet.DecodeByBytes | cli_tool/transport/telnet.py:235-257 | in bytes: 255 253 x is answered 255 252 x and 255 251 x is answered 255 254 x; 255 254 x, 255 252 x and other commands vanish, 255 255 is a 255 and any other byte is itself; the rest decodes as it would alone |
| Telnet.DecodeSubnegotiation | cli_tool/transport/telnet.py:258-275 | 255 250, anything without 255 240, 255 240 vanishes whole and answers nothing |
| Telnet.DecodeIncomplete | cli_tool/transport/telnet.py:239-266 | a 255, a negotiation without its option and a subnegotiation without its end are kept byte for byte for the next call |
| Telnet.EveryStreamIsTokensAndTail | cli_tool/transport/telnet.py:229-266 | every byte stream is a valid token list plus an incomplete tail, and decodes to that list's data and refusals |
| Telnet.FramingIsUnique | cli_tool/transport/telnet.py:229-266 | in one way only |
| Telnet.RefusalsAreQuiet | cli_tool/transport/telnet.py:248-257 | decoding the decoder's own responses yields nothing to show, to answer or to keep |
| Telnet.SubnegotiationLeak | cli_tool/transport/telnet.py:258-275 | for every payload sent doubled, exactly the bytes after its first 255, 240 become visible |
| Telnet.SubnegotiationIsSilentIff | cli_tool/transport/telnet.py:269-275 | a payload is silent exactly when every 255, 240 in it is its end |
| Telnet.SubnegotiationEndIsFirst | cli_tool/transport/telnet.py:269-275 | the end found is the first terminator, and none is missed |
| Telnet.FirstStable | cli_tool/transport/telnet.py:229-266 | a complete token cannot be changed by later bytes |
| Telnet.FirstIsSound | cli_tool/transport/telnet.py:229-266 | the token found is spelled by the bytes taken; none is found exactly on an incomplete stream |
| Telnet.ConsumeTelnetBytes | cli_tool/transport/telnet.py:229-266 | the index loop computes the tokenizer's decoding |
| Telnet.TelnetCliSession.ConsumeProtocol | cli_tool/transport/telnet.py:214-218 | the session always stands where one pass over everything received would |
| Telnet.TelnetCliSession.Open | cli_tool/transport/telnet.py:99-104 | a new connection starts with an empty carry-over buffer; an open one is left alone |
| Telnet.TelnetCliSession.Close | cli_tool/transport/telnet.py:149-163 | connection and buffer are dropped, unless there is none or closing it raises, when nothing changes |
| Paths.ResolvedIsInside | cli_tool/transfer/paths.py:10-30 | main result: a result is inside the root without `..` and is the path asked for; a request is accepted exactly when it is allowed text, names no `..` and lies inside |
| Paths.ResolvedTerms | cli_tool/transfer/paths.py:10-30 | main result, in names and anchors alone: with a sound root and request, a relative request lands at the root's names followed by its own, an absolute one is accepted exactly when its anchor is the root's and its names are the root's followed by more, and is then itself |
| Paths.NamesTerms | cli_tool/transfer/paths.py:18-27 | what the names of a path are: those between slashes, without empty ones and single dots |
| Paths.PrintTerms | cli_tool/transfer/paths.py:30 | how a path is spelled: anchor, then names with a slash between |
| Paths.ResolveIsIdempotent | cli_tool/transfer/paths.py:10-30 | resolving a result again returns it |
| Paths.NormalisedRootIsTheRoot | cli_tool/transfer/paths.py:10-30 | a normalised root resolves every request alike |
| Paths.ParseUndoesPrint | cli_tool/transfer/paths.py:18-30 | printing a path and parsing it gives it back |
| Paths.PosixJoinIsCandidate | cli_tool/transfer/sftp.py:136-143 | joining an entry name of any shape to a directory is asking for it from there |
| Paths.SftpEntryIsResolved | cli_tool/transfer/sftp.py:136-143 | what becomes of every entry name an SFTP server sends: relative and without `..` it lands under the listed directory, absolute it is a request of its own, otherwise it is refused |
| Listings.ListSftp | cli_tool/transfer/sftp.py:136-143 | one refused entry fails the listing; otherwise one row an entry, inside the root, in order of the paths |
| Listings.RowTerms | cli_tool/transfer/sftp.py:136-143 | what becomes of one entry name: relative and sound, its names follow the listed directory's; absolute, it is resolved on its own; otherwise the listing fails |
| Listings.BeforeIff | cli_tool/transfer/sftp.py:143 | the order of the rows: at the first place where two paths differ the smaller character, or the end, comes first |
| Listings.SortIsStable | cli_tool/transfer/ftp.py:232 | the rows in order of their paths, none lost or added, rows of one path in the order they came |
| Paths.FtpEntryIsResolved | cli_tool/transfer/ftp.py:371-374 | a plain entry name lands right in the listed directory, and is refused exactly under `//` or when the name or the root has a line break |
| Transfer.AllOrNothing | cli_tool/transfer/sftp.py:159-215 | main result: success means the destination got exactly the bytes read at one moment, as many as the stat said, within the limit and hashed whole; an error means that nothing of the download shows; the temporary is gone |
| Transfer.NoOverwriteNeverTouches | cli_tool/transfer/sftp.py:239-251 | main result: without overwrite no step changes or removes a file present at that moment, whoever created it and when |
| Transfer.ErrorCommitsIff | cli_tool/transfer/ftp.py:503-515 | main result: an error leaves the destination committed, with the whole content, exactly when it was linked and the unlink right after that raised |
| Transfer.LinkedThenFailed | cli_tool/transfer/ftp.py:503-515 | for every download without overwrite that has nothing else to fail for, the run that ends so, with the answer it gets |
| Transfer.SucceedsIff | cli_tool/transfer/sftp.py:159-205 | where no local step raises, a download succeeds exactly when the remote is a regular file of the announced size, within the limit, read without a raise and unchanged after, and the destination is free or may be overwritten |
| Transfer.RefusedFor | cli_tool/transfer/sftp.py:164-174 | which error is given before anything is read, and in which order the reasons count |
| Transfer.FailsFor | cli_tool/transfer/sftp.py:179-205 | which error is given afterwards, and in which order: the limit, the transfer, the size, the second stat, and a change of any of size, modification time, directory, file and link flag, but not of the path |
| Transfer.TooMuchIff | cli_tool/transfer/sftp.py:184-194 | the limit is the reason exactly when the blocks up to some first one go beyond it with no raise before |
| Transfer.ResultMeans | cli_tool/transfer/sftp.py:194-205 | a result implies that both stats agree in the five fields and that the last own steps were the ones of its mode |
| Transfer.DownloadSftp | cli_tool/transfer/sftp.py:159-215 | the SFTP method meets the common specification of what it does to the directory, answers a result exactly when no local step raised and nothing else speaks against it, otherwise names that reason, and commits nothing that something speaks against |
| Transfer.DownloadFtp | cli_tool/transfer/ftp.py:301-359 | the FTP method with its callback meets the same specification |
| Transfer.ReceivedIff | cli_tool/transfer/sftp.py:184-194 | reading ends well exactly when no block raises and all blocks together keep to the limit, whatever their boundaries |
| Transfer.ReadSftp | cli_tool/transfer/sftp.py:179-196 | read until an empty block: the temporary holds the blocks, or the limit or an exception stopped it |
| Transfer.ReadFtp | cli_tool/transfer/ftp.py:320-342 | the same for the callback |
| Transfer.Receiver.Receive | cli_tool/transfer/ftp.py:326-335 | a block is refused for the limit exactly when it goes beyond it, before it is written; otherwise file, count and digest all take it |
| Transfer.CheckAndCommit | cli_tool/transfer/sftp.py:194-205 | commits only when size and second stat agree, in the steps its mode asks for; fails without a commit or after a link whose unlink raised |
| Transfer.Undo | cli_tool/transfer/sftp.py:206-208 | the temporary is unlinked and the error raised again, or unlink's own |
| Transfer.Finish | cli_tool/transfer/sftp.py:194-215 | checks, commit and failure handling meet the common specification |
| Download.CommittedAtOnce | cli_tool/transfer/sftp.py:239-251 | up to one moment only the others' changes show, then the whole content does |
| Download.FailedWithoutTrace | cli_tool/transfer/sftp.py:206-208 | without a commit the directory is what the others alone would have made of it |
| Download.ExistingFilesAreSafe | cli_tool/transfer/sftp.py:239-251 | no own step but replace changes a file that is there |
| FtpListing.ReadIffDescribed | cli_tool/transfer/ftp.py:454-496 | main result: a LIST line is read as an entry exactly when it is eight good columns and a safe name with white space between that describe it |
| FtpListing.ReadIffSpelled | cli_tool/transfer/ftp.py:30-40 | main result, in characters: the same with every column spelled out: mode letters, digits, the month and its days in that year, a clock time or a year, and for a link the first arrow |
| FtpListing.ModeTerms | cli_tool/transfer/ftp.py:31 | a mode column is one kind letter, nine permission letters and at most one mark |
| FtpListing.MonthTerms | cli_tool/transfer/ftp.py:22-28 | the month names in their order, and how long each is |
| FtpListing.DateTerms | cli_tool/transfer/ftp.py:486-496 | a day counts exactly when its month has it, in the year given or in the leap year 2000 with a clock time up to 23:59 |
| FtpListing.SafeNameTerms | cli_tool/transfer/ftp.py:479-483 | a name is safe exactly when it is not empty, has no white space at its ends and no separator, NUL or line break |
| FtpListing.ListRoundTrip | cli_tool/transfer/ftp.py:30-40 | a printed file or directory is read back |
| FtpListing.LinkRoundTripIff | cli_tool/transfer/ftp.py:464-470 | a printed link is read back exactly when its name, with a space after it, has no arrow |
| FtpListing.AcceptedNameIsAChild | cli_tool/transfer/ftp.py:479-483 | an accepted name lands right in the listed directory, inside the root, unless nothing can land there |
| FtpListing.LegacyListFiles | cli_tool/transfer/ftp.py:204-232 | one bad line fails the listing; otherwise every line but the dot entries gives one row, right in the directory, in order of the paths |
| FtpFacts.FactsRoundTrip | cli_tool/transfer/ftp.py:408-415 | facts printed in the form of section 7.2 of RFC 3659 are read back, keys in lower case, the last of equal keys counting |
| FtpFacts.ParseFacts | cli_tool/transfer/ftp.py:408-415 | the dictionary holds for each key the value of the last item that sets it, and nothing else |
| FtpFacts.EntryLineRoundTrip | cli_tool/transfer/ftp.py:394-404 | an entry line (space, facts, space, name) carries exactly its facts, whatever the name, unless the facts start like a reply code |
| FtpFacts.CodedEntryRoundTrip | cli_tool/transfer/ftp.py:396-404 | an entry behind a reply code and a dash or a space carries exactly its facts, whatever they start with |
| FtpFacts.ParseMlstResponse | cli_tool/transfer/ftp.py:394-405 | the first line that carries a type fact decides; an error means that no line does |
| LineCards.ParseUndoesRender | cli_tool/parsers/line_card_status.py:50-111 | main result: a rendered table is read back card by card, but for the cards that look like a rule |
| LineCards.AllVisibleIff | cli_tool/parsers/line_card_status.py:84-85 | all cards come back exactly when none looks like a rule |
| LineCards.RowSurvivesIff | cli_tool/parsers/line_card_status.py:84-85 | a card's row is kept exactly when the card does not look like a rule |
| LineCards.SeparatorTerms | cli_tool/parsers/line_card_status.py:18 | the characters of a rule |
| LineCards.DashesAreDropped | cli_tool/parsers/line_card_status.py:84-85 | a card of dashes is dropped |
| LineCards.AcceptedIsComplete | cli_tool/parsers/line_card_status.py:50-111 | main result: accepted output gives, one to one and in order, the rows below the best header line |
| LineCards.CardsAreTheRows | cli_tool/parsers/line_card_status.py:83-106 | the same for any lines, and an error names a row that lacks the values it lists |
| LineCards.RefusedFor | cli_tool/parsers/line_card_status.py:57-82 | which error is given for empty output, missing headers (exactly those missing, in order) and headers out of order |
| LineCards.MissingTerms | cli_tool/parsers/line_card_status.py:92-100 | a row lacks exactly the values that are empty among type, status and version |
| LineCards.SlicesAreTheRow | cli_tool/parsers/line_card_status.py:86-91 | the four slices of a row are the whole row |
| LineCards.RecordOfRowIff | cli_tool/parsers/line_card_status.py:86-91 | a card of trimmed fields printed in its columns is sliced back exactly when each is within its column |
| LineCards.OverlongIsAccepted | cli_tool/parsers/line_card_status.py:92-106 | a one-word card type that is too long is cut in two and accepted without an error |
| LineCards.BestIsFirstMost | cli_tool/parsers/line_card_status.py:113-127 | the header is the first line with the most columns, and none only when no line has any |
| LineCards.FullLineIsBest | cli_tool/parsers/line_card_status.py:125-126 | stopping at the first line with all three columns finds the same header |
| LineCards.FindHeader | cli_tool/parsers/line_card_status.py:113-127 | the search loop finds that line and its positions |
| LineCards.TwoWordsIff | cli_tool/parsers/line_card_status.py:13-17 | a header of two words matches exactly where both stand in any case, with nothing but white space between them and no letter, digit or underscore on either side |
| LineCards.PositionsIff | cli_tool/parsers/line_card_status.py:13-17 | the columns of a line are where "card type", "status" and "fw version" first match in it |
| LineCards.ParseLineCardStatus | cli_tool/parsers/line_card_status.py:50-111 | the loops compute the specified parse, with its errors in order |
| Readiness.EnvelopeRoundTrip | cli_tool/transport/readiness.py:34-52 | main result: a body wrapped in any echo form, line end, leading blank lines, prompt padding and white space behind its lines comes back exactly |
| Readiness.EscapesDoNotMatter | cli_tool/transport/readiness.py:6-52 | main result: escape sequences anywhere in a stream change neither what is stripped nor whether the prompt is seen |
| Readiness.EscapesAreRemoved | cli_tool/transport/readiness.py:6-14 | of text and escape sequences in any order exactly the text is left |
| Readiness.WithoutEchoIff | cli_tool/transport/readiness.py:45-50 | without an echo the body comes back exactly when its first line is no echo form |
| Readiness.StripCommandEnvelopeByPopping | cli_tool/transport/readiness.py:34-52 | popping lines off both ends computes the specified stripping |
| Readiness.WrappedEndsWithPrompt | cli_tool/transport/readiness.py:29-31 | the reader recognises the end of every wrapped response, with spaces and tabs after the prompt |
| Readiness.EndsWithPromptIff | cli_tool/transport/readiness.py:29-31 | the end is recognised exactly when the text is whole lines, the prompt, and spaces and tabs |
| Readiness.DetectedIff | cli_tool/transport/readiness.py:17-26 | a prompt is detected exactly when the pattern matches with only white space after it |
| Readiness.DetectedIsRecognisedIff | cli_tool/transport/readiness.py:17-31 | a detected prompt is recognised again exactly when no white space comes before it and only spaces and tabs after it |
| Readiness.NormalizeJoined | cli_tool/transport/readiness.py:12-14 | lines sent with any line end are the same lines after normalisation |
| Lines.BreakTerms | cli_tool/transport/readiness.py:36 | which characters end a line, and that the lines before and after are read apart |
| Readiness.SentLinesAreRead | cli_tool/transport/readiness.py:12-36 | and are split back into exactly those lines |

## Left out

- Paramiko, ncclient, pySerial, ftplib, sockets and TLS: each foreign call is a step that succeeds, fails, or takes effect without its reply.
- Host-key pinning, fingerprints and hashing internals: the digest is an arbitrary function of the bytes.
- Direct writes to `running` by other sessions: the client never locks it, and with such writes no rollback statement about running could hold.
- NetconfSafety.UnfinalizedCallRollsBack: supposes that no other session's confirming commit is carried out outside the locked part of the call, because the standard lets anybody with the lock or the token confirm.
- NetconfClient.ConfirmTimeoutText: does not model booleans, infinities and NaN; a timeout is a real number.
- NetconfClient.ExecuteConfirmedCommit: does not model elapsed times, reply documents, or exceptions outside Python's `Exception`.
- `connect_test`, `get`, `get_config` and `edit_config` of the NETCONF client: single operations without state of their own.
- The NETCONF environment's part of a call is a finite list of turns of any content; once it is used up, nobody else acts and operations are answered.
- Semaphore.TokenDirectory.Acquire: other processes act between its steps under the atomicity premises; `mkdir`, the glob over token names and an owner file that is valid JSON without an integer pid are not modelled.
- Pool.SshSessionPool.RunCommands: its methods run one thread at a time; the interleavings of threads are those of `Pool.Next`, which every method is shown to follow.
- Pool.SshSessionPool.Connect: the wait for a token is one scan; waiting and timing out are in `Semaphore.TokenDirectory.Acquire`.
- `ssh_session_pool` and its registry, timing records, and `close_ssh_session_pools`.
- SshConnect.SshCliSession.Connect: the kind of each failure is given; the classification by Paramiko's exception classes is not modelled.
- The read loops (`_read_until_ready`) with pager continuations, login and confirmation prompts: regular expressions over a live stream.
- Transfer.AllOrNothing: a write that raises counts as one without effect; its error half supposes that no unlink raised, and `ErrorCommitsIff` says what holds otherwise.
- Transfer.DownloadFtp: MLST against legacy stat is one stat that succeeds or fails.
- `_legacy_stat`, the MDTM query, and the listing of MLSD entries.
- FtpListing.ReadIffDescribed: digits are ASCII digits, where the pattern also takes other decimal digits.
- FtpFacts.FactsRoundTrip: lower-casing is ASCII.
- FtpFacts.EntryLineRoundTrip: supposes that the facts do not start with three digits and a dash, which no fact name of RFC 3659 does. Digits are ASCII digits.
- FtpFacts.ParseMlstResponse: takes the reply's lines; the conversion of facts to sizes and times (`_file_info_from_facts`, `_parse_modify_time`) is not modelled.
- LineCards.ParseUndoesRender: header words and word boundaries are ASCII.
- Readiness.EnvelopeRoundTrip: bodies and labels are free of Python's other line separators; escape sequences are dealt with by `EscapesDoNotMatter`.
- Readiness.EscapesDoNotMatter: an ESC that starts no complete sequence is not part of such a stream.
- Confirmation answers (`y`) and the joining of two outputs in `run_command`.
- Serial transport: its loop repeats the others over a port.
- Redaction, reports, catalogs, policies, workflows, argument checks and the `tools` directory: no invariant across calls.
