# Verified models of sudo's log server protocol and command execution helpers

A Dafny 4.11 project about four parts of sudo.

**The log server protocol** (`logsrvd/`). A client streams timed I/O records to
a server; the server stores them, reports commit points (the time it has
stored so far) and resumes a broken session at one. `Session.dfy` has client,
server, the two directions of the connection and the files on disk as one step
system whose runs are arbitrary sequences of steps, with connections that break
at any moment, also in the middle of a write. `SessionSafety.dfy` proves an
invariant of every run; `SessionResults.dfy` and `SessionLimits.dfy` draw the
consequences and show where they end. `SessionRuns.dfy` builds runs,
`SessionExact.dfy` proves for exactly which logs the main promises hold, and
`SessionProgress.dfy` that every log can be stored, also over a broken
connection. `LogReader.dfy` reads stored logs back. Around
it stand the code this system
abstracts from, each piece proved against the functions used there: the framing
loop over arbitrary cuts (`ReadBuffer.dfy`), the client's write buffers
(`Sendlog.dfy`), the server's handlers over its files (`ServerConnection.dfy`,
`LocalStore.dfy`), the three searches for a resume point (`ResumeSearch.dfy`),
the journal and its replay to a relay (`JournalRelay.dfy`), and who holds which
journal (`JournalQueue.dfy`).

**execve(2) under ptrace(2)** (`src/exec_ptrace.c`). The argument vector in the
tracee's memory in both layouts and byte orders, written by words
(`Tracee.dfy`, `ExecVector.dfy`), read with every failure (`ExecRead.dfy`,
`ArgBuffer.dfy`) and moved below the stack (`ExecLayout.dfy`), and the BPF filter
with its interpreter (`Seccomp.dfy`).

**Tail queues** (`include/sudo_queue.h`), down to their links
(`TailQueue.dfy`).

**Event-driven pieces of `src/`**: the intercept connection (`Intercept.dfy`),
the I/O pump (`IoPump.dfy`), the preload environment and its formatter
(`Preload.dfy`, `PreloadView.dfy`, `Fmtstr.dfy`) and resource limits (`Limits.dfy`).

Code that changes things step by step is a class or a method with its loops,
and its contract ties the new state to a function about which the properties
are proved as lemmas. The kernel, the network, plugins and memory allocation
are parameters; allocation succeeds. Protobuf packing is a parameter too.
Automatic induction is switched off, so every inductive step is written out.

`dafny verify dfyconfig.toml` checks the project.

## What the proofs found

Some properties hold of the code only under a condition. For each, the lemmas or
methods named give the exact condition and, where one is named, an input or a
run that fails.

- A read that ends one to three bytes into a length word, after a delivered
  message, leaves those bytes where they are and keeps the front of the buffer
  instead. This is felt exactly when the two differ
  (`ReadBuffers.HarmfulCutIsFelt`, `ReadBuffers.HarmfulCutExists`); a single
  stranded byte never differs.
- After a restart the client passes over records without delay that the server
  waits for (`SessionLimits.ResumeAgreesIff`). A log that is marked complete is
  the client's log in every run exactly when records without delay come only
  before all others (`SessionExact.CompleteIsFinalIff`,
  `SessionExact.ZeroDelayRecordIsLost`).
- A commit point tells a client the time stored, not the records. A client that
  finished has everything stored in every run exactly when every record after
  the first has a delay (`SessionExact.FinishedIsStoredIff`,
  `SessionExact.ZeroDelayFinishesEarly`).
- A client may finish before its Exit message is sent, because a commit point
  for the last record can arrive first. Everything was sent exactly when the
  client had reached CLOSING (`SessionLimits.FinishesWithExitSentIff`,
  `SessionRuns.FinishedBeforeExitSent`).
- Reopening a timing file does not truncate it, so a commit point is the total
  of the file exactly when no line from where the session writes on has a delay
  (`LocalStore.ElapsedIsFileTotalIff`), which in a run means at the end of the
  file (`SessionSafety.CommitPointsAreSound`,
  `SessionRuns.CommitBeforeEndOfFile`).
- A failed write returns -1, which the store functions take for success, for
  the data and for the timing line. The counts stay right exactly when both
  writes succeeded, or neither did and the record has no delay
  (`LocalStore.FailedWritesBreakCounts`).
- Rewriting compressed files forgets every later commit point. A point the
  client has received is found exactly while the log is not complete and the
  timing file still reaches it (`SessionSafety.CommitPointsAreFindable`,
  `SessionLimits.CutDownForgets`).
- `journal_restart` takes no lock. A step breaks single ownership exactly when
  it restarts a journal that another connection or the queue holds
  (`JournalQueue.StepOwnedIff`, `JournalQueue.TheftHappens`).
- A journal can stay on disk with nobody to relay it until the next start:
  exactly when a client's connection closes unfinished or without a relay, a
  replay ends between connecting and finishing, a timer finds no relay, or a
  restart replaces it (`JournalQueue.StrandedIff`,
  `JournalQueue.StrandingHappens`).
- Only `journal_finish` flushes and rewinds a journal, and only Exit calls it. A
  journal handed to a relay on its open descriptor is replayed from its start
  exactly when its session ended with Exit; that of a rejected session is read
  from its end (`JournalRelay.Journal.ReplayedWholeIff`).
- With two write buffers queued `fmt_client_message` appends a frame exactly
  when the first has no room or the order makes no difference
  (`Sendlog.PlacedAppendsIff`, `Sendlog.TwoBuffersReorder`); the client never
  calls it then.
- The space reserved for a rewritten argument vector uses the old argument
  count: it suffices exactly when the new vector is not longer
  (`ExecLayouts.FitsIff`), and a longer one reaches into the red zone below the
  stack pointer (`ExecLayouts.LongerVectorSpoils`).
- The extra word between a compat process's addresses and strings is needed for
  an even number of arguments; the comment in the source says odd
  (`ExecLayouts.PointerWordsFit`). The code always leaves it.
- The red zone is to be avoided, and it is exactly when the furthest word ends
  before it (`ExecLayouts.RedZoneKeptIff`). On little-endian machines the end
  test of `ptrace_write_string` looks at the first byte of a word, so a string
  may be followed by a word of padding: a path alone stays out exactly when the
  machine is big-endian or its length a multiple of eight
  (`ExecLayouts.PathReachesIff`, `ExecLayouts.PaddingChangesRedZone`).
- A string with an all-ones word cannot be read back
  (`ExecReads.ReadIffStored`, `ArgBuffers.RoundTrip`).
- When `strtab_to_vec` grows its buffer between two entries, it takes the end of
  the string table from the middle of it and goes on past the table. The vector
  it makes is right exactly when that does not happen, and when that is
  (`ArgBuffers.StrtabToVec`, `ArgBuffers.OverrunHappens`).
- The filter's jump distances presume that a second compat architecture comes
  with a first one (`Seccomp.FilterIsRightIff`).

## Model

| member | source | states |
|---|---|---|
| Timespecs.Add | include/sudo_util.h:63-72 | the carrying loop gives the normalised sum, and the sum of instants |
| Timespecs.Sub | include/sudo_util.h:73-82 | the borrowing loop gives the normalised difference, and undoes Add |
| Timespecs.CmpIsOrderOfInstants | include/sudo_util.h:58-61 | comparing fields is comparing instants, for normalised values |
| Timespecs.CmpNeedsNormalisedValues | include/sudo_util.h:58-61 | without normalisation it is not |
| ReadBuffers.ReadBuffer.Expand | logsrvd/logsrv_util.c:57-94 | unread bytes move to the front of a buffer that holds what is needed, grown to a power of two only if it must |
| ReadBuffers.RoundupBound | logsrvd/logsrv_util.c:57-94 | room for the largest message rounds up to at most 4 MiB |
| ReadBuffers.ReadBuffer.Receive | logsrvd/logsrvd.c:1098-1139 | a read callback delivers exactly the complete messages in order, stops at a refused or oversized one, and if reading goes on leaves offset 0, room for at least one byte and a buffer of at most 4 MiB or its old size |
| ReadBuffers.Serve | logsrvd/logsrvd.c:1085-1139 | for every pattern of short reads the buffer stays at most the larger of its first size and 4 MiB, no read asks for zero bytes, and without a harmful cut the messages are those of parsing all at once |
| Framing.ParseFrames | logsrvd/logsrvd_journal.c:457-475 | parsing a concatenation of frames gives back the messages |
| Framing.ParseSplits | logsrvd/logsrvd.c:1105-1139 | what is parsed and what is left make up the input, and nothing complete is left |
| Framing.ParseResumes | logsrvd/logsrvd.c:1105-1139 | parsing a part, keeping the tail and going on equals parsing everything |
| ReadBuffers.CutIndependence | logsrvd/logsrvd.c:1105-1139 | for every division into reads without a harmful cut, the messages delivered are those of parsing the whole stream |
| ReadBuffers.RetainedExactly | logsrvd/logsrvd.c:1138-1139 | a callback keeps exactly the unparsed bytes if and only if its cut was not harmful |
| ReadBuffers.HarmfulCutIsFelt | logsrvd/logsrvd.c:1138-1139 | after any run of reads, once a further message completes, what was delivered is right if and only if the next cut was not harmful |
| ReadBuffers.HarmfulCutExists | logsrvd/logsrvd.c:1138-1139 | such a cut exists |
| ReadBuffers.OneByteCutIsHarmless | logsrvd/logsrvd.c:1110-1114 | a single stranded byte does no harm, as lengths in range begin with zero |
| ResumeSearch.SeekTo | logsrvd/logsrv_util.c:128-191 | the timing file search stops at the first line that reaches the target, with the target as elapsed time and the byte counts up to there as positions, or finds nothing when the target is no prefix sum |
| ResumeSearch.RewriteSearch | logsrvd/iolog_writer.c:746-789 | the rewriting search gives the same answer with the same positions |
| ResumeSearch.JournalSeek | logsrvd/logsrvd_journal.c:229-402 | the journal search stops behind the message that reaches the target exactly |
| ResumeSearch.FoundIffPrefixSum | logsrvd/logsrv_util.c:165-187 | a point is found if and only if it is the time of some number of lines |
| ResumeSearch.ShortestPrefix | logsrvd/logsrv_util.c:177-179 | among the lines with that time the first is found |
| ResumeSearch.SearchesAgree | logsrvd/logsrvd_journal.c:381-399 | the journal search succeeds exactly when the file searches do, at the same record |
| LocalStore.LogFiles.IoBuffer | logsrvd/logsrvd_local.c:564-634 | data goes to its stream at the current position, which moves on by its length, and a line with stream, delay and length to the timing file |
| LocalStore.LogFiles.Winsize | logsrvd/logsrvd_local.c:636-669 | a window size line with delay, lines and columns stands next in the timing file, its delay is counted and no stream changes |
| LocalStore.LogFiles.Suspended | logsrvd/logsrvd_local.c:671-704 | a suspend line with delay and signal stands next in the timing file, its delay is counted and no stream changes |
| LocalStore.LogFiles.Exit | logsrvd/logsrvd_local.c:399-451 | the log is marked complete and nothing else changes |
| LocalStore.LogFiles.Restart | logsrvd/logsrvd_local.c:453-527 | a restart is refused for complete logs and unknown points, and else stands at the point in the same files, or in files cut down to it when compressed |
| LocalStore.StoreRecordCounted | logsrvd/logsrvd_local.c:599-614 | storing keeps positions and elapsed time equal to the sums over the timing lines |
| LocalStore.FailedWritesBreakCounts | logsrvd/logsrvd_local.c:599-614 | after unnoticed failures of either write they are equal if and only if both writes succeeded, or neither did and the record has no delay; window size and suspend records included |
| LocalStore.ElapsedIsFileTotalIff | logsrvd/logsrvd_local.c:499-519 | elapsed time is the total of the file if and only if no line from where writing goes on has a delay |
| StoredPrefix.StoreDataAgrees | logsrvd/logsrvd_local.c:590-605 | storing a record's data keeps the files a prefix of the log, also when it overwrites an earlier copy |
| StoredPrefix.StoreLineAgrees | logsrvd/logsrvd_local.c:606-614 | so does storing its line |
| StoredPrefix.TornWriteAgrees | logsrvd/logsrvd_local.c:599-605 | so does a write cut short by a crash |
| StoredPrefix.RestartFinds | logsrvd/logsrv_util.c:147-187 | restarting at the time of the first k lines finds line k |
| StoredPrefix.RestartAgrees | logsrvd/logsrvd_local.c:453-527 | and leaves the files a prefix with the handles standing there |
| LogReader.ReadBack | logsrvd/sendlog.c:278-319 | reading line by line, each buffer from where its stream was left, fails if and only if a stream is not there; as far as the streams have the bytes their lines announce the records are those bytes with their lines, beyond only the lines' part; files that hold a prefix of a log give back its first records, and the files of the whole log exactly the log |
| LogReader.StoredIsRead | lib/iolog/iolog_timing.c:177-244 | in files that hold a prefix of a log, line k with its bytes is read as record k: data, window size or signal |
| ServerConnections.Connection.Handle | logsrvd/logsrvd.c:440-776 | the handlers over the files do what the session model's server does, with the same replies and refusals |
| ServerConnections.Connection.CommitCb | logsrvd/logsrvd.c:1160-1215 | the commit callback reports the elapsed time and ends an exited session |
| SessionSafety.StepOk | logsrvd/logsrvd.c:440-776 | every step of client, server, connection or crash keeps the session invariant |
| SessionSafety.EveryRun | logsrvd/sendlog.c:1430-1529 | every state that any sequence of steps reaches satisfies it |
| SessionSafety.ResumeEquivalence | logsrvd/logsrvd_local.c:453-634 | if records without delay come only first, at all times the files hold a prefix of the log, and once Exit is stored exactly the whole log |
| SessionResults.SameFiles | logsrvd/logsrvd_local.c:453-634 | any two runs that store Exit leave the same files, however often they were interrupted |
| SessionResults.StoredLogIsRead | logsrvd/sendlog.c:994-1072 | whoever reads the files at any point of any run gets the client's first records, and all of them once Exit is stored |
| SessionSafety.CompletionIsSound | logsrvd/sendlog.c:1251-1259 | if every record after the first has a delay, a client that finished has formatted every record and the server has stored every one |
| SessionSafety.FormatNextAdds | logsrvd/sendlog.c:994-1072 | formatting queues the next records in order without gaps and leaves one unsent while it is in SEND_IO |
| SessionSafety.SendAdds | logsrvd/sendlog.c:1078-1117 | a write callback moves messages from the queue to the wire and appends the next ones |
| SessionSafety.CommitPointsAreSound | logsrvd/logsrvd.c:1198-1215 | a commit point is the sum of the delays before the server's position, and of the whole file if and only if the server stands at its end, as in a first session or a cut-down file |
| SessionResults.CommitPointsNeverDecrease | logsrvd/logsrvd.c:1198-1215 | the points taken and under way never decrease, never exceed what is stored, and are not before the point a session resumed at |
| SessionResults.StreamsCoverTiming | logsrvd/logsrvd_local.c:599-614 | a stream is as long as its timing lines say, plus at most a part of one torn record, and exactly so when the log is complete |
| SessionSafety.CommitPointsAreFindable | logsrvd/logsrv_util.c:147-187 | a restart at any non-zero point ever received succeeds if and only if the log is not complete and its timing file reaches the point, which it always does unless compressed |
| SessionSafety.RefusalsAreJustified | logsrvd/logsrvd_local.c:487-516 | a server refuses a client only if the log is complete or its timing file ends before the record the client resumes at |
| SessionLimits.ResumeAgreesIff | logsrvd/sendlog.c:1030-1035 | client and server resume at the same record if and only if the next record has a delay |
| SessionLimits.CutDownForgets | logsrvd/iolog_writer.c:790-872 | after a rewrite every later point is unknown |
| SessionRuns.FinishedBeforeExitSent | logsrvd/sendlog.c:1251-1259 | a client can finish with its Exit message unsent |
| SessionLimits.FinishesWithExitSentIff | logsrvd/sendlog.c:1251-1259 | in every run of every log, a commit point that finishes a client finds all its messages sent if and only if it was in CLOSING |
| SessionExact.ZeroDelayRecordIsLost | logsrvd/sendlog.c:1030-1035 | every log with a record without delay after time has passed has a run that marks it complete with a record missing |
| SessionExact.CompleteIsFinalIff | logsrvd/logsrvd_local.c:453-634 | in every run a complete log is exactly the client's log, if and only if records without delay come only before all others |
| SessionExact.ZeroDelayFinishesEarly | logsrvd/sendlog.c:1251-1259 | every log with a later record without delay has a run that finishes the client before everything is stored |
| SessionExact.FinishedIsStoredIff | logsrvd/sendlog.c:1251-1259 | in every run a client that finished has everything stored, if and only if every record after the first has a delay |
| SessionProgress.EveryLogCanBeStored | logsrvd/logsrvd.c:440-776 | for every log there is a run that leaves its files complete and its client finished with nothing left to send |
| SessionProgress.EveryBreakCanBeMended | logsrvd/logsrvd_local.c:453-634 | a session can break after any number of records with a time that is not zero, and a second one can then store exactly what is missing |
| SessionRuns.CommitBeforeEndOfFile | logsrvd/logsrvd_local.c:499-519 | in a resumed session a commit point can be due that is not the total of the timing file |
| Sendlog.Sender.FmtClientMessage | logsrvd/sendlog.c:325-366 | succeeds if and only if the message is not too large; it is then last in what is unsent, and a second buffer is begun exactly when the first has no room |
| Sendlog.Sender.FmtNextIolog | logsrvd/sendlog.c:994-1072 | formats as the session model does until a second buffer is begun or Exit is queued; it fails if and only if a record it comes to is beyond a set stopping point or its message, or that of Exit, is too large, and never without a stopping point and with messages that fit |
| Sendlog.Sender.Completion | logsrvd/sendlog.c:1078-1117 | with nothing queued, formats more or changes state as the session model's client; fails exactly where formatting does, and in states that have nothing to send |
| Sendlog.Sender.Write | logsrvd/sendlog.c:1490-1529 | after any short write the bytes on the wire and in at most two buffers are the frames in formatting order, and the client is that of the session model; it ends exactly when the queue is empty and formatting fails or nothing is to be sent in its state |
| Sendlog.Sender.HandleServerMessage | logsrvd/sendlog.c:1215-1279 | hearing the server does what the session model's client does; reading goes on exactly after a hello expected and answered with a message that fits, a log ID, or a commit point expected and short of the end; a refused message leaves what is queued to be written |
| Sendlog.PlacedAppends | logsrvd/sendlog.c:325-366 | with at most one buffer queued, placing a frame appends it |
| Sendlog.PlacedAppendsIff | logsrvd/sendlog.c:345-360 | with any number of buffers it appends if and only if the first has no room or the frame commutes with what is queued behind it |
| Sendlog.TwoBuffersReorder | logsrvd/sendlog.c:345-360 | with two it can overtake |
| Sendlog.AllWhole | logsrvd/sendlog.c:1507-1522 | all frames are whole on the wire exactly when all bytes are |
| WriteQueues.AdvancedPending | logsrvd/logsrvd_relay.c:981-995 | a short write only moves bytes of the first buffer out of the queue |
| JournalRelay.Journal.Write | logsrvd/logsrvd_journal.c:457-475 | the frame goes to the buffer, any part of it to where the descriptor stands, and before the journal is finished file and buffer are the frames of the messages stored |
| JournalRelay.Journal.Finish | logsrvd/logsrvd_journal.c:177-188 | the file is the frames of the messages stored, to be read from its start |
| JournalRelay.Journal.ReplayedWholeIff | logsrvd/logsrvd_journal.c:506-548 | a replay on the open descriptor finds the whole journal if and only if it was finished or is empty |
| JournalRelay.Relay.Enqueue | logsrvd/logsrvd_relay.c:146-187 | a message is queued last, and the write event is on while anything is queued |
| JournalRelay.Relay.ClientMsgCb | logsrvd/logsrvd_relay.c:981-1003 | the next n bytes of the first buffer go out, and bytes written and queued stay the frames in order |
| JournalRelay.Relay.Flush | logsrvd/logsrvd_relay.c:981-1003 | with room for n bytes, n bytes or what the first buffer holds go out |
| JournalRelay.Forward | logsrvd/logsrvd.c:1098-1139 | one read of the journal queues for the relay what its handlers make of every complete message, up to the first one refused, which ends reading |
| JournalRelay.HandedUnchanged | logsrvd/logsrvd_relay.c:1046-1099 | messages that are neither packed anew nor kept back are queued as they are |
| JournalRelay.Replay | logsrvd/logsrvd_relay.c:981-1003 | for every interleaving of reads and writes the relay gets its ClientHello and then a prefix of what the handlers make of the messages from the descriptor's position up to the first one refused, and exactly that once all is read or a message refused and the queue is empty; as many reads as there are bytes bring this about, and as many writes after them empty the queue |
| JournalQueue.StepOwnedIff | logsrvd/logsrvd_queue.c:81-201 | a step keeps every journal in at most one hand if and only if it does not restart a journal another one holds |
| JournalQueue.OwnedThroughoutIff | logsrvd/logsrvd.c:239-289 | ownership is single throughout a run if and only if no step is such a restart |
| JournalQueue.TheftHappens | logsrvd/logsrvd_journal.c:409-455 | two connections can hold one journal |
| JournalQueue.StrandingHappens | logsrvd/logsrvd.c:239-289 | the journal of a client that leaves before Exit stays behind |
| JournalQueue.StoppedIff | logsrvd/logsrvd.c:440-616 | a message ends reading if and only if its phase does not allow it or it cannot be kept, and one that is not allowed changes nothing else |
| JournalQueue.BeginsIff | logsrvd/logsrvd.c:440-616 | a session begins to run if and only if an accept is kept or a journal that is there is restarted; when its I/O counts as logged |
| JournalQueue.RelayCommitMeans | logsrvd/logsrvd_relay.c:539-553 | a relay's commit point finishes a session that has exited, stops one that has not begun, and changes nothing else |
| JournalQueue.RemovedOnlyWhenRelayed | logsrvd/logsrvd.c:239-289 | in every run a journal leaves the disk only by its renaming at Exit or by closing the connection that replayed it, after a relay commit point that was taken after Exit if the session logged I/O |
| JournalQueue.PhaseIff | logsrvd/logsrvd.c:1160-1196 | in every run a connection has finished if and only if its session was rejected or exited without I/O logging, or exited with it and a commit point for its role followed, with no shutdown since; and it waits for one if and only if there was none since its exit |
| JournalQueue.DoneIsHandedOver | logsrvd/logsrvd.c:259-275 | closing a client whose session is so done gives its journal to a new connection that replays it, if there is a relay |
| JournalQueue.RemovedIffRelayed | logsrvd/logsrvd.c:239-289 | closing a connection removes a journal if and only if it replayed it and the session is done |
| JournalQueue.JournalIsRelayed | logsrvd/logsrvd.c:239-289 | a run in which a journal is written, renamed, handed over, replayed and removed |
| JournalQueue.StrandedIff | logsrvd/logsrvd.c:239-289 | a step leaves a journal on disk that neither a connection nor the queue knows if and only if it closes a connection that forgets it, finds no relay for it in the timer, or replaces it by a restart |
| JournalQueue.LogServer.ClosureFree | logsrvd/logsrvd.c:100-160 | freeing a connection that was still connecting to its relay puts its journal at the end of the queue; in any other phase the queue stays |
| JournalQueue.LogServer.ConnectionClose | logsrvd/logsrvd.c:239-289 | a finished journal is handed to a new connection if there is a relay and else stays behind, a replayed one is removed, and one whose relay was not reached is requeued |
| JournalQueue.LogServer.QueueCb | logsrvd/logsrvd_queue.c:81-140 | the timer takes the first journal that is there and can be locked, and drops entries whose file is gone |
| JournalQueue.TakeableIsFirst | logsrvd/logsrvd_queue.c:81-140 | the entry the timer takes is there and can be locked, and no earlier one is |
| TailQueue.InsertHead | include/sudo_queue.h:670-680 | the links represent the sequence with the element in front |
| TailQueue.InsertTail | include/sudo_queue.h:683-690 | the links represent the sequence with the element at the end |
| TailQueue.InsertAfter | include/sudo_queue.h:645-657 | the links represent the sequence with the element behind another |
| TailQueue.InsertBefore | include/sudo_queue.h:660-667 | the links represent the sequence with the element before another, without knowing the head |
| TailQueue.Remove | include/sudo_queue.h:704-719 | the links represent the sequence without the element |
| TailQueue.Concat | include/sudo_queue.h:572-581 | the first queue represents both sequences, the second none |
| TailQueue.Swap | include/sudo_queue.h:722-737 | the two queues have exchanged their sequences |
| TailQueue.Last | include/sudo_queue.h:693-694 | the layout pun gives the last element, or NULL |
| TailQueue.Prev | include/sudo_queue.h:700-701 | the layout pun gives the element before, or NULL for the first |
| TailQueue.Forward | include/sudo_queue.h:590-593 | visits the elements in order |
| TailQueue.Backward | include/sudo_queue.h:614-617 | visits them in reverse |
| TailQueue.Run | include/sudo_queue.h:548-737 | every sequence of operations on two queues computes what it computes on two sequences |
| Seccomp.RunFilter | src/exec_ptrace.c:1157-1202 | what the filter returns for every configuration, architecture and number |
| Seccomp.FilterIsRightIff | src/exec_ptrace.c:1157-1202 | the filter traces exactly execve and execveat of each architecture, flagged for compat ones, if and only if compat2 comes with compat |
| Tracees.Tracee.ReadString | src/exec_ptrace.c:434-457 | reading by words, with its failures, is the function about which ReadFromString speaks |
| Tracees.ReadFromString | src/exec_ptrace.c:434-457 | a stored string is read back if and only if no word of it is all ones and the buffer holds it |
| Tracees.Tracee.WriteString | src/exec_ptrace.c:696-738 | exactly the padded string is written, and its length with NUL returned |
| Tracees.WordStarts | src/exec_ptrace.c:715-736 | how many bytes that is on either byte order |
| ExecVectors.PackedBytes | src/exec_ptrace.c:902-921 | a packed word is the two 32-bit addresses in memory order |
| ExecVectors.WriteVec | src/exec_ptrace.c:876-941 | afterwards every slot points to its string, the last one is NULL, and nothing outside the pointer area and the string area with 15 bytes of padding has changed |
| ExecReads.HalvesRead | src/exec_ptrace.c:581-591 | shifting and masking gives the two addresses in memory order |
| ExecReads.TextIff | src/exec_ptrace.c:434-457 | a string is read if and only if it stands there, all its words are in memory and none is all ones |
| ExecReads.ReadIffStored | src/exec_ptrace.c:574-623 | for every memory, a vector is read if and only if its slots hold addresses of strings that can be read, and NULL last |
| ArgBuffers.NextWord | src/exec_ptrace.c:577-600 | peeking at every second slot gives the address in each, and all ones where peeking fails |
| ArgBuffers.ArgBuf.ReadInto | src/exec_ptrace.c:609-621 | the string is stored behind the table, growing the buffer as needed, or it cannot be read |
| ArgBuffers.StrtabToVec | src/exec_ptrace.c:496-540 | the buffer then holds the offset of each string and NULL behind the table, with the right count, if and only if it did not grow between two entries, which is when there are two strings or more and the room at the first entry is too small for all |
| ArgBuffers.OverrunHappens | src/exec_ptrace.c:516-522 | two strings in a small buffer for which the vector is wrong |
| ArgBuffers.ReadVec | src/exec_ptrace.c:542-634 | for every memory, succeeds if and only if the vector can be read, and then it stands in the buffer as a native vector if and only if the buffer, whose sizes are determined, does not have to grow between two entries; what was in the buffer before stays |
| ArgBuffers.GetExecveInfo | src/exec_ptrace.c:966-1050 | if path, arguments and environment can be read and no vector makes the buffer grow between two entries, all three stand in one buffer without overlap, with room for one argument if there is none, and if only the environment does they do not; nothing is returned if one cannot be read |
| ArgBuffers.NeededForBoth | src/exec_ptrace.c:982 | a size of the first buffer for which neither vector makes it grow |
| ArgBuffers.WrittenIsStored | src/exec_ptrace.c:876-941 | what is written is a vector that can be read |
| ArgBuffers.RoundTrip | src/exec_ptrace.c:876-941 | writing and reading back gives the same vector in both layouts and byte orders, if and only if the buffer does not have to grow between two entries |
| ExecLayouts.FitsIff | src/exec_ptrace.c:1887-1908 | the arguments fit the reserved space if and only if the new vector is not longer than the original |
| ExecLayouts.PointerWordsFit | src/exec_ptrace.c:1874-1914 | the words written for the addresses never reach the strings, and fill their room but for one address when a compat process has an odd number of arguments; without the extra word they would reach them exactly for an even number |
| ExecLayouts.RedZoneKeptIff | src/exec_ptrace.c:1859-1941 | the red zone survives for every content of memory if and only if no word written reaches it |
| ExecLayouts.LongerVectorSpoils | src/exec_ptrace.c:1887-1908 | a longer vector reaches into the red zone |
| ExecLayouts.PathReachesIff | src/exec_ptrace.c:715-736 | a path alone does not if and only if the machine is big-endian or its length a multiple of eight |
| ExecLayouts.PaddingChangesRedZone | src/exec_ptrace.c:715-736 | a path of seven bytes zeroes the first eight bytes of the red zone on a little-endian machine |
| ExecLayouts.Rewrite | src/exec_ptrace.c:1859-1941 | the exact memory afterwards: pointers, strings and path stand where the registers point, nothing below changes, the red zone survives if no word written reaches it, and all but its first 16 bytes do if the vector did not grow |
| ExecLayouts.InPlaceIsRead | src/exec_ptrace.c:1859-1941 | a reader of the tracee gets exactly the new arguments and path, if none has an all-ones word |
| Intercept.Connection.VerifyToken | src/exec_intercept.c:617-656 | the bytes received are added to the token up to 16; it matches if and only if it is then the secret, is tried again if and only if it is shorter or nothing came, and else fails |
| Intercept.Connection.ReceiveBody | src/exec_intercept.c:685-764 | a request is complete exactly when its announced number of bytes has come in any pieces, and is what they unpack to; a length too large, end of file, an error or bytes that do not unpack fail, and nothing is lost before |
| Intercept.Connection.HandleRequest | src/exec_intercept.c:766-810 | exactly a valid policy check where one is expected and a hello where one is expected are taken; what a check leads to |
| Intercept.Connection.Write | src/exec_intercept.c:926-1013 | the response belonging to the state is formatted once with its length in front, exactly the next bytes are sent, and the last one leads to the next state |
| Intercept.Connection.Callback | src/exec_intercept.c:1015-1038 | each callback leaves the state or raises its rank, and keeps the responses sent |
| Intercept.Connection.OnReadable | src/exec_intercept.c:661-815 | a readable socket feeds the token, then the request, and a failure of either closes the connection |
| Intercept.Connection.OnWritable | src/exec_intercept.c:926-1013 | a writable socket sends the next bytes of the response, and a failure closes the connection |
| Intercept.StoryAllowed | src/exec_intercept.c:369-555 | in every reachable state the responses are one of the six sequences, and an accept is backed by token, policy and approval for the one request |
| Intercept.Connection.Run | src/exec_intercept.c:661-1038 | the same for every sequence of events |
| Intercept.SendToken | src/exec_intercept.c:617-656 | sixteen bytes in any pieces open a new connection for a policy check if and only if they are the secret, and else close it without a response |
| Intercept.SendRequest | src/exec_intercept.c:685-764 | a request in any pieces is acted on when its last byte has come |
| Intercept.Deliver | src/exec_intercept.c:926-1013 | a response in any pieces arrives as its length and message, and then the connection listens, reads on or closes |
| Intercept.AskPolicy | src/exec_intercept.c:369-555 | a new connection in intercept mode, sent the secret and a policy check in any pieces, answers accept with the command, reject, error or nothing, exactly as directory, command, policy, memory and approval decide, and then waits for hello or is closed |
| Intercept.AskLogger | src/exec_intercept.c:766-810 | where sub-commands are only logged a policy check has no answer and the hello after it has one, unless memory ran out |
| Intercept.SayHello | src/exec_intercept.c:785-810 | the first connection answers hello and listens if the socket could be prepared, and else is closed |
| IoPumps.IoBuffer.Take | src/exec_nopty.c:373-391 | bytes read are appended for the writer, or dropped together with the writer when refused output; the reader goes on exactly while there is room |
| IoPumps.IoBuffer.Drop | src/exec_nopty.c:436-460 | bytes written leave the buffer in order, and the reader is started again exactly if there is room, and for the terminal only while the command runs |
| IoPumps.IoPump.FreeByFd | src/exec_iolog.c:49-77 | every event on the descriptor is freed and nothing else |
| IoPumps.IoPump.AddIoEvents | src/exec_iolog.c:143-178 | scheduling establishes the invariant and starts exactly the readers with room, the terminal's only in raw mode |
| IoPumps.IoPump.ReadCallback | src/exec_nopty.c:339-393 | the reader never meets a full buffer, and end of file closes a writer only when everything is written |
| IoPumps.IoPump.WriteCallback | src/exec_nopty.c:398-463 | short writes and a closed pipe keep the invariant |
| IoPumps.IoPump.Run | src/exec_nopty.c:339-463 | for every interleaving, output is a prefix of input, the rest is in the buffer while the writer lives, data never waits with the writer off, one end stays active, and refused output is not delivered |
| Fmtstr.Measure | src/exec_preload.c:60-100 | the first pass counts the formatted text and its NUL, and no int overflows its buffer |
| Fmtstr.Format | src/exec_preload.c:52-170 | the second pass writes exactly that and never takes its overflow exit |
| Preload.DsoAlloc | src/exec_preload.c:175-354 | the new environment is the specified one and fits the array computed before |
| Preload.EntriesAreFormatted | src/exec_preload.c:292-334 | the entries are what the formatter makes of the formats and arguments given to it |
| Preload.ResultIsGood | src/exec_preload.c:175-354 | one preload entry that begins with the object, one right descriptor entry, all others in order |
| Preload.Idempotent | src/exec_preload.c:175-354 | applying it twice equals applying it once |
| PreloadViews.BeginsIff | src/exec_preload.c:250-257 | a value begins with the object and then ends or has a delimiter if and only if its list begins with the object's |
| PreloadViews.ProgramSees | src/exec_preload.c:175-354 | whatever the environment, the preload variable has one value afterwards, the list of the first value there was, or of the default, with the object in front unless it stood there; the descriptor variable has one value that reads as the descriptor; every other variable has the values it had |
| Decimals.WidthsSuffice | include/sudo_util.h:139-141 | no 64-bit number or int is longer than the macros say |
| Limits.UnlimitPlanRaises | src/limits.c:365-408 | every request keeps or raises the saved limit, soft at most hard |
| Limits.LimitTable.Unlimit | src/limits.c:365-408 | the requests go on to the first success; each is the table's value raised to the saved one, field by field, then the fallback likewise if there is one, then the saved hard limit for both |
| Limits.LimitTable.UnlimitSudo | src/limits.c:339-416 | saves every limit that can be read; for each overridden one the requests are those of the table, in order up to the first success, and the others are not touched |
| Limits.DoneIsReady | src/limits.c:339-461 | a row as raising leaves it meets what restoring it needs |
| Limits.RestorePlanKeeps | src/limits.c:423-455 | every restoring request keeps soft at or above the saved soft and at most hard |
| Limits.LimitTable.Restore | src/limits.c:423-455 | the requests are those of the doubling plan up to the first answer other than EINVAL |
| Limits.LimitTable.RestoreLimits | src/limits.c:419-461 | restores exactly the overridden limits, beginning with the saved value |
| Limits.NeverCut | src/limits.c:682-705 | the buffers cut no number short |
| Limits.SerializeRoundTrip | src/limits.c:674-714 | parsing the printed value gives back the limits |
| Limits.StoreRlimitIff | src/limits.c:463-497 | a limit is read if and only if it is decimal digits of a 64-bit number or infinity, followed by nothing or, for a soft limit, a comma |
| Limits.OneValueForBoth | src/limits.c:499-541 | a policy with one value sets both limits to it |

## Left out

- TLS, certificates and the temporary events they need.
- Protobuf: packing is a parameter, taken as lossless where a message is read back.
- The text of timing lines; files are sequences of bytes and of lines.
- A harmful cut inside a session: the channels of the session model carry whole messages, as `ReadBuffers.CutIndependence` proves of reads without one.
- Buffered log files: a crash in the session model finds every completed write on disk, while stdio(3) and zlib flush theirs only at commit points unless iolog flushing is on.
- Several connections to one log at a time; a run has one connection after another. A server that keeps storing on a connection its client has given up is not in the model.
- The client's accept-only and reject modes; its stop point is in `Sendlog.dfy` and appears as a broken connection in the session model.
- The walk through the configured relays (`connect_relay_next`); connecting succeeds at once, later or not at all.
- Journal mode when a write fails, and log IDs across relay and restart.
- Compressed files with the bundled zlib: a restart opens them with mode "r+" (logsrvd/logsrvd_local.c:501), which that library refuses (lib/zlib/gzlib.c:129-131), so there the rewriting search is not reached.
- Journals that `journal_restart` has opened, and messages after Exit: writing then goes on from the middle or the start of the file.
- Time beyond 64-bit seconds.
- process_vm_readv(2) and process_vm_writev(2); only the word-wise paths are modelled.
- HLTQ_CONCAT, and the other list macros of the queue header.
- `del_io_events` and the pty event loop; the pump is that of a command without a pty.
- Environment hooks, RTLD_PRELOAD_ENABLE_VAR, and the search for the preload variable's name.
- Policy limits being applied (`set_policy_rlimits`) and core dump handling.
- ResumeSearch.JournalSeek: speaks about non-zero targets, as do ResumeSearch.FoundIffPrefixSum and ResumeSearch.ShortestPrefix.
- ArgBuffers.ReadVec: a compat process has a 32-bit address space, so that the all-ones address of a failing PTRACE_PEEKDATA points nowhere.
- ArgBuffers.StrtabToVec: that a vector is wrong after the buffer grew is stated for tables that end below 2^64, as in any buffer.
- ArgBuffers.GetExecveInfo: vectors are left as offsets into the buffer; adding its address to them is not modelled. When the arguments made the buffer grow between two entries nothing is said about the whole, because the environment is then stored over part of their vector; `ArgBuffers.ReadVec` says that the vector was wrong when it was read. An entry outside the buffer ends the model.
- JournalRelay.Replay: assumes that no read ends in a harmful cut, as `ReadBuffers.CutIndependence` does.
- ServerConnections.Connection.Handle: an AcceptMessage opens a log in a directory of its own.
- Preload.DsoAlloc: the preload variable is not SUDO_INTERCEPT_FD, and sudo_strtonum(3) reads a printed number back.
- Limits.LimitTable.UnlimitSudo: the kernel's soft limit is at most its hard limit, and RLIM_INFINITY is the largest value, as on Linux.
- TailQueue.Run: the elements named by an operation are in the queue and those inserted are in none, as the macros demand.
