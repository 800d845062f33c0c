# Log rotation: a model and its proofs

The laboratory measures how two log-rotation protocols behave beside a buffering log writer: *rename-reopen* (rename the
file, create a new one, ask the writer to reopen) and *copytruncate* (copy the file, truncate it). This project models the
writer, the rotator, the record format, the integrity analyzer, the memory-limit sweep and the cache metrics, and proves
what each of them is for.

## How the model is built

**One state machine.** `Lab.dfy` holds a small file system (names, inodes, contents), the one-slot reopen channel, the
writer and the rotator. Every system call, event append and request is a step of its own, so a run is any interleaving of
the two processes, any short write, any failure and any stop. What the environment decides is the label of the step;
`Exec` runs a list of labels. History fields (what went out, which inode became which backup, the copytruncate windows)
and the rotator's two counts of its polls are written and never read by the two processes. The steps follow these lines:

| step of `Lab` | source |
|---|---|
| `AfterOpen`, `AfterOpenFailure`, `AfterTakeReopen` | internal/writer/writer.go:87-90, 211-228; cpp/writer/main.cc:276-277, 324-337 |
| `AfterGenerate` | internal/writer/writer.go:190-201; cpp/writer/main.cc:315-322 |
| `AfterFlushStart`, `AfterWrite`, `AfterWriteError` | internal/writer/writer.go:132-181; cpp/writer/main.cc:93-110, 300-307, 350 |
| `AfterPoll` | internal/rotator/rotator.go:78-92 |
| `AfterRename`, `AfterDeliver` | internal/rotator/renamereopen.go:15-55; cpp/writer/main.cc:251-257 |
| `AfterCreateBackup`, `AfterCopyChunk`, `AfterTruncate` | internal/rotator/copytruncate.go:17-42 |
| `Victims`, `AfterRemove`, `AfterComplete` | internal/rotator/rotator.go:97-100, 124-128, 134-162 |
| `AfterAdvance`, `AfterFault` | internal/rotator/rotator.go:74-128 |

**Invariants over every run.** `WriterStream` (the byte stream, for any rotator), `RenameReopen`, `CopyTruncate`,
`Boundaries`, `FullBackups`, `EventLog`, `EventBytes`, `Ledger`. `RenameResults`, `Survivors` and `CopyResults` say
what the invariants mean for the files on disk.

**The programs.** `WriterProgram`, `CppProgram` and `RotatorProgram` are the loops of the source as imperative code. Before
each of their system calls the other process may take any steps; each program is proved to be a run of the state machine,
so everything proved of runs holds for them. Their contracts also say when a call that fails ends what, and, for the two
writers, what each turn of the loop does with the request in the slot and with the buffer.

**The analyzer and the codec.** `Record`, `Integrity` (the one-pass scan against a specification on multisets),
`IntegrityLaws` (what a report means and what passing proves).

**Everything together.** `Ranges` and `EndToEnd` carry a completed run, with or without retention, through the analyzer
and, with `Acceptance`, through both acceptance rules; `Progress` shows that completed runs exist. `Retention` and
`RetentionLink` tie retention on file names to the state machine. `TornFiles` and `ShortWrites` do the same for copytruncate
without any assumption on how much of a write the kernel accepts: files cut at any byte.

**The rest.** `Sweep` (the search), `Metrics` and `LeastSquares` (over exact reals), `Arithmetic`, `Ordered` and `Bytes`
(small vocabulary).

`dafny verify dfyconfig.toml` checks the whole project.

## What turned out to need a condition

- The Go writer answers a failed flush by flushing the whole buffer again before it exits
  (internal/writer/writer.go:138-147, 157). Bytes already written then go out twice. `WriterStream.StreamConservedExactly`
  gives the exact condition and `WriterStream.ReplayHappens` a run in which it happens; the C++ writer does not do it.
- The C++ writer takes any non-empty run id (cpp/writer/main.cc:171-175), and the analyzer cannot find a record whose run
  id holds a space or a newline; nor can it read a line longer than its scanner buffer, and it misses what retention has
  removed. `EndToEnd.RenameRunIsAccepted` says that a completed rename-reopen run is accepted exactly when none of the three
  happens, and `EndToEnd.SpacedRunFails` gives a run with a space. A tab or a carriage return in the run id does no harm to
  the analyzer, though the Go encoder refuses it.
- The per-file minimum of the analyzer uses zero for "nothing yet" (internal/integrity/analyze.go:41).
  `IntegrityLaws.MinimumExactly` says when the minimum is the true one, and `Ranges.ZeroIsForgotten` gives a file for which
  it is not.
- The harness accepts a run without looking at foreign records or descending transitions; the sweep looks at them
  (internal/harness/run.go:181-184, internal/sweep/docker.go:178-183). `Acceptance` keeps the two rules apart.
- `ValidUnique = Expected` is not implied by "nothing missing, nothing repeated": numbers above `Expected` also count as
  valid, as in `Ranges.OneTooMany`. `IntegrityLaws.AcceptanceIsSound` states what the three figures prove together.

## Model

| member | source | states |
|---|---|---|
| WriterStream.StreamConservedExactly | internal/writer/writer.go:132-181 | In every reachable state, under any interleaving, short write, failure or stop, the bytes handed to the kernel followed by the unwritten tail of the buffer are records 1 to Generated in order, if and only if no resuming Go flush failed after part of its buffer had gone out |
| WriterStream.ReplayedExactly | internal/writer/writer.go:138-157 | The replay the state records happened in a run exactly when some step of it was a write error of a resuming Go flush with bytes already written |
| WriterStream.NeverReplays | cpp/writer/main.cc:300-307 | The C++ writer never replays; nor does any writer when each write takes its whole batch |
| WriterStream.ReplayHappens | internal/writer/writer.go:138-157 | A concrete six-step run of the Go writer that hands the kernel the first byte of its first record and then that record whole: the byte goes out twice |
| WriterStream.CleanStop | internal/writer/writer.go:132-181 | A writer that exited without an error has written every generated record once and in order, Written = Generated, and no reopen failed |
| WriterStream.BufferHoldsTheRest | internal/writer/writer.go:148-152 | Written * RecordBytes + buffered length = Generated * RecordBytes in every reachable state |
| Ledger.DescriptorIs | internal/writer/writer.go:211-228 | The file the writer has open is the inode that was active when it last opened one |
| Ledger.CountersCount | internal/writer/writer.go:212-224 | In every run ReopenRequests is the number of requests taken and ReopenFailures that of failed reopens, at most one, after which the writer has stopped |
| Ledger.RequestsAnswered | internal/rotator/renamereopen.go:42-56 | No more reopen-requested events are logged than requests filled a free slot and were answered |
| RenameReopen.RenameRun | internal/rotator/renamereopen.go:13-57 | The inductive invariant of rename-reopen holds in every reachable state: which backups exist under which inode, that all inodes are different, that backups and active file joined are what was written, where the descriptor of the writer stands for each place of the rotator, and the request counts |
| RenameReopen.NonemptyMeansAttached | internal/rotator/renamereopen.go:21-27 | A non-empty active file is the one the writer has open, with no reopen queued: the replacement stays empty until the writer opens it |
| RenameReopen.VictimsAre | internal/rotator/rotator.go:150-160 | On a directory holding backups removed + 1 to k, retention picks exactly the oldest ones beyond MaxBackups, in ascending order |
| RenameResults.StreamConserved | internal/rotator/renamereopen.go:13-57 | With every backup kept: backups in ordinal order, active file and unwritten tail together are Encode(1) ... Encode(Generated), in every reachable state, if and only if no flush was replayed |
| RenameResults.CleanLog | internal/rotator/renamereopen.go:13-57 | Once the writer has exited cleanly, with every backup kept, the files alone are all the records |
| RenameResults.SurvivorsAreSuffix | internal/rotator/rotator.go:134-162 | Unless a flush was replayed: with retention the surviving backups, the active file and the tail are a suffix of the generated stream |
| Survivors.SuffixExactly | internal/writer/writer.go:132-181 | With any retention: the surviving backups, the active file and the tail are a suffix of the generated stream if and only if no flush was replayed; two copies of replayed bytes, which are both in the file the writer has open, cannot pass for records in order |
| RenameResults.SelfSynchronising | internal/rotator/rotator.go:93-100 | Whenever a rotation is past the threshold no reopen is queued or under way and the descriptor is the active inode; the rename overwrites nothing, the exclusive create meets no file, the request meets a free slot |
| RenameResults.ReopensAccountedFor | internal/harness/run.go:258-274 | ReopenRequests plus the queued request always equals the accepted requests; after the last rotation the writer has taken all of them exactly when the slot is empty |
| RenameResults.RetentionIsSafe | internal/rotator/rotator.go:150-160 | Retention never unlinks the inode the writer has open, and after each retention pass exactly the newest MaxBackups backups exist |
| FullBackups.BackupsAreFull | internal/rotator/rotator.go:78-92 | Under rename-reopen every backup in the directory holds at least MaxFileBytes bytes, in every reachable state |
| FullBackups.FinishedCopiesAreFull | internal/rotator/copytruncate.go:9-46 | Under copytruncate every backup in the directory whose truncate has happened holds at least MaxFileBytes bytes, in every reachable state |
| Boundaries.SwitchesBetweenRecords | internal/writer/writer.go:211-228 | Every backup the writer has moved on from holds a whole number of records |
| Boundaries.CutIntoRanges | internal/writer/writer.go:211-228 | Files of whole records that joined are records 1 to n are consecutive ranges of those records |
| CopyTruncate.CopyRun | internal/rotator/copytruncate.go:9-46 | The inductive invariant of copytruncate holds in every reachable state: backups and windows interleaved, then the active file, are what was written, and the backup in progress is a prefix of the active file |
| CopyResults.LosesExactlyTheWindows | internal/rotator/copytruncate.go:28-42 | With every backup kept: the bytes ever written are backup 1, window 1, ..., backup t, window t, active file, in every reachable state, one window for each truncate |
| CopyResults.PartialBackupIsPrefix | internal/rotator/copytruncate.go:28-39 | During a copy the partial backup is a prefix of the active file; after its end of file backup and window together are the active file |
| CopyResults.WindowSinceEndOfFile | internal/rotator/copytruncate.go:28-42 | The window is what was written since the step of this same rotation at which the copy met the end of the file |
| CopyResults.FinishedBackupsStay | internal/rotator/copytruncate.go:17-42 | No step of any run changes a backup whose copy has been followed by its truncate |
| CopyResults.RetentionIsSafe | internal/rotator/rotator.go:150-160 | Under copytruncate, too, retention removes only what is there and never the file the writer has open, and after each pass exactly the newest MaxBackups backups exist |
| CopyResults.CutWoven | internal/rotator/copytruncate.go:28-42 | With whole records everywhere, backups and windows are alternating consecutive ranges of records |
| EventLog.LogFollowsGrammar | internal/rotator/rotator.go:93-128 | The event log of every run is complete five-event blocks for ordinals 1, 2, ..., then a prefix of the next block, closed by at most one rotation-failed; a clean exit has logged exactly Rotations blocks |
| EventLog.RotationEvents | internal/rotator/rotator.go:105-127 | In a run that exits cleanly the five events of rotation k carry its ordinal and are, in order, threshold, then rename, replacement-created, reopen-requested or copy-start, copy-synced, truncate, then retention-complete |
| EventLog.ThresholdsAreMet | internal/rotator/rotator.go:90-112 | No threshold event is logged with fewer than MaxFileBytes bytes |
| EventBytes.BytesOfEvent | internal/rotator/rotator.go:90-127 | The bytes of every event in every run: a threshold has the size of the active file at the stat of that rotation, rename and retention-complete repeat it, copy-synced and truncate have the length of the backup of that rotation, rotation-failed has the size that the poll of that rotation found full, the others have none |
| Progress.RotationCanComplete | internal/rotator/rotator.go:78-103 | Under either protocol, from every reachable state in which the rotator polls, the file is full and the writer has not stopped, the rotator alone can finish the rotation: no create, truncate or removal meets a missing or an existing file it should not, and the slot is free |
| Progress.CompletedRunExists | internal/harness/run.go:109-117 | Every legal configuration has a run with all its rotations in which both processes end without an error after MaxFileBytes records for each rotation, so the results on completed runs are about something |
| EndToEnd.RenameRunIsAccepted | internal/harness/run.go:109-184 | Every completed rename-reopen run has Written = Generated > 0; and the analyzer over its files, in any order, reads them all, counts nothing missing, repeated, malformed, foreign or descending and has ValidUnique = Generated, if and only if the run id has no space or newline, a record fits the scanner and retention had nothing to remove; otherwise a file cannot be read or something is missing |
| EndToEnd.RenameRunReport | internal/harness/run.go:109-184 | With readable records and any MaxBackups: the missing numbers are exactly 1 to m, the records of the backups removed, with m > 0 exactly when there were more rotations than kept backups; no other complaint, and ValidUnique = Generated - m |
| EndToEnd.CompletedRun | internal/harness/run.go:109-117 | A completed rename-reopen run has generated records and written them all, and retention has removed some of their bytes exactly when there were more rotations than kept backups |
| EndToEnd.SpacedRunFails | cpp/writer/main.cc:171-175 | A completed run of the C++ writer with a space in its run id whose files are not accepted |
| EndToEnd.JudgeCompletedRun | cmd/loglab/main.go:230-240 | A completed rename-reopen run succeeds for the harness and passes for the sweep if and only if it is acceptable in the sense of EndToEnd.RenameRunIsAccepted and everything around the run went well; otherwise the run command fails and the sweep counts a functional failure |
| EndToEnd.RenameFiles | internal/harness/run.go:134-139 | The files of a completed rename-reopen run, oldest backup first and active file last, hold consecutive ranges of records up to the last one generated, and the removed backups held exactly the records before them |
| EndToEnd.CopyRunLosesIntervals | internal/rotator/copytruncate.go:9-46 | A completed copytruncate run with whole writes and readable records, for any MaxBackups, has no duplicate, malformed, foreign or descending record, and the missing numbers are exactly those up to the first file retention has kept and, after it, those of one interval per rotation, in order, each the records of that window; their sizes add up to Missing and to Expected - ValidUnique |
| EndToEnd.CopyRunIllegible | internal/rotator/copytruncate.go:9-46 | If instead the run id has a space or newline or a record does not fit the scanner, a file of such a run cannot be read or every record is missing |
| EndToEnd.CopyFiles | internal/rotator/copytruncate.go:9-46 | The backups and the active file of such a run hold ranges of records in order, from the first to the last, with the window of each rotation as the gap after its backup; the files still there are the last of those ranges |
| ShortWrites.CopyRunReads | internal/rotator/copytruncate.go:9-46 | Every completed copytruncate run with readable records, for any short writes and any MaxBackups: backups, windows and active file are consecutive stretches of the bytes of the records; the analyzer reports no duplicate and no descending transition, misses exactly the records whose prefix lies whole in no file still there, and its malformed and foreign lines are exactly the torn ones, at most two a rotation |
| ShortWrites.JudgeCopyRun | internal/harness/run.go:181-190 | A completed copytruncate run succeeds for the harness and passes for the sweep if and only if everything around it went well and its files could be read, whatever it lost, tore or let repeat; a legible configuration can be read |
| TornFiles.SaysSlice | internal/integrity/analyze.go:25-54 | Any stretch of the bytes of the records, cut anywhere, reads as an interval of consecutive records and at most one bad line at either end |
| TornFiles.ReadExactly | internal/integrity/analyze.go:31-46 | A record is read from a stretch exactly when its whole prefix lies in it |
| TornFiles.HeadIsNoRecord | internal/record/record.go:32-43 | What is left of a record cut off at its front never counts as a record of the run |
| Ranges.ReportOnRanges | internal/integrity/analyze.go:19-73 | On files that hold ranges of records in order, read in any order, the missing numbers are exactly those before the first range and in the gaps, and every other complaint count is zero |
| Ranges.ReportOnRead | internal/integrity/analyze.go:19-73 | The same for files that read as such ranges beside bad lines: nothing is repeated or descending, the missing numbers are exactly the gaps, and malformed and foreign lines are the bad ones of the files |
| Ranges.FileOfNumbers | internal/integrity/analyze.go:25-46 | A file of records whose run id has no space or newline reads back as exactly their numbers, and can be read exactly when a record fits the scanner |
| Ranges.RangesTooLong | internal/integrity/analyze.go:26-57 | Files that hold any record cannot all be read when a record does not fit the scanner |
| Ranges.ZeroIsForgotten | internal/integrity/analyze.go:41-43 | A file with records 0 and 1 whose reported minimum is 1 |
| Ranges.OneTooMany | internal/integrity/analyze.go:62-72 | A file with records 1 and 2 which, where one is expected, has nothing missing or repeated and ValidUnique 2 |
| Ranges.CoveredOrMissed | internal/integrity/analyze.go:64-72 | Up to the end of the last range every number is either covered or in a gap, never both |
| Ranges.SizesAddUp | internal/integrity/analyze.go:63-72 | Covered and missing numbers together are the whole span |
| Acceptance.Conclude | internal/harness/run.go:118-184 | A summary exists exactly when rotator, writer and monitor ended well, the state, the events and the samples could be read, report and summary could be written, and every log file could be analyzed; the first of rotator, writer and monitor to fail is the error; its report is that of the analyzer, and success means no failed reopen and, for rename-reopen only, nothing missing, repeated or malformed |
| Acceptance.ClassifySummary | internal/sweep/docker.go:173-191 | The functional part passes exactly when the schemas fit and no reopen failed, the integrity part exactly when all five figures are zero; an attempt passes when the first does and, unless copytruncate, the second, and the failure kind says which of them went wrong |
| Acceptance.ClassifyProcessFailure | internal/sweep/docker.go:150-166 | Exit code and timeout are recorded; out of memory means the flag or exit code 137 and outranks a timeout, which outranks a functional failure |
| Acceptance.ClassifyRun | internal/sweep/docker.go:114-136 | An attempt passes exactly when the run ended with success and, unless copytruncate, all five figures are zero; a run without success is a functional failure by its exit code, so that a rename-reopen attempt fails by integrity only for foreign or descending records |
| Acceptance.WaitReopens | internal/harness/run.go:258-274 | Waiting succeeds exactly when some poll that was answered shows at least the wanted number of requests |
| WriterProgram.Process.constructor | internal/writer/writer.go:83-90 | The program starts where the state machine starts |
| WriterProgram.Process.OpenFile | internal/writer/writer.go:87-90 | Opening or reopening the log is one step of the machine; it fails exactly when the call does, a failed reopen is counted, and otherwise the descriptor is the active inode |
| WriterProgram.Process.Flush | internal/writer/writer.go:132-154 | The write loop, with short and failing writes, is a run of the machine; it succeeds exactly when no call fails or moves nothing; then the buffer is empty and Written grew by its records, otherwise the buffer keeps every byte |
| WriterProgram.Process.FlushFailed | internal/writer/writer.go:156-159 | A failed resuming Go flush leads back to the start of the same buffer; any other failed flush is the end |
| WriterProgram.Process.Generate | internal/writer/writer.go:187-201 | A tick turns all credit into records: afterwards 0 <= credit < RecordBytes and Generated * RecordBytes + credit is the sum of the rounded credits; a record that cannot be encoded ends the run |
| WriterProgram.Process.OnTick | internal/writer/writer.go:187-206 | A tick writes the buffer out exactly when its new records fill it to BufferBytes |
| WriterProgram.Process.Finish | internal/writer/writer.go:156-181 | The last flush ends the program cleanly only if there was no error before and none in it |
| WriterProgram.Process.OnWake | internal/writer/writer.go:183-230 | One turn of the event loop is a run of the machine: a reopen takes and counts the request in the slot and empties the buffer, even a failing one counts it, a timer empties the buffer, a tick does exactly when its records fill it; it fails only if a call fails or a record cannot be encoded |
| WriterProgram.Process.Run | internal/writer/writer.go:83-231 | Whatever the rotator does between its system calls, the whole program is a run of the machine that answers every wake in turn; a clean end has delivered every record and taken as many requests as there were reopen wakes with a full slot, and under rename-reopen with all backups kept the files hold all records; when records can be encoded the end is clean exactly when no call failed |
| WriterProgram.RateBounded | internal/writer/writer.go:187-201 | After k ticks spanning T ns the bytes generated are at most rate * T / 1e9 and more than that less k and one record |
| CppProgram.BuildTemplate | cpp/writer/main.cc:283-288 | The template is a record of the run in every byte outside the twenty digits |
| CppProgram.Patch | cpp/writer/main.cc:316-320 | Patching the twenty digits in place gives exactly the encoding of that sequence number, and leaves a template |
| CppProgram.PatchAgrees | cpp/writer/main.cc:171-175 | The bytes of the patched template equal what the Go encoder returns for that sequence number exactly when the run id is non-empty and has no whitespace; otherwise the encoder refuses the run id |
| CppProgram.WriteAll | cpp/writer/main.cc:93-110 | Short and interrupted writes are continued; the loop is a run of the machine that ends with everything written exactly when no call failed or moved nothing, and otherwise with the writer stopped |
| CppProgram.Flush | cpp/writer/main.cc:300-307 | On success the buffer is empty and the written counter grew by its records; on failure the writer has stopped |
| CppProgram.Generate | cpp/writer/main.cc:314-322 | All credit becomes records, the rest stays below one record, nothing of it is lost |
| CppProgram.Reopened | cpp/writer/main.cc:324-341 | Taking the request, reopening and flushing is a run of the machine that counts the request and empties the buffer |
| CppProgram.Turnaround | cpp/writer/main.cc:309-348 | After every round the buffer is below BufferBytes, and empty if the flush interval was over; a round that finds the slot full takes the request and empties the buffer, and one that has no reason to flush writes nothing |
| CppProgram.PacedExactly | cpp/writer/main.cc:310-322 | The C++ writer never runs ahead of the rate and never lags a whole record behind it |
| CppProgram.Run | cpp/writer/main.cc:273-367 | Whatever the rotator does between its system calls, the whole program is a run of the machine that does every round in turn; a clean end has delivered every record and taken a request in each round that found one, and the end is clean exactly when no call failed |
| RotatorProgram.Process.constructor | internal/rotator/rotator.go:74-77 | The program starts where the state machine starts |
| RotatorProgram.Process.AppendEvent | internal/rotator/rotator.go:164-196 | An event append is one step of the machine, and ends the rotation exactly when it fails |
| RotatorProgram.CallFinds | internal/rotator/renamereopen.go:15-56 | In every run each call of the rotator finds what it needs: the active file to stat, rename, copy or truncate, a free name to create, a free slot for the request, the backup to remove |
| RotatorProgram.Process.RotateRenameReopen | internal/rotator/renamereopen.go:13-57 | Rename, create, request and their events, with the writer running between any two of them, are a run of the machine |
| RotatorProgram.Process.RequestReopen | internal/rotator/renamereopen.go:42-55 | The request fills a free slot of a writer that still listens, and the rotation goes on only if the answer comes back |
| RotatorProgram.Process.RotateCopyTruncate | internal/rotator/copytruncate.go:9-46 | Open, copy, truncate and their events, with the writer running between any two of them, are a run of the machine |
| RotatorProgram.Process.CopyAll | internal/rotator/copytruncate.go:28-31 | The copy loop is a run of the machine that ends at the end of the file exactly when no read fails |
| RotatorProgram.Process.EnforceRetention | internal/rotator/rotator.go:134-162 | Listing and removing are a run of the machine, and fail only if a call fails: every backup picked is there to be removed |
| RotatorProgram.Process.RotateOnce | internal/rotator/rotator.go:105-128 | One rotation is a run of the machine that ends complete exactly when no call failed and the request was answered; it fails only if a call failed, an answer was lost or the writer had stopped |
| RotatorProgram.Process.Run | internal/rotator/rotator.go:74-103 | Whatever the writer does between its calls, the whole program is a run of the machine; a clean end, without any failed call, has logged exactly Rotations complete blocks, one for each poll that found the file full; without a failed call the end is clean unless all polls were made and fewer than Rotations of them found the file full |
| Record.Encode | internal/record/record.go:15-30 | Succeeds exactly for a legal run id and a sufficient size, and then yields prefix, padding and newline |
| Record.FirstRecord | internal/record/record.go:15-30 | The bytes of the first record of a run, written out |
| Record.LegalMeans | internal/record/record.go:16-18 | Which run ids the encoder takes, byte by byte |
| Record.ReturnsDropped | internal/integrity/analyze.go:25-30 | The scanner takes one carriage return off the end of a line and nothing else |
| Record.ParseExact | internal/record/record.go:32-43 | Parse accepts exactly the lines that open with a canonical prefix "run id, space, twenty digits, space", and reads back what that prefix says |
| Record.EncodeThenParse | internal/record/record.go:15-43 | Encoding then parsing gives the record back, for every 64-bit sequence and legal size, exactly when the run id is non-empty and has no space |
| Record.TornRecord | internal/record/record.go:32-43 | A record cut after k bytes, its run id without space or newline, still parses to itself exactly when the whole prefix survived |
| Record.FramingRoundTrip | internal/integrity/analyze.go:25-31 | Splitting any concatenation of records at newlines and parsing each line gives the original list back, for every non-empty run id without space or newline |
| Record.FramingExact | internal/integrity/analyze.go:25-31 | And for a non-empty list only for such run ids |
| Record.ParsedIsPlain | internal/integrity/analyze.go:25-35 | Whatever line the analyzer reads as a record, its run id is non-empty and has no space or newline |
| Integrity.Analyze | internal/integrity/analyze.go:13-74 | Fails exactly when a file cannot be read or has an over-long line, with the error of the first such file; otherwise the one-pass map and counters give the report specified on the multiset of sequences read |
| Integrity.CountLine | internal/integrity/analyze.go:30-54 | The body of the inner loop keeps the correspondence of map, counters and per-file figures with the lines read so far |
| Integrity.ScanLines | internal/integrity/analyze.go:29-55 | A file without an over-long line is counted completely |
| Integrity.ScanFile | internal/integrity/analyze.go:20-61 | Counting one file adds its tally to the total |
| Integrity.FindMissing | internal/integrity/analyze.go:64-72 | The loop over 1 to Expected counts the numbers never seen and keeps the first 100 |
| IntegrityLaws.ReportMeaning | internal/integrity/analyze.go:47-72 | ValidUnique is the number of distinct sequences, Duplicates the occurrences beyond the first, Missing the size of {1..Expected} minus the seen ones, MissingExamples the smallest min(100, Missing) of them in order, and every line is counted once |
| IntegrityLaws.MissingListIs | internal/integrity/analyze.go:64-72 | The missing list holds exactly the missing set, in increasing order |
| IntegrityLaws.MinimumExactly | internal/integrity/analyze.go:41-43 | The per-file minimum is the true one exactly when no zero was read before a later number; otherwise a zero was read |
| IntegrityLaws.LargestIs | internal/integrity/analyze.go:44-46 | The per-file maximum is the true one |
| IntegrityLaws.FilesListed | internal/integrity/analyze.go:61 | With distinct names every file has its entry with its number of records and its bounds |
| IntegrityLaws.DescentsAre | internal/integrity/analyze.go:47-50 | Descending transitions are exactly the places where a number is smaller than the one before it |
| IntegrityLaws.ClassMeans | internal/integrity/analyze.go:31-38 | A line is valid, foreign or malformed as it opens with a prefix of the run, of another run or with none |
| IntegrityLaws.AllOneClass | internal/integrity/analyze.go:31-38 | A file of malformed lines only counts as malformed, one of foreign lines only as foreign |
| IntegrityLaws.NothingValid | internal/integrity/analyze.go:31-46 | For a run id that is empty or has a space or newline the analyzer counts no record in any files |
| IntegrityLaws.OrderIsIrrelevant | internal/integrity/analyze.go:20-61 | Permuting files with distinct base names changes nothing in the report |
| IntegrityLaws.TotalPermutes | internal/integrity/analyze.go:20-61 | The totals do not depend on the order of the files, whatever their names |
| IntegrityLaws.AcceptanceIsSound | internal/sweep/docker.go:178-183 | With nothing missing and nothing repeated, ValidUnique = Expected holds exactly when the valid sequences are {1..Expected}, each once |
| IntegrityLaws.CleanFilesAscend | internal/integrity/analyze.go:47-50 | With no descending transition and no duplicate every file is strictly increasing |
| Retention.OrdinalRoundTrip | internal/rotator/rotator.go:130-132 | The ordinal is read back from the suffix of the backup name, for every ordinal up to the largest int |
| Retention.PathsDiffer | internal/rotator/rotator.go:130-132 | Different ordinals have different names, none of them the active one |
| Retention.PathsLook | internal/rotator/rotator.go:130-132 | Two backup names written out |
| Retention.OrdinalsFit | internal/rotator/rotator.go:145-149 | Digits are read as their value when it fits 64 bits, and nothing outside 64 bits is read |
| Retention.SuffixesRead | internal/rotator/rotator.go:145-149 | Suffixes that are read as ordinals, signs and leading zeros included, and some that are not |
| Retention.Directory.EnforceRetention | internal/rotator/rotator.go:134-162 | Removes backups of the least ordinals until MaxBackups are left and touches nothing else |
| Retention.ListBackups | internal/rotator/rotator.go:138-155 | Lists each match with a numeric suffix once, under its number, in ascending order |
| Retention.KeepsTheGreatest | internal/rotator/rotator.go:156-160 | With distinct ordinals a backup survives exactly when fewer than MaxBackups have a greater ordinal |
| RetentionLink.SameVictims | internal/rotator/rotator.go:134-162 | Retention by file name removes exactly the backups the state machine removes by ordinal |
| Sweep.Search | internal/sweep/search.go:17-95 | For any runner: the error outcomes exactly, success meaning that the largest candidate passed and an upper failure that it alone was tested and did not; the limits tested are the largest candidate, the smallest, and then each time the aligned midpoint of the bounds reached, all different, at most 2 + ceil(log2) of them; the attempts are the repetitions of those limits in turn, with failure counters to match; a resolved answer is the pair of bounds reached, one step apart, and an unresolved one means that the smallest candidate passed |
| Sweep.Searcher.Test | internal/sweep/search.go:31-58 | A remembered limit runs nothing; another one runs all its repetitions and is remembered with its verdict; a cancellation is reported |
| Sweep.Bisect | internal/sweep/search.go:75-94 | Narrows a failed and a passed candidate to one step apart, within the budget, testing no limit twice |
| Sweep.MidpointHalves | internal/sweep/search.go:77-80 | The two nested roundings of the midpoint halve the distance in steps, so it lies strictly between the bounds and the repair after it is never taken |
| Sweep.AlignUp | internal/sweep/search.go:97-99 | The least multiple of the step that is not smaller |
| Sweep.AlignDown | internal/sweep/search.go:101-103 | The greatest multiple of the step that is not greater |
| Sweep.RoundRecorded | internal/sweep/search.go:36-44 | The answers on record for the j-th limit are exactly its calls |
| Sweep.AttemptRecorded | internal/sweep/search.go:36-44 | Each attempt on record is the answer of the runner to the request with that limit and repetition number, and a passed limit has only passed attempts |
| Sweep.FailedRepetition | internal/sweep/search.go:36-55 | A limit that failed has a failed attempt on record |
| Sweep.MinimumIsLeast | internal/sweep/search.go:59-94 | If the verdicts reached depend on the limit alone and are monotone, the minimum found is the least passing candidate |
| Sweep.FailedUpperMeansNone | internal/sweep/search.go:63-66 | With such verdicts a failed upper limit means that no candidate passes |
| Arithmetic.CeilLog2 | internal/sweep/search.go:76-90 | The least k with n <= 2^k, the number of halvings |
| Metrics.Analyze | internal/metrics/analyze.go:10-60 | Start, end, maximum, mean, median, 95th percentile, the three rates, the rotation transient and the slopes between rotations mean what their names say; no samples give the zero report |
| Metrics.Accumulate | internal/metrics/analyze.go:19-39 | The accumulators are the rises and falls between neighbouring samples and their durations, and the maximum is a maximum |
| Metrics.Telescopes | internal/metrics/analyze.go:25-38 | Bytes gained less bytes given back, with the skipped changes, is End - Start; with strictly increasing times nothing is skipped and the durations add up to the whole |
| Metrics.SteadyRise | internal/metrics/analyze.go:25-38 | Under a clock that advances a cache that never shrinks only rises, all the time |
| Metrics.SteadyFall | internal/metrics/analyze.go:25-38 | and one that always shrinks only falls |
| Metrics.StoppedClock | internal/metrics/analyze.go:25-38 | Under a clock that never advances nothing counts |
| Metrics.NearestRank | internal/metrics/analyze.go:69-78 | For 0 < p <= 1 the rank r satisfies r < p * n <= r + 1 |
| Metrics.PercentileIsLeast | internal/metrics/analyze.go:40-52 | The value at the nearest rank of the sorted values is the least value that a share p of the values does not exceed |
| Metrics.RotationTransient | internal/metrics/analyze.go:80-110 | The result is the largest excess over the first sample within any window that a copy or rename opens |
| Metrics.TransientBounded | internal/metrics/analyze.go:95-107 | No transient exceeds the bytes gained, skipped ones included; with strictly increasing times none are skipped |
| Metrics.WindowsMatch | internal/metrics/analyze.go:82-92 | In a well-formed log with ascending times the second event of each rotation opens a window that closes with its own retention-complete, and windows do not cross |
| Metrics.RunWindowsMatch | internal/metrics/analyze.go:82-92 | So it is for the event log of every run |
| Metrics.IntervalSlopes | internal/metrics/analyze.go:112-134 | One slope for each stretch of at least two samples between neighbouring sorted boundaries: zero when they were taken at one time, otherwise that of the one line with the least sum of squared distances, in bytes, of the samples from slope * ns / 1000000000 + intercept |
| Metrics.SteadySlope | internal/metrics/analyze.go:136-145 | Samples whose cache is a + b * ns / 1000000000 have the slope b |
| Metrics.StretchIn | internal/metrics/analyze.go:121-133 | Every pair of neighbouring boundaries with more than one sample between them has its slope |
| Metrics.StretchFrom | internal/metrics/analyze.go:121-133 | and no other has one |
| Metrics.InsideExactly | internal/metrics/analyze.go:123-127 | A stretch or window holds exactly the samples from its first to its last instant |
| Metrics.WindowEnd | internal/metrics/analyze.go:83-92 | A window ends with the first retention-complete of its ordinal in the log that is not before its start, or never |
| Metrics.CompletionIn | internal/metrics/analyze.go:114-118 | Every retention-complete of the log is a boundary |
| Metrics.CompletionFrom | internal/metrics/analyze.go:114-118 | and every inner boundary is one |
| Metrics.CutsAre | internal/metrics/analyze.go:113-120 | The boundaries are the times of the first sample, of every retention-complete and of the last sample, in ascending order |
| LeastSquares.CauchySchwarz | internal/metrics/analyze.go:136-145 | n * Sxx - Sx^2 is never negative, and zero exactly when all abscissas agree |
| LeastSquares.Fit | internal/metrics/analyze.go:136-145 | Zero when all abscissas agree; otherwise, with its intercept, the one line of least squared residual |
| LeastSquares.CollinearSlope | internal/metrics/analyze.go:136-145 | Points on a line have the slope of that line |

## Left out

- The baseline strategy of the rotator (one wait for a byte count): a single loop without a rotation.
- HTTP, signals, child processes, Docker, tickers and clocks: a request is one atomic step on the reopen slot, a ready
  event is a wake in a list, a tick carries the time since the last one; a clock that runs backwards is not modelled for
  the writers.
- EndToEnd.RenameRunIsAccepted: asks for fewer than 2^64 - 1 records, as Integrity.Analyze does; so do the other results
  of EndToEnd that speak of a report.
- RenameResults.ReopensAccountedFor: the Go loop empties the slot and counts the request in two actions
  (internal/writer/writer.go:211-214), which are one step here; between them the sum is one short.
- Integrity.Analyze: asks for Expected below the largest 64-bit value, for which the loop in the source does not end; the
  partial report that the source returns beside an error is not modelled.
- EndToEnd.CopyRunLosesIntervals: asks that each write takes its whole batch; with short writes a window may start or end
  inside a record, and ShortWrites.CopyRunReads says what then holds.
- Survivors.SuffixExactly: asks for no more records than a 64-bit sequence number can tell apart.
- Sequence numbers, counters, sizes and byte credit are unbounded integers: 64-bit overflow of Generated, of
  BytesPerSecond * ns and of sums near the largest int in the sweep is not modelled.
- The log directory is fresh and has one rotator; a rename that replaces an older backup of another run is not modelled.
- Closing, syncing, owner and mode of files: an error of close or sync counts as a failure of the step next to it; the
  double-close guard of copytruncate has nothing to guard here.
- Errors in Retention.Directory.EnforceRetention: the removal that fails is a step of the state machine, not of the
  directory class. Glob characters in the path of the active file are taken literally.
- Retention.Insert and Metrics.Sort stand for the library sort; its stability and in-place form are not modelled.
- CppProgram.Run: the long double credit is an exact real.
- Metrics.Analyze and LeastSquares.Fit: floating point is exact real arithmetic, so no rounding; peak figures and CSV or
  JSON reports are not part of this model.
- Sweep.Search: the fields of an attempt are whatever the runner returns; the command line, the delta to the baseline and
  the Docker calls are not part of this model.
- What the kernel does with the page cache, durability after a crash and the memory limit itself.
- That a copy or a rotation eventually finishes when the writer keeps running: it depends on relative speed.
  `Progress.RotationCanComplete` says that it always can.
