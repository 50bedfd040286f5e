# Models and proofs for DOMjudge

DOMjudge runs programming contests: judgehosts compile and run submissions, and a web application
keeps the contest, the scoreboard and the API. This project models those parts whose behaviour is hard
to see from one function at a time, and proves what they keep over all inputs and all runs.

`dafny verify dfyconfig.toml` checks everything.

## What is modelled

- **The interactive proxy `runpipe`** (`Transcript`, `RunpipeProgram`, `RunpipeWorld`, `RunpipeSafety`, `RunpipeProgress`,
  `RunpipeEvents`, `Runpipe`, `RunpipeLoop`, `RunpipeCommands`). `RunpipeWorld` is a step machine: the two children write, close and
  exit, signals are raised, merged and delivered to self-pipes, and the main loop handles one event at
  a time. `RunpipeSafety` proves what every run keeps: no exit is lost, streams are conserved, the
  transcript can be read back, and what `validator-exited-first` means; `RunpipeProgress` that no notice
  is lost and the loop is never stuck. `Runpipe` holds the same
  operations, up to the main loop, as methods on classes, proved against the functions that the step machine is made of;
  `RunpipeEvents` says what the loop makes of any events, and `RunpipeLoop` shows that the loop follows every run of the machine.
- **The contest clock** (`ContestClock`, `ContestState`, `ContestEntity`). Wall time and contest time
  around removed intervals, the milestones that are derived from time strings, validation, and the
  contest state object of the ICPC CCS Contest API, section "Contest state".
- **The judgedaemon** (`JudgedaemonState`, `JudgedaemonSafety`, `JudgedaemonEndpoints`, `JudgedaemonBatch`, `Judgedaemon`, `JudgeTask`,
  `ExecutableHash`, `ExecutableCache`). The main loop with its endpoints, directories and chroots, the
  passes of one test case, the retries of a request, and the two caches on disk.
- **The bounded copying of `runguard`** (`RunguardStreams`, `Runguard`). Two streams with a limit, the
  loop while the child runs, the drain after it exited, and the report of truncated streams.
- **Algorithms of the web application**: the submission graph (`SubmissionGraph`), the search for
  dependent classes (`DependentEntities`), the check before a deletion (`DeleteTree`) and the merge of
  scoreboards (`ScoreboardMerge`).

`Wrappers`, `Numbers` and `StableSort` hold what several of these share.

## What the proofs found

Some properties that the code is evidently meant to have hold only under a condition. The condition, in terms
of what is known before the call, is proved to be the exact one.

- The two clock conversions belong together exactly if no removed interval is stored after one that starts less than a
  second later (`ContestClock.UsortMakesGaloisPairIff`): the comparator of `getAbsoluteTime` cuts differences down to
  whole seconds. `ContestClock.SubSecondStartsBreakRoundTrip` is an example.
- The overlap check of a removed interval misses an interval strictly inside it. Adding an interval validates only the new
  one, so the stored intervals stay disjoint exactly if none lies strictly inside one added later
  (`ContestClock.StoredSeparateIff`). Validating the contest itself reports such a clash, because it validates all of them.
- `getState` compares the freeze time, not the thaw time, with the finalize time. The end of updates
  may therefore be announced earlier than the thaw (`ContestState.EndOfUpdatesBeforeThaw`); it is
  withdrawn or replaced later exactly in the contests that `FreezesAfterTheEnd` describes, and never in a validated one.
- Events that `epoll_wait` reports together are handled in the order reported. If an exit comes before the data event of the
  same child, the proxy reads from a descriptor it has closed and ends with an error, the byte unread
  (`RunpipeSafety.ExitBeforeDataAborts`). If exits come last in every batch this never happens.
- After the first child is reaped nothing is recorded any more (`RunpipeSafety.NoTrafficAfterExit`). A direction was recorded
  in full exactly if its pipe is empty at the end (`RunpipeSafety.RecordedInFullIffPipeEmpty`).
- `parse_commands` checks only the second command. The first is there exactly if something that is not empty precedes the
  separator (`RunpipeCommands.FirstCommandPresentIff`).
- A daemon that ends may leave a chroot up, and no later one stops it. One stays up exactly if the last pass started it, or
  it was up before and the pass did not get to a cleanup (`JudgedaemonSafety.ChrootSurvivesDaemonIff`). After a start whose
  success was not remembered, the daemon itself does not know of it (`JudgedaemonSafety.UnrememberedChrootStaysUp`).
- The drain loop of runguard stops too early exactly if its first pass only learns that splice does not
  work for a stream with pending data and copies nothing else. The comment at `judge/runguard.cc:1505`
  says that the pipes become blocking; the exclusive-or at line 1514 turns non-blocking mode on, and the model follows the code.
- The search for dependent classes ends exactly if no CASCADE constraint of the root class refers to
  the root class itself. Longer cycles through the root do no harm.
- `break 4` in `buildDeleteTree` leaves only the loop over identifier columns of one entity. The row of key values may be cut
  short and later entities may add messages, but the first message is still the restriction on the last blocked entity.
- A scoreboard cell without a time is marked first to solve if nobody has a time for the problem, or if the best time is 0,
  since a missing time is loosely equal to the default solve time.
- A request that is not combined is served the wrapper instead of the built `run` exactly if the directory was made for a
  combined request or the two are equal (`ExecutableCache.PlainRequestGetsWrapper`).
- The hash of an executable does not separate a name from the executable bit after it, nor one line from the next: equal
  hashes mean equal files only where names and bits are known (`ExecutableHash.HashCertifiesContents`), and
  `ExecutableHash.BitOrName` and `ExecutableHash.NameOrFiles` are different files with the same hash, whatever md5 does.
- A scoreboard merge breaks exactly if a result is on a problem that its site does not describe, and no problem with an
  empty name is known yet: PHP takes the missing name for the empty array key, but not for the name of a new problem.

## Hypotheses

- Times are integers: milliseconds on the clock, whole seconds and milliseconds in the transcript, tenths of a second in the
  daemon's waiting time. Times in the contest table are not negative, as its columns are unsigned.
- Removed intervals are proper and disjoint where a lemma says `Separate`.
- Bytes are characters; payloads are arbitrary.
- Pipes are first in, first out; readiness is level-triggered; a signal that is pending already is merged. A pipe to a process
  that failed once fails forever. Writing the transcript and runguard's output files succeeds.
- Mount points keep a mounted directory in place when `rm -rf` meets it. All tasks of a batch belong to one submission and job.
- Where a lemma speaks of what a hash tells apart, md5 yields strings of one length and does not collide on the strings at hand.
- `md5`, the build script, the search for a source file, database counts and replies of the API are parameters.
- `usort` and `uasort` are stable insertion sorts by the given comparator (`StableSort`), also where it is inconsistent.
- PHP warnings do not end a command.

## Model

| member | source | states |
|---|---|---|
| StableSort.SortPermutes | webapp/src/Entity/Contest.php:1057-1064 | sorting by any comparator keeps every element, as often as it was stored |
| ContestClock.ClippedStep | webapp/src/Entity/Contest.php:1106-1113 | one more tick of wall time removes one more tick exactly if some interval covers it |
| ContestClock.ContestTimeCountsUncoveredTicks | webapp/src/Entity/Contest.php:1102-1116 | contest time is the number of ticks since the start that no removed interval covers |
| ContestClock.ContestTimeMonotoneAndSlow | webapp/src/Entity/Contest.php:1102-1116 | contest time never runs backwards and never faster than the wall clock |
| ContestClock.ContestTimePermutationInvariant | webapp/src/Entity/Contest.php:1106-1113 | the storage order of the intervals does not matter |
| ContestClock.GaloisSorted | webapp/src/Entity/Contest.php:1065-1070 | clipping and cascading in start order are adjoint |
| ContestClock.UnsortedBreaksGalois | webapp/src/Entity/Contest.php:1065-1070 | any two intervals visited in the wrong order break the adjunction |
| ContestClock.GaloisAt | webapp/src/Entity/Contest.php:1048-1116 | contest(w) <= r exactly if w <= absolute(r), for every wall time and contest time |
| ContestClock.GaloisIffStartSorted | webapp/src/Entity/Contest.php:1048-1116 | for any visiting order the conversions form a Galois pair if and only if intervals are visited by start |
| ContestClock.InsertSortedIff | webapp/src/Entity/Contest.php:1057-1064 | an insertion keeps the order of starts if and only if no element starts less than a second after the new one |
| ContestClock.ComparesWholeSeconds | webapp/src/Entity/Contest.php:1057-1064 | starts less than a second apart compare as equal, others by their order |
| ContestClock.UsortSortedIff | webapp/src/Entity/Contest.php:1057-1064 | the sort puts intervals in order of start if and only if none is stored after one that starts less than a second later |
| ContestClock.ContestOfAbsolute | webapp/src/Entity/Contest.php:1048-1116 | every contest time survives the way to wall time and back |
| ContestClock.AbsoluteOfContest | webapp/src/Entity/Contest.php:1048-1116 | a wall time survives the way to contest time and back if and only if it is not removed |
| ContestClock.AbsoluteTimeStrictlyMonotone | webapp/src/Entity/Contest.php:1048-1074 | later contest times lie at later wall times, and only those |
| ContestClock.UsortMakesGaloisPairIff | webapp/src/Entity/Contest.php:1048-1116 | the conversions, with the sort of the code, form a Galois pair if and only if no stored interval follows one that starts less than a second later |
| ContestClock.UsortMakesGaloisPair | webapp/src/Entity/Contest.php:1057-1074 | so they do in any storage order if starts are at least a second apart |
| ContestClock.SubSecondStartsBreakRoundTrip | webapp/src/Entity/Contest.php:1057-1064 | two intervals starting within one second send 200 ms of contest time into a removed interval |
| ContestClock.OverlapCheckMissesContainment | webapp/src/Entity/RemovedInterval.php:167-187 | the check reports exactly the clashes other than strict containment of the other interval |
| ContestClock.ContestReportsAllOverlaps | webapp/src/Entity/Contest.php:411-414 | validating a contest, which validates all its intervals, reports nothing exactly if they are disjoint |
| ContestClock.AddingKeepsSeparateIff | webapp/src/Entity/RemovedInterval.php:167-187 | an interval that is accepted keeps the stored ones disjoint if and only if none of them lies strictly inside it |
| ContestClock.StoredSeparateIff | webapp/src/Controller/Jury/ContestController.php:316-323 | after any additions and removals the stored intervals are disjoint if and only if none lies strictly inside one added later |
| ContestClock.ChangesOne | webapp/src/Controller/Jury/ContestController.php:316-323 | an addition stores the one interval, if it is accepted, and a removal takes the one away; the others stay |
| ContestClock.ContainingIntervalAccepted | webapp/src/Controller/Jury/ContestController.php:316-323 | an interval is added around a stored one and nothing is reported |
| ContestState.PlainMilestonesStay | webapp/src/Entity/Contest.php:1220-1232 | started, ended, frozen, thawed and finalized stay set with the same value, for any contest |
| ContestState.EndOfUpdatesStaysIff | webapp/src/Entity/Contest.php:1233-1242 | the end of updates stays, once set, if and only if no freeze begins after the end |
| ContestState.ValidatedMilestonesStay | webapp/src/Entity/Contest.php:1220-1251 | in a validated contest all six milestones stay, once set |
| ContestState.NoViolations | webapp/src/Entity/Contest.php:1273-1325 | what a contest without reports looks like |
| ContestState.ReportedIffViolated | webapp/src/Entity/Contest.php:1273-1325 | each violation is reported if and only if its own condition on the times holds |
| ContestState.MilestoneImplications | webapp/src/Entity/Contest.php:1220-1251 | thawed implies frozen implies started, finalized implies ended implies started, and the end of updates implies finalized and not still frozen |
| ContestState.ValidatedStateOrdered | webapp/src/Entity/Contest.php:1273-1325 | in a validated contest the times of the state are ordered |
| ContestState.EndOfUpdatesIsLaterIff | webapp/src/Entity/Contest.php:1236-1241 | the end of updates is the later of thaw and finalization exactly under the stated condition |
| ContestState.EndOfUpdatesBeforeThaw | webapp/src/Entity/Contest.php:1236-1241 | a validated contest whose end of updates is announced before its thaw |
| ContestState.InContestIffStartedNotEnded | webapp/src/Entity/Contest.php:1386-1390 | a moment falls within the contest exactly if the state then says started and not ended |
| ContestEntity.Contest.constructor | webapp/src/Entity/Contest.php:1265-1270 | a new contest is up to date |
| ContestEntity.Contest.GetContestTime | webapp/src/Entity/Contest.php:1102-1116 | the loop computes the contest time of the clock model |
| ContestEntity.Contest.GetAbsoluteTime | webapp/src/Entity/Contest.php:1048-1081 | missing, relative, absolute and malformed strings resolve as the clock model says |
| ContestEntity.Contest.SetStarttime | webapp/src/Entity/Contest.php:516-520 | sets the start time and nothing else |
| ContestEntity.Contest.SetActivatetimeString | webapp/src/Entity/Contest.php:616-621 | stores the string and what it resolves to now |
| ContestEntity.Contest.SetFreezetimeString | webapp/src/Entity/Contest.php:646-651 | stores the string and what it resolves to now |
| ContestEntity.Contest.SetEndtimeString | webapp/src/Entity/Contest.php:658-663 | stores the string and what it resolves to now |
| ContestEntity.Contest.SetUnfreezetimeString | webapp/src/Entity/Contest.php:670-675 | stores the string and what it resolves to now |
| ContestEntity.Contest.SetDeactivatetimeString | webapp/src/Entity/Contest.php:690-695 | stores the string and what it resolves to now |
| ContestEntity.Contest.SetStarttimeString | webapp/src/Entity/Contest.php:628-639 | all derived times agree with their strings, under the start time stored before; no other string changes |
| ContestEntity.Contest.UpdateTimes | webapp/src/Entity/Contest.php:1265-1270 | the contest is up to date afterwards, and a contest that was so already does not change |
| ContestEntity.Contest.Validate | webapp/src/Entity/Contest.php:1273-1325 | reports exactly the violations of the updated times, in order |
| ContestEntity.Contest.ValidateEarly | webapp/src/Entity/Contest.php:1276-1296 | the reports on start, end, freeze and activation, in order |
| ContestEntity.RelativeMilestoneKeepsOffset | webapp/src/Entity/Contest.php:1048-1116 | a relative milestone lies at exactly its offset on the contest clock, for all storage orders that the sort can handle |
| ContestEntity.RelativeMilestonesKeepOrder | webapp/src/Entity/Contest.php:1048-1074 | relative milestones keep their order whatever is removed, for the same storage orders |
| ContestEntity.StartIsWholeSecond | webapp/src/Entity/Contest.php:1265-1270 | the start time is the last whole second up to the time given |
| ContestEntity.AbsoluteMilestoneStays | webapp/src/Entity/Contest.php:1048-1081 | an absolute milestone is the time given, whatever start time and removed intervals are |
| Transcript.EncodeAllAppend | judge/runpipe.cc:350-377 | writing one more record appends its encoding to the file |
| Transcript.DecodeBack | judge/runpipe.cc:304-313 | a record is read back from the front of a transcript, whatever follows it |
| Transcript.DecodeAllBack | judge/runpipe.cc:350-377 | a decoder that trusts only lengths recovers exactly the records, for arbitrary payloads |
| Transcript.TranscriptUnique | judge/runpipe.cc:350-377 | different record sequences have different transcripts |
| Transcript.HeaderFits | judge/runpipe.cc:362-372 | for every int of seconds and every ssize_t of bytes the header stays below its buffer of 64 bytes |
| Transcript.DataLooksLike | judge/runpipe.cc:362-377 | what a data record of either process looks like, byte by byte |
| Transcript.EofLooksLike | judge/runpipe.cc:841-848 | what an end-of-file record of either process looks like |
| RunpipeProgram.RecordsAppend | judge/runpipe.cc:839-869 | how one more record changes each direction, its end mark and the last-record property |
| RunpipeWorld.InitialInv | judge/runpipe.cc:598-632 | the invariant holds when both children have been started |
| RunpipeWorld.NextExits | judge/runpipe.cc:764-826 | a process is marked exited only if it is dead, with its own status, and the loop ends when both are |
| RunpipeWorld.NextNoLostExit | judge/runpipe.cc:617-629 | every step keeps an unreaped exit announced |
| RunpipeWorld.NextTraffic | judge/runpipe.cc:831-872 | every step keeps both streams conserved and the counters right |
| RunpipeWorld.NextDescriptors | judge/runpipe.cc:807-809 | every step keeps a direction that is read from writable until somebody exits |
| RunpipeWorld.NextHistory | judge/runpipe.cc:788-803 | every step keeps the recorded first exit in line with what was noticed first |
| RunpipeWorld.RunInv | judge/runpipe.cc:875-952 | the invariant holds after every run |
| RunpipeSafety.NoExitIsLost | judge/runpipe.cc:598-632 | a dead child that is not reaped has a pending signal, a byte in the pipe or a reaping loop still to look; a sleeping loop will be woken |
| RunpipeSafety.FinishesExactlyWhenAllReaped | judge/runpipe.cc:895-906 | the loop ends exactly when both are reaped, waitpid never runs out of children, and the exit code is the main process's own |
| RunpipeSafety.StreamsConserved | judge/runpipe.cc:831-872 | per direction delivered is a prefix of recorded, with equality if and only if no write failed; written is recorded followed by what waits in the pipe; the total is the sum of both |
| RunpipeSafety.RecordedInFullIffPipeEmpty | judge/runpipe.cc:805-809 | at the end a direction was recorded in full if and only if its pipe is empty; what closing early lost is what is left in it |
| RunpipeSafety.EofCertifiesWholeStream | judge/runpipe.cc:840-856 | an end-of-file record is the last of its direction and the whole stream was recorded |
| RunpipeSafety.TranscriptDecodes | judge/runpipe.cc:304-377 | the file of every run reads back as the records of that run |
| RunpipeSafety.NoTrafficAfterExit | judge/runpipe.cc:937-940 | once a child is reaped no step records anything |
| RunpipeSafety.WritesOnlyToOpenPipes | judge/runpipe.cc:864-865 | the proxy never writes to a pipe it has closed |
| RunpipeSafety.LogGrows | judge/runpipe.cc:788-803 | what was noticed is never forgotten |
| RunpipeSafety.FirstExitDecided | judge/runpipe.cc:788-791 | the first exit is that of the first child reaped if no time-limit notice came before, else none, and stays so |
| RunpipeSafety.ValidatorExitedFirstIff | judge/runpipe.cc:966-971 | the meta field is true if and only if reaping the main process was the first thing noticed |
| RunpipeSafety.RunBatch | judge/runpipe.cc:895-943 | events pending in a batch are distinct, and a data event goes stale only by its sender being reaped |
| RunpipeSafety.BadDescriptorIffSenderReaped | judge/runpipe.cc:805-809 | a pump reads a closed descriptor if and only if its sender was reaped in the same batch |
| RunpipeSafety.DataEventAbortsIff | judge/runpipe.cc:930-942 | a data event leads to that read if and only if its sender was reaped earlier in the same batch and the receiver not at all |
| RunpipeSafety.OrderedBatchesNeverAbort | judge/runpipe.cc:895-943 | if exits come last in every batch, no read meets a closed descriptor |
| RunpipeSafety.ExitBeforeDataAborts | judge/runpipe.cc:839-863 | a run in which the exit comes first ends with an error, the byte unread and the other child alive |
| RunpipeProgress.BytesAccountForHandlers | judge/runpipe.cc:617-668 | over any run each signal handler that ran has its byte in the pipe, or the byte was read or noted, unless a full pipe ends the program |
| RunpipeProgress.PipeFullIff | judge/runpipe.cc:622-626 | a handler ends the program exactly if it finds its pipe full |
| RunpipeProgress.NoNoticeMadeUp | judge/runpipe.cc:916-927 | the time limit is noted at most as often as it was signalled |
| RunpipeProgress.NoNoticeIsLost | judge/runpipe.cc:632-668 | once signalled, the time limit is pending, waits in the pipe or is noted, and a loop that waits will be woken |
| RunpipeProgress.LoopNeverStuck | judge/runpipe.cc:875-944 | in every state of every run the loop can go on, unless it waits and nothing is ready |
| Runpipe.WriteAll | judge/runpipe.cc:151-163 | a prefix is delivered, all of it unless a write failed |
| Runpipe.OutputFile.Write | judge/runpipe.cc:350-377 | appends one data record |
| Runpipe.OutputFile.WriteEof | judge/runpipe.cc:841-848 | appends one end-of-file record |
| Runpipe.Process.OnExit | judge/runpipe.cc:267-270 | marks the process exited with its status |
| Runpipe.Process.CloseFds | judge/runpipe.cc:294-301 | closes the input, and the output of an exited process |
| RunpipeEvents.PumpedRecordsChunks | judge/runpipe.cc:831-872 | a pump records exactly the chunks read, adds their length to the total and leaves the other direction alone |
| RunpipeEvents.NothingRecordedAfterExit | judge/runpipe.cc:937-940 | once some process has exited, no events whatever make the loop record or count anything more |
| RunpipeEvents.RecordOfEvents | judge/runpipe.cc:875-944 | after any events the loop has recorded and counted exactly what it read before the first exit; who is marked as exited, which outputs are open, the time limit and the first exit follow from the events alone |
| RunpipeEvents.LoopEndsIff | judge/runpipe.cc:895-943 | the next event ends the loop if and only if it reaps all that were left, or it is about data from a process that was reaped or had closed its output, while the other was not reaped |
| Runpipe.State.constructor | judge/runpipe.cc:183-191 | the initial state of the step machine |
| Runpipe.State.HandleChildExit | judge/runpipe.cc:764-816 | refines the reaping step; says whether a child was reaped |
| Runpipe.State.HasEveryoneExited | judge/runpipe.cc:819-826 | the loop over the processes decides the condition under which the step machine finishes |
| Runpipe.State.ConsumeExits | judge/runpipe.cc:900-915 | reaps what is reported until none is ready or everyone has exited |
| Runpipe.State.HandleTimelimit | judge/runpipe.cc:916-927 | notes the time limit exactly if a byte was read |
| Runpipe.State.CopyChunk | judge/runpipe.cc:864-869 | refines the chunk step; what reaches the other process is a prefix of what was copied |
| Runpipe.State.EndStream | judge/runpipe.cc:840-856 | refines the end-of-file step |
| Runpipe.State.PumpProxyPipe | judge/runpipe.cc:831-872 | refines the sequence of chunk and end-of-file steps for all reads until one would block |
| Runpipe.State.HandleEvent | judge/runpipe.cc:895-943 | refines the case distinction on one event |
| Runpipe.State.EpollLoop | judge/runpipe.cc:875-952 | the loop over batches and events handles all events in order until everyone has exited or a read fails; it records nothing after an exit, and before one exactly what is read |
| RunpipeLoop.NextTracks | judge/runpipe.cc:883-944 | every step of the machine is a part of handling some event |
| RunpipeLoop.LoopFollowsEveryRun | judge/runpipe.cc:875-952 | for every run of the machine there are events on which the loop comes to the same record and the same end |
| Runpipe.State.WriteMeta | judge/runpipe.cc:955-972 | exit code, total and first exit as the safety lemmas speak of them |
| RunpipeCommands.ParseCommands | judge/runpipe.cc:498-546 | the loop computes the parse that the lemmas speak of |
| RunpipeCommands.ParsedIff | judge/runpipe.cc:498-538 | two commands are found if and only if there is one separator followed by something that is not empty |
| RunpipeCommands.FirstCommandPresentIff | judge/runpipe.cc:505-538 | a line that is accepted has a first command if and only if something that is not empty precedes the separator |
| RunpipeCommands.FirstCommandMayBeMissing | judge/runpipe.cc:535-538 | a concrete line without a first command that is accepted |
| RunpipeCommands.CommandsRoundTrip | judge/runpipe.cc:518-521 | escaping makes any two commands survive the command line |
| JudgedaemonSafety.ClaimedInv | judge/judgedaemon.main.php:914-950 | after claiming a directory nothing but its own chroot may be up, and what it holds was made by the same batch |
| JudgedaemonSafety.EnteredInv | judge/judgedaemon.main.php:953-962 | entering keeps that and makes the directory the current one |
| JudgedaemonSafety.StartedInv | judge/judgedaemon.main.php:964-978 | a start happens only with no chroot up, and the last directory is remembered only if it succeeded |
| JudgedaemonSafety.JudgedAllInv | judge/judgedaemon.main.php:982-997 | judging happens with the batch's own chroot up and leaves only its own compilation |
| JudgedaemonSafety.StepInv | judge/judgedaemon.main.php:694-1010 | every pass of the main loop keeps the invariant |
| JudgedaemonSafety.RunInv | judge/judgedaemon.main.php:694-1010 | so does every sequence of passes and restarts |
| JudgedaemonSafety.ChrootUpAfterPassIff | judge/judgedaemon.main.php:694-1010 | after any pass, fatal errors at every stage included, a chroot is up if and only if the pass started one, or one was up and the pass did not get to a cleanup |
| JudgedaemonSafety.ChrootSurvivesDaemonIff | judge/judgedaemon.main.php:694-1010 | under just that condition a chroot outlives the daemon that the pass ends, and the next process counts it among those left |
| JudgedaemonSafety.UnrememberedChrootStaysUp | judge/judgedaemon.main.php:967-977 | a run in which refreshing the configuration fails after the start: the chroot stays up, unknown to every process |
| JudgedaemonSafety.RunHostInv | judge/judgedaemon.main.php:693-1010 | over any passes and restarts, the host keeps the logs of all processes and exactly the chroots that some process started and did not stop |
| JudgedaemonSafety.ChrootsUpOnHost | judge/judgedaemon.main.php:693-1010 | the chroots up on the host are that of the last process, as its log tells, and those that earlier ones left |
| JudgedaemonSafety.JudgesInsideOwnChroot | judge/judgedaemon.main.php:982-983 | every judging follows a successful chroot start in its own directory, with no start or stop in between, in the log of every process |
| JudgedaemonSafety.StopsMatchStarts | judge/judgedaemon.main.php:1101-1117 | every stop runs in the directory of the successful start it ends, in the log of every process |
| JudgedaemonSafety.StartsAlternateWithStops | judge/judgedaemon.main.php:947-978 | between a successful start and the next start there is a stop in the directory of the first, in the log of every process |
| JudgedaemonSafety.LastWorkdirIffChrootUp | judge/judgedaemon.main.php:693-978 | in a running daemon the last directory is set exactly while a chroot is up, and is the directory the daemon is in |
| JudgedaemonSafety.TagInjective | judge/judgedaemon.main.php:915 | the content of the marker determines uuid and process id, whatever the uuid looks like |
| JudgedaemonSafety.ReuseIsOwn | judge/judgedaemon.main.php:1136-1139 | a compilation is reused only if a batch of the same uuid and process made it in this directory |
| JudgedaemonSafety.DiskCleanedIff | judge/judgedaemon.main.php:735-777 | exactly which directories go when the disk is cleaned, and which markers the others lose |
| JudgedaemonEndpoints.StepTurns | judge/judgedaemon.main.php:714-717 | a pass of a running daemon is the turn of the next endpoint, whatever becomes of the pass |
| JudgedaemonEndpoints.Turns | judge/judgedaemon.main.php:690-717 | after k passes the daemon is k endpoints on, modulo their number |
| JudgedaemonEndpoints.EveryEndpointOnce | judge/judgedaemon.main.php:690-717 | in as many passes as there are endpoints every endpoint has its turn exactly once |
| JudgedaemonEndpoints.StatusAfterPass | judge/judgedaemon.main.php:695-827 | exactly when an endpoint is in error, waiting or retrying after a pass |
| JudgedaemonEndpoints.WorkShortensSleep | judge/judgedaemon.main.php:703-707 | as soon as an endpoint does not wait, the next sleep is the shortest again |
| JudgedaemonEndpoints.IdleCycle | judge/judgedaemon.main.php:709-713 | once around while all endpoints wait there is one sleep, and nothing else changes but the next waiting time |
| JudgedaemonEndpoints.IdleCycles | judge/judgedaemon.main.php:709-713 | m times around there are m sleeps, each twice as long as the one before, up to the maximum |
| JudgedaemonBatch.TasksInOrder | judge/judgedaemon.main.php:982-997 | tasks are judged in order up to the first that does not pass; only the first one of a directory without a compilation is compiled |
| JudgedaemonBatch.BatchEndsIff | judge/judgedaemon.main.php:914-1007 | exactly when a batch ends the daemon; a batch that got through its tasks leaves its own marker in its directory |
| JudgedaemonBatch.BatchLeavesInUse | judge/judgedaemon.main.php:965-999 | such a batch leaves the daemon in the directory, with the chroot up |
| JudgedaemonBatch.FurtherBatchOnlyJudges | judge/judgedaemon.main.php:914-999 | a further batch of the same submission, job, uuid and process renames, stops and starts nothing, and only judges |
| JudgedaemonBatch.DaemonEndsIff | judge/judgedaemon.main.php:694-1010 | exactly when a pass ends the daemon |
| JudgedaemonBatch.PassCleansDisk | judge/judgedaemon.main.php:735-777 | in a pass without a batch exactly the unmounted directories of the endpoint whose turn it is can go, if it is neither in error nor waiting |
| Judgedaemon.Judgehost.RegisterAndSleep | judge/judgedaemon.main.php:695-712 | refines registering, sleeping and the growing waiting time |
| Judgedaemon.CleanedStep | judge/judgedaemon.main.php:753-764 | removing one directory more has the same result whatever was removed before |
| Judgedaemon.Judgehost.CleanUpDisk | judge/judgedaemon.main.php:735-777 | in whatever order the loop visits the candidates, those of the current endpoint go or lose their markers, and mounted ones stay |
| Judgedaemon.Judgehost.CleanupJudging | judge/judgedaemon.main.php:1101-1117 | one chroot stop from the current directory |
| Judgedaemon.Judgehost.CleanupLast | judge/judgedaemon.main.php:794-797 | stops the last chroot, if there is one, and forgets it, unless a fatal error comes in between |
| Judgedaemon.Judgehost.ClaimWorkdir | judge/judgedaemon.main.php:914-950 | refines claiming; a failed rename ends the daemon with the marker gone |
| Judgedaemon.Judgehost.JudgeTask | judge/judgedaemon.main.php:1136-1139 | refines one task with the compile shortcut |
| Judgedaemon.Judgehost.JudgeTasks | judge/judgedaemon.main.php:982-997 | tasks are judged in order until one fails |
| Judgedaemon.Judgehost.EnterWorkdir | judge/judgedaemon.main.php:953-962 | refines creating and entering the directory; a failed chdir ends the daemon |
| Judgedaemon.Judgehost.StartChroot | judge/judgedaemon.main.php:964-978 | refines the start; the directory is remembered only if the start succeeds and no fatal error follows |
| Judgedaemon.Judgehost.JudgeAndMark | judge/judgedaemon.main.php:982-1007 | refines the tasks, the marker and the exit after a signal |
| Judgedaemon.Judgehost.RunBatch | judge/judgedaemon.main.php:914-1007 | refines a whole batch, whichever step fails |
| Judgedaemon.Judgehost.Iterate | judge/judgedaemon.main.php:694-1010 | one pass of the loop is one step of the model that the safety lemmas are about |
| Judgedaemon.Judgehost.HandleWork | judge/judgedaemon.main.php:779-1007 | refines the branches on what the API hands out, with the requests after a cleanup that may end the daemon |
| JudgeTask.RunPasses | judge/judgedaemon.main.php:1439-1573 | the first pass that does not ask for another decides; too many passes if and only if all allowed ones ask for more; each pass reads what the one before left |
| JudgeTask.DelaysClosedForm | judge/judgedaemon.main.php:151-191 | the delays form a geometric series |
| JudgeTask.SleptBeforeTrial | judge/judgedaemon.main.php:151-191 | nothing is slept before the first trial, and before each further one the initial delay times a power of the factor, with the jitter |
| JudgeTask.Endpoint.Request | judge/judgedaemon.main.php:151-211 | trials stop at the first code from 200 to 299, at 401 or when used up; answer, time slept and error flags follow from the last reply |
| ExecutableHash.SortedIncreasing | webapp/src/Entity/ImmutableExecutable.php:76-77 | distinct names end up in increasing order |
| ExecutableHash.IncreasingUnique | webapp/src/Entity/ImmutableExecutable.php:76-77 | there is one increasing arrangement of the same files |
| ExecutableHash.HashOrderFree | webapp/src/Entity/ImmutableExecutable.php:70-86 | for distinct names the hash is the same on server and judgehost, whatever the order of the files |
| ExecutableHash.SameNameKeepsOrder | judge/judgedaemon.main.php:382 | files of the same name stay in the order they came |
| ExecutableHash.LineSameIff | webapp/src/Entity/ImmutableExecutable.php:81 | where md5 does not collide, two files yield the same line if and only if their contents are the same and their names and bits are, but for a 1 at the end of a name that stands for the bit |
| ExecutableHash.ContentMatters | webapp/src/Entity/ImmutableExecutable.php:78-85 | for an injective digest another content of a file means another hash |
| ExecutableHash.BitMatters | webapp/src/Entity/ImmutableExecutable.php:78-85 | and so does the other executable bit |
| ExecutableHash.OneFileMatters | webapp/src/Entity/ImmutableExecutable.php:78-85 | so does changing both, where md5 does not collide |
| ExecutableHash.HashSameIff | webapp/src/Entity/ImmutableExecutable.php:78-85 | files whose lines are of the same lengths have the same hash if and only if they agree file by file up to such names |
| ExecutableHash.HashCertifiesContents | webapp/src/Entity/ImmutableExecutable.php:70-86 | of files with the same names and bits the hash tells exactly whether their contents are the same |
| ExecutableHash.BitOrName | webapp/src/Entity/ImmutableExecutable.php:81 | an executable file `a` and a file `a1` that is not have the same hash |
| ExecutableHash.NameOrFiles | webapp/src/Entity/ImmutableExecutable.php:79-83 | one file whose name holds a digest has the same hash as two files |
| ExecutableHash.ImmutableExecutable.constructor | webapp/src/Entity/ImmutableExecutable.php:50-58 | the stored hash is that of the files |
| ExecutableHash.ImmutableExecutable.UpdateHash | webapp/src/Entity/ImmutableExecutable.php:70-86 | the sort, map and join loop stores the canonical hash |
| ExecutableCache.Cache.FetchExecutable | judge/judgedaemon.main.php:331-503 | the cache stays sound; the result is the deployed `run`, the wrapper for a combined request, and an error leaves no marker |
| ExecutableCache.Cache.MakeDirectory | judge/judgedaemon.main.php:354-499 | refines fetching, checking, building and wrapping, with the first error that occurs |
| ExecutableCache.Cache.MakeRun | judge/judgedaemon.main.php:395-477 | refines the choice between existing `run`, existing `build` and a generated script |
| ExecutableCache.Cache.WriteFiles | judge/judgedaemon.main.php:368-380 | the loop of writes and mode changes leaves the files that the lemmas below describe |
| ExecutableCache.WrittenMode | judge/judgedaemon.main.php:370-374 | a file is executable if and only if any file of its name was sent as executable |
| ExecutableCache.LastContentCounts | judge/judgedaemon.main.php:370-371 | of a name sent several times the last content counts |
| ExecutableCache.HitAgreesWithFetch | judge/judgedaemon.main.php:352-393 | a hit and a fresh fetch that succeeds stand for files with the same hash |
| ExecutableCache.DeployedIff | judge/judgedaemon.main.php:391-499 | the marker appears if and only if the hash is right and building leaves an executable `run` |
| ExecutableCache.WrittenNames | judge/judgedaemon.main.php:368-380 | the build directory holds exactly the names sent |
| ExecutableCache.MakerMade | judge/judgedaemon.main.php:352-499 | after any requests a directory is as the last request that was not served from it made it |
| ExecutableCache.PlainRequestGetsWrapper | judge/judgedaemon.main.php:352-353 | after any requests a plain request is served the wrapper if and only if the directory was made for a combined one, or the built `run` equals the wrapper |
| ExecutableCache.BothKindsOfDeployment | judge/judgedaemon.main.php:478-492 | what a combined and a plain deployment of the same files serve to the other kind of request |
| ExecutableCache.AlwaysSound | judge/judgedaemon.main.php:331-503 | over any sequence of requests a marked directory holds files with the hash it is filed under |
| ExecutableCache.DeployErrorIff | judge/judgedaemon.main.php:391-499 | exactly when each error is reported, in terms of the files sent and what the script does |
| ExecutableCache.DeployedRun | judge/judgedaemon.main.php:395-499 | the `run` of a deployed directory is what the script left behind, or else what was sent; all other files are as they were written |
| ExecutableCache.DeployedHoldsFiles | judge/judgedaemon.main.php:352-393 | a marked directory filed under the hash of files with the same names and bits holds just these files |
| ExecutableCache.ServedFromTheFiles | judge/judgedaemon.main.php:331-503 | so it does after any sequence of requests |
| RunguardStreams.Ask | judge/runguard.cc:985-994 | a copy never asks for 0 bytes and never for more than the limit leaves |
| RunguardStreams.PumpOneKeepsPrefix | judge/runguard.cc:981-1049 | after a pass the file still holds exactly the first bytes read, up to the limit, and no byte is lost |
| RunguardStreams.PumpKeepsPrefixes | judge/runguard.cc:974-1051 | so for both streams |
| RunguardStreams.CountersAfterRun | judge/runguard.cc:1479-1503 | after any sequence of writes and passes the bytes passed are the smaller of bytes read and limit, a prefix of the stream |
| RunguardStreams.CompleteIffNotPending | judge/runguard.cc:985-1028 | a stream is saved up to the limit if and only if nothing is left to copy |
| RunguardStreams.PumpProgress | judge/runguard.cc:981-1049 | a pass over a readable stream copies something if and only if something is pending and splice does not fail |
| RunguardStreams.DrainPassProgress | judge/runguard.cc:1521-1524 | a pass without progress means the end exactly if the drain did not stop early |
| RunguardStreams.LastPassNotices | judge/runguard.cc:1521-1524 | the last pass has read past the limit of every stream that exceeds it |
| RunguardStreams.PumpCloses | judge/runguard.cc:981-1049 | a pass closes an open stream if and only if select reports it, it is at its end and splice does not fail |
| RunguardStreams.PumpGetsOn | judge/runguard.cc:974-1051 | a pass with a readable stream reported leaves strictly less to read and to find out |
| RunguardStreams.PassesClose | judge/runguard.cc:974-1051 | once nobody can write, passes over both streams close them, after at most as many as is left to do, with everything saved up to the limit |
| Runguard.Watchdog.constructor | judge/runguard.cc:1473-1478 | counters start at zero and splice is tried first |
| Runguard.Watchdog.PumpStream | judge/runguard.cc:981-1049 | refines the pass over one stream, leaves the other alone, and closes the stream exactly at its end |
| Runguard.Watchdog.CopyOrDiscard | judge/runguard.cc:985-1034 | what is read, copied, counted and returned |
| Runguard.Watchdog.Receive | judge/runguard.cc:996-1026 | at most the bytes asked for; nothing, end of file and data are told apart |
| Runguard.Watchdog.PumpPipes | judge/runguard.cc:974-1051 | refines the pass over both streams and gets on if one of them is readable |
| Runguard.Watchdog.Watch | judge/runguard.cc:1479-1503 | refines the loop while the child runs |
| Runguard.Watchdog.Observe | judge/runguard.cc:1490-1502 | refines one action of it |
| Runguard.Watchdog.Drain | judge/runguard.cc:1505-1524 | the drain ends; all output is saved up to the limit if and only if it does not stop early; the counters then tell which streams exceeded the limit |
| Runguard.Watchdog.OutputTruncated | judge/runguard.cc:1591-1603 | names the streams of which more was read than passed |
| Runguard.DrainAndReport | judge/runguard.cc:1505-1603 | drain and report together name exactly the streams that exceeded the limit |
| Runguard.SettledNeverStopsEarly | judge/runguard.cc:1001-1006 | if splice is settled before the drain, it does not stop early |
| Runguard.LateSpliceFailureLosesOutput | judge/runguard.cc:1001-1006 | output that arrives last is lost if splice turns out not to work only then |
| SubmissionGraph.ChooseUnit | webapp/public/js/domjudge.js:1133-1142 | the early exit finds the coarsest unit with more than 30 steps, or seconds |
| SubmissionGraph.BucketsReach | webapp/public/js/domjudge.js:1143-1146 | buckets are whole units wide and together reach the end of the contest |
| SubmissionGraph.ContestFitsBuckets | webapp/public/js/domjudge.js:1157-1163 | every submission from start to end falls in a bucket of the graph |
| SubmissionGraph.BucketsAreTight | webapp/public/js/domjudge.js:1143-1146 | up to 300 units each has a bucket of its own; beyond there are 301 buckets, and narrower ones would not reach the end |
| SubmissionGraph.BucketHolds | webapp/public/js/domjudge.js:1157-1163 | a bucket holds exactly the submissions from its coordinate up to that of the next one |
| SubmissionGraph.TicksHitBuckets | webapp/public/js/domjudge.js:1174-1181 | every tick is the coordinate of a bucket and does not pass the end |
| SubmissionGraph.FewTicks | webapp/public/js/domjudge.js:1177-1181 | there is a tick at zero and there are at most 31 |
| SubmissionGraph.TickDeltaLeast | webapp/public/js/domjudge.js:1174-1181 | the distance of the ticks is the least multiple of the bucket width that is at least the step of the unit and makes no more steps than 30 or buckets |
| SubmissionGraph.CountsConserved | webapp/public/js/domjudge.js:1157-1163 | the counts add up to the submissions with a known result and a bucket of the graph |
| SubmissionGraph.BuildStatMap | webapp/public/js/domjudge.js:1152-1155 | a result maps to the last row with that key |
| SubmissionGraph.CountOne | webapp/public/js/domjudge.js:1157-1163 | one submission is counted in its cell, if it has one, and nowhere else |
| SubmissionGraph.TableConserves | webapp/public/js/domjudge.js:1148-1163 | the entries of the table add up to the submissions with a known result and a bucket of the graph |
| SubmissionGraph.BucketTotalCounts | webapp/public/js/domjudge.js:1165-1172 | the total of a bucket over all rows is the number of submissions with a known result that fall in it |
| SubmissionGraph.CountSubmissions | webapp/public/js/domjudge.js:1157-1163 | the table updated in place holds the number of submissions of each cell, and in all those with a known result and a bucket |
| SubmissionGraph.MaxPerBucket | webapp/public/js/domjudge.js:1165-1172 | the largest number of submissions in a bucket, but at least one |
| SubmissionGraph.MakeAxis | webapp/public/js/domjudge.js:1133-1181 | unit, buckets and ticks together have all of the above |
| DependentEntities.EdgeIffCascade | webapp/src/Controller/BaseController.php:476-482 | a class is pushed for another exactly if a CASCADE constraint of it refers to the other |
| DependentEntities.PassShrinks | webapp/src/Controller/BaseController.php:465-483 | every pass makes a lexicographic measure smaller |
| DependentEntities.PushChildren | webapp/src/Controller/BaseController.php:476-482 | the nested loops append one entry per CASCADE constraint |
| DependentEntities.GetDependentEntities | webapp/src/Controller/BaseController.php:460-486 | exactly the classes reachable by CASCADE constraints other than the root, each once, in order of distance |
| DependentEntities.EndsIffNoSelfCascade | webapp/src/Controller/BaseController.php:465-483 | the search ends if and only if no CASCADE constraint of the root refers to the root itself |
| DeleteTree.CheckConstraint | webapp/src/Controller/BaseController.php:319-369 | the case distinction on one constraint |
| DeleteTree.CheckColumn | webapp/src/Controller/BaseController.php:316-371 | the loops over tables and columns stop at the first restriction |
| DeleteTree.CheckEntity | webapp/src/Controller/BaseController.php:310-373 | one row, an error exactly if the entity is blocked, and the messages that follow |
| DeleteTree.BuildDeleteTree | webapp/src/Controller/BaseController.php:301-376 | an error exactly if some entity is blocked, one row per entity, one message per finding told |
| DeleteTree.BlockedIff | webapp/src/Controller/BaseController.php:319-327 | an entity is blocked exactly if a positive count is found for a constraint without an action |
| DeleteTree.MayAsk | webapp/src/Controller/BaseController.php:335-338 | only constraints before the first restriction ask for dependent classes |
| DeleteTree.SomeBlockingIff | webapp/src/Controller/BaseController.php:359-366 | some entity is blocked if and only if rows of some table refer to it through a constraint without an action |
| DeleteTree.NothingBlocked | webapp/src/Controller/BaseController.php:354-358 | without a blocked entity all cascades and dangling references are told, in order |
| DeleteTree.SaidIffRefers | webapp/src/Controller/BaseController.php:319-358 | then there is a message about a table if and only if rows of it refer to some entity through a constraint with that action |
| DeleteTree.LastBlockedSpeaks | webapp/src/Controller/BaseController.php:359-366 | otherwise the first message is the restriction on the last blocked entity, and only notes on later entities follow |
| DeleteTree.Controller.DeleteEntities | webapp/src/Controller/BaseController.php:403-432 | a POST deletes every entity under its complete key, or nothing and answers with that restriction; other requests change nothing |
| ScoreboardMerge.NumberingFindsTeam | webapp/src/Command/ScoreboardMergeCommand.php:223-228 | the id of every included team is numbered, and the number leads to a team with that id |
| ScoreboardMerge.TakingIff | webapp/src/Command/ScoreboardMergeCommand.php:192-203 | a team takes part if and only if one of its groups is listed for its site |
| ScoreboardMerge.MergedByName | webapp/src/Command/ScoreboardMergeCommand.php:260-282 | results of any two sites are on the same problem if and only if the problems have the same name |
| ScoreboardMerge.NamesDistinct | webapp/src/Command/ScoreboardMergeCommand.php:267-282 | problem numbers are dense and distinct, one for each name that occurs |
| ScoreboardMerge.EarliestIsMinimum | webapp/src/Command/ScoreboardMergeCommand.php:286-295 | the first solve of a name is the minimum of its times, or null if there is none |
| ScoreboardMerge.BrokenStays | webapp/src/Command/ScoreboardMergeCommand.php:263-272 | once a problem without a name has ended the merge, no further result mends it |
| ScoreboardMerge.DescribedNotBroken | webapp/src/Command/ScoreboardMergeCommand.php:263-266 | if every result is on a problem that its site describes, the merge does not break |
| ScoreboardMerge.AddResult | webapp/src/Command/ScoreboardMergeCommand.php:260-302 | one result either breaks the merge or keeps numbering, first solves and cells in line with the results seen |
| ScoreboardMerge.IncludeTeams | webapp/src/Command/ScoreboardMergeCommand.php:190-229 | the teams of a listed group are numbered on, and the map leads from site ids to those numbers |
| ScoreboardMerge.AddRow | webapp/src/Command/ScoreboardMergeCommand.php:260-302 | all results of a row |
| ScoreboardMerge.AddRows | webapp/src/Command/ScoreboardMergeCommand.php:253-303 | all rows of included teams |
| ScoreboardMerge.MergeSites | webapp/src/Command/ScoreboardMergeCommand.php:171-304 | all sites; fails if and only if some problem without a name has to be created |
| ScoreboardMerge.MarkedIffNoneEarlier | webapp/src/Command/ScoreboardMergeCommand.php:307-310 | a timed cell is first to solve if and only if no included team of any site was faster on that name |
| ScoreboardMerge.MarkedThoughUntimed | webapp/src/Command/ScoreboardMergeCommand.php:308-310 | a cell without a time is marked if and only if nobody has a time or the best time is 0 |
| ScoreboardMerge.AddToRank | webapp/src/Command/ScoreboardMergeCommand.php:312-340 | one cell keeps ranks and last correct times equal to the fold of each team's solved results |
| ScoreboardMerge.StandingAdds | webapp/src/Command/ScoreboardMergeCommand.php:318-340 | a standing is one point for each solved problem, the sum of what they cost, and the time of the last one |
| ScoreboardMerge.CostOrderFree | webapp/src/Command/ScoreboardMergeCommand.php:324-332 | the order of the results does not matter for the total |
| ScoreboardMerge.CostOfOneMore | webapp/src/Utils/Utils.php:408-421 | a submission more costs the penalty time, a minute more one minute, in the unit of the score |
| ScoreboardMerge.OneMoreSubmission | webapp/src/Command/ScoreboardMergeCommand.php:328-332 | a submission more on a solved problem raises the total of its team by exactly the penalty time |
| ScoreboardMerge.MarkAndRank | webapp/src/Command/ScoreboardMergeCommand.php:307-341 | the loop marks every cell and ranks every team that has one |
| ScoreboardMerge.Execute | webapp/src/Command/ScoreboardMergeCommand.php:171-341 | teams, problems, cells, marks and ranks of the merged scoreboard, unless the merge breaks; the ranks add up what each team has solved |
| ScoreboardMerge.StandingIsOwn | webapp/src/Command/ScoreboardMergeCommand.php:171-341 | a team has the standing that its own site alone gives it, whatever sites come before and after |
| ScoreboardMerge.UndescribedProblemBreaks | webapp/src/Command/ScoreboardMergeCommand.php:263-272 | a single result on a problem that the site does not describe breaks the merge |
| ScoreboardMerge.UnsolvedIsMarked | webapp/src/Command/ScoreboardMergeCommand.php:308-310 | a team that has not solved the only problem is marked as first to solve it |

## Left out

- Runpipe without a transcript file (processes connected directly), SIGTERM handling, and fairness of epoll.
- In `RunpipeWorld` reading a chunk, passing it on and recording it is one step; other steps happen between chunks.
- Closing a descriptor twice in runpipe is closing it once, as none is reused inside the loop.
- EINTR and EPIPE branches of runguard's copying, timers, resource limits, cgroups and privileges.
- Runguard.Watchdog.Drain: assumes that writing to the output files succeeds, as failing writes end the program.
- A chroot stop script that fails counts as a stop, as the daemon carries on after it. A stop in a directory where an earlier process left a chroot ends the one started last.
- JudgedaemonSafety.LastWorkdirIffChrootUp: speaks of running daemons, as a fatal error can separate the two; for daemons that ended see `ChrootUpAfterPassIff`.
- Judging directories whose batch mixes submissions or jobs, and the order and ages of directories removed when the disk is full.
- Judgedaemon.Judgehost.JudgeTask: compiling and running a task are one act with a given outcome; JudgeTask.RunPasses models the passes on their own.
- The choice of a build script by file extension and the content of the wrapper script: they are parameters.
- Errors of `rm -rf`, `mkdir`, `rename` and file writes while deploying an executable.
- Parsing of time strings, time zones, and the checks on medals, awards and contest problems in `validate`.
- Texts of messages, inflection of table names, and the effects of one deletion on other tables.
- In `DeleteTree` counts are a function of table, column and value for the time of the check; loose comparison of constraint types is strict.
- In `ScoreboardMerge` ids are compared strictly; affiliations, colours, the score key and the final sort of the teams are not modelled, nor is the error that the sort meets for a team without any result; run times are 0 for all cells.
- DeleteTree.BuildDeleteTree: requires that no table that is found to refer to an entity by CASCADE refers to itself by CASCADE, as the search for its dependent classes would not end.
- The drawing of the submission graph, colours and labels.
- Floating point: durations and submission times of the graph are reals, all other times are integers.
