# dcli, modelled in Dafny

dcli is the Exadata distributed shell. It runs one command, one copy, or one key
operation on many hosts over ssh and scp, collects each host's exit status and output
lines, and prints them. This project models its decision and string logic as
verified Dafny. The threads, processes and signals are taken out, and each ssh or scp run
is handed to an executor that the caller passes in. The model covers:

- building the host list: the group file, the `-c` entries, and duplicate removal;
- composing the remote command: `buildCommand`, the single-quoting step, the
  destination name and the exec-file wrapper, and the ssh and scp option strings;
- parsing the `--vmstat` options (`checkVmstat`, `getInt`);
- `main`'s validation of the command line, in the order main tests it. Every refusal
  ends dcli with exit code 2;
- running batches of hosts, including periodic vmstat sampling, and the exit code those
  runs produce; the batch size derived from the open-file limit (`update_max_threads`);
- one host's stage pipeline: key push, mkdir, scp, command, unkey. Also how each run's
  outcome is classified as a timeout, a retry, or an unreachable host, and the
  offending-key retry pass;
- the output-volume buffer (`readNLines`) and the banner framing;
- result rendering as lines: `listResults`, and the aligned vmstat table with its
  Minimum, Maximum and Average rows;
- the helper scripts `helpers/generate_rag_files.py` and
  `helpers/generate_rag_files_read_only.py`. They contain the metric-definition block
  parser and the describe-line normaliser. Lines 10-22 and 60-74 of the two scripts are
  identical, and one module models both.

Modules, one per file: `Wrappers` (Option and Result), `Text` (Python's string
operations: `strip`, `split`, `split()`, `replace`, `join`, `lower`, `rjust`, `find`, `int` and
`str` on integers), `HostList`, `RemoteCommand`, `SshOptions`, `Vmstat`, `Validation`,
`Batches`, `OutputBuffer`, `Invoker`, `Coordinator`, `ResultList`, `VmstatReport` and
`RagFiles`. Code that loops and updates state in the source is modelled as methods with
loops. Each method is proved equal to a reference function, and the properties are
proved as lemmas about that function.

Whitespace is Python's ASCII whitespace: space, `\t` through `\r`, and `\x1c` through
`\x1f`. Python raising an exception (an `IndexError` in `listVmstatLine`, a `KeyError`
in `listResults`, a `ValueError` from `max`) becomes `None` or an error value.

Where the code and its own documentation disagree, the model follows the code:

- The `checkVmstat` docstring maps `--vmstat=""` to `"vmstat"` (dcli.py:408). The code
  yields `"vmstat 1 "` with repeat count 1 (dcli.py:445-448). `Vmstat.EmptyOptions` and
  `Vmstat.NoTokensPlan` state what the code does.
- The automatic batch size is `(fd - 10) // 7`, and nothing clamps it to 1. Below 1,
  batching is simply not turned on, and `maxThds` stays as it was (dcli.py:1446-1451).
- The unkey stage runs only when every earlier stage succeeded (dcli.py:666).
- A run that exits 255 under `--key-with-one-password`, with an offending-key warning,
  goes on the retry list, not on the unreachable list (dcli.py:916-920).

## Model

| member | source | states |
|---|---|---|
| HostList.CollectFileEntries | dcli.py:234-237 | the loop over the group file's lines computes the file entries: the stripped lines that are non-empty and do not start with '#', in order |
| HostList.CollectInlineEntries | dcli.py:242-246 | the loop over the `-c` values appends every comma-split piece, stripped, in order |
| HostList.InlineStep | dcli.py:243-246 | one `-c` value adds exactly its stripped comma pieces after those of the earlier values |
| HostList.Unique | dcli.py:248-251 | the membership-test loop computes the duplicate-free list |
| HostList.BuildCellList | dcli.py:218-252 | an unreadable group file is an error naming the stripped file name, and only then. Otherwise the result is the file entries followed by the inline entries, with duplicates removed |
| HostList.DedupNoRepeats | dcli.py:248-252 | no host appears twice in the result |
| HostList.DedupSameHosts | dcli.py:248-252 | a host is in the result exactly when it is among the candidates |
| HostList.FirstIndexUnique | dcli.py:248-252 | the first occurrence of a host is unique (reference for the order property) |
| HostList.DedupKeepsFirstOrder | dcli.py:248-252 | the result lists hosts in the order of their first occurrence |
| HostList.DedupPrefix | dcli.py:228-252 | removing duplicates from file entries followed by inline entries keeps the file entries' own result as a prefix, so file hosts come first |
| HostList.FileEntriesAreHostLines | dcli.py:234-237 | every file entry is a stripped line of the file that is non-empty and does not start with '#' |
| HostList.HostLinesAreFileEntries | dcli.py:234-237 | every such line is a file entry |
| HostList.InlineKeepsEveryPiece | dcli.py:243-246 | every piece of every `-c` value is an entry, with nothing filtered |
| HostList.InlineEntriesCount | dcli.py:243-246 | there are exactly as many inline entries as pieces |
| RemoteCommand.WordsSnoc | dcli.py:271-273 | each argument adds a space and the argument at the end |
| RemoteCommand.AppendWords | dcli.py:271-273 | the word loop appends " word" for each argument, in order |
| RemoteCommand.BuildCommand | dcli.py:255-281 | the command is "(", then "cd /var/log/exadatatmp/;" with --root-exadatatmp, then the words, then ") 2>/dev/null" or ") 2>&1". With a timeout it is wrapped in "timeout Ns /bin/sh -c '(...)'" |
| RemoteCommand.WordsRoundTrip | dcli.py:271-273 | for space-free arguments, splitting the words on spaces gives back the arguments |
| RemoteCommand.Quote | dcli.py:1118-1121 | the empty command and a command already framed by ' or " are unchanged. A newline-free command is framed by quotes afterwards |
| RemoteCommand.QuoteIdempotent | dcli.py:1118-1121 | for newline-free commands, quoting twice equals quoting once |
| RemoteCommand.ShellReadsEscaped | dcli.py:1115-1120 | the shell reads each escaped `'\''` back as a single quote |
| RemoteCommand.QuoteRoundTrip | dcli.py:1115-1121 | the shell reads the quoted command back as the original command, so it does not interpret the arguments |
| RemoteCommand.Basename | dcli.py:1080 | the base name holds no '/', ends the path, and follows a '/' when shorter than the path |
| RemoteCommand.DestName | dcli.py:1071-1091 | the destination ends with the -d value, else with the exec file's base name. It is that name itself when the name is absolute or starts with `\~` or `\$`, and otherwise the name placed under "/var/log/exadatatmp/" (as root there) or "./". So it is always anchored or starts with "./" |
| RemoteCommand.FilesToCopy | dcli.py:1073-1079 | the copied files are the -f files stripped, in order, then the stripped exec file |
| RemoteCommand.ExecCommandRunsInsideDirectory | dcli.py:1093-1113 | the exec wrapper runs "<destname>/<basename>" (through "cellcli -e @" for .scl files) when the destination is a directory |
| RemoteCommand.ExecCommandShape | dcli.py:1093-1113 | the wrapper starts with "(", the `cd` into the scratch directory as root there, and the directory test on the destination. It ends with the else branch running the destination itself (through "cellcli -e @" for .scl files), "fi", ")" and the stderr redirection |
| SshOptions.RemoteUser | dcli.py:477-483 | the user is -l's value, else root with --root-exadatatmp, else the default user; it is never empty |
| SshOptions.PromptRules | dcli.py:477-497 | ssh may prompt (no batch mode, no strict host-key checking) whenever a key is pushed. Without --prompt and without a key push it may not. -k always serializes the hosts, and --key-with-one-password alone leaves serializing to --serial. The user is never empty |
| SshOptions.OpStringStartsWithUserOptions | dcli.py:526-529 | the user's ssh options come first in the option string |
| SshOptions.OpStringHasConnectTimeout | dcli.py:535-540 | the option string sets ConnectTimeout to --ctimeout, or to 5 when it is 0 |
| SshOptions.OpStringBatchMode | dcli.py:530-531 | in batch mode the option string holds "-o BatchMode=yes " |
| SshOptions.LowerKeepsContains | dcli.py:542-547 | lower-casing keeps a substring a substring (the case-insensitive find) |
| SshOptions.OpStringContainsLowered | dcli.py:526-547 | what the user's options or the keep-alive defaults hold, the option string holds |
| SshOptions.OpStringAlwaysSetsInterval | dcli.py:541-544 | whatever the user passes, the option string sets ServerAliveInterval, the user's value or the default |
| SshOptions.OpStringAlwaysSetsCountMax | dcli.py:545-547 | likewise for ServerAliveCountMax |
| SshOptions.ScpOpString | dcli.py:548-553 | scp's option string is " <--scp-options> " when given, else the ssh option string. With an exec file whose option string lacks "-p", exactly "-p " is appended, and otherwise the string is unchanged |
| Vmstat.AllDigitsIsDigitString | dcli.py:1224-1232 | a non-empty all-digit string is a digit string |
| Vmstat.NatToStringValue | dcli.py:439 | "%d" of a natural number is a digit string whose decimal value is that number |
| Vmstat.GetIntOfToken | dcli.py:1224-1232 | on a token without whitespace, getInt is int() of the token itself |
| Vmstat.ParseIntRoundTrip | dcli.py:1224-1232 | int() reads back every integer printed by "%d" |
| Vmstat.GetIntRoundTrip | dcli.py:1224-1232 | getInt reads back every printed integer |
| Vmstat.NumbersPrefix | dcli.py:418-433 | the numbers of a prefix of the tokens are never more than the numbers of all tokens |
| Vmstat.AcceptStep | dcli.py:418-436 | one accepted token keeps the loop's numbers and copied options equal to those of the tokens read so far |
| Vmstat.ScannedAll | dcli.py:418-437 | a loop that reads every token has refused nothing, and holds all the numbers and copied options |
| Vmstat.RejectedPrefix | dcli.py:418-429 | a refusal in a prefix refuses the whole option string |
| Vmstat.BadTokenRefused | dcli.py:419-420 | any of -f, -s, -m, -p, -D, -d and -V refuses the options |
| Vmstat.ThirdNumber | dcli.py:426-429 | a third number refuses the options |
| Vmstat.CheckVmstat | dcli.py:393-450 | the loop computes the plan of the reference definition: refused, or a repeat count and a command |
| Vmstat.NumbersOfAccepted | dcli.py:422-425 | in accepted options every number is at least 1 |
| Vmstat.PlanShape | dcli.py:414-450 | an accepted plan repeats -1 or at least once, and its command starts with "vmstat " and ends with a space |
| Vmstat.CopiedTokensAreOptions | dcli.py:434-436 | only option tokens that are not "-n" and not numbers are copied into the command |
| Vmstat.OptionsAreCopied | dcli.py:434-436 | every such token is copied |
| Vmstat.NoTokensPlan | dcli.py:445-448 | without tokens the plan is repeat 1 with the command "vmstat 1 " |
| Vmstat.EmptyOptions | dcli.py:445-448 | `--vmstat=""` gives "vmstat 1 ", not the documented "vmstat" |
| Validation.Rank | dcli.py:1635-1703 | each of main's sixteen refusals has a rank below 16, its position in main's order |
| Validation.FirstBadCopy | dcli.py:1699-1701 | the first file checkFile refuses is among the files. Without one, every file passes |
| Validation.SplitFiles | dcli.py:1590-1596 | the loop splits every -f value on whitespace, in order |
| Validation.CheckFiles | dcli.py:1697-1701 | the exec file is checked first, then the files to copy in order |
| Validation.RefusalAt | dcli.py:1635-1703 | every rank except 10 and 14 (the refusals that carry a file name) belongs to exactly the refusal it names back |
| Validation.ClearAtMeans | dcli.py:1635-1703 | a rank is clear exactly when none of its refusals applies |
| Validation.ClearAtExcludes | dcli.py:1635-1703 | a clear rank excludes each of its refusals |
| Validation.FailedAt | dcli.py:1635-1703 | a rank that is not clear has a refusal that applies |
| Validation.ClearBelowMeans | dcli.py:1635-1703 | all ranks below n are clear exactly when no refusal below rank n applies |
| Validation.AcceptedIffNoRefusal | dcli.py:1635-1703 | a command line is accepted exactly when no refusal applies |
| Validation.CheckRequest | dcli.py:1632-1651 | the first five tests refuse with the first refusal that applies. Otherwise the command is buildCommand's |
| Validation.CheckVmstatRequest | dcli.py:1652-1665 | the vmstat tests come next. An accepted vmstat option gives checkVmstat's count and command, and an option it refuses gives "vmstat " + the options with no count |
| Validation.CheckSession | dcli.py:1666-1674 | no SSH key, a negative --ctimeout, and --root-exadatatmp with another user are refused next, in that order |
| Validation.CheckHosts | dcli.py:1676-1695 | an unreadable group file, serial plus batch mode, and a batch size below 1 are refused next, then an empty host list. Batching is on with an explicit size or when update_max_threads applies to more than one host |
| Validation.CheckPaths | dcli.py:1697-1703 | a file checkFile refuses, then -d without files, are refused last |
| Validation.CheckAll | dcli.py:1632-1703 | the refusal given is the first in main's order, and acceptance settles the command, the vmstat count, the host list and the batch size |
| Validation.Validate | dcli.py:1632-1703 | main accepts exactly the command lines no refusal applies to. It refuses with the lowest-ranked refusal that applies, and on acceptance the plan is what main computes |
| Batches.BatchEnd | dcli.py:1720-1724 | a slice ends after its start and within the list. It is at most maxThds long, and shorter only at the end of the list |
| Batches.BatchesTile | dcli.py:1719-1777 | the slices are non-empty and consecutive, and together they are the host list. All but the last hold exactly maxThds hosts, and with maxThds 0 there is one slice |
| Batches.BatchCount | dcli.py:1719-1777 | with maxThds > 0 there are ceil(hosts / maxThds) slices |
| Batches.MaxSeq | dcli.py:1768 | max returns an element that is at least every element |
| Batches.ExitCode | dcli.py:1798 | `returnValue and 1` is 0 exactly when returnValue is 0, and 1 otherwise |
| Batches.AsWrittenExit | dcli.py:1767-1768 | as written, the return value is never negative, and dcli exits 0 exactly when no host was unreachable and no status was positive |
| Batches.SignalMasked | dcli.py:1767-1768 | as written, a host whose run died from a signal (status -9) still gives exit code 0 |
| Batches.Failures | dcli.py:1767 | corrected: a status counts as a failure exactly when it is nonzero, never negatively, and a non-negative status counts as itself |
| Batches.AfterBatchZero | dcli.py:1759-1768 | corrected: after one slice the return value is 0 exactly when it was 0 and the slice had no unreachable host and no nonzero status |
| Batches.ExitExactly | dcli.py:1767-1798 | corrected: dcli exits 0 exactly when every slice ran cleanly |
| Batches.CorrectedAgrees | dcli.py:1767-1768 | when no run was killed by a signal, the corrected return value equals the one main computes, so the correction changes nothing else |
| Batches.ReturnValueSnoc | dcli.py:1759-1768 | one more slice updates the return value as main does: 1 if a host of the slice was unreachable, then the maximum of that and the slice's statuses |
| Batches.BatchesStep | dcli.py:1769-1777 | one pass of the loop peels the next slice off the remaining list |
| Batches.RunBatches | dcli.py:1715-1777 | the batch loop runs exactly the slices of the host list, in order, and returns main's return value over their outcomes, as written. So its exit code is 0 exactly when no host was unreachable and no status was positive (AsWrittenExit) |
| Batches.ReturnValueRunsSnoc | dcli.py:1733-1768 | one more vmstat call updates the return value as main does, as written |
| Batches.SliceOfIsMod | dcli.py:1769-1773 | in batch-mode sampling, call k samples slice k mod the number of slices |
| Batches.CallsIs | dcli.py:1769-1773 | r whole rounds over n slices are n·r calls |
| Batches.BatchSampleAt | dcli.py:1717-1773 | in round r the j-th call samples slice j, with sample count 1 in the first round and 2 afterwards |
| Batches.ScheduleAt | dcli.py:1717-1773 | the reference schedule lists those samples in order |
| Batches.ScheduleStep | dcli.py:1717-1773 | the next call extends the schedule by one sample |
| Batches.BatchLoopStep | dcli.py:1769-1777 | in the sampling loop, the next slice is the next one of the round |
| Batches.Advance | dcli.py:1769-1777 | the loop moves to the next slice, or to the first slice of the next round while rounds remain, or stops |
| Batches.SliceIs | dcli.py:1720-1734 | the slice sampled at a position is the one the schedule names |
| Batches.NextAt | dcli.py:1769-1777 | advancing keeps the loop on the schedule |
| Batches.LastCall | dcli.py:1769-1775 | the loop stops only after every slice was sampled in every round, and never without a count |
| Batches.StepOn | dcli.py:1719-1777 | a pass that continues keeps the samples on the schedule and the return value up to date |
| Batches.StepOff | dcli.py:1719-1777 | the pass that stops completes the schedule |
| Batches.SampleSlice | dcli.py:1719-1777 | one pass samples the current slice once (the inner loop ends after one call in batch mode), updates the return value as main does, and moves as the loop does |
| Batches.SampleBatches | dcli.py:1715-1777 | batch-mode vmstat samples every slice once per round: 1 round without a count, count rounds with one, and no end without a count until interrupted. The calls follow the schedule, and the return value is main's, as written, over all of them |
| Batches.SampleAll | dcli.py:1730-1768 | without batches, vmstat samples the whole list with count 1, then 2. It stops at the first call with a positive status or after count samples. The return value is 1 if any call found an unreachable host, then the maximum with the last call's statuses, as written |
| Batches.UpdateMaxThreadsExactly | dcli.py:1418-1458 | update_max_threads applies only when there is no batch size, no --serial, a known limit, and (limit - 10) // 7 ≥ 1. The batch size is then that quotient, and otherwise it is unchanged |
| OutputBuffer.ChunkSize | dcli.py:1013-1016 | a chunk holds maxLines + 1 lines, and at least one |
| OutputBuffer.BufferFullAt | dcli.py:1015-1016 | the counter passes maxLines exactly when the chunk is full |
| OutputBuffer.FullChunksPrefix | dcli.py:1013-1032 | the full chunks are a prefix of the lines, and fewer than a chunk's worth of lines remain |
| OutputBuffer.FlattenSnoc | dcli.py:1013-1032 | another chunk adds its lines at the end |
| OutputBuffer.FullChunksSnoc | dcli.py:1013-1032 | a full chunk read after whole chunks is emitted as the next chunk |
| OutputBuffer.FullChunksShortTail | dcli.py:1013-1041 | a short tail is not emitted |
| OutputBuffer.EmitChunk | dcli.py:1016-1032 | emitting a chunk keeps the shown chunks equal to the full chunks read so far |
| OutputBuffer.EndOfInput | dcli.py:1013-1041 | at the end of the input the shown chunks are all the full chunks |
| OutputBuffer.ReadNLines | dcli.py:995-1041 | readNLines' loop computes the reference buffer: shown chunks, returned lines and the truncation flag |
| OutputBuffer.ChunkModeKeepsEveryLine | dcli.py:1008-1032 | in chunk mode the shown chunks followed by the returned lines are the whole output, with fewer than maxLines + 1 lines returned and no truncation |
| OutputBuffer.ChunksAreFull | dcli.py:1016-1028 | every chunk holds exactly maxLines + 1 lines |
| OutputBuffer.ShownChunksAreFull | dcli.py:1016-1028 | every shown chunk holds exactly maxLines + 1 lines, in either mode |
| OutputBuffer.TruncationMode | dcli.py:1033-1041 | outside chunk mode at most one chunk is shown, and the output is truncated exactly when it has more than maxLines lines. Nothing is then returned, and otherwise all lines are |
| Invoker.ScpHost | dcli.py:555-567 | scp's host starts with "user@" and ends with the host, in brackets for an IPv6 address when copying |
| Invoker.KeepInOrder | dcli.py:569-680 | keeping the wanted stages keeps their order and exactly the wanted ones |
| Invoker.PlannedInOrder | dcli.py:569-680 | the planned stages are the wanted ones in the order key push, mkdir, scp, command, unkey |
| Invoker.CallFor | dcli.py:569-680 | each planned stage gets its own invocation. The key push is always read in chunk mode, and the other stages have no input and follow the serialize setting |
| Invoker.Calls | dcli.py:569-680 | there is one invocation per planned stage, in order |
| Invoker.KeyPushCallShape | dcli.py:569-621 | the key push is "ssh " + options + user + host + the remote script. With --key-with-one-password it is `expect` fed the eleven-line script that spawns that ssh command and carries the encoded password, and otherwise it is run directly with no input |
| Invoker.MakeDirCallShape | dcli.py:629-639 | the mkdir stage is "/usr/bin/ssh" + options + user + host, then "'mkdir -p <destfile>'" |
| Invoker.CopyCallShape | dcli.py:641-654 | the copy stage is "/usr/bin/scp" + the scp options + the files, then "<scp host>:<destname>" |
| Invoker.CommandCallShape | dcli.py:656-664 | the command stage is "/usr/bin/ssh" + options + user + host, then the command |
| Invoker.DropKeyCallShape | dcli.py:666-680 | the unkey stage is "ssh " + options + user + host, then the script that removes the keys, with no input |
| Invoker.Passthrough | dcli.py:733-768 | the -k terminal pass-through captures no lines. Its status is 0 exactly when the process started and exited 0, and a started process's status is its exit code. A nonzero status lists the host as unreachable once, and a zero status lists nothing |
| Invoker.BannerRoundTrip | dcli.py:982-993 | with --showbanner the output is framed so that the banner and the output can be read back apart when the banner has no marker line of its own: the banner lies between the first two markers and the output follows |
| Invoker.CapturedClassification | dcli.py:909-951 | exit 124 appends the timeout line. Otherwise an offending-key warning under --key-with-one-password asks for a retry, even on exit 255. Otherwise 255 lists the host as unreachable. These are exclusive, and a truncated output forces status 1 |
| Invoker.NoRetryWithoutOnePassword | dcli.py:705-725 | without --key-with-one-password no run is retried, and 255 means unreachable |
| Invoker.RunStageRoutes | dcli.py:733-768 | on the terminal pass-through (keys pushed with -k, without --key-with-one-password, no input) a stage captures no lines and succeeds exactly when the process started and exited 0. Only that route lists a failing host as unreachable once, and a retry is only ever asked for under --key-with-one-password |
| Invoker.CapturedKeepsOutput | dcli.py:902-945 | in chunk mode the displayed chunks and the returned lines, less the banner frame, are the whole output plus the timeout line |
| Invoker.PipelineRanPrefix | dcli.py:569-684 | the stages run in order while the status is 0. The host's status is that of the last stage run, nonzero when it stopped early, and its output is the outputs of the stages that ran, in order |
| Invoker.RunCalls | dcli.py:569-684 | the stage loop computes the reference pipeline |
| Invoker.Run | dcli.py:518-687 | one host's thread runs its planned stages through the pipeline |
| Coordinator.NoteMark | dcli.py:755-920 | each list is kept or gets the host appended once. The unreachable list grows exactly for an unreachable mark, or for the pass-through mark when the host is not yet listed. The retry list grows exactly for a retry. The maps and the shown chunks are unchanged |
| Coordinator.RemoveOffendingKeys | dcli.py:1139-1186 | the loop computes the retriable hosts |
| Coordinator.RetriableExactly | dcli.py:1139-1186 | a host is retried exactly when it was on the retry list and known_hosts could be read and holds its name or its resolved address |
| Coordinator.RetriableMember | dcli.py:1139-1186 | the same, for one host |
| Coordinator.RunHostsLoop | dcli.py:1123-1137 | the thread loop records every host's run, in order |
| Coordinator.RunBatch | dcli.py:1189-1194 | one batch runs every host, then runs the retriable hosts once more |
| Coordinator.NoteMarksAddsOnlyHost | dcli.py:682-684 | recording a host's marks leaves the maps alone and only appends that host to the lists |
| Coordinator.NoteMarksRetry | dcli.py:916-917 | the retry list grows exactly when a run asked for a retry |
| Coordinator.RecordMaps | dcli.py:682-684 | a finished host's status and output are stored under its name |
| Coordinator.RunHostsCovers | dcli.py:1123-1137 | after a pass every host of the batch has a status and an output. No other key is added, and other hosts' entries are unchanged |
| Coordinator.RunHostsEntry | dcli.py:1123-1137 | the last run of a host is what its entries hold |
| Coordinator.AppendsFromStep | dcli.py:917-920 | appending only the current host keeps the lists growing from batch hosts |
| Coordinator.RunHostsListsOnlyBatchHostsBad | dcli.py:919-920 | the unreachable list only grows, and only with hosts of the batch |
| Coordinator.RunHostsListsOnlyBatchHostsRetry | dcli.py:916-917 | the retry list only grows, and only with hosts of the batch |
| Coordinator.RetryOverwritesOnlyRetried | dcli.py:1189-1194 | the retry pass changes the status and output of retried hosts only |
| ResultList.CollectOk | dcli.py:1247-1251 | the loop collects the hosts with status 0 in host order |
| ResultList.FindMatch | dcli.py:1262-1265 | the inner loop finds whether some stripped output line matches |
| ResultList.CollectMatching | dcli.py:1256-1265 | the loop collects the hosts with a matching line in host order |
| ResultList.PrintHost | dcli.py:1273-1282 | one host's loop prints its shown lines in order |
| ResultList.PrintStep | dcli.py:1273-1282 | one more line prints exactly when it is shown |
| ResultList.DetailLinesAppend | dcli.py:1269-1282 | the printed lines of consecutive hosts follow each other |
| ResultList.ListResults | dcli.py:1234-1282 | listResults prints the "OK:" line, the regular-expression line, then the details, as the reference listing. It fails where a status lookup raises |
| ResultList.PrintDetails | dcli.py:1269-1282 | the detail loop prints the reference details, or fails as Python does |
| ResultList.DetailsStopped | dcli.py:1269-1271 | once a lookup fails, the listing fails |
| ResultList.OkCellsExactly | dcli.py:1247-1253 | the "OK:" list holds exactly the hosts of the list with status 0 |
| ResultList.MatchingCellsExactly | dcli.py:1256-1267 | the regular-expression list holds exactly the hosts with an output line whose stripped text matches |
| ResultList.HostDetailsExactly | dcli.py:1273-1282 | a host prints exactly its shown lines, stripped, or only right-stripped with preserveSpaces |
| ResultList.DetailsDefined | dcli.py:1269-1271 | the listing fails exactly when -n is given and a host with output has no status |
| ResultList.DetailsExactly | dcli.py:1269-1282 | a host's lines are printed exactly when it has output and, with -n, a positive status, and only the lines not matching the regular expression |
| VmstatReport.FieldsSnoc | dcli.py:1299-1301 | each value adds its right-justified field and a space |
| VmstatReport.ListVmstatLine | dcli.py:1293-1302 | the loop computes the aligned line, or fails where a width is missing |
| VmstatReport.FieldsRoundTrip | dcli.py:1293-1302 | splitting an aligned line on whitespace gives back its tokens |
| VmstatReport.MaxNameLen | dcli.py:1326-1330 | the name width is at least the clock's and every host's length, and is one of them |
| VmstatReport.AddTokensStep | dcli.py:1334-1354 | the token loop's state after k + 1 tokens is its state after k, then one token |
| VmstatReport.AddOutputsStep | dcli.py:1328-1354 | the host loop's state after k + 1 hosts is its state after k, then one host |
| VmstatReport.MaxNameLenStep | dcli.py:1328-1330 | one more host widens the name column to its name when longer |
| VmstatReport.Accumulate | dcli.py:1326-1354 | the accumulation loop computes the reference columns and the name width |
| VmstatReport.AccumulateHost | dcli.py:1331-1354 | one host adds the tokens of its last line |
| VmstatReport.AccumulateLine | dcli.py:1333-1354 | the token loop adds every token of a line |
| VmstatReport.AddTokensNone | dcli.py:1351-1354 | once a width lookup fails, the line fails |
| VmstatReport.AddOutputsNone | dcli.py:1328-1354 | once a host fails, the accumulation fails |
| VmstatReport.RowStep | dcli.py:1334-1354 | on an all-integer line, adding its tokens gives the reference statistics of the rows plus that line |
| VmstatReport.OutputsAsRows | dcli.py:1328-1332 | accumulating the outputs is accumulating their last lines' tokens |
| VmstatReport.RowsStatistics | dcli.py:1328-1354 | on all-integer rows, the lists are the per-column minimum, maximum, total and width of the reference |
| VmstatReport.ColumnStatistics | dcli.py:1328-1354 | the same, from the hosts' outputs |
| VmstatReport.ExpectedColumn | dcli.py:1339-1354 | each column's minimum and maximum are values of that column, each value lies between them, the total is their sum, and the width is at least every token and the default width |
| VmstatReport.MinMaxBound | dcli.py:1339-1347 | the minimum is at most and the maximum at least every value, and both occur |
| VmstatReport.WidthBound | dcli.py:1351-1354 | a column width is never below any token's length or the default width |
| VmstatReport.SumBound | dcli.py:1348-1350 | count·minimum ≤ total ≤ count·maximum |
| VmstatReport.RoundedQuotient | dcli.py:1373-1374 | rounding total/count half up stays between the bounds the total allows |
| VmstatReport.AverageBetween | dcli.py:1369-1375 | for non-negative values, minimum ≤ average ≤ maximum |
| VmstatReport.Listed | dcli.py:1363-1364 | a host is listed exactly when it is in the host list and has output |
| VmstatReport.ListedInOrder | dcli.py:1363-1364 | the listed hosts are the host list's entries at strictly increasing positions, and those positions are exactly the hosts that have output, so they appear in host-list order |
| VmstatReport.StatLine | dcli.py:1370-1375 | a statistics line exists exactly when every value has a width |
| VmstatReport.NameWidth | dcli.py:1356 | the name column is at least as wide as "Minimum", "Maximum", "Average" and every name |
| VmstatReport.HostLinesShape | dcli.py:1363-1367 | there is one line per listed host, in host order |
| VmstatReport.HostLineContent | dcli.py:1367 | a host line is the right-justified name, ':', then the host's last line's tokens aligned |
| VmstatReport.ReportShape | dcli.py:1359-1375 | the table has the two header lines unless -n suppresses them after the first sample, one line per listed host, and three statistics lines exactly when more than one host reported |
| VmstatReport.HeaderFits | dcli.py:1284-1291 | the header lines exist when the first host's headers fit the widths |
| VmstatReport.HostsFit | dcli.py:1363-1367 | with the accumulated widths, every host line exists |
| VmstatReport.RowsOfOutputs | dcli.py:1328-1354 | all-integer last lines never fail and give the reference statistics |
| VmstatReport.StatsFit | dcli.py:1369-1375 | the statistics lines exist when every column has a width |
| VmstatReport.ReportOfParts | dcli.py:1304-1375 | a table whose parts exist exists, and its last three lines are the Minimum, Maximum and Average rows |
| VmstatReport.ReportOfNumbers | dcli.py:1304-1375 | when every host's last line is all-integer, the table exists, and with more than one host it ends with the reference statistics lines |
| RagFiles.Find | helpers/generate_rag_files.py:20 | a key is found at its first position in the dict |
| RagFiles.AssignLookup | helpers/generate_rag_files.py:20 | assigning a key stores its value, keeps the keys unique and in insertion order, and leaves other keys alone |
| RagFiles.FindAssigned | helpers/generate_rag_files.py:20 | a stored pair is what lookup finds |
| RagFiles.SameFind | helpers/generate_rag_files.py:20 | a dict that only adds other keys at the end finds the same value |
| RagFiles.LinePairSplit | helpers/generate_rag_files.py:17-20 | a line "key:value" yields the stripped key and the value stripped of whitespace then of '"' |
| RagFiles.ColonAfterKey | helpers/generate_rag_files.py:18 | the split happens at the first colon, so later colons stay in the value |
| RagFiles.AssignAllSnoc | helpers/generate_rag_files.py:16-20 | each pair is assigned after the earlier ones |
| RagFiles.AssignAllLastWins | helpers/generate_rag_files.py:16-20 | keys are unique, and each key holds the value of its last pair |
| RagFiles.AssignAllEmpty | helpers/generate_rag_files.py:21 | a metric is empty exactly when there were no pairs |
| RagFiles.PairsEmpty | helpers/generate_rag_files.py:17 | there are no pairs exactly when no line has a colon |
| RagFiles.PairsStep | helpers/generate_rag_files.py:16-20 | a line contributes its pair exactly when it holds a colon |
| RagFiles.ParseBlock | helpers/generate_rag_files.py:14-20 | the block loop computes the block's metric |
| RagFiles.ParseLines | helpers/generate_rag_files.py:16-20 | the line loop assigns every colon line's pair in order |
| RagFiles.SplitLine | helpers/generate_rag_files.py:18-19 | splitting at the first colon and trimming gives the line's pair |
| RagFiles.ParseStep | helpers/generate_rag_files.py:16-20 | one more line keeps the loop's metric equal to the pairs so far |
| Text.KeepMembers | helpers/generate_rag_files.py:11 | the comprehension keeps exactly the pieces that pass the filter |
| Text.KeepInOrder | helpers/generate_rag_files.py:11 | the kept pieces are the input's pieces at strictly increasing positions, and those positions are exactly the pieces that pass the filter |
| RagFiles.NonBlankPieces | helpers/generate_rag_files.py:11 | a block is kept exactly when it has non-whitespace text |
| RagFiles.NonBlankInOrder | helpers/generate_rag_files.py:11 | the blocks are the pieces at strictly increasing positions, and those positions are exactly the pieces that are not all whitespace |
| RagFiles.PrefixRemoval | helpers/generate_rag_files.py:10 | replacing "<node>: " with "" removes every occurrence |
| RagFiles.MetricsOfStep | helpers/generate_rag_files.py:13-22 | a block adds its metric exactly when the metric is not empty |
| RagFiles.MetricDefinitions | helpers/generate_rag_files.py:10-22 | the script computes one metric per block with a colon line, in block order |
| RagFiles.BlockWithoutColon | helpers/generate_rag_files_read_only.py:15-21 | a block gives no metric exactly when none of its lines has a colon |
| RagFiles.MetricsOfBlocks | helpers/generate_rag_files_read_only.py:12-22 | there are at most as many metrics as blocks, and each is non-empty with unique keys |
| RagFiles.KeptMetricSnoc | helpers/generate_rag_files_read_only.py:21-22 | appending only non-empty metrics keeps every metric non-empty with unique keys |
| RagFiles.RewriteLine | helpers/generate_rag_files.py:61-73 | the loop body's reassignments compute the rewrite of one line |
| RagFiles.DroppedFlags | helpers/generate_rag_files.py:64-67 | a leading "modifiable" drops 11 characters then strips, and a then-leading "hidden" drops 6 then strips |
| RagFiles.RewriteKeepsHeadings | helpers/generate_rag_files_read_only.py:61 | "Attributes for" lines and empty lines pass unchanged |
| RagFiles.RewriteFails | helpers/generate_rag_files_read_only.py:62-73 | a line fails exactly when it is non-empty whitespace, where `parts[0]` raises |
| RagFiles.RewriteShape | helpers/generate_rag_files_read_only.py:62-73 | any other line becomes its name, or "name: " followed by a description that does not start with whitespace |
| RagFiles.DescriptionShape | helpers/generate_rag_files.py:62-73 | the name and description combine as "name: rest", or the name alone when nothing is left |
| RagFiles.DropFlagLeads | helpers/generate_rag_files.py:64-67 | dropping a flag never leaves leading whitespace |
| RagFiles.RewriteKeepsDescription | helpers/generate_rag_files.py:62-69 | without flags the line becomes "name: description" |
| RagFiles.RewriteAllLines | helpers/generate_rag_files.py:60-74 | every input line yields exactly one output line, its rewrite, in order. The file fails exactly when a line fails |
| RagFiles.RewriteAllStep | helpers/generate_rag_files.py:60-74 | one more line adds its rewrite |
| RagFiles.DescribeFile | helpers/generate_rag_files.py:58-74 | the describe loop rewrites the lines of the stripped output after removing the "<node>: " prefixes |
| RagFiles.RewriteAllNone | helpers/generate_rag_files_read_only.py:60-74 | once a line fails, the file fails |
| Text.SplitJoin | helpers/generate_rag_files.py:11 | joining the pieces of a split with the separator gives back the string |
| Text.ReplaceIsJoinOfSplit | helpers/generate_rag_files.py:10 | replace is split then join |
| Text.JoinSplit | dcli.py:244 | splitting a join of separator-free pieces gives back the pieces |
| Text.SplitPiecesAvoidSeparator | dcli.py:244 | split pieces never hold the separator |
| Text.SplitWsTokens | dcli.py:417 | split() gives non-empty tokens without whitespace |
| Text.SplitWsOnceHead | helpers/generate_rag_files.py:62 | split(maxsplit=1) gives at most two parts, the first a token |
| Text.SplitWsOnceTail | helpers/generate_rag_files.py:62 | the second part does not start with whitespace and ends the line |
| Text.SplitWsOnceEmpty | helpers/generate_rag_files.py:62 | split(maxsplit=1) gives nothing exactly for an all-whitespace line |
| Text.LowerConcat | dcli.py:542-547 | lower() distributes over concatenation |
| Text.RJustShape | dcli.py:1301 | rjust pads on the left with spaces to the width, and never cuts |

## Left out

- Threads, the update lock, the timed joins, and keyboard-interrupt handling (dcli.py:1123-1137, 1197-1220). Hosts run one after another, and the maps are the same as in a parallel run.
- Processes and files are not modelled: `subprocess`, the banner temporary file, killing a child whose output was truncated, the latin-1 decoding retry, and the exit on too many open files (dcli.py:771-935). Each ssh or scp run is an `Execution` the caller supplies, and so is the retry pass's run.
- The -k terminal pass-through keeps only its outcome: the exit code (1 when the process could not start), no captured lines, and the host listed as unreachable once.
- `checkKeys`, `getOnePw`, `findFiles` and `checkFile` (glob, stat, key generation) are inputs to the model. So are `get_file_descriptor_limit` (the ulimit subprocess) and the group file's contents.
- IPv6 detection (`socket.inet_pton`), DNS resolution and `ssh-keygen -R` in `remove_offending_keys` are inputs too. `isIPv6`, `resolve` and `knownHostsAt` are parameters, and the result of `ssh-keygen` is not modelled.
- The regular-expression engine is a `matches` predicate passed in. Python's list repr assumes host names without quotes or backslashes.
- `time.strftime` is the `clock` parameter of the vmstat table. `--timeout` is taken as its printed text.
- Verbose and test-mode output is not modelled: the `echo` variants of every command and the warnings written to standard error. The chunks displayed by `readNLines` are recorded as chunks, not formatted.
- The helper scripts' remote calls, their file writes and JSON dumps, and the `[1:-1]` slicing of the help texts are not modelled.
- server.py, server_read_only.py, server_rag.py, client.py, workarounds.py, helpers/generate_rag_vector_stores.py, helpers/execute_dcli_cmd.py and simulations/ are not part of this model.
- Python's `int()` also accepts non-ASCII digits. The model reads an optional sign, then ASCII digits with single underscores allowed between two digits.
- Whitespace is ASCII only. Python's `split()` and `strip()` also treat non-ASCII spaces such as `\x85` and `\xa0` as whitespace.
- Text.Lower lower-cases only the ASCII letters. Python's `lower()` also lower-cases other letters, which can matter only when `--ssh-options` holds non-ASCII text next to a keep-alive option name.
- VmstatReport.Average: the average is computed exactly, as the integer that `int(total / count + 0.5)` gives with exact division. Floating-point rounding on very large totals and Python 2's integer division are not modelled.
- ResultList.ListResults: where a status lookup raises, the model returns no lines. Python has by then already printed the "OK:" and regular-expression lines, and the detail lines of the hosts before the failing one.
- VmstatReport.Report: where a width lookup raises, the model returns no table. When that happens while the lines are printed, Python has already printed the lines before the failing one (the header and the earlier host or statistics lines).
- RagFiles.DescribeFile: where a line raises, the model returns no lines. Python has by then already written the rewritten lines before it, and the `with` block closes the file, so they remain in it.
- Invoker.Run: the key-push and unkey commands are built as in the source. The expect script's base64 password is an input, and the keys come from checkKeys.

## Findings

| source | as written | input that shows it | evidently intended | confidence | as-written member | corrected member |
|---|---|---|---|---|---|---|
| dcli.py:1767-1768 | `returnValue = max(list(statusMap.values()) + [returnValue])`. A negative status, which subprocess reports for a child killed by a signal, never exceeds the running value of 0 | one host whose ssh is killed by signal 9 (status -9), with no unreachable host: the return value stays 0, and dcli exits 0 | any nonzero status makes dcli exit 1, as the exit-code docstring (dcli.py:141-144) says. The batch loops model main as written; the corrected return value counts a negative status as failure 1, and agrees with main's whenever no run was killed by a signal (Batches.CorrectedAgrees) | medium (not executed) | Batches.SignalMasked | Batches.ExitExactly |
