# Verified model of the `xget` download core

This project models the logic of `xget` that is hardest to get right and proves properties of it for all inputs, all
runs and all interleavings. Nothing here runs the program: the statements below are about the model, and every row of
the table names the source lines the model follows.

`dafny verify dfyconfig.toml` checks everything.

## What is modelled

**The resumable scatter download** (`Text`, `Plan`, `ControlFile`, `ControlLaws`, `Remains`, `Engine`,
`EngineLaws`, `ScatterSafety`, `Starting`, `Progress`, `Mishaps`, `Careful`, `Scatter`, `Fetching`). Several fetchers write chunks of one resource at their own offsets
of one file, record how far each has got, and append lines to a trailer behind the data in that same file. A verifier
hashes the growing hole-free prefix meanwhile. `Engine.Run` is one run as a step system: a step is the code between two suspension
points, each write of the trailer may reach the file a few bytes at a time, an append may fail at its seek, at its
write, or at its flush when the writer has already moved on, the wake-up is a one-bit permit, and the fetched resource
is a byte sequence that only fetches reveal. `Engine.World` strings runs together: a run can be
interrupted between any two steps, and the next one starts from nothing but the file, with any number of chunks.
`ScatterSafety` proves what holds over every such history. `ControlFile.Writer` and `Scatter.Download` are the
source's objects and loops over mutable fields; each loop of `Scatter.Download` is proved to be a run of the step
system, so what is proved of the steps holds of the loops.

**The path patterns** (`Glob`, `Selecting`, `SelectionLaws`). The parser, the two in-place dynamic programs behind `Pattern::matches`
with a count of the cells they update, and the include and exclude selection built on them. The reference is the
recursive meaning of a wildcard list, and the recursive reading of the spelling that the repository's own tests use
on short inputs.

**The checked body and the whole-payload checks** (`PayloadChecks`, `Delivery`, `DeliveryLaws`, `Draining`). A polled
body hashes each chunk in 64 KiB slices before it releases it, and completes only at a clean end with the declared
length and every required digest. A hash algorithm is an arbitrary function of the whole payload, and a hasher is the
bytes fed to it.

**Selection over several inputs, and the checksum proposals** (`InventorySelection`, `SelectionLaws`, `Proposals`,
`SidecarLaws`). The filtering of a
discovered inventory, the budget its discovery charges, and the CLI's sidecar parser and proposal list.

**The USTAR preflight** (`Ustar`), against the archives it is meant to accept and those the release builder writes
(`UstarBuilder`), in the terms of the "ustar Interchange
Format" section of the `pax` utility in POSIX.1 (IEEE Std 1003.1).

A history itself assumes nothing of what files, resources and servers hold, and the wake-up, the order and the progress
are proved over every one. What a file's content can be trusted for rests on three things, stated as `Engine.HeededSince`
and asked only since the file was last created: source and validator hold no line feed (`Engine.IsPlain`); the file is
resumed only for the resource it was created for (`Engine.KeepsOrigin`, which is what the check of length and validator
gives while `Engine.Unchanged` holds of the server); and a file that failed appends have left with a mishap is not
resumed. The findings below say what the two mishaps are and that their exclusion is needed.

Where a proof would drag in definitions it does not need, `hide` withholds them from the solver; it withholds facts
and adds none.

## Findings

- `src/control.rs:195-199` says a reader sees either the old trailer and footer or the new pair. That holds only when
  none or all of an append has reached the file. At every point strictly between, the file has no control at all
  (`ControlLaws.TornAppend`), and a resume then refuses to go on (`src/engine.rs:344-350`) and leaves the file as it is
  (`Starting.CutAppendsAreKept`). It is never misread, which is what safety needs.
- The attempt loop survives a checkpoint whose append failed, and the next append goes where the writer then stands. A
  failed seek or write leaves it in place, over a strict prefix of what it wrote. A failed flush finds it moved past its
  line (`src/control.rs:213-215`), with any prefix down. One failed append is safe while its line is whole or the writer
  stays: whatever can be read after any part of the next one records that range, or the old ones, and no other
  (`Remains.SecondAppendIsSafe`). Two mishaps are not. Past a line that a flush lost, an append makes readable whatever
  shows in the gap: for every text, and every length whose low bytes are a "9" and a line feed or a blank, `[0, 20)`
  lost with eight bytes down reads as `[0, 29)` (`Mishaps.LostLineMisreads`, `Mishaps.LostLineRunsOn`). Over the remains
  of two appends, a third can run two lines together into a range nobody recorded
  (`Remains.FailedAppendsCanMisrecord`). Both are reached by a run from a new file, step by step
  (`Mishaps.RunsGoWrong`), and a resume then succeeds with a wrong byte. Nothing else misleads: over the histories in
  which failed appends do nothing beyond an allowed set of mishaps, every record is true, and every successful download
  exact, if and only if that set is empty (`Mishaps.RecordsHoldExactly`, `Mishaps.DownloadsHoldExactly`). A rule that a
  caller can see to is enough: a run one of whose appends has failed makes no other (`Careful.CarefulHistoriesHold`).
- A recorded source or validator is read back as written exactly when it holds no line feed and does not end in a
  carriage return (`ControlLaws.RecordsAreReadBack`, both directions), whatever ranges were recorded, and however often
  the file was opened again, since (`ControlLaws.CreateAndRecord`).
- How a checked body ends, counters included, depends on how the payload was cut into chunks as soon as the payload
  outruns its declared length, except when the length is none and the payload one byte
  (`DeliveryLaws.CutMattersPastTheLength`, both directions). The error alone depends on the cut exactly when the payload
  outruns the length by two bytes or more (`DeliveryLaws.ErrorMattersFarPastTheLength`, both directions).

## Model

| member | source | states |
|---|---|---|
| Plan.PlanRange | src/plan.rs:18-37 | the loop gives the closed-form plan, and no offset, size or sum leaves `u64` on the way |
| Plan.PlanTilesEvenly | src/plan.rs:18-37 | every plan tiles `[start, end)` with nonempty chunks whose sizes differ by at most one, larger ones first |
| Plan.PartsAreHonoured | src/plan.rs:14-37 | at most as many chunks as asked for (one when none is), and fewer only when every chunk is a single byte |
| Plan.EvenTilingIsThePlan | src/plan.rs:14-37 | any even tiling with `min(max(parts, 1), length)` chunks is the plan: the promise has one answer |
| Plan.MergeRanges | src/plan.rs:92-102 | the result is sorted with a gap between neighbours and covers exactly the bytes the input covers |
| Plan.SeparatedIsUnique | src/plan.rs:90-102 | a cover has at most one separated list, so merging has one correct result |
| Plan.ContiguousPrefix | src/plan.rs:74-88 | each chunk is credited with exactly its longest covered prefix |
| Plan.PlanResume | src/plan.rs:51-69 | the chunks of a fresh plan, each credited from the recorded ranges as given, before clamping and merging |
| Plan.ResumeDependsOnCover | src/plan.rs:39-69 | two records that cover the same bytes below the total give the same credits |
| Text.DecodeEncode | src/control.rs:66-67 | every string survives UTF-8 encoding and decoding |
| Text.EncodeDecode | src/control.rs:66-67 | bytes that decode are the encoding of what they decode to |
| ControlFile.Read | src/control.rs:55-112 | what a file's bytes say: none unless magic, lengths and text all fit, else the total and the notes of its lines |
| ControlFile.ReadLines | src/control.rs:74-104 | the loop over the lines notes source, validator, checksum and ranges in order |
| ControlFile.ReadableIsStable | src/control.rs:55-72 | a file is readable only when it is data, text and a footer that adds up |
| ControlFile.StableReads | src/control.rs:55-112 | every such file reads as exactly its total and its text's notes |
| ControlFile.FooterBytesAreFooter | src/control.rs:228-237 | a footer holds its magic, total and trailer length wherever both fit 64 bits |
| ControlFile.ChecksumIs | src/checksum.rs:72-82 | a recorded checksum is read from its name, in either case of each letter, and from nothing else |
| ControlFile.Writer.Create | src/control.rs:140-177 | succeeds exactly when the seed is written whole and the file has room; then zeros and the header's text are at rest, else there is an empty file or zeros and a prefix of the seed |
| ControlFile.Writer.Open | src/control.rs:181-193 | fails exactly on a file smaller than its layout; else the writer holds whatever text is at rest, and the file is untouched |
| ControlFile.Writer.Append | src/control.rs:200-216 | whatever the file holds: one write at the writer's place, all of it down on success, some prefix on failure; the writer stays when the seek or the write fails and has moved past its line when the flush does; over a file at rest success leaves the old text and the new line at rest, and the data as it was |
| ControlFile.Writer.Finish | src/control.rs:220-226 | exactly the data region is left |
| ControlLaws.TornAppend | src/control.rs:195-216 | after any prefix of an append a reader finds the old control (nothing written), the new one (all written), or none (anything between) |
| Remains.SecondAppendIsSafe | src/engine.rs:540-547 | where a failed append has left an unreadable tail, whatever prefix of the next one lies over it, a readable control for the full length records the next one's range, the old ones, and no other |
| Remains.TornLeavesTail | src/control.rs:200-216 | what a failed append leaves at the end of the file, by a writer that stays, can neither be a footer nor become one by writing before it |
| Remains.MovedLeavesTail | src/control.rs:208-216 | the same of the place a writer has moved to, when its whole line is down and nothing beneath sticks out past the footer that should follow |
| Remains.MagicPlace | src/control.rs:55-65 | the only places a readable footer can begin after part of an append over such a tail: at the new footer, or so early in it that no record fits before |
| Remains.LinesRunTogether | src/control.rs:200-216 | after three appends at one place, each cut short at the right point, a reader finds the old text and one line that begins with the third's and ends with the second's |
| Remains.FailedAppendsCanMisrecord | src/engine.rs:540-547 | a concrete instance for every file and text: a readable record of `[0, 25)` when the appends were of `[90, 100)`, `[0, 15)` and `[0, 20)` |
| ControlLaws.AppendAddsOnly | src/control.rs:74-104 | whatever text precedes it, even an unfinished line, an appended line makes no range readable but its own |
| ControlLaws.AppendRecords | src/control.rs:200-216 | after a text that ends its lines, an append adds exactly its range and changes nothing else |
| ControlLaws.RecordsAreReadBack | src/control.rs:55-216 | a file at rest on a header and the lines of any ranges is read back as they say, in order, if and only if source and validator are safe on a line |
| ControlLaws.CreateAndRecord | src/control.rs:55-216 | a driver over `Create`, then any mix of appends, reopenings and data writes, then `Read`: it gives back what was created and exactly the ranges recorded, in order, if and only if source and validator are safe on a line; it stops only where the file would grow too large |
| ControlLaws.TornCreateRecordsNothing | src/control.rs:154-171 | a creation cut short never records a range, even if what is there reads as a control |
| ControlLaws.FinishedImageIsNotResumed | src/control.rs:218-226 | a finished image whose content reads as a control reads as one for a shorter resource |
| Engine.ResumePlan | src/engine.rs:305-351 | fresh, resumed with exact credits, or refused: each case decided as the file's control, length and validator say; refused exactly on a nonempty file without a control |
| Starting.ResumingStarts | src/engine.rs:305-351 | asked to resume, a run on a file that is there starts afresh exactly over a control for another length or a contradicting validator, leaves a file without a control as it is, and takes up every other |
| Starting.PartialsAreKept | src/engine.rs:305-351 | no step of any history truncates a partial file that a resume was asked for, but one that reads as a control for another resource |
| Starting.CutAppendsAreKept | src/engine.rs:344-350 | a file left strictly inside an append, or by one that failed part-way, has no control, and every resume of it is refused and changes nothing |
| Starting.AppendIsCredited | src/engine.rs:536-549 | a whole append adds to what is read back exactly its chunk as far as it is received: a checkpoint its prefix, the last one its whole range |
| Engine.SumContiguous | src/engine.rs:682-691 | the loop computes the contiguous run |
| EngineLaws.FrontierIsFirstHole | src/engine.rs:680-691 | over any tiling the contiguous run is the largest `f` with every byte below it received |
| EngineLaws.FrontierStopsAt | src/engine.rs:680-691 | the contiguous run never passes the recorded offset of an unfinished chunk |
| Engine.ChunkOf | src/engine.rs:694-699 | the first chunk ending past the offset, else the last |
| EngineLaws.StepKeepsShape | src/engine.rs:496-635 | every step keeps each chunk's offset within its range and its received count exact |
| EngineLaws.StepKeepsControl | src/control.rs:200-216 | every step, every way of failing included, keeps the file past the data as the footing says: the recorded text in place unless a line was lost, at rest when nothing failed, an unreadable tail behind one failed append, all but for a prefix of the append under way |
| EngineLaws.ReleaseRests | src/control.rs:200-216 | however far an append got, and whether or not the writer has moved, letting go of it leaves what the new footing says; an append that covers all remains makes the control sound again |
| EngineLaws.StepKeepsChunksGood | src/engine.rs:509-529 | every step keeps each chunk's prefix, as far as it has been put down, equal to the resource |
| EngineLaws.StepKeepsTruthful | src/engine.rs:533-549 | every step, failed appends included, keeps every recorded range, and the one being recorded, true of the resource |
| EngineLaws.StepKeepsPaced | src/engine.rs:641-678 | whatever the bytes are, every step keeps the hash at or before the frontier, and a waiting verifier without a permit caught up |
| EngineLaws.StepKeepsSweep | src/engine.rs:641-678 | where the chunks hold the resource, every step keeps the hashed bytes a prefix of it as well |
| EngineLaws.StepKeepsFlow | src/engine.rs:376-678 | offsets, trailer, pace, lock and order together, over every step, whatever the file holds |
| EngineLaws.StepKeepsRun | src/engine.rs:376-678 | those and what is true of the file's content together, over every step, the failing ones included |
| EngineLaws.InterruptedIsTrusted | src/control.rs:195-216 | whatever moment a run is interrupted at, failed appends included, what a readable control in its file records is true, unless an append has gone past a lost line or over the remains of two |
| ScatterSafety.NextKeepsFlow | src/engine.rs:118-171 | starting, creating, resuming any file for any resource, stepping, finishing and being interrupted all keep what does not depend on content |
| ScatterSafety.NextKeepsWorld | src/engine.rs:118-171 | they keep the content invariant too, while a resume is for the file's own resource and of a file without a mishap |
| ScatterSafety.UnchangedKeepsOrigin | src/engine.rs:317-351 | a resume is for the file's own resource while no other has been served under the same length and validator |
| ScatterSafety.RecordsAreTrue | src/engine.rs:299-351 | over any sequence of runs with any chunk counts, each interrupted anywhere and with appends failing anywhere, every byte of a range in a readable control for the full length equals the resource's, unless the file has a mishap, or had one when it was resumed since its creation |
| ScatterSafety.DownloadsAreExact | src/engine.rs:118-171 | a run that returns success leaves a file that is exactly the resource, and hashed exactly the resource, unless its file was resumed with a mishap since its creation; what happened before that does not matter |
| Mishaps.LostLineShows | src/control.rs:200-216 | after a flush that failed with part of its line down and a whole append at the place the writer had moved to, the file is at rest on the old text, what shows in the lost line's place, and the new line |
| Mishaps.LostLineMisreads | src/engine.rs:540-547 | for every text and every length with low bytes "9" and line feed: `[0, 20)` lost with eight bytes down reads, after any next append, as `[0, 29)` |
| Mishaps.LostLineRunsOn | src/engine.rs:540-547 | with a blank for the line feed, what shows runs on into the next line: `[0, 29)` is read, and the range that was appended is not |
| Mishaps.RunsGoWrong | src/engine.rs:496-635 | for each mishap, a history from an absent file to a run, and an explicit list of that run's steps, with no other mishap on the way, to a file that reads as recording bytes that are not there |
| Mishaps.OverstatedDownloadSucceeds | src/engine.rs:299-447 | a history that has come to such a record goes on, with no other mishap, to a resume that succeeds and leaves a wrong byte |
| Mishaps.RecordsHoldExactly | src/engine.rs:299-351 | over the histories with plain headers and unchanged resources whose failed appends do nothing beyond an allowed set of mishaps, whatever a reader finds is true if and only if that set is empty |
| Mishaps.DownloadsHoldExactly | src/engine.rs:118-171 | over the same histories, every download that succeeds is exact if and only if that set is empty |
| Careful.CarefulIsCalm | src/engine.rs:540-547 | in every history in which no run locks the control again after an append of its own has failed, no file ever has a mishap |
| Careful.CarefulHistoriesHold | src/engine.rs:540-547 | in such a history, with plain headers and unchanged resources, every record is true and every successful download exact |
| ScatterSafety.SuccessIsExact | src/engine.rs:436-447 | the same of one run, before the trailer is cut off: the data region is the resource |
| ScatterSafety.InterruptedRunResumes | src/engine.rs:305-362 | any run interrupted with its control at rest is resumed exactly when length and validators allow it, skips every chunk the record covers and starts every other at its first missing byte |
| ScatterSafety.NoLostWakeUp | src/engine.rs:658-678 | in every reachable state of every history `hashed <= frontier <= total`, and a verifier that waits without a permit has hashed the whole frontier, has more to come, and the fetchers are still being driven; the hash holds the resource's first bytes unless the file was resumed with a mishap or for another resource |
| ScatterSafety.WritesStayAhead | src/engine.rs:509-529 | in any run, whatever its file holds, no fetcher ever writes below the frontier, so nor below what is hashed, nor outside its own chunk |
| ScatterSafety.VerifierCanStep | src/engine.rs:429-447 | in any run, once the fetchers are done or one has failed for good, a verifier that has not returned can step |
| ScatterSafety.VerifierReturns | src/engine.rs:654-678 | from then on every step is the verifier's and brings it strictly nearer to returning |
| ScatterSafety.SoundRunsSucceed | src/engine.rs:436-447 | once every chunk is finished, over any further steps short of a failing read, the steps are bounded and the run is over exactly when it has succeeded |
| ScatterSafety.SoundRunCanSucceed | src/engine.rs:436-447 | ... and the verifier's steps bring it there |
| ScatterSafety.ReadingFindsBytes | src/engine.rs:702-727 | the verifier never meets the end of the file before its count is read |
| ScatterSafety.FetchersCanStep | src/engine.rs:415-441 | the queue, the attempts and the control lock never deadlock; short of a full disk there is a step that gets on (puts down what is missing, records a chunk to its end, leaves a stream only then, appends whole) until a chunk's attempts are spent |
| Progress.RunCanSucceed | src/engine.rs:559-635 | a run with no attempts spent, no failed verifier and room for the lines still to come (one a chunk, and a checkpoint's where there is that much to record) can be brought to success, by steps none of which fails |
| Progress.GetsOn | src/engine.rs:496-635 | each step that gets on keeps that so, and leaves less to do |
| Progress.StartIsHopeful | src/engine.rs:376-413 | every run, new or resumed, starts so where the file has room for two lines a chunk |
| Progress.RunsStayBrief | src/engine.rs:533-549 | from its start on, while no checkpoint fails, a run never leaves a chunk going on with `CHECKPOINT_BYTES` recorded past its last checkpoint |
| Progress.FailureKeepsBrief | src/engine.rs:533-549 | a failed checkpoint keeps that so if and only if it fell due by time and not by bytes |
| ScatterSafety.ResumeFillsInOrder | src/engine.rs:415-419 | a resumed run adds bytes to a chunk only after every chunk before it is complete |
| Scatter.Download.Record | src/engine.rs:529-539 | the section after a flush is exactly the model's step: recorded count, nudge and checkpoint decision |
| Scatter.Download.Look | src/engine.rs:655-675 | the section at the top of the verifier's loop is exactly the model's step |
| Scatter.Download.AppendRange | src/engine.rs:540-547 | taking the lock, writing and letting go is a run of the steps, whether seek, write or flush fails and however many bytes are down; it succeeds exactly when nothing fails and the file has room, records its line, and leaves everything else alone; a failed checkpoint takes the line as written exactly when the flush failed |
| Scatter.Download.Checkpoint | src/engine.rs:540-548 | a checkpoint is a run of the steps; its chunk's offset stays, and `checkpointed` and the trailer move on as success, a failed write or a failed flush says |
| Scatter.Download.TakePiece | src/engine.rs:509-549 | one pass of the stream loop is a run of the steps and advances the offset by exactly the piece; it fails exactly when a checkpoint that fell due does |
| Scatter.Download.Fill | src/engine.rs:496-553 | the stream loop is a run of the steps, and ends, with the chunk it leaves, exactly as taking the pieces in turn does (`Scatter.AfterStream`), of which the next two rows speak |
| Fetching.StreamIsTaken | src/engine.rs:496-553 | a stream that keeps to what is left of the range is taken byte for byte up to its first fault, and ends well exactly without one, when its checkpoints go well |
| Fetching.StreamIsLeft | src/engine.rs:496-553 | whatever happens, a stream has recorded exactly its first `j` pieces, all of them pieces that fit; it ends well exactly when those are all and no checkpoint failed, and is left early only at a fault, at a piece that outruns the range, or after a piece whose checkpoint fell due and failed |
| Scatter.Download.ScatterOne | src/engine.rs:559-635 | the attempt loop is a run of the steps, failed checkpoints included; it succeeds exactly when the attempts bring the chunk to its end (`Scatter.AfterAttempts`) and the last append goes, the trailer's last line then recording the whole chunk; failure leaves the run to give up |
| Fetching.DeliveredChunksSucceed | src/engine.rs:559-635 | they do whenever the source gives what is left of the range, in any pieces, over at most `retries + 1` streams, faults and all, and the appends go well |
| Scatter.Download.ReadInto | src/engine.rs:702-727 | reads of any size sum to exactly the count asked for, unless one fails, and then the verifier has returned a failure |
| Scatter.Download.Verify | src/engine.rs:641-678 | the verifier's loop is a run of the steps and stops only failed (never unless a chunk or a read has, always when a chunk has), done, or waiting with the whole frontier hashed and no permit left |
| EngineLaws.RunsKeepFlow | src/engine.rs:376-678 | any list of enabled steps keeps what does not depend on content |
| EngineLaws.RunsKeepInvariant | src/engine.rs:376-678 | any list of enabled steps keeps every invariant of a run |
| Glob.TokensMatch | src/selection.rs:311-332 | the single row, updated in place and read through `diagonal`, decides the recursive meaning; it updates exactly `tokens * (scalars + 1)` cells |
| Glob.MatchesSnoc | src/selection.rs:311-332 | the recurrence of the tables: one item and one element more |
| Glob.MatchesConcat | src/selection.rs:242-276 | a concatenation of elements matches exactly by splitting the items in two |
| Glob.StateStep | src/selection.rs:253-275 | state `i`: the first `i` components matched, or component `i` is `**` and has absorbed parts; how one part moves it |
| Glob.SkipRecursive | src/selection.rs:278-284 | one forward pass closes the states under skipping a `**` |
| Glob.Advance | src/selection.rs:253-272 | one path part moves the whole set of states as the meaning demands, with one update for each component and a row for each local one whose state is on |
| Glob.PatternMatches | src/selection.rs:237-276 | equals the recursive meaning for every pattern and path, at an exact number of updates that is within `B * (L + 1) + 2 * D * H + D` |
| Glob.Parse | src/selection.rs:207-235 | accepts exactly the grammar, with the error the first failing check gives |
| SelectionLaws.GrammarIs | src/selection.rs:207-235 | character by character what the grammar takes: fewer than 64 slashes; no control or reserved character; no empty, `.` or `..` part; two stars in a row only as a part of their own |
| Glob.ParsedPatternsMeanTheirSpelling | src/selection_tests.rs:205-277 | for every accepted spelling and every path, the parsed pattern and the recursive reading of the spelling agree |
| Selecting.OneByOneIsTogether | src/selection.rs:22-86 | criteria added one at a time, in any interleaving of the two roles, are accepted exactly when they are acceptable together, and give the same lists |
| Selecting.MatchesPath | src/selection.rs:144-158 | the loops over the matcher decide the selection of a path |
| SelectionLaws.MatchingIsPicking | src/selection.rs:144-158 | a path is selected exactly when it is within 4096 bytes and 64 parts, some include's spelling reads it, if there are includes, and no exclude's does |
| SelectionLaws.AddedIsSpelled | src/selection.rs:22-86 | the patterns of a selection are always what their spellings are parsed to |
| Selecting.AllIncludesMatch | src/selection.rs:114-142 | true exactly when every include accepts some bounded path of the scope, whatever the order of the paths |
| InventorySelection.SelectPaths | src/client.rs:320-404 | succeeds exactly when limit, members, layout and matches all allow it, with the files kept in order and frozen; else the error of the first failing stage |
| SelectionLaws.SelectedStays | src/client.rs:375-403 | a discovered file is in the result, with its selection frozen, exactly when its path is picked and every member wanted of its input is that file; and nothing else is there |
| SelectionLaws.SucceedsExactly | src/client.rs:320-404 | success in the terms of paths, spellings, tokens and sizes alone |
| InventorySelection.SelectsEachAlone | src/client.rs:320-404 | within the combined limit, several inputs succeed together exactly when each succeeds alone |
| InventorySelection.SelectsUnion | src/client.rs:320-404 | an input's files in the joint result are, in order, those it gets alone; the charge stays the whole discovery's |
| InventorySelection.LimitsAlone | src/inventory.rs:52-69 | an input within the combined limit is within it alone |
| InventorySelection.ResolveInputs | src/client.rs:266-316 | the step-by-step budget accepts exactly the inputs whose entries so far and retained text to come always fit |
| InventorySelection.BudgetedIsWithinLimit | src/inventory.rs:52-69 | what the budget accepts can never fail the inventory's own limit |
| InventorySelection.LoneInputIsAllowed | src/client.rs:266-316 | one input is allowed exactly when its entries, its own text and its scope's each keep within the limits |
| InventorySelection.FittingInputsAreAllowed | src/client.rs:266-316 | inputs whose text and entries fit together are always allowed |
| InventorySelection.DiscoveryBudget.ReserveEntry | src/client.rs:1498-1509 | one entry and its bytes are taken, or the reservation fails |
| PayloadChecks.Requirements.Insert | src/checks.rs:285-309 | agreeing origins merge, a conflict changes nothing and names what it conflicts with, and slots stay in order |
| PayloadChecks.Checks.constructor | src/checks.rs:312-325 | exactly the requested distinct hashers are started, on nothing |
| PayloadChecks.Checks.Update | src/checks.rs:382-386 | every active hasher takes the same slice |
| PayloadChecks.Checks.PrefixAnchor | src/checks.rs:363-379 | the digest so far of the algorithm `prefix_algorithm` chooses, and none when it chooses none |
| PayloadChecks.Checks.Finish | src/checks.rs:390-418 | success exactly when every requirement agrees with the whole payload; else the first disagreement, with all results |
| PayloadChecks.ResultsSatisfy | src/checks.rs:528-546 | results always satisfy `describes`, and satisfy the policy exactly when every requirement agrees |
| PayloadChecks.AnchorsAgree | src/checks.rs:479-513 | when everything agrees, the anchor taken just before finishing is `strong_anchor` of the outcome |
| PayloadChecks.PrefixIsFirstStrong | src/checks.rs:504-513 | the prefix algorithm is the first strong one requested, in the algorithms' order |
| PayloadChecks.SatisfiedIsRealised | src/checks.rs:541-546 | an outcome satisfies a policy exactly when some payload under some hash gives it with every requirement met |
| Delivery.CheckedBody.PollNext | src/checked_body.rs:176-260 | the object's poll is the value-level poll the laws below are about |
| Delivery.CheckedBody.Abort | src/checked_body.rs:78-86 | failing drops the pending chunk and the hashers and reports the counters |
| Delivery.CheckedBody.Finish | src/checked_body.rs:67-76 | a receipt exactly for a complete body |
| DeliveryLaws.PollKeeps | src/checked_body.rs:176-260 | every poll releases the next whole chunk or nothing, and keeps the hash at the released bytes plus the hashed part of the pending chunk |
| DeliveryLaws.ReachableBody | src/checked_body.rs:176-260 | in every reachable state the released bytes are whole chunks from the front of the source, in order |
| DeliveryLaws.CompletionIsEarned | src/checked_body.rs:190-211 | completion means the source ended cleanly and everything it gave was released, has the declared length and matches every requirement |
| DeliveryLaws.TerminalIsFinal | src/checked_body.rs:176-189 | once a body has failed or completed, any number of further polls release nothing and change nothing |
| DeliveryLaws.PollsCountDown | src/checked_body.rs:182-259 | each poll of a reading body takes exactly one off the polls it has left, or fails |
| DeliveryLaws.CutsDoNotMatter | src/checked_body.rs:182-259 | however a fitting payload is cut: same bytes, same verdict and counters, and exactly `ceil(L / 65536) + 1` polls for a hashed chunk, 2 for an unhashed one, 1 for an empty one, 1 for the end |
| DeliveryLaws.DriveToBreak | src/checked_body.rs:212-222 | a source that breaks: everything before is released, and the failure is the source's with exact counters |
| DeliveryLaws.DriveTooLong | src/checked_body.rs:223-240 | a source that outruns the declared length: what is released ends at the last chunk boundary not past it, and the failure counts the chunk that crosses it in full and the released bytes before it |
| DeliveryLaws.CutMattersPastTheLength | src/checked_body.rs:182-240 | the whole ending, counters included, is independent of the cut if and only if the payload can be counted and either keeps within its length or is the one byte past a length of none |
| DeliveryLaws.ErrorMattersFarPastTheLength | src/checked_body.rs:223-240 | the error alone is independent of the cut if and only if there is no declared length or the payload outruns it by at most one byte |
| Draining.WriteChunk | src/checked_body.rs:121-149 | however the writer splits its writes, it has taken exactly a prefix of the chunk; all of it exactly when every answer takes something and no more than is left; otherwise the first other answer names the error: a failure, a zero, or a count past what is left |
| Draining.Drain | src/checked_body.rs:97-167 | the writer holds exactly the first `accepted` released bytes; a body that ends well into a writer that behaves and flushes gives a receipt; every error is the body's own, the answer's or the flush's, and it is flushed only after completion |
| Proposals.Parse | cli/src/sidecar.rs:93-160 | accepts exactly the sidecars, and gives their records in order |
| SidecarLaws.LineIsRead | cli/src/sidecar.rs:104-133 | a record written as checksum tools do, in either case of each digit, labelled or not, with a path in either layout or none, is read back as that record |
| SidecarLaws.LineIsWritten | cli/src/sidecar.rs:104-133 | every line that is read as a record is that record so written |
| SidecarLaws.SidecarsAreRead | cli/src/sidecar.rs:93-160 | up to 256 such lines are read back as their records when no path has two digests of an algorithm and a record without a path is alone |
| Proposals.Bind | cli/src/sidecar.rs:163-180 | the digests of the records for a path, in order; none is an error |
| SidecarLaws.BoundToPath | cli/src/sidecar.rs:163-180 | what is bound to a path is the digests of its own records and of those without one |
| SidecarLaws.LoneDigestBinds | cli/src/sidecar.rs:163-180 | a lone digest without a path is bound to every path, a labelled one to its own only |
| Proposals.BoundOnce | cli/src/sidecar.rs:93-180 | a parsed sidecar gives a path at most one digest for each algorithm |
| Proposals.Preflight.Add | cli/src/selection.rs:81-98 | a conflict changes nothing, a repetition changes nothing, anything else is added at the end |
| Proposals.ProposalsAgree | cli/src/selection.rs:81-98 | at each proposal the preflight and the core accept or reject together and stay in step |
| Proposals.PreflightIsTheCore | cli/src/selection.rs:81-104 | over every sequence the same answers and the same set of digests and origins, at most fifteen of them |
| Proposals.OneSidecarAgrees | cli/src/sidecar.rs:163-180 | digests with distinct algorithms are all accepted, so one sidecar never conflicts with itself |
| Ustar.Preflight | scripts/release/artifact.py:325-377 | accepts exactly the archives; ends on every stream; never expands more than one byte past the bound |
| UstarBuilder.BuiltArchives | scripts/release/artifact.py:188-198 | a builder's archive of the five members within the bound is accepted exactly when no mode has a special bit |
| UstarBuilder.ReleasesAreTaken | scripts/release/artifact.py:188-198 | every release, the program with mode 0755 and the rest with 0644, is accepted within the bound |
| Ustar.Reader.ReadBounded | scripts/release/artifact.py:330-336 | gives the next bytes of the stream, or fails exactly when the bound is passed |
| Ustar.CheckHeader | scripts/release/artifact.py:355-372 | the checks in turn decide exactly a well-formed flat header of a member not yet seen |
| UstarBuilder.OctalIsReadBack | scripts/release/artifact.py:380-384 | a number written in octal, in any number of digits that holds it, with NULs and spaces around it, is read back |
| UstarBuilder.OctalIsWritten | scripts/release/artifact.py:380-384 | and nothing else is read as it |
| UstarBuilder.HeaderIs | scripts/release/artifact.py:355-369 | field by field what a header must be, its checksum being the sum with spaces in its own place |
| UstarBuilder.HeaderIsTaken | scripts/release/artifact.py:355-372 | a builder's header is taken, with its name and its size in whole blocks, exactly when its mode has none of the three special bits |
| Ustar.CheckEnd | scripts/release/artifact.py:342-353 | after a zero block: a second one and zeros to the end, within the bound |
| Ustar.SkipBody | scripts/release/artifact.py:373-377 | a padded body is passed over in full or the stream is too short |
| Ustar.ArchivesAreAccepted | scripts/release/artifact.py:325-377 | reading front to back accepts exactly the streams laid out as members and zeros |
| Ustar.ReadingIsUnique | scripts/release/artifact.py:325-377 | an archive has one reading: the same members in the same order and the same zeros |

## Left out

- ScatterSafety.RecordsAreTrue: says nothing of a file that has a mishap, or had one when it was resumed since its creation, because there the code can misrecord (`Mishaps.RunsGoWrong`, `Mishaps.OverstatedDownloadSucceeds`). That every such file misreads is not claimed.
- Scatter.Download.ScatterOne: runs one chunk without interleaving; the interleavings are those of the step system, which the loops refine section by section.
- Engine.ResumePlan: other local failures (opening, allocating, reading the file) end a run in the model; writes a cancelled task still has in flight are not modelled, nor is power loss, against which the code does not sync.
- ControlFile.Writer.Append: of the asynchronous file handle's buffering only the outcome is modelled: which of seek, write and flush reports a failure, and the prefix that is then in the file. Bytes that reach the file after the failure is reported are not modelled.
- Scatter.Download.Verify: runs without a fetcher's step between its sections; the interleavings are those of the step system. The verifier's own counter is modelled as the bytes fed to its hasher, which it equals whenever a section ends.
- Timeouts, back-off, progress reports and clocks: a timer is a free boolean or number of the step or call it affects.
- The network, the SDK and providers: a fetch yields any pieces of the resource and may end early or fail at any point.
- `ByteRange`, `Source` and `Options` are not part of this model as source types; a range is a pair of 64-bit offsets and its length their difference. The engine is retained but not compiled into the current library (src/lib.rs:111-131).
- `fetch_stream`, `distribute`, `copy_out`, `sweep_orphans`: plain copies and foreign effects that add no hard property.
- Glob.PatternMatches: the count is of cell and state updates; filling fresh rows with `false` is not counted.
- InventorySelection.SelectPaths: whether a path is a portable layout is an arbitrary predicate of the path, and pending includes, member metadata and provider resolution with its deadline are not modelled.
- PayloadChecks.Checks.Finish: hash algorithms, constant-width storage of digests and error texts are left out; a digest is its algorithm and bytes.
- Delivery.CheckedBody.PollNext: wakers and executor cooperation are not modelled; a source that is not ready is a pending poll.
- Draining.Drain: the writer is always ready; a writer that is pending only delays it.
- Proposals.Parse: reading the sidecar file is left out; the model starts from its text.
- Ustar.Preflight: decompression is left out: the stream is the gunzipped one, and a gzip error is not modelled; nor is the extraction that follows.
- `src/transfer.rs`, saved runs and publication in `src/client.rs`, `src/input.rs`, CLI arguments, output and the release workflow: not modelled.
