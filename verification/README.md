# Verified models of sigmacatch

sigmacatch captures events that match SigmaHQ rules, stores them as regression
data and contributes them to a git fork. This project models its most intricate
parts in Dafny and proves what they promise, over every input, every run and
every reachable state.

* **EVTX writer** (`Bytes`, `EvtxTree`, `EvtxEncoder`, `EvtxWriter`,
  `EvtxReader`, `EvtxRoundTrip`, `EvtxMeaning`, `EvtxTheorems`, `EvtxFile`). An
  XML event tree becomes a 64 KiB chunk behind a file header: a recursive
  encoder, a string table laid out after the record, references patched in
  place, two checksums. `EvtxReader` is an independent reader; the main result
  is that it returns the tree. Tokens follow section 2.2.12 of MS-EVEN6 in the
  on-disk form where names are chunk offsets.
* **Timestamps** (`Calendar`, `Filetime`, `FiletimeTheorems`,
  `FiletimeMeaning`). ISO text to FILETIME, related to section 2.3.3 of MS-DTYP,
  with the day formula proved against counting days.
* **Tail and audit grouping** (`Lines`, `AuditGroups`, `AuditTail`,
  `TailMeaning`). A polling reader of a growing, rotating file composed with a
  grouper by audit id, refining "split into lines, then group by id" for every
  schedule of reads and idle polls.
* **Contribution** (`CommitGraph`, `GitRepo`, `GitTheorems`, `GitMeaning`).
  Commit rule by rule, push once, roll back on failure, over a commit graph with
  local, tracking and remote refs; which reads, writes and pushes fail is an
  input.
* **Pending scan** (`PendingScan`, `PendingMeaning`). Which rules already have
  data on some branch.
* **Detection and regression run** (`RuleLife`, `RunLoop`, `RunTheorems`,
  `RunMeaning`). The life cycle of a rule, the loop that hands the pipeline to a
  cycle and takes it back, and what does not depend on how events fall into
  cycles.
* **Compiled-rule cache** (`Fingerprint`, `HirCache`, `HirMeaning`). Starting
  from a cache file agrees with compiling afresh.
* **Parsers and printers** (`DnsName`, `AuditFields`, `YamlText`, `YamlBlocks`,
  `SigmaIndent`, `InfoYml`, `YamlFixer`, `FixerLayout`, `InfoFixer`,
  `FixerPasses`, `InfoMeaning`). DNS question names, audit fields,
  re-indentation of info documents and the fixer built on it.

`Options` declares the one option type, and `Filters` says by positions what it
means to keep some elements of a sequence.

Classes stand where the program updates objects, arrays where it writes
buffers, and functions where it computes. Each method is proved against a
specification function, and the theorems are about those functions. The
`...Meaning` modules tie the functions to what they stand for, without using
them: by positions, bytes and characters.

`dafny verify dfyconfig.toml` checks everything.

## Where the code and its documentation differ

The models follow the code.

* The epoch constant is in 100-ns ticks but is added to nanoseconds
  (`sigmacatch/src/regression/evtx_writer.rs:54,186`). Every value is low by
  115280288640000000 ticks, and what is refused as "before 1601" is everything
  before late April 1966: `FiletimeTheorems.ProgramValue`,
  `FiletimeTheorems.RefusedAfter1601`.
* The zone is written as optional (`sigmacatch/src/regression/evtx_writer.rs:141`).
  A text with a T that shows none is refused as trailing garbage; one with no T
  at all is accepted as UTC, and an offset it shows is ignored:
  `FiletimeTheorems.ZoneIsRequired`, `FiletimeTheorems.ZonelessStems`.
* Rules are blocked after N "consecutive" failures
  (`sigmacatch/src/regression/mod.rs:318-320`); the count is never reset, so it
  is N failing cycles in all: `RuleLife.LifeCycle`, `RuleLife.GapsDoNotReset`.
* Fully invalid file lists are said to be skipped
  (`sigmacatch/src/repo/mod.rs:875`); they add no commit but count as committed,
  so a push follows: `GitTheorems.PushAttempted`,
  `GitTheorems.InvalidListStillPushes`.
* The rollback is said to keep the branch from diverging
  (`sigmacatch/src/repo/mod.rs:877-880`). It does not when the remote took the
  push and only its reply was lost, and it does not take back commits made while
  HEAD was elsewhere: `GitTheorems.UploadKeepsFastForward`,
  `GitTheorems.LostReplyBreaksFastForward`, `GitTheorems.RollbackRestores`,
  `GitTheorems.RollbackLeavesCommits`.
* A commit is said to preserve existing files
  (`sigmacatch/src/repo/porcelain.rs:217-218`). Paths that are not UTF-8 are
  lost and unusual modes become plain ones: `GitTheorems.OtherPathsKept`,
  `GitTheorems.CommitLosesPaths`.
* The warning that events are dropped during generation
  (`sigmacatch/src/runner.rs:423-427`) cannot be given: `RunLoop.RunDetection`.
* A reload tolerates rules that do not compile but still saves the rest under
  the key of the whole set (`sigmacatch/src/detection/mod.rs:364-385`), so the
  next start accepts what a cold compile refuses: `HirCache.ReloadKeepsTrust`,
  `HirCache.LenientReloadIsVisible`, `HirCache.LenientReloadOccurs`. A run that starts strictly and only drops
  rules never gets there: `HirCache.RunsAreFaithful`.
* The fixer takes a line's place from the first canonical line with the same
  key, so a list item named like another list's first key has two places:
  `InfoFixer.CanonicalIsStableUnlessClash`, `InfoFixer.ClashOccurs`.
* The fixer is said to re-indent to the canonical style with values verbatim
  (`sigmacatch/src/bin/regressiondata-check.rs:936-937`). A pipeline or filter
  that the file quotes, or follows with a comment, is no line of the canonical
  text, and is moved to column 0, out of its list: `FixerPasses.ItemStays`,
  `FixerPasses.QuotedItemFallsOut`.
* A rotation discards the partial line and the open audit group, and stopping
  the tail leaves the last group unsent: `AuditTail.TailState.Rotate`,
  `AuditTail.RunTail`.

## Model

| member | source | states |
|---|---|---|
| EvtxEncoder.Encoder.EmitName | sigmacatch/src/regression/evtx_writer.rs:513-519 | a name is interned at its first use only, its reference is recorded at the current end of the buffer, and four zero bytes are appended there |
| EvtxEncoder.Encoder.EmitValue | sigmacatch/src/regression/evtx_writer.rs:521-530 | appends type bytes, the unit count truncated to 16 bits and every unit little-endian |
| EvtxEncoder.Encoder.EncodeElement | sigmacatch/src/regression/evtx_writer.rs:461-511 | fails exactly when the subtree holds a node that is neither element nor text; otherwise appends the element's tokens, keeping buffer, interned names, seen set and references in step |
| EvtxEncoder.Encoder.EncodeChildren | sigmacatch/src/regression/evtx_writer.rs:488-506 | the children in order, blank text skipped, stopping at the first unsupported node |
| EvtxTree.FirstUsesAreTheNames | sigmacatch/src/regression/evtx_writer.rs:513-519 | the interned names are exactly the referenced names, each once |
| EvtxTree.FirstUsesInOrder | sigmacatch/src/regression/evtx_writer.rs:513-516 | names are interned in the order of their first use |
| EvtxTree.SlotBytes | sigmacatch/src/regression/evtx_writer.rs:357-363 | every recorded reference sits on four bytes: zero before patching, the offset of its own name afterwards |
| EvtxTree.SlotsApart | sigmacatch/src/regression/evtx_writer.rs:517-518 | no two references share a byte |
| EvtxTree.OutsideSlots | sigmacatch/src/regression/evtx_writer.rs:357-363 | patching changes no byte outside the recorded references |
| EvtxWriter.Hash16 | sigmacatch/src/regression/evtx_writer.rs:431-437 | wrapping 32-bit arithmetic returns the polynomial hash over unbounded integers modulo 2^16 |
| EvtxWriter.WriteStringEntry | sigmacatch/src/regression/evtx_writer.rs:417-428 | one entry (link, hash, length, units, terminator) is written in place and nothing outside it changes |
| EvtxWriter.PlaceEntries | sigmacatch/src/regression/evtx_writer.rs:391-402 | succeeds exactly when the whole table fits the chunk, and then maps every name to the place of its entry |
| EvtxWriter.WriteEntries | sigmacatch/src/regression/evtx_writer.rs:403-406 | every entry lies at its place, linked to the next and the last to 0; nothing else changes |
| EvtxWriter.WriteBuckets | sigmacatch/src/regression/evtx_writer.rs:407-413 | bucket 0 holds the list head, the other 63 are zero, nothing else changes |
| EvtxWriter.BuildStringTable | sigmacatch/src/regression/evtx_writer.rs:385-415 | the table is written exactly when it fits; an overflow writes nothing |
| EvtxWriter.PatchRefs | sigmacatch/src/regression/evtx_writer.rs:357-363 | every placeholder becomes the chunk offset of its name and nothing else changes; it can fail only on a name without an entry |
| EvtxWriter.AllInterned | sigmacatch/src/regression/evtx_writer.rs:356-363 | every referenced name has an entry, so the missing-entry error cannot be reached |
| EvtxWriter.FillChunk | sigmacatch/src/regression/evtx_writer.rs:338-356 | header, record and string table are in place, references still blank, and every byte outside the named fields is zero |
| EvtxWriter.Seal | sigmacatch/src/regression/evtx_writer.rs:365-371 | both stored checksums match the bytes they cover in the finished chunk, and only three header words change |
| EvtxWriter.BuildChunk | sigmacatch/src/regression/evtx_writer.rs:294-374 | refuses a document for exactly one of four reasons, decided on the document alone; otherwise the chunk is the sealed image of the document |
| EvtxRoundTrip.AttrsBack | sigmacatch/src/regression/evtx_writer.rs:482-486 | a reader positioned on the attribute tokens returns the attributes |
| EvtxRoundTrip.ElementBack | sigmacatch/src/regression/evtx_writer.rs:460-511 | a reader positioned on an element's tokens, with the references resolvable, returns the normalized element and stops at their end |
| EvtxRoundTrip.ChildrenBack | sigmacatch/src/regression/evtx_writer.rs:490-506 | the same for a list of children |
| EvtxTheorems.ListBack | sigmacatch/src/regression/evtx_writer.rs:403-411 | following the links from any entry visits the remaining names in table order; every link is exactly the place of the next entry, and the last one is 0 |
| EvtxTheorems.StringTable | sigmacatch/src/regression/evtx_writer.rs:385-415 | in a finished chunk the list of bucket 0 holds every distinct name once in first-use order and ends in a link of 0, and every stored reference resolves to the name it was written for |
| EvtxTheorems.EntriesDisjoint | sigmacatch/src/regression/evtx_writer.rs:391-402 | string entries do not overlap each other, the record or the end of the chunk |
| EvtxTheorems.LongTextIsRefused | sigmacatch/src/regression/evtx_writer.rs:521-526 | a document with a text of 2^16 units or more, whose length field would be truncated, is always refused |
| EvtxTheorems.CastsAreExact | sigmacatch/src/regression/evtx_writer.rs:310-428 | in an accepted chunk no cast loses anything: text lengths, name lengths, record sizes, the fields of the headers, the links of the entries and the patched offsets all equal the exact numbers |
| EvtxTheorems.Fields | sigmacatch/src/regression/evtx_writer.rs:310-354 | the fixed fields of a finished chunk read back as they were computed: the four record numbers, header size, last record offset, free space, record size, id, timestamp and the template words |
| EvtxTheorems.SealedMatches | sigmacatch/src/regression/evtx_writer.rs:365-371 | a reader that recomputes both checksums accepts the chunk |
| EvtxTheorems.RoundTrip | sigmacatch/src/regression/evtx_writer.rs:294-374 | an independent reader that checks both checksums, walks the hash buckets, follows the definition offset and resolves every name returns the record id, the timestamp and a tree that reflects the document: the same names and texts, every attribute in order but those called xmlns or xmlns:..., every child in order but white text |
| EvtxMeaning.NormReflects | sigmacatch/src/regression/evtx_writer.rs:461-511 | the tree that is written reflects the document, said by the positions of attributes and children and by the code units of names and white space |
| EvtxMeaning.KeptIsFilter | sigmacatch/src/regression/evtx_writer.rs:462-465 | the attributes written are those whose name neither equals "xmlns" nor starts with "xmlns:", in order and as often as they occur |
| EvtxTheorems.EntryHash | sigmacatch/src/regression/evtx_writer.rs:417-428 | every string entry of a finished chunk holds the low 16 bits of the hash of its name, and ends in a zero unit |
| EvtxTheorems.HashWeighs | sigmacatch/src/regression/evtx_writer.rs:431-437 | the hash is the sum of the code units, each weighed by a power of 65599, the last by 1 |
| EvtxTheorems.AcceptedExactly | sigmacatch/src/regression/evtx_writer.rs:294-330 | a document is accepted if and only if its root is called Event, no node in it is a comment or a processing instruction, and record and string table end by byte 65536 |
| EvtxTheorems.EmptyEventAccepted | sigmacatch/src/regression/evtx_writer.rs:294-330 | the empty event is accepted |
| EvtxTheorems.WriteEvent | sigmacatch/src/regression/evtx_writer.rs:102-107 | exactly which record ids and documents are refused and with which error, and that every other one is read back from the chunk |
| EvtxFile.BuildFileHeader | sigmacatch/src/regression/evtx_writer.rs:280-292 | the file header counts one chunk, names the next record id and seals its first 120 bytes; all other bytes are zero |
| EvtxFile.FileBack | sigmacatch/src/regression/evtx_writer.rs:108-113 | a reader that checks the file header and then reads the chunk behind it returns what the chunk holds |
| EvtxFile.WriteEvtx | sigmacatch/src/regression/evtx_writer.rs:96-117 | a refused document leaves the file on disk alone; any other is stored unless the write fails, and a stored file is read back, header and chunk, as the record id, the timestamp and a tree that reflects the document |
| Calendar.DayNumberNext | sigmacatch/src/regression/evtx_writer.rs:173-181 | the closed day formula grows by one when the calendar rule moves to the next day |
| Calendar.DayNumberCounts | sigmacatch/src/regression/evtx_writer.rs:173-181 | between any two valid dates the closed formula equals counting days one at a time |
| Calendar.DayNumberFromEpoch | sigmacatch/src/regression/evtx_writer.rs:173-181 | counted from 1970-01-01, before or after it |
| Filetime.ParseFractionNs | sigmacatch/src/regression/evtx_writer.rs:228-244 | returns the first nine digits after the point, scaled to nanoseconds |
| Filetime.FractionStep | sigmacatch/src/regression/evtx_writer.rs:236-240 | no step of the accumulation leaves 32 bits |
| Filetime.ScaledBelowSecond | sigmacatch/src/regression/evtx_writer.rs:239-243 | the scaled fraction stays below 10^9 |
| Filetime.ParseTimezone | sigmacatch/src/regression/evtx_writer.rs:246-278 | returns the first zone marker at or after the T, its offset and where it ends |
| Filetime.SystemTimeToFiletime | sigmacatch/src/regression/evtx_writer.rs:142-193 | the program's result or error, as a function of the text |
| Filetime.TicksFit | sigmacatch/src/regression/evtx_writer.rs:183-192 | every accepted value fits 64 bits, so the final cast is exact |
| FiletimeTheorems.EpochDeltaIsInTicks | sigmacatch/src/regression/evtx_writer.rs:53-54 | the epoch constant is the 1601-1970 gap in 100-ns ticks, a hundredth of what is added to nanoseconds |
| FiletimeTheorems.Shortfall | sigmacatch/src/regression/evtx_writer.rs:184-186 | the value computed is 115280288640000000 ticks below the FILETIME of section 2.3.3 of MS-DTYP, and with the delta in nanoseconds it equals it |
| FiletimeTheorems.ProgramValue | sigmacatch/src/regression/evtx_writer.rs:183-192 | a well-formed text is accepted if and only if its true tick count reaches that shortfall, and the value is then below the true one by exactly that |
| FiletimeTheorems.DependsOnInstantOnly | sigmacatch/src/regression/evtx_writer.rs:183-192 | equal instants give equal values, later instants never smaller ones, and instants a tick apart strictly larger ones |
| FiletimeTheorems.RenderBack | sigmacatch/src/regression/evtx_writer.rs:142-193 | every valid spelling, with any fraction length and any offset, is read as local time less offset |
| FiletimeTheorems.OffsetsAgree | sigmacatch/src/regression/evtx_writer.rs:246-278 | two spellings of one instant agree, whatever their offsets and however their fractions are written |
| FiletimeTheorems.RefusedAfter1601 | sigmacatch/src/regression/evtx_writer.rs:187-191 | a date refused as before 1601 although it is 1960-01-01 |
| FiletimeTheorems.ZoneIsRequired | sigmacatch/src/regression/evtx_writer.rs:165-171 | a text that shows no zone is accepted if and only if it holds no T at all, and is otherwise refused as trailing garbage, although the comment marks the zone optional |
| FiletimeTheorems.NoTMeansUtc | sigmacatch/src/regression/evtx_writer.rs:246-252 | without a T nothing after the fraction is looked at: the text is taken as UTC |
| FiletimeTheorems.ZonelessStems | sigmacatch/src/regression/evtx_writer.rs:246-278 | for every date: refused with a T and no zone, accepted with a space for the T, and then an offset that is written is ignored |
| FiletimeMeaning.SecondLater | sigmacatch/src/regression/evtx_writer.rs:173-186 | for any fraction and zone, the next second on the civil clock, with its carries into minute, hour, day, month and year, is read as an instant later by exactly 10^9 nanoseconds |
| FiletimeMeaning.MinuteEast | sigmacatch/src/regression/evtx_writer.rs:184-186 | one more minute of eastern offset makes the same local time earlier by exactly 60 seconds; offset zero is UTC |
| FiletimeMeaning.FractionAdds | sigmacatch/src/regression/evtx_writer.rs:228-244 | a fraction adds its first nine digits, from tenths of a second to nanoseconds |
| FiletimeMeaning.OriginIsZero | sigmacatch/src/regression/evtx_writer.rs:173-186 | "1970-01-01T00:00:00Z" is instant 0 |
| FiletimeMeaning.DateAccepted | sigmacatch/src/regression/evtx_writer.rs:196-226 | date and time are accepted if and only if the fourteen digits are digits and month, day, hour, minute and second lie within their literal bounds, leap years included |
| FiletimeMeaning.ZoneAccepted | sigmacatch/src/regression/evtx_writer.rs:246-278 | after date, time and fraction, Z or z must end the text, and a sign must be followed by hours up to 23, a colon and minutes up to 59 |
| Lines.SplitIsExact | sigmacatch/src/inputs/tail.rs:206-219 | complete lines followed by the rest are the bytes, lines end at their only newline and the rest has none |
| Lines.SplitIsUnique | sigmacatch/src/inputs/tail.rs:206-219 | there is only one such split |
| AuditGroups.StreamIsBatch | sigmacatch/src/inputs/auditd.rs:273-353 | feeding items one at a time closes and holds exactly the groups of the batch definition |
| AuditGroups.GroupsAreFaithful | sigmacatch/src/inputs/auditd.rs:328-340 | the groups hold every record once, in order, and a group has one id |
| AuditGroups.IdleOnlyRefines | sigmacatch/src/inputs/auditd.rs:342-346 | idle polls only split runs: joining neighbours of one id gives the grouping without idle polls |
| AuditGroups.GroupByPrepend | sigmacatch/src/inputs/auditd.rs:332-338 | a run put in front of other records joins their first group exactly when the ids agree |
| AuditTail.AuditdHandler.FlushGroup | sigmacatch/src/inputs/auditd.rs:273-324 | one event per record of the open group, each with all lines and all records of the group; the group is then empty |
| AuditTail.AuditdHandler.OnLine | sigmacatch/src/inputs/auditd.rs:328-340 | an unparsable line changes nothing; a record of the open id joins the group; another id emits the group and opens a new one |
| AuditTail.AuditdHandler.OnIdle | sigmacatch/src/inputs/auditd.rs:342-346 | an idle poll emits the open group |
| AuditTail.AuditdHandler.OnRotate | sigmacatch/src/inputs/auditd.rs:348-352 | a rotation drops the open group without emitting it |
| AuditTail.Sender.SendAll | sigmacatch/src/inputs/tail.rs:253-260 | a prefix of the events is sent, all of them unless the receiver is gone |
| AuditTail.TailState.DrainOne | sigmacatch/src/inputs/tail.rs:212-217 | one line moves from the pending bytes to the handler with every byte and record accounted for |
| AuditTail.TailState.DrainLines | sigmacatch/src/inputs/tail.rs:207-219 | afterwards no complete line is pending, unless the receiver is gone |
| AuditTail.TailState.Poll | sigmacatch/src/inputs/tail.rs:180-204 | one poll: rotation, read error, idle, or new bytes split into lines, with the complete new state; a failed reopen changes nothing |
| AuditTail.TailState.Rotate | sigmacatch/src/inputs/tail.rs:187-190 | the partial line and the open group are discarded and the tail starts over |
| AuditTail.RunTail | sigmacatch/src/inputs/tail.rs:110-148 | the loop polls until the first tick at which it is told to stop or the receiver is gone, or to the end of the schedule, and sends nothing after a refused send; what it sent is a prefix of what its polls emit as a whole, and all of it while the receiver lives; stopping does not flush |
| AuditTail.SpansAreSeparate | sigmacatch/src/inputs/tail.rs:187-190 | over any schedule a reopened rotation ends a span of bytes: everything the earlier spans emit stays emitted, and the later polls do what they would do as a fresh tail |
| AuditTail.SpanIsReference | sigmacatch/src/inputs/tail.rs:180-219 | in every span of every schedule the records grouped are those of the complete lines of its bytes, and joining neighbours of one id gives the grouping without idle polls |
| AuditTail.LineConserved | sigmacatch/src/inputs/tail.rs:207-219 | delivered lines followed by pending bytes stay equal to the bytes read |
| AuditTail.LineEmits | sigmacatch/src/inputs/auditd.rs:328-340 | what a line makes the handler emit is what the reference grouping closes |
| AuditTail.TailRefines | sigmacatch/src/inputs/tail.rs:180-219 | with a live receiver the tail refines "split into lines, then group by id": lines, groups, sent events and records all equal the reference, for any chunking of reads |
| AuditTail.ScheduleIndependent | sigmacatch/src/inputs/tail.rs:180-204 | two tails over the same bytes agree on lines, records and merged groups, however reads and idle polls fell |
| AuditTail.RecordsConserved | sigmacatch/src/inputs/auditd.rs:273-324 | events sent, followed by the open group, are the parsed records in order: none lost, none twice |
| TailMeaning.EventCarries | sigmacatch/src/inputs/auditd.rs:273-324 | the event of a record carries that record, the lines of its group one after the other in order of arrival, and all records of the group in that order |
| TailMeaning.EventPlace | sigmacatch/src/inputs/auditd.rs:273-324 | which event of a run stands for which record of which group |
| TailMeaning.TailTexts | sigmacatch/src/inputs/auditd.rs:273-340 | the texts of the groups sent, one after the other, followed by the text of the open group, are exactly the parsable complete lines of the bytes read, in order |
| TailMeaning.SpanTexts | sigmacatch/src/inputs/tail.rs:180-219 | the same of every span of every schedule |
| GitRepo.GitRepo.GitAdd | sigmacatch/src/repo/porcelain.rs:197-213 | fails exactly when an existing path cannot be read or the index cannot be written, leaving the index as it was; otherwise the index becomes exactly the existing files at or under the given paths |
| GitRepo.GitRepo.GitCommit | sigmacatch/src/repo/porcelain.rs:219-266 | succeeds or fails as the index, HEAD and the disk decide, an unchanged tree being an error; on success HEAD moves to a commit over the old tip whose tree is the parent tree overlaid with the index, and on failure nothing moves |
| GitRepo.GitRepo.GitCommitFiles | sigmacatch/src/repo/mod.rs:839-870 | stage and commit one batch, or nothing when no path is valid; which of them fails, with which error, follows from the inputs, and an error leaves all refs alone |
| GitRepo.GitRepo.ResetWorkingBranch | sigmacatch/src/repo/mod.rs:704-732 | the working branch, and no other ref, is put back whenever it is configured and the write goes through; otherwise nothing changes |
| GitRepo.GitRepo.PushBranch | sigmacatch/src/repo/mod.rs:997-1002 | the remote takes the branch exactly when it is a fast-forward and the transport brings it there, and then holds the local tip |
| GitRepo.GitRepo.Push | sigmacatch/src/repo/mod.rs:961-1003 | nothing is sent offline, without contribution, or while HEAD is elsewhere; otherwise the push ends as remote and transport make it end |
| GitRepo.GitRepo.CreateBranch | sigmacatch/src/repo/branch.rs:64-100 | the branch starts at its tracking ref, or at HEAD when there is none, and HEAD moves to it only after the ref is written; it fails exactly when a ref cannot be read, resolved or written, and a tracking ref that does not resolve is never replaced by HEAD |
| GitRepo.GitRepo.CommitAll | sigmacatch/src/repo/mod.rs:903-927 | the batches are committed in order until the first that fails or before which an abort is asked for; it says so exactly when that happened, and an abort is never asked for before something counts as committed |
| GitRepo.GitRepo.UploadRuleBatches | sigmacatch/src/repo/mod.rs:888-957 | how an upload ends and its complete effect on local refs and remote, both fixed by the batches, the abort requests, the mode and what fails: every failed commit or push is followed by the rollback, which is written unless its ref write fails |
| GitTheorems.OneOutcome | sigmacatch/src/repo/mod.rs:888-957 | the same upload with the same inputs has one end and one final state |
| GitTheorems.PushAttempted | sigmacatch/src/repo/mod.rs:903-944 | a push is attempted if and only if contribution is on, no batch fails or is stopped before, and some file list is non-empty, valid paths or not |
| GitTheorems.InvalidListStillPushes | sigmacatch/src/repo/mod.rs:903-944 | an upload of one list holding only ".." makes no commit and still pushes |
| GitTheorems.UploadOnBranch | sigmacatch/src/repo/mod.rs:888-957 | the tip after an upload is a straight line of non-empty commits over the old one, or the old one after a rollback |
| GitTheorems.StepsAtHead | sigmacatch/src/repo/mod.rs:903-927 | the batches commit where HEAD is, on a branch or detached, and nowhere else; an unborn HEAD takes none |
| GitTheorems.RollbackRestores | sigmacatch/src/repo/mod.rs:917-944 | after any upload that failed, at a commit or at the push, all local refs are where they were if and only if the rollback could be written with HEAD on the working branch, or HEAD is unborn, or the commits changed nothing |
| GitTheorems.RollbackLeavesCommits | sigmacatch/src/repo/mod.rs:917-924 | a failed and rolled back upload, with nothing wrong anywhere, that leaves a commit behind: HEAD is detached and the second batch has nothing left to commit |
| GitTheorems.UploadKeepsFastForward | sigmacatch/src/repo/mod.rs:888-957 | wherever HEAD is, the remote tip stays an ancestor of the local tip if and only if it is not the case that the remote took the push, its reply was lost and the rollback took back a real commit |
| GitTheorems.LostReplyBreaksFastForward | sigmacatch/src/repo/mod.rs:928-955 | that case occurs: an upload of one file after which the remote tip is no ancestor of the local tip |
| GitTheorems.NeverASibling | sigmacatch/src/repo/mod.rs:903-957 | the commits of any prefix of the batches are a fast-forward of the remote |
| GitTheorems.RunKeepsFastForward | sigmacatch/src/repo/mod.rs:888-957 | through any sequence of uploads, aborts, commit failures and answered push failures, wherever HEAD is, the remote tip stays an ancestor of the local tip |
| GitTheorems.PushIsTaken | sigmacatch/src/repo/mod.rs:928-944 | on a branch with the remote tip behind it a push is never turned down as a sibling: it succeeds if and only if the transport works, and the remote then holds the new tip |
| GitTheorems.CreateIsFastForward | sigmacatch/src/repo/branch.rs:64-100 | a fresh branch is a fast-forward exactly when its base has the remote tip behind it; a current tracking ref suffices |
| GitTheorems.CreatedBranchIsNeverRejected | sigmacatch/src/repo/branch.rs:57-100 | from a branch created over a current tracking ref, through any uploads whose replies arrive, every later push is a fast-forward and ends as the transport alone decides |
| GitTheorems.StaleTrackingIsASibling | sigmacatch/src/repo/mod.rs:518-527 | without the tracking ref a fresh branch can be a sibling of the remote tip |
| GitTheorems.HeadElsewhereKeepsCommits | sigmacatch/src/repo/mod.rs:917-924 | with HEAD on another branch or detached the commits land there, nothing is pushed, and no rollback takes them back |
| GitTheorems.OtherPathsKept | sigmacatch/src/repo/porcelain.rs:245-253 | after any number of commits a path no batch stages is kept exactly when its name is UTF-8 and unchanged exactly when its mode is a plain one |
| GitTheorems.CommitLosesPaths | sigmacatch/src/repo/porcelain.rs:245-253 | both losses occur in one commit: a path that is not UTF-8 is gone, and an unusual mode has become a plain one |
| GitTheorems.StagedPathsCommitted | sigmacatch/src/repo/porcelain.rs:197-253 | a path some batch stages ends up with the content it has on disk |
| GitMeaning.ValidPathsAre | sigmacatch/src/repo/mod.rs:820-836 | the paths let through are those of the list that hold no NUL and no two dots in a row, in its order |
| GitMeaning.NamedFilesAreCommitted | sigmacatch/src/repo/porcelain.rs:197-253 | a file that some list names, or that lies under a directory some list names, is committed with the content it has on disk and the plain mode it has on the branch, or on disk when it is new |
| GitMeaning.UnnamedFilesStay | sigmacatch/src/repo/porcelain.rs:245-253 | any other path is kept exactly when its name is UTF-8 and unchanged exactly when its mode is a plain one, once some list has an allowed path |
| GitMeaning.NewFileIsCommitted | sigmacatch/src/repo/mod.rs:839-870 | with nothing wrong, a batch that names a file new to the branch is committed |
| GitMeaning.OneCommitPerRule | sigmacatch/src/repo/mod.rs:903-927 | the branch gets one commit for each batch with an allowed path, in order, each called after its rule |
| GitMeaning.NonemptyAre | sigmacatch/src/repo/mod.rs:905-910 | the batches gone through are those with a file list, in order |
| GitMeaning.AbortedAfterACommit | sigmacatch/src/repo/mod.rs:909-916 | an upload is broken off only when asked to, before a batch with files and after another one with files |
| CommitGraph.AncestorTransitive | sigmacatch/src/repo/branch.rs:57-63 | ancestry composes |
| CommitGraph.AncestorAntisymmetric | sigmacatch/src/repo/mod.rs:872-880 | two commits that are ancestors of each other are equal, so taking back a commit really loses it |
| CommitGraph.ChainIsAncestry | sigmacatch/src/repo/mod.rs:903-927 | a straight line of commits is ancestry |
| PendingScan.Scan.CollectTree | sigmacatch/src/repo/mod.rs:1074-1133 | one tree adds exactly the matching ids above the depth limit to the two sets; an unreadable tree ends the scan |
| PendingScan.Scan.PendingRuleIds | sigmacatch/src/repo/mod.rs:542-591 | good ids less broken ids over all branches, failing exactly when some branch cannot be read; nothing offline |
| PendingScan.FoundIsReach | sigmacatch/src/repo/mod.rs:1068-1089 | the recursive walk finds exactly the ids of matching files at most 32 levels down |
| PendingScan.FoundOnIsSomeTip | sigmacatch/src/repo/mod.rs:555-576 | an id is found exactly when some branch has such a file under its regression_data tree |
| PendingScan.SkipSet | sigmacatch/src/repo/mod.rs:584-590 | a rule is skipped exactly when it has good data on some branch and broken data on none |
| PendingScan.OrderIndependent | sigmacatch/src/repo/mod.rs:553-584 | the order in which branches are listed plays no part |
| PendingMeaning.SkippedExactly | sigmacatch/src/repo/mod.rs:542-591 | a rule is skipped if and only if some branch holds a sound file named after it under regression_data, at most 32 directories down, and no branch an unsound one |
| PendingMeaning.StemMeaning | sigmacatch/src/repo/mod.rs:1091-1092 | a file is named after a rule when its name is the id, or the id and one extension |
| PendingMeaning.SoundMeaning | sigmacatch/src/repo/mod.rs:1093-1125 | an EVTX file is sound when it can be read, is at most 64 MiB and decodes to at least one event; other files always are |
| PendingMeaning.BrokenIsNotSkipped | sigmacatch/src/repo/mod.rs:1094-1119 | an EVTX file that cannot be read or decoded, or has no events, keeps its rule out of the skip set |
| RuleLife.SigmahqRegression.NoteGenerationFailure | sigmacatch/src/regression/mod.rs:323-338 | a failure counts once per cycle; reaching the bound forgets the count, retires and blocks the rule |
| RuleLife.SigmahqRegression.Add | sigmacatch/src/regression/mod.rs:365-450 | which alerts write files, and the whole new state for each outcome |
| RuleLife.SigmahqRegression.TakeBlocked | sigmacatch/src/regression/mod.rs:307-309 | the blocked ids are handed over once |
| RuleLife.SigmahqRegression.BeginCycle | sigmacatch/src/regression/mod.rs:314-316 | only the per-cycle failures are forgotten |
| RuleLife.RulesAreIndependent | sigmacatch/src/regression/mod.rs:323-450 | the shared store treats every rule as if it were alone |
| RuleLife.SettledOnce | sigmacatch/src/regression/mod.rs:365-437 | over every history nothing is generated twice, blocked twice, or both |
| RuleLife.RetiredIsInert | sigmacatch/src/regression/mod.rs:368-370 | once a rule is settled an attempt on it changes nothing |
| RuleLife.FailCyclesMeaning | sigmacatch/src/regression/mod.rs:311-338 | the failing cycles of a rule are those in which some attempt on it failed |
| RuleLife.StatusMeaning | sigmacatch/src/regression/mod.rs:323-437 | the status of a rule said in terms of its failing cycles |
| RuleLife.LifeCycle | sigmacatch/src/regression/mod.rs:323-437 | a rule is blocked if and only if some attempt is the first failure of its N-th distinct failing cycle, and generated if and only if some attempt writes its data before that |
| RuleLife.GapsDoNotReset | sigmacatch/src/regression/mod.rs:318-333 | two failures with a clean cycle between them block a rule at N = 2, although the comment says consecutive |
| RunMeaning.NilIsInert | sigmacatch/src/regression/mod.rs:365-372 | nothing is ever generated, blocked or retired under the nil id |
| RunLoop.DetectionEngine.ProcessEvents | sigmacatch/src/detection/mod.rs:554-612 | every queued event is evaluated once, in order, and its alerts appended in order |
| RunLoop.DetectionEngine.GetAlerts | sigmacatch/src/detection/mod.rs:615-619 | the alerts are drained and counted |
| RunMeaning.AlertsAreMatches | sigmacatch/src/detection/mod.rs:575-609 | the alerts are one for each place of an event and a rule that matches it, and no other, event by event and rule by rule |
| RunMeaning.AlertMeaning | sigmacatch/src/detection/mod.rs:575-609 | there is an alert for an id and an event if and only if the event is in the queue and some rule with that id matches it |
| RunLoop.Pipeline.ProcessAndGenerate | sigmacatch/src/runner.rs:730-783 | one cycle: the queue is evaluated, rules are generated, counted or blocked, and the settled ones leave the engine |
| RunLoop.Queue | sigmacatch/src/runner.rs:414-428 | a received event goes to the engine; only with the pipeline away would it count as dropped |
| RunLoop.RunTick | sigmacatch/src/runner.rs:432-460 | a tick runs exactly one cycle, over the events queued since the last, on the pipeline and keeps the record of the run |
| RunLoop.RunArms | sigmacatch/src/runner.rs:391-470 | the loop takes one arm after the other up to the first that ends it; at every loop head the slot is full, unless a cycle panicked |
| RunLoop.RunDetection | sigmacatch/src/runner.rs:391-595 | the run ends at the first shutdown, closed channel, panic or last allowed cycle and no earlier; no event is dropped; without a panic its cycles are the received events split at the ticks, then the open rest with what is drained, so every event is evaluated exactly once in arrival order, and both counters are exact |
| RunTheorems.CyclesPartition | sigmacatch/src/runner.rs:391-470 | the cycles followed by the events still open are the events received, in order |
| RunTheorems.UploadsAreBatches | sigmacatch/src/runner.rs:432-460 | the batches handed over cycle by cycle are the batches of the run |
| RunMeaning.CyclesLieBetweenTicks | sigmacatch/src/runner.rs:391-460 | there is one cycle for each tick, holding exactly the events received since the tick before |
| RunMeaning.ReceivedAre | sigmacatch/src/runner.rs:414-428 | the events received are those of the receiving arms, in order |
| RunMeaning.LimitIsReached | sigmacatch/src/runner.rs:432-470 | a loop that ends because of its limit has run exactly that many cycles, and one when the limit is zero |
| RunTheorems.RunIsHistory | sigmacatch/src/runner.rs:730-783 | every run is a history of the regression store, with the same store and batches |
| RunTheorems.BatchesAreDistinct | sigmacatch/src/runner.rs:751-756 | no rule appears in two batches of a run, whatever fails |
| RunTheorems.RetiredInRun | sigmacatch/src/runner.rs:751-767 | in a run a rule is retired exactly when its history says so |
| RunTheorems.RemoveIdsIsLive | sigmacatch/src/runner.rs:760-763 | removing the settled ids one by one leaves exactly the live rules |
| RunTheorems.LiveRulesAlerts | sigmacatch/src/detection/mod.rs:575-610 | evaluating without the retired rules gives the other rules' alerts in the same order |
| RunTheorems.RetiredAlertsAreIdle | sigmacatch/src/regression/mod.rs:365-370 | alerts of retired rules make no difference to what is generated, counted or blocked |
| RunTheorems.EngineHoldsLiveRules | sigmacatch/src/runner.rs:748-773 | at every point of a run, whatever fails, the engine holds exactly the rules that are not retired |
| RunTheorems.CountsLiveAlerts | sigmacatch/src/detection/mod.rs:575-619 | the alert counter grows, cycle by cycle, by exactly the alerts of the rules not settled before |
| RunTheorems.CyclesDoNotMatter | sigmacatch/src/runner.rs:730-783 | without failures a run returns the first matches of its events |
| RunTheorems.SameEventsSameBatches | sigmacatch/src/runner.rs:391-470 | without failures two schedules of the same events produce the same batches in the same order |
| RunTheorems.GeneratedInAnySchedule | sigmacatch/src/runner.rs:730-783 | a rule none of whose own alerts fails is generated in a run if and only if one of them can be, whatever becomes of other rules and however events fall into cycles |
| RunMeaning.GeneratedExactly | sigmacatch/src/runner.rs:730-783 | such a rule is generated if and only if some event of the run is matched by a rule with its id and can be generated from it |
| RunTheorems.SameEventsSameRule | sigmacatch/src/runner.rs:391-470 | so two schedules of the same events agree on every such rule, though other rules fail |
| RunTheorems.OrderInAnySchedule | sigmacatch/src/runner.rs:730-783 | of any rules whose own alerts never fail, a run generates those that can be, in the order of their first such alert, whatever fails elsewhere and however events fall into cycles |
| RunTheorems.SameEventsSameOrder | sigmacatch/src/runner.rs:391-470 | so two schedules of the same events produce those rules in the same order, though other rules fail |
| Fingerprint.ToHex | sigmacatch/src/detection/mod.rs:53-61 | two printable digits per byte |
| Fingerprint.HexDigits | sigmacatch/src/detection/mod.rs:53-61 | the digits are 0 to 9 and a to f, high half first |
| Fingerprint.HexIsInjective | sigmacatch/src/detection/mod.rs:53-61 | different digests print differently |
| Fingerprint.SortIsOrderFree | sigmacatch/src/rule/mod.rs:470-470 | the sorted digest list does not depend on the order of the rules |
| Fingerprint.LinesAreInjective | sigmacatch/src/rule/mod.rs:471-476 | the newline-separated digests determine the list |
| Fingerprint.KeyIsTheRuleSet | sigmacatch/src/detection/mod.rs:88-99 | two rule lists share a cache key if and only if one is a reordering of the other |
| HirCache.CacheFile.Read | sigmacatch/src/detection/mod.rs:103-116 | the blob is returned exactly when the first line is the key |
| HirCache.CacheFile.Write | sigmacatch/src/detection/mod.rs:119-127 | the file becomes key, newline and blob, or what a failed write leaves |
| HirCache.ReadBack | sigmacatch/src/detection/mod.rs:103-127 | a blob is read back, newlines and all, under its own key and no other |
| HirCache.ReadTorn | sigmacatch/src/detection/mod.rs:119-127 | a write that stopped part way yields nothing, or a proper prefix under the same key |
| HirCache.CompiledIsOrderFree | sigmacatch/src/detection/mod.rs:261-270 | which rules compile, and whether construction fails, does not depend on their order |
| HirCache.StrangersAreTrusted | sigmacatch/src/detection/mod.rs:103-116 | an absent file, one without a newline and one under a foreign key cannot mislead a start |
| HirCache.UndecodableIsTrusted | sigmacatch/src/detection/mod.rs:237-256 | nor can a blob that does not decode |
| HirCache.SavedIsTrusted | sigmacatch/src/detection/mod.rs:272-278 | saving the compiled rules leaves a trustworthy file if and only if all of them compiled |
| HirCache.DetectionEngine.NewWithHirCache | sigmacatch/src/detection/mod.rs:223-300 | the outcome, the compiled rules and the file afterwards; a failed load never reaches the engine that is returned |
| HirCache.DetectionEngine.ReloadRules | sigmacatch/src/detection/mod.rs:351-386 | the engine holds the rules that compile, and the file is overwritten with them under the new key |
| HirCache.ConstructIsTransparent | sigmacatch/src/detection/mod.rs:223-300 | from a trusted file construction fails or succeeds as a cold compile does, with the same rules, and leaves a trusted file |
| HirCache.ReloadKeepsTrust | sigmacatch/src/detection/mod.rs:364-385 | a reload keeps the file trustworthy if and only if every rule compiled |
| HirCache.LenientReloadIsVisible | sigmacatch/src/detection/mod.rs:364-385 | otherwise the next start accepts a rule set that a cold compile refuses |
| HirCache.LenientReloadOccurs | sigmacatch/src/detection/mod.rs:364-385 | a sound rule engine with a rule it does not compile shows the case |
| HirCache.RunsAreFaithful | sigmacatch/src/detection/mod.rs:223-386 | over any number of starts, and reloads that only drop rules, engine and file stay faithful |
| HirCache.EveryStartIsTransparent | sigmacatch/src/detection/mod.rs:223-300 | so every start of every such run ends as if there were no cache |
| HirMeaning.ColdStartFillsCache | sigmacatch/src/detection/mod.rs:261-300 | after a start that had to compile and whose save completed, the file holds the encoded rules under the key, and every start with the same rule set gets them |
| HirMeaning.OtherStartsKeepFile | sigmacatch/src/detection/mod.rs:223-270 | a start that failed, or found what it needed, leaves the file alone |
| HirMeaning.CompiledMeaning | sigmacatch/src/detection/mod.rs:261-270 | what compiles is compiled in the order of the rules, and every other rule is counted as a failure |
| DnsName.ParseQueryName | sigmacatch/src/inputs/ebpf_event.rs:433-467 | a name is returned if and only if the payload is a query whose first name is 1 to 16 uncompressed labels of 1 to 63 bytes ending inside the payload, and it is then those labels joined by dots |
| DnsName.WalkIsSound | sigmacatch/src/inputs/ebpf_event.rs:447-462 | whatever the walk accepts is the wire form of what it returns |
| DnsName.WalkIsComplete | sigmacatch/src/inputs/ebpf_event.rs:447-462 | the walk finds every wire form |
| DnsName.NameIsUnique | sigmacatch/src/inputs/ebpf_event.rs:447-462 | a packet has at most one question name |
| DnsName.EncodedIsAsked | sigmacatch/src/inputs/ebpf_event.rs:433-467 | encoding a name after a query header, with anything following it, asks for that name |
| DnsName.JoinIsInjective | sigmacatch/src/inputs/ebpf_event.rs:466-466 | labels without dots are read back from the joined name |
| DnsName.AsksByBytes | sigmacatch/src/inputs/ebpf_event.rs:433-462 | said by the bytes: longer than 12, third byte below 128, question count not zero, 1 to 16 labels of 1 to 63 bytes right after the header |
| DnsName.JoinedByDots | sigmacatch/src/inputs/ebpf_event.rs:466-466 | one more label adds a dot and the label |
| AuditFields.ExtractRawFields | sigmacatch/src/inputs/auditd.rs:104-154 | terminates on every input with the scan of its lines |
| AuditFields.ScanBody | sigmacatch/src/inputs/auditd.rs:123-151 | the nested index loops compute the scan |
| AuditFields.ScanToken | sigmacatch/src/inputs/auditd.rs:130-150 | one key=value token is recorded whole, except an empty value at the very end |
| AuditFields.FieldsOfText | sigmacatch/src/inputs/auditd.rs:104-154 | over any number of ordinary record lines the result is the last-wins map of all their pairs, less an empty value at the end of a line |
| AuditFields.LastWinsMeaning | sigmacatch/src/inputs/auditd.rs:150-150 | the value of a key is the one its last pair gives it |
| AuditFields.TwoPairs | sigmacatch/src/inputs/auditd.rs:104-154 | byte by byte: after "): ", two key=value pairs separated by a space give two fields, the later one winning |
| YamlBlocks.EntriesReadBack | sigmacatch/src/regression/info.rs:144-152 | reading nesting from indentation returns a printed block, at any column and any list offset |
| YamlBlocks.LayoutIsIrrelevant | sigmacatch/src/regression/info.rs:144-152 | any list offset is read as the same document |
| SigmaIndent.ToSigmaIndent | sigmacatch/src/regression/info.rs:153-207 | the line loop computes the line transformation |
| SigmaIndent.EntriesMove | sigmacatch/src/regression/info.rs:153-207 | on documents two lists deep the transformation turns list offset 0 into list offset 4 throughout, whatever key was open |
| InfoYml.CanonicalLayout | sigmacatch/src/regression/info.rs:144-213 | for every info document with one-line scalars the serialized form becomes exactly the canonical layout |
| InfoYml.MeaningIsKept | sigmacatch/src/regression/info.rs:144-213 | both forms show, through their indentation, the same document |
| InfoYml.Canonicalize | sigmacatch/src/regression/info.rs:216-220 | serialize and re-indent: the canonical text, still read as the document |
| InfoYml.CanonicalIsInjective | sigmacatch/src/regression/info.rs:216-220 | two documents with the same canonical form are the same |
| InfoMeaning.CanonicalShowsFields | sigmacatch/src/regression/info.rs:80-95 | read by its indentation, the canonical text shows every field of the document under its own key, rule by rule and test by test |
| InfoMeaning.CanonicalExample | sigmacatch/src/regression/info.rs:144-220 | character by character, the canonical text of any document with one rule, one test entry and one pipeline |
| YamlFixer.ReindentYaml | sigmacatch/src/bin/regressiondata-check.rs:937-969 | the line loop moves every line with a template to its canonical column |
| YamlFixer.ContentIsKept | sigmacatch/src/bin/regressiondata-check.rs:937-969 | comments, blank lines and keyless lines stay as they are; keys and values stay on theirs |
| YamlFixer.WrittenIsFixed | sigmacatch/src/bin/regressiondata-check.rs:937-969 | re-indenting the written file gives the written file |
| YamlFixer.WrittenKeepsContent | sigmacatch/src/bin/regressiondata-check.rs:937-969 | line by line the written file says what the original said |
| YamlFixer.FixInfoYml | sigmacatch/src/bin/regressiondata-check.rs:1056-1063 | the file is left alone exactly when nothing is out of place against the canonical text, and is otherwise its lines re-indented with a final newline |
| YamlFixer.SecondPassIsIdle | sigmacatch/src/bin/regressiondata-check.rs:1056-1063 | over any LF file a second pass against the same canonical text changes nothing |
| YamlFixer.RewriteSettles | sigmacatch/src/bin/regressiondata-check.rs:924-935 | after a rewrite no line is reported out of place if and only if the canonical document knows every line |
| YamlFixer.CanonicalIsStable | sigmacatch/src/bin/regressiondata-check.rs:924-935 | a canonical document needs no fixing if and only if no template stands at two columns in it |
| FixerLayout.FixerReachesCanonical | sigmacatch/src/bin/regressiondata-check.rs:937-969 | a document with one column for each template, printed at any list offset, is rewritten to its canonical layout |
| InfoFixer.CanonicalIsStableUnlessClash | sigmacatch/src/bin/regressiondata-check.rs:886-935 | the canonical text of an info document needs no fixing if and only if no pipeline or filter is keyed like the first line of a test entry or of a rule entry |
| InfoFixer.InfoReachesCanonical | sigmacatch/src/bin/regressiondata-check.rs:1050-1063 | an info document without such a clash, printed at any list offset, is rewritten to exactly its canonical text and a newline |
| InfoFixer.ClashIsRewritten | sigmacatch/src/bin/regressiondata-check.rs:886-935 | with a clash even the canonical file is rewritten to something else |
| InfoFixer.ClashOccurs | sigmacatch/src/bin/regressiondata-check.rs:886-935 | a document with a pipeline called "name" is such a document |
| FixerPasses.FirstPassPlaces | sigmacatch/src/bin/regressiondata-check.rs:937-969 | over any LF file, however spelled and laid out, that is loaded as a document without a clash: one pass keeps the content of every line and puts it at the column its template has in the canonical text, or at column 0 when the canonical text does not have it |
| FixerPasses.ItemStays | sigmacatch/src/bin/regressiondata-check.rs:937-957 | after a pass a list item of such a file stands at its column if and only if it begins a test or rule entry or has the key of some pipeline or filter; any other stands at column 0, out of its block |
| FixerPasses.OtherSpellingFallsOut | sigmacatch/src/bin/regressiondata-check.rs:924-957 | a pipeline that the file spells otherwise than the canonical text moves from column 10 to column 0, although the file stood in canonical layout |
| FixerPasses.QuotedItemFallsOut | sigmacatch/src/bin/regressiondata-check.rs:924-957 | quotes around a pipeline, or a comment after it, are such spellings |
| FixerPasses.LinesStand | sigmacatch/src/bin/regressiondata-check.rs:937-969 | with comments and blank lines anywhere, the other lines keep their texts and stand at the columns of their templates |
| FixerPasses.OwnLinesReachCanonical | sigmacatch/src/bin/regressiondata-check.rs:937-969 | when those lines are the document's own, at any columns, they stand as in the canonical text and the file shows the document |
| FixerPasses.SecondPassLoadsAgain | sigmacatch/src/bin/regressiondata-check.rs:1050-1063 | a second pass, which loads the rewritten LF file itself, changes nothing whenever that file still loads as the same document or no longer loads |
| FixerPasses.PassSettles | sigmacatch/src/bin/regressiondata-check.rs:1050-1063 | a document without a clash, printed at any list offset and loaded as itself, becomes exactly its canonical text, and that stays as it is |

## Left out

* Foreign code appears as parameters: rule compilation and pointwise matching,
  saving and loading compiled rules (assumed inverse, with proper prefixes of a
  saved blob rejected), the audit line parser, the EVTX reader used by the
  pending scan, git object storage (a tree is a map from paths to blobs).
* SHA-1 is a parameter assumed free of collisions and CRC-32 an arbitrary
  function of the bytes.
* Text encodings: the EVTX writer works on 16-bit units, other parsers on bytes,
  the YAML parts on characters with ASCII white space; lossy UTF-8 conversion is
  not modelled.
* XML parsing, and the choice of the timestamp attribute in the document.
* The trailing size copy of an EVTX record: space is reserved for it but the
  program never writes it, and the model has zeros there too.
* Live event log and eBPF collectors, the image-hash memo, SSH, retries and
  timeouts; a drain that times out is not modelled.
* The timer of the one-shot input mode; its loop has the arms of the live one
  and is the same `RunLoop.RunDetection`. The upload that follows a cycle inside
  the loop is modelled on its own in `GitRepo`.
* Branch-name validation, the check of a remote working branch, fetching and
  cloning; `GitTheorems.CreateIsFastForward` takes a current tracking ref as a
  premise because fetches are best effort.
* A file staged where the parent tree has a directory, or the reverse.
* Signing, author identity and commit times; a commit is its tree, parents and
  message.
* The work tree is fixed during one upload; it may change freely between
  uploads.
* The ref updates of an unshallowing fetch before a push.
* Per-record lookup of the raw line and the JSON content of events
  (`sigmacatch/src/inputs/auditd.rs:289-313`): it picks the first line that
  matches the record type, so an event need not show its own line's fields.
* The order of fields in the extracted map; it is a map here.
* Regression files on disk: whether data exists and whether generation succeeds
  are inputs of `RuleLife.SigmahqRegression.Add`.
* A rule whose written id is not the canonical form of its UUID is not removed
  from the rule set by the program; rules carry their UUID here.
* Multi-line YAML scalars, odd indents, and lists deeper than two levels in the
  re-indentation.
* Configuration, command line, logging, printed reports and the log source
  tables.
- AuditTail.RunTail: the schedule of ticks is finite, and a tick stands for one read of any size, because a loop without end cannot be a terminating method.
- RunLoop.RunDetection: the arms the loop sees are a finite list given in advance; panics are inputs.
- AuditFields.FieldsOfText: extra spaces between tokens and keys containing spaces are covered by the scan itself, not by this statement about ordinary records.
- YamlFixer.SecondPassIsIdle: both passes are given one canonical text; `FixerPasses.SecondPassLoadsAgain` has each pass load the file itself.
- FixerPasses.SecondPassLoadsAgain: how a YAML text is loaded is a parameter, so that the rewritten file still loads as the same document is a premise; a rewritten file that loads as another document is not covered.
- RunTheorems.SameEventsSameBatches: no alert may fail; `RunTheorems.OrderInAnySchedule` covers the rules that do not fail among others that do.
- GitRepo.Covers: a given path names a file or directory as it is written; the program joins it to the work tree, where `dir/` and `.` are resolved too. The files on disk are regular ones: the program skips symbolic links inside a staged directory.
- InfoFixer.CanonicalIsStableUnlessClash: pipelines and filters are taken to start with neither white space nor a colon.
- SigmaIndent.EntriesMove: blocks whose first entry is itself a list are outside the layout the transformation is meant for, and outside this statement.
- HirCache.Backend.KeyOf: the annotation that the fingerprint ignores is not part of a rule here.
