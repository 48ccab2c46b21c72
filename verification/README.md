# Verification of the kernel's core

A Dafny project that models the parts of the kernel whose correctness spans many
functions, and proves what they promise over every input and every run. `dafny verify
dfyconfig.toml` checks the whole project.

Five groups of modules, in the order of their weight:

1. **Context fold and compaction.** `Contracts`, `Events`, `Groups`, `Wire`,
   `Surface`, `Compaction`, `FoldSteps`, `FoldInvariant`, `Conservation`, `Handlers`, `Closers`,
   `FoldRuns`, `FoldHistory`, `FoldAcceptance`, `CompactionHistory`, `Redelivery`,
   `ContextFold`, `Transaction`, `TransactionRuns`, `TransactionAnswers`. The fold is a
   step function on its whole state; the class `ContextFold` mutates its fields and is
   proved to do exactly that step, with a thrown invariant as a step that fails and poisons
   the fold. What each handler accepts and what it adds is stated over the events before it,
   without the fold's state or its functions. The compaction transaction is a state machine
   over the steps between its awaits, interleaved with every other writer and with crashes.
2. **Journal bytes and the hash chain.** `Framing`, `Repair`, `Envelope`, `Chain`,
   `ChainWriter`, `Utf16`, `Reader`: from bytes on disk, through frames and lines, to
   verified events, ending in one statement that spans all of it
   (`Readers.CutLogServesPrefix`).
3. **Concurrent protocols as steps.** `NodePool`, `NodePoolSafety` and `NodePoolAnswers`,
   `Owner`, `OwnerSafety` and `OwnerAlone`, `Frontier`, `RetryMap`, `TokenCounter`.
4. **Strict JSON.** `StrictJson` is the recursive descent on what is left of a text, and the
   printer; `StrictParser` the mutable-index parser proved against it; `JsonGrammar` the
   grammar of RFC 8259 as syntax trees, and that it is exactly what is accepted;
   `JsonRoundTrip` and `Canonical` what parser and printer do to each other,
   `ExecutionMarker` the record they carry.
5. **Byte budgets.** `Diff` and `Utf8`.

## How foreign parts enter

- Context hashes are symbolic: a digest is the value that was hashed, so equal digests
  mean equal values. A hash inside a receipt is a number, ordered as its hexadecimal text.
- The journal's SHA-256 is a function that yields some 64 hexadecimal digits. Nothing
  assumes it injective: the chain theorem names the collision instead, among the hashed
  texts of the two logs themselves.
- zstd (RFC 8878 section 3.1.1) is a pair of functions with three laws: decompression
  undoes compression below the size bound, output starts with the magic, no strict prefix
  of a compressed frame decodes. `Repair.ToyIsLawful` shows the laws can be met.
- The byte form of a line is a function and its inverse on text without lone surrogates;
  `Readers.Utf8IsUndone` shows that UTF-8 is one, and `Utf16.DecodeEncodeIff` that no other
  text comes back.
- `JSON.parse` is a function that agrees with the strict parser wherever that accepts and
  never yields a repeated key; the order it gives members in is read by nothing. `Number` is a function that reads the decimal form of a safe
  integer as that integer and reads its own results back; other numbers stay by their
  canonical text. `JsonRoundTrip.ReadDecimalIsLawful` and `Readers.SomeCodecIsSound` show
  that such functions exist.
- Git reads, process liveness, path resolution, request outcomes and the points where an
  await yields or a process dies are inputs of the steps, unconstrained unless stated.

## Where the code falls short of what one would expect

Each comes with the exact condition, over all inputs, and an input that shows it.

- A minted node name is not fresh exactly when the highest safe number and the first
  unsafe one are both taken, because unsafe numbers are not counted
  (`NodePoolSafety.FreshIff`, `NodePoolSafety.SecondMintRepeats`). The pool's safety over
  runs is stated for runs whose mints are not of this kind.
- A valid execution marker is not read back exactly when its text exceeds the 4096 bytes
  the reader allows, which the writer does not check (`ExecutionMarkers.WrittenIsReadIff`,
  `ExecutionMarkers.SomePathIsRefused`). The repository itself writes only markers that
  always fit (`ExecutionMarkers.LandlockIsReadBack`).
- The token counter can persist a total its own reader refuses: once it is at rest behind a
  write that succeeded, exactly when the stored total plus the tokens recorded since is no
  safe integer (`TokenCounters.ReadBackIff`, `TokenCounters.OvershootIsUnreadable`).
- The notice that a patch could not be read is lost exactly when the newest commit is
  another node's and the read of its parent is the one that timed out; a comment in the
  source promises it in every case (`Diffs.PatchIsSaid`, `Diffs.SomeTimeoutIsUnsaid`).

## Model

| member | source | states |
|---|---|---|
| Utf8.DecodeEncode | src/text.ts:77-83 | decoding the RFC 3629 encoding of any text of scalar values returns the text |
| Utf8.Prefix | src/text.ts:77-83 | the cut is the longest code-point prefix whose encoding is within the bound, with its exact byte length, for every text and every bound |
| Utf8.CutIsLongest | src/text.ts:77-83 | backing up over continuation bytes from the bound lands on the end of that longest prefix |
| Groups.SortUniqueReceipts | src/context/groups.ts:34-45 | the sorted, duplicate-free list of exactly the given receipts |
| Groups.OrderedUnique | src/context/groups.ts:34-45 | there is only one such list: two ordered lists with the same elements are equal |
| Groups.SameSourceSetIsSetEquality | src/context/groups.ts:48-56 | two receipt lists compare equal exactly when they hold the same receipts, whatever order and repeats |
| Groups.IsBalancedGroup | src/context/groups.ts:66-96 | the loop decides balance: a dialogue is an assistant followed by exactly its calls' results in call order, any other kind its one message |
| Groups.BalancedIff | src/context/groups.ts:66-96 | the message lists a balanced group of each kind can hold, spelled out: one line, or an assistant and one tool message per call carrying that call's id, in order |
| Groups.CitedIff | src/context/groups.ts:98-107 | a receipt is cited by a span if and only if it is a summary's own or among another group's receipts |
| Wires.WireBytesAreEncoded | src/provider/wire.ts:78-114 | the byte count behind every budget is, for every list of messages, the length of the canonical UTF-8 JSON text the provider wire encodes them as |
| Groups.ValidateCompactionSpan | src/context/groups.ts:179-241 | the loops give the verdict of the refusal-by-refusal definition, on every surface and candidate |
| Groups.LegalVerdictIsLegal | src/context/groups.ts:179-241 | a legal verdict means it: current revision and identity, exactly the named groups, contiguous, outside the heading, balanced, exact citations, real shadow |
| Groups.ValidSpanIff | src/context/groups.ts:179-241 | on distinct ids a candidate is accepted if and only if such a span exists somewhere on the surface |
| Surfaces.Surface.Append | src/context/surface.ts:157-183 | one group is added at the end, or nothing changes and the append is refused |
| Surfaces.Surface.ReplaceHeading | src/context/surface.ts:186-196 | only position 0 changes, to a heading with the new text and receipt |
| Surfaces.Surface.Replace | src/context/surface.ts:210-255 | the validated span becomes one summary group, or nothing changes |
| Surfaces.AppendKeepsSurface | src/context/surface.ts:157-183 | an accepted append of a balanced group with sorted, observed sources keeps the surface invariant, by which every group says exactly what its receipts recorded; the append checks none of this, `Closers.DialogueGroupOk` gives it of what is committed |
| Surfaces.AppendIff | src/context/surface.ts:157-183 | of groups that say what their receipts recorded, an append accepts exactly those with which the surface stays well formed |
| Surfaces.RewriteKeepsSurface | src/context/surface.ts:186-196 | so does a new heading that says what its configuration recorded |
| Surfaces.ReplaceKeepsSurface | src/context/surface.ts:210-255 | so does an accepted compaction with an unused receipt, although the splice never checks ids; the summary group says the recorded text and cites its receipt and sources |
| Compaction.ReplacementFits | src/context/compaction.ts:87-108 | whatever replacement is chosen, its recorded size is its own and strictly below the shadow |
| Compaction.MergeSources | src/context/compaction.ts:111-116 | merging is one canonical sort of both lists |
| Compaction.ChooseMeaning | src/context/compaction.ts:172-182 | merging citations group by group equals one sort of all of them, and the chosen prefix is the longest within the bound |
| Compaction.SelectNext | src/context/compaction.ts:142-204 | the loops compute the selection |
| Compaction.SelectedIsLegal | src/context/compaction.ts:142-204 | on a well-formed surface every selected candidate names exactly positions 1..k, leaves at least as many newest groups as the caller or else the policy retains, and is legal there |
| Compaction.SelectedIff | src/context/compaction.ts:142-204 | something is selected if and only if some number of oldest groups leaves the retained ones, meets the trigger or is forced, is the most whose citations fit, and is longer than some replacement; exactly those are then named, cited and measured |
| Compaction.AppliedSelection | src/context/compaction.ts:142-204 | an applied selection leaves the heading, one summary that says the pending text when it pays and else the notice and cites every removed receipt, and the rest, the retained groups last |
| Compaction.SelectedIsApplied | src/context/surface.ts:210-255 | producer and applier agree: the candidate completed by its summary is applied and leaves heading, summary and the untouched rest |
| Compaction.AppliedShrinks | src/context/surface.ts:225-254 | every applied compaction strictly shrinks the encoding of the whole committed history |
| ContextFolds.ContextFold.HandleConfig | src/context/fold.ts:351-377 | the handler's new state is that of its step: first heading or rewritten heading, versions only forward |
| ContextFolds.ContextFold.HandlePerception | src/context/fold.ts:438-467 | one perception per turn, of the turn's own range; an empty one adds no group |
| ContextFolds.ContextFold.HandleRefused | src/context/fold.ts:471-482 | a refusal marks its request's buffer once, and never an answered one |
| ContextFolds.ContextFold.HandleAssistant | src/context/fold.ts:500-531 | an answer joins its request's buffer once, with distinct calls, and consumes the perception |
| ContextFolds.ContextFold.HandleToolCall | src/context/fold.ts:533-554 | a call receipt must match an advertised call that has none |
| ContextFolds.ContextFold.HandleToolResult | src/context/fold.ts:556-615 | a result joins its open exchange or, if synthetic, its recovery entry, whose last result commits the group |
| ContextFolds.ContextFold.HandleTurnEnd | src/context/fold.ts:762-802 | the closer validates every dialogue before it commits any |
| ContextFolds.ContextFold.HandleCompactionStart | src/context/fold.ts:850-870 | a start is pending once, with every receipt it names observed |
| ContextFolds.ContextFold.HandleCompactionSummary | src/context/fold.ts:872-926 | a pending start is offered one summary |
| ContextFolds.ContextFold.HandleCompactionEnd | src/context/fold.ts:928-953 | an end needs its start, its own summary receipt and a span that still validates |
| ContextFolds.ContextFold.HandleCompactionAbort | src/context/fold.ts:955-964 | an abort removes one pending start and its summary |
| ContextFolds.ContextFold.ObserveAll | src/context/fold.ts:280-310 | a batch is observed in order until the first failure, which poisons the fold for good |
| Closers.CloseIsAllOrNothing | src/context/fold.ts:762-802 | on a reachable state with a surface a closer fails if and only if its validation does; no append after it can throw |
| Closers.CloseCommitsInOrder | src/context/fold.ts:762-846 | a close appends the perception, then the complete dialogues in order (none for an ignorable success), and keeps the incomplete ones for recovery |
| Closers.DialogueGroupOk | src/context/fold.ts:804-814 | the group of a complete exchange is balanced, in call order, and cites sorted observed receipts |
| Closers.Recovered | src/context/fold.ts:830-846 | the result that completes an interrupted exchange moves it from recovery to the surface, and that append cannot fail |
| FoldHistory.RunTraced | src/context/fold.ts:280-615 | at every point of every run the fold's configuration, open turn, perception and request buffers are what the events since say they are |
| FoldAcceptance.ConfigIff | src/context/fold.ts:351-377 | over every run a configuration is accepted if and only if it names its own version, at least 1 and above the last accepted one |
| FoldAcceptance.HeadingIsLatest | src/context/fold.ts:351-377 | there is a surface exactly once a configuration was accepted, and its first group is always the latest one's heading under that receipt |
| FoldAcceptance.ConfigRewrites | src/context/fold.ts:351-377 | a later configuration rewrites the heading and nothing else |
| FoldAcceptance.TurnStartIff | src/context/fold.ts:381-391 | a turn opens if and only if none is open |
| FoldAcceptance.PerceptionIff | src/context/fold.ts:438-467 | a perception is accepted if and only if it is the open turn's first, of its number and its world range |
| FoldAcceptance.PerceptionReachesSurface | src/context/fold.ts:438-467 | when a turn closes over a surface its perception's text is nonempty if and only if the surface gains the group of that very receipt, of kind perception, saying that text and citing that receipt alone |
| FoldAcceptance.RefusedIff | src/context/fold.ts:471-482 | a refusal is accepted if and only if its request is of the open turn and neither answered nor refused in it |
| FoldAcceptance.AnswerIff | src/context/fold.ts:500-531 | so is an answer, when it repeats no call identifier |
| FoldAcceptance.ToolCallIff | src/context/fold.ts:533-554 | a call is recorded if and only if its request's answer advertised exactly it and it was not recorded before |
| FoldAcceptance.OpenResultIff | src/context/fold.ts:556-615 | in its own turn a result is accepted once, for an advertised call, and a real one only after its call |
| FoldAcceptance.LateResultIff | src/context/fold.ts:556-615 | outside its turn a result is accepted if and only if it is synthetic, not raw, and answers a call its recovery entry still misses, over a surface when it is the last |
| FoldAcceptance.LateResultMoves | src/context/fold.ts:556-846 | it joins that entry, or, as the last one missing, moves the dialogue to the end of the surface |
| FoldAcceptance.FactIff | src/context/fold.ts:627-743 | a one-line fact is accepted exactly when there is a surface, and joins its end as one group with its line, its turn and its own receipt |
| FoldAcceptance.CloserIff | src/context/fold.ts:762-802 | a closer is accepted if and only if it names the open turn and, when the turn succeeded, every call of its answers has a result |
| FoldAcceptance.CloserAdds | src/context/fold.ts:762-828 | a close adds the turn's perception when it had text, then one dialogue per settled answer in the order they came unless an ignorable success, and nothing else; unsettled answers go to recovery in order |
| FoldAcceptance.BareCloserIff | src/context/fold.ts:762-805 | before any configuration a closer also needs that no settled answer is to be committed |
| FoldAcceptance.NothingElseShows | src/context/fold.ts:312-346 | every other accepted event leaves surface and recovery as they were |
| CompactionHistory.StartIff | src/context/fold.ts:850-870 | over every run a start is accepted if and only if there is a surface, its candidate is not pending and it cites what was observed |
| CompactionHistory.SummaryIff | src/context/fold.ts:872-926 | a summary is accepted if and only if its candidate is pending, has none yet and it cites what was observed |
| CompactionHistory.AbortIff | src/context/fold.ts:955-964 | an abort is accepted if and only if its candidate is pending |
| CompactionHistory.EndIff | src/context/fold.ts:928-953 | an end is accepted if and only if its candidate is pending with the very summary it names, that summary stands for it, and the candidate is legal somewhere on the surface; that span then becomes one group that says the summary, and nothing else changes |
| CompactionHistory.EndNeedsBoth | src/context/fold.ts:928-953 | no end is accepted without its candidate pending and summarized, and afterwards neither is left |
| CompactionHistory.ReplacedIff | src/context/surface.ts:210-255 | with its summary recorded a candidate is applied exactly where it is legal |
| FoldRuns.ProcessKeeps | src/context/fold.ts:312-347 | every handler keeps every part of the invariant and the account of dialogues |
| FoldRuns.EndSurface | src/context/fold.ts:928-953 | an accepted end takes exactly the span's dialogues off the surface and adds one unused id |
| FoldRuns.EveryReceiptIsInOnePlace | src/context/fold.ts:500-846 | in every run each observed assistant message, tool call and tool result is in exactly one place: open turn, surface, recovery, removed by a compaction, dropped by an ignorable close; a recovery entry always misses a result |
| FoldRuns.EverySurfaceIsWellFormed | src/context/fold.ts:312-346 | in every run: one heading, at position 0, distinct ids, balanced groups, sorted resolvable sources, kinds that match their receipts |
| Redelivery.RedeliveryIsOnePass | src/context/fold.ts:280-310 | any slices of a chain, overlapping or repeated but without gaps, leave the fold as one pass over the longest prefix; index and watermark describe exactly that prefix |
| Redelivery.DeliveryIff | src/context/fold.ts:280-310 | behind any observed chain the next event is observed, an event of the chain is skipped if it carries the same hash, and a changed hash or a gap is refused |
| Transaction.EndAcceptedIff | src/context/fold.ts:928-953 | with its start and summary folded, an end is accepted if and only if the surface is the one the selection read |
| Transaction.ExecuteKeeps | src/context/compaction.ts:249-300 | every interleaving of the transaction with other writers and crashes keeps the session invariant |
| TransactionRuns.DeliveredIff | src/context/compaction.ts:249-300 | over every run the one delivery the fold can refuse is an end, exactly when the surface is not the one read; an accepted end leaves heading, summary and rest |
| TransactionRuns.SyncedEndIsAccepted | src/context/compaction.ts:281-300 | if the fold observed everything appended before the end, the end is accepted whatever others append after it |
| TransactionRuns.AbortedIsClear | src/context/compaction.ts:252-259 | once a transaction's aborts are folded nothing is pending |
| TransactionRuns.CrashThenRecover | src/context/compaction.ts:249-300 | for a crash at any point of any run: the restart folds what survived if and only if each event is taken in turn, an `end` only over the surface its selection read; then nothing is selected before every orphan is aborted, and the aborts are accepted, leave the surface alone and leave nothing pending |
| TransactionRuns.RoundApplies | src/context/compaction.ts:249-300 | an undisturbed run that is not skipped is applied and shrinks the history, whatever hashes its events get |
| TransactionRuns.RoundsAreBounded | src/context/compaction.ts:249-300 | no more undisturbed runs can be applied in a row than the history has bytes, however each selects and hashes |
| TransactionRuns.EventuallySkipped | src/context/compaction.ts:249-300 | any endless supply of undisturbed runs, each with its own selection and event hashes, reaches `skipped` within as many rounds as the history has bytes |
| TransactionAnswers.BeginIff | src/context/compaction.ts:249-267 | between transactions one begins if and only if none is left open and the configured policy selects something; its start names, cites and measures exactly that selection |
| TransactionAnswers.ResumesIff | src/context/compaction.ts:268-298 | after each await it goes on exactly when the surface is still the one it read: with the summary of the text that will stand and what became of the pending one, then with the end that names it; else it appends the abort of its candidate |
| TransactionAnswers.RoundIff | src/context/compaction.ts:249-300 | an undisturbed transaction is applied if and only if the policy selects something, and the surface is then the heading, one summary of exactly the selected groups, and the rest |
| StrictParsers.StrictParser.ParseString | src/host/execution.ts:142-182 | the loop takes exactly a string of the grammar: escapes, four hexadecimal digits, no control unit |
| StrictParsers.StrictParser.ParseNumber | src/host/execution.ts:183-192 | the longest number of the grammar is taken, and a value that is not finite refused |
| StrictParsers.StrictParser.ParseItems | src/host/execution.ts:193-215 | the array loop |
| StrictParsers.StrictParser.ParseMembers | src/host/execution.ts:216-247 | the object loop, which refuses a key it has taken |
| StrictParsers.StrictParser.ParseValue | src/host/execution.ts:248-260 | the closures on one shared index compute the grammar on what is left of the text, and terminate on every text |
| StrictParsers.ParseStrictJson | src/host/execution.ts:127-264 | one value and nothing after it |
| JsonGrammar.DocumentIff | src/host/execution.ts:127-264 | a text is accepted as a value if and only if a syntax tree of RFC 8259 that spells the value lays it out to its last unit, with no key repeated once unescaped |
| JsonGrammar.OneMeaning | src/host/execution.ts:127-264 | whatever trees lay one text out, they spell one value |
| JsonRoundTrip.ValueOfWrite | src/host/execution.ts:142-260 | parsing a printed value in front of anything gives the value and what follows, or refuses a repeated key at any depth; what follows a bare number must not continue it |
| JsonRoundTrip.PrintedObjectIff | src/host/execution.ts:127-264 | an object's print is accepted, as that object, if and only if no key repeats at any depth and nothing follows |
| JsonRoundTrip.RoundTrip | src/host/execution.ts:127-264 | every value that repeats no key is its print's parse |
| JsonRoundTrip.IntegralRoundTrip | src/host/execution.ts:127-264 | in particular every value whose numbers are safe integers |
| JsonRoundTrip.AcceptedIsDistinct | src/host/execution.ts:216-247 | no accepted text repeats a key, whatever its layout |
| JsonRoundTrip.WriteIsInjective | src/journal/canon.ts:253-255 | the printer gives no two values one text |
| JsonRoundTrip.ReadDecimalIsLawful | src/host/execution.ts:183-192 | a number reading with every property asked of it exists |
| Canonical.CanonicalIff | src/journal/canon.ts:253-255 | two values have one canonical text if and only if they are the same value, members in any order |
| Canonical.CanonicalRoundTrip | src/journal/canon.ts:253-255 | the strict parser takes a canonical text back to the value with sorted keys |
| Canonical.SortMembersIs | src/journal/canon.ts:253-255 | sorting keeps the members and puts keys in ascending code-unit order |
| Canonical.SortTwice | src/journal/canon.ts:253-255 | sorting again changes nothing |
| JsonGrammar.ShortestEscape | src/journal/canon.ts:253-255 | the printer writes each unit as the shortest of all its spellings, in lower case where only hexadecimal escapes are left |
| ExecutionMarkers.ReadExecutionMarker | src/host/execution.ts:467-479 | the strict parser, then the shape |
| ExecutionMarkers.MarkerTextIsCanonical | src/host/execution.ts:487-493 | the text a marker is written as is its canonical form |
| ExecutionMarkers.MarkerRoundTrip | src/host/execution.ts:435-525 | the text of a valid marker reads back as that marker, and as nothing with anything behind it |
| ExecutionMarkers.ReadIff | src/host/execution.ts:435-479 | a text reads as a marker if and only if it is one strict document for that marker's value and the marker is valid on this host |
| ExecutionMarkers.ValidMarkerIff | src/host/execution.ts:290-306 | the markers there are: safe numbers, a 64-digit hash, and an absolute image path that resolves neither to the home nor to anything under it |
| ExecutionMarkers.WrittenIsReadIff | src/host/execution.ts:376-401 | a written marker is read back if and only if its text is at most 4096 bytes, which the writer does not check |
| ExecutionMarkers.LandlockIsReadBack | src/host/execution.ts:435-445 | a Landlock marker always is |
| ExecutionMarkers.SomePathIsRefused | src/host/execution.ts:446-463 | a valid marker with a path of 3950 characters is written and then refused |
| Framing.SplitJoin | src/journal/framing.ts:172-176 | splitting joined lines returns them, for nonempty lists without newlines |
| Framing.EncodeBatch | src/journal/framing.ts:72-88 | the buffer holds the little-endian length and the compressed payload; oversized batches are refused |
| Framing.FrameRoundTripIff | src/journal/framing.ts:72-110 | a batch is refused if and only if its lines with their newlines reach 64 MiB or its payload has no 32-bit length; any other frame decodes to its lines |
| Framing.ScanBatches | src/journal/framing.ts:145-170 | the loop computes the scan: batches with offsets and a torn tail, or the offset of the corruption |
| Framing.CutFrameIsTorn | src/journal/framing.ts:119-130 | a frame cut anywhere before its end is torn, never corrupt |
| Framing.CrashTruncation | src/journal/framing.ts:145-170 | a log cut at any byte scans to exactly the frames wholly before the cut, the rest torn |
| Framing.WholeIsMaximal | src/journal/framing.ts:145-170 | those are all the frames whose bytes fit before the cut |
| Framing.DamagedLengthIff | src/journal/framing.ts:119-165 | behind any written log, a length that overruns the file over a whole payload of at least 8 bytes is corruption at that offset, and over any cut payload a torn tail |
| Framing.BadFrameIsCorrupt | src/journal/framing.ts:145-170 | a complete frame that is empty or does not decode is corruption where it begins, whatever follows |
| Repair.Journal.RepairIn | src/journal/reader.ts:185-242 | the repair passes through exactly the stated disks, in order |
| Repair.ShortenedScansClean | src/journal/reader.ts:202-220 | any log without its torn tail serves the same batches with nothing torn |
| Repair.HeadNeverOutlives | src/journal/reader.ts:206-219 | wherever a repair is cut by a crash, a surviving head stands beside the log it was written for |
| Repair.RepairIsIdempotent | src/journal/reader.ts:185-242 | a repair run again after any crash ends where the uninterrupted one does |
| Repair.RepairServesAlike | src/journal/reader.ts:202-220 | whatever the log holds and wherever the repair is cut by a crash, a reader is then served the same whole batches, or refused at the same corruption with every file as it was |
| Repair.RepairedIsWholeFrames | src/journal/reader.ts:202-220 | a written log cut at any byte is repaired to exactly its whole frames |
| Repair.DamagedLengthIsKept | src/journal/reader.ts:185-220 | a repair of a log whose last length was damaged refuses at that offset and leaves every file as it was |
| Repair.TouchedIff | src/journal/reader.ts:185-220 | a repair touches the disk if and only if there is a log that scans with a torn tail; it then durably leaves the whole frames and no head |
| Repair.ToyIsLawful | src/journal/framing.ts:82 | a codec with the three laws asked of zstd exists |
| Chains.ChainState.VerifyChain | src/journal/verify.ts:101-147 | the nested loops walk the chain and leave its state, to the end or the first refusal |
| Chains.CarriedState | src/journal/verify.ts:101-166 | verifying one part and then the next with the carried state is verifying both together, however split into frames |
| Chains.AcceptedIff | src/journal/verify.ts:101-147 | a log is accepted if and only if its lines are the canonical lines of some events at consecutive positions, linked by their hashes, each of a known type or ignorable; those events are what it yields |
| Chains.StopsAtFirstDamage | src/journal/verify.ts:101-147 | a walk that stops serves the longest acceptable prefix, and blames an unknown type exactly when only the type of the next line is at fault |
| Chains.SameHashSameLine | src/journal/envelope.ts:57-63 | two accepted lines with one hash are one line at one position behind one hash, or collide |
| Chains.ChainDeterminesLog | src/journal/verify.ts:101-166 | two logs accepted from genesis with equal last hashes have identical lines, unless their own lines show a collision or a preimage of the genesis hash |
| Chains.WriterVerifies | src/journal/envelope.ts:73-110 | what the writer makes is walked to its end and leaves the writer's chain state |
| ChainWriters.WrittenIff | src/journal/envelope.ts:57-115 | a log is written if and only if no draft holds a lone surrogate; it then holds each draft's own fields at its position, behind the hash of the event before, hashed over that hash and its canonical payload |
| Envelopes.EnvelopeIff | src/journal/verify.ts:40-80 | a parsed object is an envelope if and only if, key by key, it holds exactly what the envelope puts there and nothing else, with a position in range and two hashes |
| Readers.WriteIsOneLine | src/journal/envelope.ts:108-110 | a canonical text is one line and holds no lone surrogate |
| Readers.JournalReader.Events | src/journal/reader.ts:123-139 | the verified prefix is served from a position on; the torn bytes are those of this read, 0 when it did not complete a scan |
| Readers.CutLogServesPrefix | src/journal/reader.ts:123-139 | a writer's log cut at any byte and read from any position serves exactly the events of its whole frames from there on, for every byte form of lines that returns well-formed text and keeps newlines apart |
| Readers.DamagedLogServesNothing | src/journal/reader.ts:123-139 | a frame that is empty or does not decode, or a whole payload behind an overrunning length, is reported at its offset and nothing is served |
| Utf16.DecodeEncodeIff | src/journal/framing.ts:73 | a string comes back from its UTF-8 bytes if and only if it holds no lone surrogate |
| Readers.Utf8IsUndone | src/journal/framing.ts:73 | UTF-8 with replacement of lone surrogates is such a byte form |
| Readers.FramedLogIsWritable | src/journal/framing.ts:72-88 | the side conditions of that statement hold of every framed log |
| Readers.SomeCodecIsSound | src/journal/verify.ts:40-80 | a parser, number reading and hash with every property asked of them exist |
| NodePools.NodePool.ReserveUid | src/host/host.ts:1407-1417 | the minted number is one above every known one, and the place is claimed in the same turn |
| NodePools.NodePool.SpawnReserves | src/host/host.ts:1246-1285 | the checks of a spawn in order, then the reservation; a refusal changes nothing else |
| NodePools.NodePool.ComposeSettled | src/host/host.ts:1293-1326 | a failed composition gives its place back, a closing pool discards the cell, otherwise the child registers |
| NodePools.NodePool.CheckAndMark | src/host/host.ts:1199-1206 | a departure is granted only while another node stays |
| NodePools.NodePool.StopEveryone | src/host/host.ts:1330-1335 | the walk stops every node, backwards over the order |
| NodePools.NodePool.OnEnd | src/host/host.ts:1365-1393 | an end removes one node, its mark and its place in the order, and settles the drain |
| NodePoolSafety.FreshIff | src/host/host.ts:1407-1432 | a minted name is neither live, reserved nor on disk, except exactly when the highest safe number and the first unsafe one are both taken |
| NodePoolSafety.SecondMintRepeats | src/host/host.ts:1407-1432 | over a disk that holds the highest safe number two spawns in a row get one name |
| NodePoolSafety.StepKeeps | src/host/host.ts:1199-1393 | every step keeps ceiling, order, marks, flights, stops and drain |
| NodePoolSafety.HostRuns | src/host/host.ts:1155-1417 | in every run whose mints find fresh names, live plus reserved is at most the ceiling, a spawning requester is live, nothing spawns when nobody is live, no drain resolves during a spawn |
| NodePoolSafety.StopAllKeeps | src/host/host.ts:1330-1335 | a stop marks every live node stopped, in reverse registration order |
| NodePoolSafety.NothingAfterStop | src/host/host.ts:1306-1335 | after a stop nothing registers and every node still live was stopped |
| NodePoolSafety.SomeoneAlwaysStays | src/host/host.ts:1199-1206 | while nodes end only by granted departures, one without a mark always remains |
| NodePoolAnswers.ReservedIff | src/host/host.ts:1246-1285 | a spawn is given a place if and only if the pool is open, its requester live and granted, the model known, room left, a name minted and the cell sendable; a refusal changes nothing |
| NodePoolAnswers.ReplyIff | src/host/host.ts:1246-1285 | a refusal names the first thing in the way, in the order of the checks |
| NodePoolAnswers.SpawnAlone | src/host/host.ts:1246-1326 | such a spawn adds one node, last in the order, under a free name, with exactly the grant asked for, or nothing when its composition fails |
| NodePoolAnswers.SpawnWhileClosing | src/host/host.ts:1293-1326 | a composition that settles in a closing pool registers nothing and gives its place back |
| NodePoolAnswers.DepartIff | src/host/host.ts:1199-1206 | a departure is granted if and only if the node is live and was granted already or another stays |
| NodePoolAnswers.FaultIff | src/host/host.ts:1365-1393 | over every run the pool is at fault if and only if the run of some booted node failed |
| NodePoolAnswers.DrainIff | src/host/host.ts:1155-1160 | a drain is rejected at once exactly after such a failure, resolved at once exactly when nobody is live, and else waits |
| NodePoolAnswers.WaitingSettles | src/host/host.ts:1365-1393 | a waiting drain settles at the first end that fails a booted node, by rejecting, or leaves nobody live, by resolving |
| OwnerSafety.StepKeeps | src/host/owner.ts:362-635 | every link, rename, read, unlink and crash keeps the invariant |
| OwnerSafety.RecordIsNeverLost | src/host/owner.ts:362-635 | the record of a live host that acquired and has not begun its release is always at `host.json` or a claim path |
| OwnerSafety.DiscardSparesTheLiving | src/host/owner.ts:435-489 | no peer's discard unlinks the record of a live process |
| OwnerSafety.OnlyTheReadRecordGoes | src/host/owner.ts:455-500 | a claim that holds another record than the stale one read goes back, stale or not |
| OwnerAlone.AcquireIff | src/host/owner.ts:362-489 | from any home the protocol reaches, one acquire taken alone ends owning, its record at `host.json`, if and only if there was no record, an invalid one or one judged stale; else it refuses and the record stays where it was |
| OwnerAlone.ReleaseIff | src/host/owner.ts:598-635 | an owner's release taken alone leaves nothing at `host.json` unless another host's live record stands there, which it puts back |
| RetryMaps.RetryMap.RecordAttempt | src/frontier/journal.ts:229-237 | delete, set and evict from the front |
| RetryMaps.RetryMap.AssertAttempt | src/frontier/journal.ts:211-226 | the two refusals of a held group |
| RetryMaps.HeldIff | src/frontier/journal.ts:229-237 | after any attempts a group is held if and only if it is among the most recently recorded distinct ones up to the bound, with its last attempt |
| RetryMaps.AcceptsIff | src/frontier/journal.ts:211-226 | a held group accepts exactly the next attempt, any other every attempt |
| Frontier.Reconcile | src/frontier/journal.ts:342-377 | the scan finds the orphans in order, or the first damage |
| Frontier.CorruptIff | src/frontier/journal.ts:342-377 | it reports corruption if and only if the log is not well formed, and its orphans are exactly the requests without a terminal |
| Frontier.FirstDamage | src/frontier/journal.ts:342-377 | the position reported is the first at which the log is not well formed |
| Frontier.OrphansInOrder | src/frontier/journal.ts:342-387 | orphans, and so their markers, come in the order their requests were made |
| Frontier.ReconciledIsClosed | src/frontier/journal.ts:375-387 | once the markers land every request has exactly one terminal and a second pass appends nothing |
| Frontier.StepKeeps | src/frontier/journal.ts:103-193 | every begin, complete, flush, crash and boot keeps the journal well formed |
| Frontier.CrashedBootsClean | src/frontier/journal.ts:103-387 | after any run cut by a crash at any await, boot reports no corruption and its markers close every request |
| Frontier.OneTerminalPerCall | src/frontier/journal.ts:161-193 | no call ever has two terminals, nor one without its request |
| Frontier.CallAlone | src/frontier/journal.ts:103-193 | from any running gate a fresh call goes through every step: its request and then its response become durable behind everything appended before, and it can be neither begun nor completed again |
| TokenCounters.NodeTokenCounter.RecordTokens | src/host/token-counter.ts:170-187 | the aggregate and its state change at once; a bad number marks it unknown |
| TokenCounters.NodeTokenCounter.PersistSettled | src/host/token-counter.ts:206-219 | one round of the write loop after its await |
| TokenCounters.UsedIsTheSum | src/host/token-counter.ts:170-187 | used is the start plus every valid pair, whatever writes are in flight or fail |
| TokenCounters.NothingIsRevived | src/host/token-counter.ts:163-224 | neither memory nor disk loses tokens or revives a terminal state, and closed admission never reopens |
| TokenCounters.StateIs | src/host/token-counter.ts:170-230 | the aggregate, its state and the terminal callback after any run, from the stored count and the run's history alone |
| TokenCounters.AdmissionIff | src/host/token-counter.ts:163-230 | over every run admission is unknown exactly after a mark, an invalid pair or a failed write, or where the stored state was; else exhausted exactly when the stored tokens plus every valid pair reach the limit, or where the stored state was; else open |
| TokenCounters.AtRestItIsOnDisk | src/host/token-counter.ts:202-224 | at rest the disk holds the memory or the memory is unknown |
| TokenCounters.WritesThrough | src/host/token-counter.ts:189-224 | from any point of any run, if writes succeed from there on, at most two more rounds bring the loop to rest with the latest change on disk |
| TokenCounters.NotifiedOnce | src/host/token-counter.ts:226-230 | the terminal callback runs at most once |
| TokenCounters.ReadBackIff | src/host/token-counter.ts:170-224 | from a readable file, at rest behind a write that succeeded, the file left is readable if and only if the start plus every valid pair is a safe integer |
| TokenCounters.SafeTotalIsReadable | src/host/token-counter.ts:170-224 | while that total is safe the file is readable at every point of every run, with writes in flight or failed |
| TokenCounters.OvershootIsUnreadable | src/host/token-counter.ts:170-187 | one record of two safe numbers can write a file the next boot refuses |
| Diffs.WalkBack | src/context/diff.ts:152-224 | the loop keeps whole commits from the newest back until the budget stops it |
| Diffs.PresentWorld | src/context/diff.ts:87-248 | the perception is composed of preamble, kept blocks, patch notice and omission notice |
| Diffs.PreambleFits | src/context/diff.ts:116-135 | the largest preamble is 192 bytes, so the branch for one that does not fit is never taken |
| Diffs.WalkIsSuffix | src/context/diff.ts:152-224 | kept commits are a contiguous newest suffix in order, each under its own hash; omitted and kept add up; nothing is omitted silently |
| Diffs.WalkExplained | src/context/diff.ts:152-224 | a walk's every kept block, its end and its notice are what its reads gave within what the newer blocks left of the budget |
| Diffs.PerceptionExplained | src/context/diff.ts:87-248 | the hashes reported are those of other nodes' commits whose patch was read, oldest first; the flag is that the walk was cut |
| Diffs.PreambleSays | src/context/diff.ts:116-119 | each flag answers for exactly its own notice, in this order |
| Diffs.WholeText | src/context/diff.ts:225-248 | up to 1 MiB the text is preamble, first block, patch notice, other blocks and omission notice, and nothing else |
| Diffs.TextFits | src/context/diff.ts:87-248 | the text is at most the budget, for every budget from 512 bytes up |
| Diffs.OmissionIsSaid | src/context/diff.ts:225-243 | whenever anything was omitted the text ends with how much and from which commit |
| Diffs.PatchIsSaid | src/context/diff.ts:152-243 | up to 1 MiB the notice on a cut or unread patch follows the first block, unless the newest commit's parent read is the one that timed out: then the text only says how many commits it does not show |
| Diffs.NothingKeptIff | src/context/diff.ts:152-224 | a walk has a patch notice and no block to put it behind if and only if the newest commit is another's and the read of its parent timed out |
| Diffs.SomeTimeoutIsUnsaid | src/context/diff.ts:167-181 | one commit of another node whose parent read times out: the text does not say so |

## Left out

- The accounting triple, `perceptionProof` and `acknowledgedWorld`, and the read views built
  for the assembler: they feed no decision of the fold.
- Payload shape validators: a payload they refuse is one malformed event, which fails the
  fold; artifact and blob bodies arrive resolved. A doctor report is an event without effect.
- Error texts: a refusal keeps its reason where callers branch on it, else it is a failure.
- Surface.Append, Surface.Replace: the receipt lookup the source is constructed with is an
  index argument of each call.
- ContextFolds.ContextFold.ObserveAll: the class holds values, not shared references, so
  aliasing between a snapshot and the fold's arrays is not modelled.
- Transaction.StepCrash: a restart is modelled as keeping the state folded so far, which is what folding
  the same durable events again gives.
- Lone surrogates inside context text, which the contracts refuse before any byte count.
- JSON numbers as binary floating point: a number that is not a safe integer is its canonical
  text, and only that it reads back is used.
- The marker's file mode, owner and link checks, its temporary file and directory sync.
- Line bytes that are not UTF-8, which the source turns into replacement characters.
- `OwnerHandle.annotate`, `requestPause` and `status`; two names of one file being renamed
  onto each other, which fresh tokens rule out; calling `release` again after it threw.
- The journal writer, its lock and its batching policy: the frontier model takes from it
  that a flush makes a prefix of what was appended durable, in order.
- One `begin` in flight per group and one `complete` per call are assumed of the frontier's
  callers; bodies, headers, durations and attribution are not modelled.
- TokenCounters.UsedIsTheSum: totals are unbounded integers, so it does not model rounding of
  totals beyond the safe integers; `TokenCounters.ReadBackIff` covers when they occur.
- TokenCounters.ReadBackIff: behind a latest write that failed, the file is the one before
  or the one being written, as the file system had it, so no total decides; only
  `TokenCounters.SafeTotalIsReadable` speaks of it.
- NodePoolSafety.HostRuns: leaves out runs in which a mint finds both boundary names taken,
  since it then hands out a name that is live, reserved or on disk.
- The pool's host log, model catalog and composed configuration, which enter a spawn as the
  answers of its checks.
- `presentWorld`'s parameter checks and its traversal: the listed commits come with the
  bound on their number and with hashes of ASCII characters.
- Token pricing, command line, status rendering, boot sequence, provider transport, sandbox.
