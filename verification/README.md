# Flameox, verified

Flameox runs profilers, reads what they write, and keeps the evidence. This Dafny
project models the parts of it whose correctness is not visible in one function body,
and proves what those parts are relied on for:

- the **JSONC editor** of the setup: a hand-written scanner and textual edits that
  change one entry of a user's configuration and nothing else (`Jsonc*.dfy`,
  `JsonText.dfy`);
- the **evidence repository** as a concurrent protocol of publishers and readers that
  crash anywhere (`Repository*.dfy`), its layouts and manifests (`LayoutRoles.dfy`,
  `PublicationLayout.dfy`, `ManifestMembership.dfy`, `BundleDigest.dfy`,
  `RelativePaths.dfy`) and its queries
  (`InventoryQuery.dfy`, `Pages.dfy`, `Base64Url.dfy`);
- the **two readers** that share one output budget (`Output*.dfy`);
- the **session scratch directory**: the reservation ledger, eviction and protection
  (`Scratch*.dfy`), and the projection cache with the paging over it
  (`ProjectionPaging.dfy`, `TextFragments.dfy`);
- the **streaming JSON** machinery (`JsonTree.dfy`, `JsonEvents.dfy`,
  `JsonPreview.dfy`) and its **SARIF** client (`Sarif*.dfy`);
- self-contained algorithms: the lossless identity encoding (`CanonicalIdentity.dfy`),
  the scaling fit (`ScalingFit.dfy`), the merge of hotspot rows (`TopRows.dfy`), perf
  stacks (`Perf*.dfy`), bounded numerals (`Decimals.dfy`, `BoundedNumerals.dfy`).

Run `dafny verify dfyconfig.toml`.

## How the models are built

**JSONC.** The scanner is a set of functions of the unread text, and the loops over an
index are proved to compute them (`JsoncLoops`). A scan succeeds exactly when the text
is a concatenation of well-formed pieces (`JsoncObjects`), so an edit is an edit of the
list of pieces (`JsoncEdits`), and locality lemmas show that the untouched pieces are
scanned as before (`JsoncLocality`, `JsoncNesting`). Two things come from outside and
are parameters: which characters beyond ASCII are alphanumeric, and how json5 reads a
quoted name. The input is that of JSON5, sections 3, 5 and 7. That the written entry
is the entry is said by a reader of JSON text that knows nothing of the writer
(`JsonText.dfy`, after RFC 8259 with Python's NaN and Infinity): it reads every rendered
value back as itself (`JsoncReading`).

**Repository.** A state holds the directory tree and the program counter of every
process; a run is a list of (process, action) pairs, so a theorem about all lists is a
theorem about all interleavings. Each file-system call that others can see is a step of
its own: existence tests, listings, each mkdir, the link of the metadata, each copied
chunk, the rename; the temporary file of the metadata is part of the tree. Reads inside a
validation are one step; that is no restriction, because what they read never changes once
visible (`VisibleForever`). An I/O error may strike any step: where it strikes a read of
what is being validated the code reports corruption, elsewhere the call is interrupted.
SHA-256 and canonical JSON are constructors, hence injective. A publisher is honest when
each of its sources was hashed: digest and size are those of one file. Existence tests
fail by raising, as in Python 3.12.

So "initialize never reports corruption" holds of its listings without exception, while a
publication can report corruption of a sound repository in two cases, and in no others
(`CorruptExactly`): a failing read during validation (`ReadErrorReported`), and a directory
member whose name no manifest may hold, such as `a\b` or `C:x` (`UnportableReported`). The
layout builder does not look at member names; the manifest model does, and `HeldIff` says
which names it refuses. What a reader is told is stated by the moves of the run alone
(`RepositoryReaders`).

**Output.** A reader suspends between taking from the budget and the end of its write;
partial writes, failing writes, cancellation and the close are steps. The objects the
code mutates are classes whose methods are tied to the same functions. What is reported
in the end is told by the moves of the run alone (`OutputReport`).

**Scratch.** The ledger is stated once over tables of sizes and used for bytes and for
files. `_release_analysis_scratch` looks at protected sources and reservations but not
at the protected root of the caller of `_prune_scratch`. A root is therefore safe from
pruning exactly when it does not lie strictly inside a capture root or an evidence bundle
(`SparesExactly`); the roots the callers in runtime.py pass are whole capture roots and
conversions, and are safe (`CallersAreSafe`). Pruning, admission, caching and
the end of a capture keep the ledger's invariant, so that `CeilingsHold` speaks of them.

**Identity.** A double is an odd number times a power of two, so that its reading as an
integer is defined. RFC 8785 is any serializer that writes two values with ordered keys
and safe integers alike exactly when they are read alike.

**SARIF.** What a result becomes is one function of its events and the tool's name; the
theorems hold for every such function. What is to be judged, and under which name, is
told by the stream without a buffer (`SarifScan`): each result that ended, with the name
its run had by then. The streams are all those that close no more
containers than they open, cut off anywhere, well formed or not.

**Launcher.** `_jsonc_update_launcher` does not look at the commas between elements; its
theorem is about arrays that have them, which `json5.loads` has checked before.

## Model

| member | source | states |
|---|---|---|
| JsoncScanner.Step | src/flameox/setup.py:329-344 | a turn of the bracket loop always moves forward and never past the end of the text |
| JsoncTrivia.BlankPassed | src/flameox/setup.py:283-285 | a blank is passed over |
| JsoncTrivia.LinePassed | src/flameox/setup.py:286-289 | two slashes are passed over with the rest of their line, or of the text |
| JsoncTrivia.BlockPassed | src/flameox/setup.py:290-295 | a slash and a star are passed over up to the first end mark behind them, and are an error without one |
| JsoncTrivia.NothingPassed | src/flameox/setup.py:280-296 | nothing else is passed over |
| JsoncLocality.TriviaAppend | src/flameox/setup.py:280-296 | trivia that is closed is skipped the same way whatever stands behind it |
| JsoncLocality.StringLocal | src/flameox/setup.py:299-310 | where a string ends depends only on the string |
| JsoncLocality.CloseFrame | src/flameox/setup.py:326-344 | a piece of text that closes its own brackets leaves the brackets around it as they were, in any surroundings |
| JsoncLocality.ValueLocal | src/flameox/setup.py:313-344 | a value ends at the same place in front of any text that cannot continue it |
| JsoncLocality.HeadLocal | src/flameox/setup.py:352-371 | a property name and its colon are read the same way in front of any value |
| JsoncObjects.ScanIsDecomposition | src/flameox/setup.py:347-382 | the property loop answers with a list of properties if and only if the text is the concatenation of their well-formed pieces; the decomposition is unique |
| JsoncObjects.ObjectIsDecomposition | src/flameox/setup.py:347-382 | the same for a whole object with its brackets and first trivia |
| JsoncNesting.ObjectIsOneValue | src/flameox/setup.py:313-382 | the bracket loop of values and the loop over properties agree on where an object ends |
| JsoncRender.ContainerEnclosed | src/flameox/setup.py:391-393 | a rendered entry, every line indented, is one bracketed value wherever it is inserted |
| JsoncRender.QuotedEnclosed | src/flameox/setup.py:673-674 | a quoted requirement is one string wherever it is inserted |
| JsoncRender.AsciiOnly | src/flameox/setup.py:393-393 | names are written in printable ASCII alone |
| JsoncRender.WrittenAsItIs | src/flameox/setup.py:391-392 | the texts of an entry keep every printable character but quotes and backslashes |
| JsoncReading.ReadRendered | src/flameox/setup.py:391-393 | a value as json.dumps writes it, nested at any level and with every line indented, is read back as itself by a reader of JSON, in front of anything that does not continue a word |
| JsoncReading.QuotedReads | src/flameox/setup.py:393-393 | a quoted text, in ASCII or not, surrogate pairs included, is a JSON string of that text |
| JsoncUpdate.NamesAreRead | src/flameox/setup.py:391-393 | any reader of names that reads JSON strings as JSON does reads the names the setup writes |
| JsoncUpdate.LastLineIs | src/flameox/setup.py:385-388 | the text behind the last newline holds no newline and is behind one, or is everything |
| JsoncLoops.SkipTrivia | src/flameox/setup.py:280-296 | the index loop over whitespace, comments and a byte order mark computes the scanner function, errors included |
| JsoncLoops.StringEnd | src/flameox/setup.py:299-310 | the index loop over a string computes the scanner function, errors included |
| JsoncLoops.CloseEnd | src/flameox/setup.py:326-344 | the loop over the bracket stack computes the scanner function, errors included |
| JsoncLoops.ValueEnd | src/flameox/setup.py:313-344 | the end of a value, as an index, is what the scanner function says of the text from there on |
| JsoncLoops.PropertyAt | src/flameox/setup.py:352-380 | one turn of the property loop finds the key, the offsets and the comma of the next property |
| JsoncLoops.ObjectProperties | src/flameox/setup.py:347-382 | the property loop answers with exactly the properties of the scanned object at their offsets, or fails as the scan fails |
| JsoncEdits.ItemsReplace | src/flameox/setup.py:440-442 | with one value replaced by another enclosed value every other property is still scanned as it was |
| JsoncEdits.ItemsAppend | src/flameox/setup.py:396-408 | with a property appended, and a comma inserted only where it was missing, every other property is still scanned as it was |
| JsoncEdits.AppendEntries | src/flameox/setup.py:396-408 | names and value texts keep their order and the new one comes last |
| JsoncUpdate.AppendText | src/flameox/setup.py:396-408 | the spliced text is the text of the object with the appended property |
| JsoncUpdate.RootAgain | src/flameox/setup.py:411-449 | an edited root object is found again behind the same start of the file |
| JsoncEditor.UpdateMcpEntry | src/flameox/setup.py:411-449 | the edit fails exactly when the scan does; otherwise a second scan finds the same document in which the flameox entry is replaced in place, or appended, or got a new section, and nothing else differs; the value found there reads as the entry, and is aligned with the properties beside it |
| JsoncLauncher.WalkComplete | src/flameox/setup.py:671-677 | array elements whose text is well formed are walked over exactly |
| JsoncLauncher.PinReplaced | src/flameox/setup.py:671-676 | with its pin replaced the command array is still one value, and what stands behind it is what stood there |
| JsoncPin.PathReplaced | src/flameox/setup.py:663-676 | along any chain of names, replacing the pin changes one value in each object on the way and keeps everything else |
| JsoncPin.PinIndex | src/flameox/setup.py:671-677 | the six turns in front of the pin end at the pin |
| JsoncPin.UpdateLauncher | src/flameox/setup.py:663-678 | the edit fails as the scan of mcp, flameox, command fails; otherwise a second scan finds the same document with only element 6 of the command array changed, to a JSON string of the requirement |
| RepositorySafety.InitializeOk | src/flameox/repository.py:99-169 | every step of initialize, including the unlocked listings and the re-check behind them, keeps the invariant; a suspicious listing implies that metadata is there |
| RepositorySafety.OnlyMetadata | src/flameox/repository.py:99-112 | at every point a listing of the root shows something unfamiliar if and only if the metadata is there |
| RepositorySafety.ArtifactOk | src/flameox/repository.py:708-756 | every step of publishing an artifact keeps the invariant and everything visible |
| RepositorySafety.EvidenceOk | src/flameox/repository.py:186-203 | every step of publishing evidence, the manifest model's verdict on the staged manifest included, keeps the invariant and everything visible |
| RepositorySafety.CopyOk | src/flameox/source_files.py:70-92 | chunks copied into a stage never become a wrong artifact, whatever is read |
| RepositorySafety.ProcStays | src/flameox/repository.py:708-763 | no step of one process disturbs what another relies on |
| RepositorySafety.StepKeeps | src/flameox/repository.py:99-207 | every step of any process, a crash, an I/O error during validation or elsewhere, and the removal of dead staging keep the invariant |
| RepositorySafety.RunKeeps | src/flameox/repository.py:99-207 | the invariant holds after every schedule of any number of processes |
| RepositoryTheorems.VisibleIsVerified | src/flameox/repository.py:788-852 | in every interleaving each visible artifact hashes to its own name, each evidence identity is the hash of its body, and it refers only to visible artifacts |
| RepositoryTheorems.VisibleForever | src/flameox/repository.py:745-756 | no visible bundle and no metadata is ever replaced or removed |
| RepositoryCorruption.CorruptExactly | src/flameox/repository.py:765-852 | in every interleaving a process ends up reporting corruption if and only if one of its moves struck a read of what it was validating, or it staged a manifest whose member paths the manifest model rejects |
| RepositoryCorruption.NeverCorrupt | src/flameox/repository.py:99-207 | where reads during validation succeed and member paths are portable, no publisher or reader ever reports corruption |
| RepositoryCorruption.InitializeNeverCorrupt | src/flameox/repository.py:99-169 | whatever the paths, initialize reports corruption only where the read of the metadata fails: never for its listings |
| RepositoryCorruption.ReadErrorReported | src/flameox/repository.py:765-786 | a concrete run of one honest publisher in which a failing read is reported as corruption |
| RepositoryTheorems.UnportableReported | src/flameox/evidence_models.py:84-97 | a concrete run without any I/O error in which an honest publisher of a directory with a file named a\b reports corruption |
| RelativePaths.HeldIff | src/flameox/evidence_models.py:84-97 | of the paths a listing gives, a manifest may hold exactly those with no backslash and no colon in second place |
| RelativePaths.MayBeHeldIff | src/flameox/evidence_models.py:84-97 | the paths a manifest may hold are exactly those a listing may give, without a backslash and without a colon in second place |
| RepositoryTheorems.PublishedStays | src/flameox/repository.py:171-207 | once preserve has returned, its manifest, its analysis and all its artifacts are visible for ever |
| RepositoryTheorems.MetadataFirst | src/flameox/repository.py:124-169 | metadata appears only behind all directories, bundles only behind metadata |
| RepositoryTheorems.OnlyMetadataInRoot | src/flameox/repository.py:1027-1043 | after every run the root holds nothing but the three directories and the metadata: temporary files lie elsewhere |
| RepositoryTheorems.CanPublish | src/flameox/repository.py:171-207 | in every reachable state, whatever others left behind, a publisher that is left alone and whose sources are unchanged finishes, and it has published if and only if a manifest may hold its member paths |
| RepositoryTheorems.SameIdentity | src/flameox/repository.py:250-262 | two plans have one evidence identity exactly if they agree in artifacts, paths, analysis and provenance |
| RepositoryReaders.ResultOf | src/flameox/repository.py:114-207 | in every interleaving a process serves, and ends with the result of, the goal its last call began with |
| RepositoryReaders.ReaderTold | src/flameox/repository.py:114-122 | in every interleaving a reader is told of a repository only where there is one, and of none only if its own look, made since its call began, met a store without metadata |
| RepositoryReaders.NeverAbsent | src/flameox/repository.py:114-122 | metadata that was visible when a call began is never missed by it |
| RepositoryReaders.LookAnswers | src/flameox/repository.py:114-122 | in every reachable state a reader left alone has its answer after five moves: the repository is there exactly if its metadata is |
| RepositoryStaging.NothingLeft | src/flameox/repository.py:188-203 | in every interleaving a call that returned, published or failed, has left nothing in the staging directory and no temporary file |
| RepositoryStaging.DeadRemoved | src/flameox/repository.py:690-706 | what a crashed process left is removed by any other, and nothing else is |
| OutputProtocol.StepOk | src/flameox/execution.py:1349-1396 | every step of either reader keeps the accounts of budget, file, preview and completeness |
| OutputProtocol.BudgetExact | src/flameox/execution.py:353-360 | in every interleaving the two readers are granted exactly the smaller of the limit and what they read, and a reader stops at the limit only when it is exceeded |
| OutputProtocol.FilesArePrefixes | src/flameox/execution.py:1374-1396 | each sink file is a prefix of its stream under partial writes, failures and cancellation, and the preview a prefix of the file of at most 64 KiB |
| OutputProtocol.MemoryIsPrefix | src/flameox/execution.py:1374-1390 | without a sink the retained bytes are a prefix of the stream, all of it at its end |
| OutputProtocol.CompleteMeansAll | src/flameox/execution.py:458-485 | a stream reported complete is in its file from end to end, with no I/O error, within the limit |
| OutputReport.ReportExactly | src/flameox/execution.py:468-485 | in every run a stream is reported complete if and only if both streams were read to their ends, the readers were gathered, and no write and no close failed; an I/O error is reported if and only if one did; all told by the moves of the run |
| OutputReport.CloseTakesEffect | src/flameox/execution.py:777-851 | behind two readers that stopped a failed execution can always be closed, a successful one exactly if both streams were read to their ends |
| OutputReport.EndsExactly | src/flameox/execution.py:1363-1396 | a reader ends cancelled, whole or with a failed sink exactly if a cancellation struck it, it met the end of its stream, or one of its writes failed |
| OutputProgress.ReadsExactly | src/flameox/execution.py:1364-1390 | nothing is taken from a stream but the chunks its reader read, and none of them is lost |
| OutputProgress.ComesToItsEnd | src/flameox/execution.py:1363-1396 | in every reachable state in front of the close a reader left alone ends: cancelled if it was cancelled, at the limit if its chunk exceeded it, and otherwise with the whole of its stream |
| OutputProtocol.DiagnosticsCount | src/flameox/execution.py:362-397 | diagnostics count every byte and keep exactly the first ones |
| OutputSink.OutputBudget.Take | src/flameox/execution.py:1374-1379 | whichever reader takes how much in whatever order, what was granted in all is the smaller of the limit and what was taken in all, and the limit is reported exactly when it is exceeded |
| OutputSink.AsyncOutputSink.Write | src/flameox/execution.py:426-433 | however the raw stream takes the bytes, a prefix of the content arrives and is counted, and success means all of it |
| OutputSink.AsyncOutputSink.WriteAsync | src/flameox/execution.py:451-456 | a failing write is remembered as an I/O error |
| OutputSink.AsyncOutputSink.Close | src/flameox/execution.py:468-485 | no stream is reported complete once a write or a close has failed; the report is that of the protocol's close behind gathered readers |
| OutputSink.AsyncOutputSink.GiveUp | src/flameox/execution.py:777-778 | where the execution failed no stream is reported complete, and what arrived is counted to the byte; the report is that of the protocol's close behind a failure |
| OutputSink.WriteIsSteps | src/flameox/execution.py:426-433 | the write loop does to the file what the protocol's partial writes do |
| OutputSink.DiagnosticOutputState.Record | src/flameox/execution.py:376-378 | retained bytes are always the smaller of the limit and the observed bytes |
| OutputSink.DiagnosticOutputState.Snapshot | src/flameox/execution.py:387-397 | every snapshot satisfies observed = retained + omitted with nothing negative, as the evidence model demands |
| OutputSink.ReadDiagnostics | src/flameox/execution.py:1363-1373 | the diagnostic read loop keeps exactly the first bytes of the stream and counts all of them |
| ScratchLedger.WriteInside | src/flameox/runtime.py:3303-3319 | a write inside a reservation leaves the commitment unchanged |
| ScratchLedger.RemoveRaisesNothing | src/flameox/runtime.py:3303-3319 | deleting files, reserved or not, never raises the commitment |
| ScratchLedger.ReleaseRaisesNothing | src/flameox/runtime.py:3332-3344 | giving up a reservation never raises the commitment |
| ScratchLedger.AdmissionAdds | src/flameox/runtime.py:1839-1855 | a new reservation adds exactly what it reserves |
| ScratchLedger.CeilingsHold | src/flameox/runtime.py:372-408 | in every run of admissions, reserved writes, acquisitions, deletions and releases, real bytes and files stay within the session ceilings |
| ScratchSession.CommitmentOf | src/flameox/runtime.py:3303-3319 | the loops over files and reservations compute the ledger's commitment |
| ScratchPruning.UnitIs | src/flameox/runtime.py:325-338 | a source belongs to a capture root or an evidence bundle exactly if it lies at or below it |
| ScratchPruning.FreedExactly | src/flameox/runtime.py:339-350 | a unit goes with its analysis if and only if no other analysis that is not preserved has a source overlapping it, and no protected source or reservation does |
| ScratchPruning.EvictedExactly | src/flameox/runtime.py:304-353 | after an eviction exactly the files and artifacts in such units are gone, and every other file is as it was |
| ScratchSession.Session.ReleaseAnalysisScratch | src/flameox/runtime.py:323-353 | a file is deleted if and only if it lies in a capture root or an evidence bundle of the analysis that no other unpreserved analysis, protected source or reservation needs; artifacts likewise |
| ScratchSession.Session.EvictOldestAnalysis | src/flameox/runtime.py:304-321 | the least recently used analysis that touches no protected root goes, with the trees it alone needed, or none does |
| ScratchSession.Session.PruneScratch | src/flameox/runtime.py:372-408 | pruning terminates, takes the turns of PruneOne, none of them once the reservation fits, fails only when nothing that may go is left, and keeps the ledger's invariant |
| ScratchPruning.PruningSpares | src/flameox/runtime.py:379-403 | however far pruning goes, nothing at or below a protected source or a reservation is deleted, nor below the caller's protected root unless that root lies strictly inside a capture root or an evidence bundle |
| ScratchPruning.SparesExactly | src/flameox/runtime.py:379-403 | a protected root is safe from pruning, whatever the session holds, if and only if it does not lie strictly inside a capture root or an evidence bundle |
| ScratchPruning.CallersAreSafe | src/flameox/runtime.py:362-366 | the protected roots the callers pass, whole capture roots and conversions, are safe |
| ScratchPruning.UnitSpares | src/flameox/runtime.py:323-349 | a deleted unit overlaps a protected root exactly when the root lies strictly inside it |
| ScratchPruning.StepsPruned | src/flameox/runtime.py:385-403 | after any number of turns analyses are gone from the front of their order, artifacts only behind them, and every deleted tree was free to go |
| ScratchPruning.StuckMeans | src/flameox/runtime.py:304-318 | nothing more may go exactly when every analysis and every artifact touches a protected root |
| ScratchPruning.StepsRemove | src/flameox/runtime.py:372-408 | to the ledger pruning is a deletion, so that it keeps the ledger's invariant |
| ScratchPruning.InsideUnitIsLost | src/flameox/runtime.py:335-350 | for every root strictly inside a capture root or an evidence bundle, a session whose next turn of pruning deletes the file at that root |
| ScratchPruning.DeletingLowers | src/flameox/runtime.py:385-403 | deleting trees never raises the commitment |
| ScratchSession.Session.ReserveCaptureCapacity | src/flameox/runtime.py:1839-1855 | a capture is admitted exactly when pruning made room for all it reserves, and the ledger's invariant, with it the ceilings, is kept |
| ScratchSession.Session.CacheAnalysis | src/flameox/runtime.py:254-258 | exactly the excess over 64 goes, from the least recently used on and with the trees of each; the newest analysis stays |
| ScratchSession.Session.ReleaseCaptureScope | src/flameox/runtime.py:3332-3344 | no file of an analysis that was not preserved is lost, the root is cleared exactly where none needs it, nothing else changes, and the session is committed to no more than before |
| ScratchSession.ScopeKeeps | src/flameox/runtime.py:3337-3344 | the end of a capture takes no file from an analysis that was not preserved |
| ProjectionPaging.ProjectionCache.CachedProjection | src/flameox/runtime.py:260-266 | a hit is what the provider would answer and becomes the most recently used entry |
| ProjectionPaging.ProjectionCache.CacheProjection | src/flameox/runtime.py:268-291 | the cache meets its count and byte bounds, keeps the newest admitted entry, and drops no more of the oldest than it must |
| ProjectionPaging.Runtime.Analyze | src/flameox/runtime.py:528-601 | a page is the same slice of the projection whether a finished answer, the projection cache or the provider gives it; a continuation beyond the rows is refused; the answer is remembered, and the cache used or filled exactly where it had to be |
| ProjectionPaging.Runtime.AllPages | src/flameox/runtime.py:528-643 | following the continuation tokens from the first page gives every row once, in order, and ends, whatever other analyses do to either cache in between; the last page is complete exactly if the projection is |
| ProjectionPaging.ReadRows | src/flameox/runtime.py:2537-2562 | the page, the observed count and the completeness of a preview are those of the concatenated rows of all sources |
| ProjectionPaging.AllPreviewPages | src/flameox/runtime.py:2537-2562 | the pages of a preview rebuild all rows of all sources |
| ProjectionPaging.ContinuationRoundTrip | src/flameox/runtime.py:3248-3290 | a continuation is accepted exactly by requests with the same operation, arguments, limits and input contents, wherever the inputs lie, and gives its offset back |
| TextFragments.Fragments | src/flameox/adapters/text_preview.py:12-37 | the fragments rebuild the text, each within its size, numbered by the newlines in front of it |
| TextFragments.StrictlyIncreasing | src/flameox/adapters/text_preview.py:22-37 | line and fragment numbers strictly increase |
| TextFragments.ShortIsLast | src/flameox/adapters/text_preview.py:24-37 | only the last fragment can be both short and unterminated |
| InventoryQuery.QueryPage | src/flameox/repository.py:657-680 | a page holds the matches from its offset on up to the limit, and its continuation is the next match |
| InventoryQuery.PageUnique | src/flameox/repository.py:657-680 | no other page fits the same place |
| InventoryQuery.Query | src/flameox/repository.py:640-688 | the cursor decides where a page starts; a stale, foreign or unreadable cursor and one beyond the inventory are refused |
| InventoryQuery.ReplyUnique | src/flameox/repository.py:657-688 | a query has one answer: the contract of Query leaves no choice of page or cursor |
| InventoryQuery.AllPages | src/flameox/repository.py:640-688 | following the encoded cursors over an unchanged inventory gives exactly the matches in order, pages full but for the last, and no cursor leads to an empty page |
| InventoryQuery.CursorRoundTrip | src/flameox/repository.py:963-1012 | a minted cursor gives its offset back to the same bundles in the same order and the same filters; any other inventory finds it stale, any other filters foreign |
| InventoryQuery.LinesInjective | src/flameox/repository.py:642-643 | the joined names of an inventory determine the inventory |
| Base64Url.RestoreStrip | src/flameox/repository.py:984-995 | stripping the padding and restoring it from the length gives the padded text back |
| Base64Url.TokenRoundTrip | src/flameox/runtime.py:3254-3266 | every stripped token decodes to what was encoded |
| JsonTree.FeedValue | src/flameox/adapters/json_events.py:30-45 | fed the events of a tree the builder delivers the value it denotes |
| JsonTree.InsertIs | src/flameox/adapters/json_events.py:37-44 | an insertion into a built object changes the value under its own key alone, and a new key goes last |
| JsonTree.DenotesLast | src/flameox/adapters/json_events.py:37-44 | a built object has distinct keys, and under each the value of the last member with that key |
| JsonEvents.LocatesTree | src/flameox/adapters/json_events.py:14-27 | the path stack gives every event the location a walk of the tree gives it, and ends where it started |
| JsonEvents.ParseJsonEvents | src/flameox/adapters/json_events.py:14-27 | the loop over raw events answers with the located events |
| JsonEvents.PickTree | src/flameox/adapters/json_events.py:30-45 | from the located events of a tree exactly its values at the location are yielded, in document order |
| JsonEvents.JsonItems | src/flameox/adapters/json_events.py:30-45 | the loop with its builder and depth does what the step function says |
| JsonEvents.ItemsOfDocument | src/flameox/adapters/json_events.py:14-45 | for the event stream of any tree the two loops together yield exactly the values at the location |
| JsonPreview.ValueConsumed | src/flameox/adapters/json_preview.py:17-28 | from its first event on a value is consumed exactly |
| JsonPreview.BuildValue | src/flameox/adapters/json_preview.py:17-28 | the shared cursor ends behind the last event of the value, and the value is built |
| JsonPreview.ArrayRows | src/flameox/adapters/json_preview.py:31-39 | the elements of an array, and nothing else, are consumed |
| JsonPreview.IterJsonRows | src/flameox/adapters/json_preview.py:41-68 | every event is consumed once, the rows are the recursive projection of the tree, and anything behind the document is an error |
| JsonPreview.SectionRowIs | src/flameox/adapters/json_preview.py:53-57 | a row of a section has distinct keys, names its section, and keeps every entry of its element, or the element whole where an entry would hide the section's name |
| Sarif.Normalization.Add | src/flameox/adapters/sarif.py:146-164 | a judged result is counted once: kept, excluded, invalid, or omitted over the maximum |
| Sarif.Normalization.Flush | src/flameox/adapters/sarif.py:182-187 | pending results are judged in order, omitted ones counted |
| Sarif.Normalization.FinishRun | src/flameox/adapters/sarif.py:189-200 | the results of a run without a name are given up with a reason, each counted |
| Sarif.CandidatesAscend | src/flameox/adapters/sarif.py:146-187 | candidates keep the document order of the judged results |
| SarifReader.RunEdges | src/flameox/adapters/sarif.py:273-299 | the reader is inside a run exactly while the path stack is inside an entry of runs |
| SarifReader.ResultEdges | src/flameox/adapters/sarif.py:241-321 | the reader is inside a result exactly while the path stack is inside an entry of results |
| SarifScan.Settled | src/flameox/adapters/sarif.py:182-187 | the first name of a run settles the results it had so far: the first 1000 are judged under it, the others deferred, none is left without a name |
| SarifScan.Divided | src/flameox/adapters/sarif.py:233-257 | every result that ended is judged, nameless or deferred, and only one of them |
| SarifScan.ExpectedAscends | src/flameox/adapters/sarif.py:233-257 | what is to be judged stands in document order |
| SarifReader.Reader.SetName | src/flameox/adapters/sarif.py:294-299 | a name of a run is taken, cut off at its bound, and settles what was pending |
| SarifReader.Reader.EndResult | src/flameox/adapters/sarif.py:241-251 | a finished result is judged under the name its run has, deferred if it has none, or counted over the deferral bound, as the stream says |
| SarifReader.Reader.ConsumeDocumentEvent | src/flameox/adapters/sarif.py:260-322 | behind every document event the reader is where the stream is; misplaced containers are refused |
| SarifReader.Reader.StreamDocument | src/flameox/adapters/sarif.py:233-257 | at whatever event the stream ends the reader holds what the stream says up to its first misplaced event; there is no error exactly if none is misplaced, the input is whole and an array of runs started |
| SarifReader.Reader.ParseSarif | src/flameox/adapters/sarif.py:203-410 | wherever the input ends: the report is supported exactly if its root object started and its last version is the text 2.1.0, and complete exactly if nothing was misplaced, the input is whole, runs is an array and the root ended; results = normalized + excluded + invalid + omitted, each of them that of the results the stream says are to be judged; candidates are the first ones up to the maximum, in strictly increasing document order; the analyzers are the first 16 names of runs |
| SarifDocument.StartsAreResults | src/flameox/adapters/sarif.py:313-321 | the results that start in a document's stream are the values at the result path of its tree |
| SarifDocument.ParseDocument | src/flameox/adapters/sarif.py:203-257 | a well-placed document is supported exactly if it is an object whose last version is 2.1.0, complete exactly if it is an object with an array of runs, and its coverage counts exactly the results of its tree |
| LayoutRoles.NamespaceSeparates | src/flameox/repository.py:314-319 | namespaced roles of different sources never coincide, whatever the roles are |
| PublicationLayout.IsCurrent | src/flameox/repository.py:272-312 | the loop over the files accepts a source exactly when kind, digest and total size are what was hashed |
| PublicationLayout.BuildLayout | src/flameox/repository.py:265-365 | the builder succeeds exactly when every source is unchanged and the mapping matches the analyzed inputs, and answers with the layout |
| ManifestMembership.CheckMembership | src/flameox/evidence_models.py:283-325 | the validator's loops decide that artifacts are partitioned among uniquely named sources that fit them |
| ManifestMembership.ValidateMembers | src/flameox/evidence_models.py:238-262 | the checks of one source decide that its size and digest are those of its members and that its paths are distinct, valid and not inside each other |
| ManifestMembership.AncestorIs | src/flameox/evidence_models.py:246-250 | a path leads through another exactly if its first parts are the other's parts |
| ManifestMembership.RolesAsGiven | src/flameox/repository.py:314-324 | roles are kept as given exactly where no two sources and no two files share one; otherwise all are namespaced |
| ManifestMembership.RolesUnique | src/flameox/repository.py:314-324 | published roles are unique with and without the namespace |
| ManifestMembership.PublishedPasses | src/flameox/evidence_models.py:238-325 | a published layout passes the validator if and only if the paths inside its directories are ones a manifest may hold |
| ManifestMembership.FindSource | src/flameox/repository.py:383-426 | a selector finds the one artifact or logical source it was minted for |
| ManifestMembership.Replay | src/flameox/repository.py:383-464 | the selector of an analyzed input gives the analyzed source back, with its members in order |
| BundleDigest.AnyListing | src/flameox/source_files.py:41-45 | the digest of a directory, members sorted by the parts of their paths, does not depend on the order in which they are listed |
| BundleDigest.DigestTells | src/flameox/source_files.py:41-45 | two directories with the same paths have one digest exactly if every member has the same digest |
| RelativePaths.OrdersDiffer | src/flameox/source_files.py:41-45 | sorting paths by their parts is not sorting them by their texts |
| CanonicalIdentity.RestoreNormalize | src/flameox/canonical.py:48-63 | a decoder recovers every value from its encoding |
| CanonicalIdentity.Injective | src/flameox/canonical.py:48-63 | different values have different encodings |
| CanonicalIdentity.NormalizedIsSafe | src/flameox/canonical.py:48-63 | the encoding holds only integers a JSON number carries exactly |
| CanonicalIdentity.SafeIs | src/flameox/canonical.py:10-11 | safe integers are exactly those below 2 to the 53rd in magnitude |
| CanonicalIdentity.NormalizedIsSorted | src/flameox/canonical.py:57-62 | encoded objects list distinct keys in order |
| CanonicalIdentity.UnchangedIffOrdinary | src/flameox/canonical.py:48-63 | the encoding leaves a value alone if and only if it holds no wide integer and no reserved key |
| CanonicalIdentity.IdentityExact | src/flameox/canonical.py:24-26 | two identities are one if and only if the values agree once integral safe doubles are read as the integers they are |
| CanonicalIdentity.IdentityInjective | src/flameox/canonical.py:24-26 | among values without integral safe doubles, identities agree if and only if the values do |
| CanonicalIdentity.OneIsOnePointZero | src/flameox/canonical.py:24-26 | the integer 1 and the double 1.0 are different values with one identity |
| ScalingFit.PoolMeasurements | src/flameox/providers/benchmark_scaling.py:89-98 | the running mean of every input value is the mean over all its samples and lies between their bounds |
| ScalingFit.PooledAnyOrder | src/flameox/providers/benchmark_scaling.py:89-98 | the pooled series does not depend on the order of the measurements |
| ScalingFit.AboveFitted | src/flameox/providers/benchmark_scaling.py:143-157 | the residual of any line is the fitted one's plus two squares, and residual = total - slope^2 * variance |
| ScalingFit.LeastSquares | src/flameox/providers/benchmark_scaling.py:143-150 | the estimate is the only line of least squared residual |
| ScalingFit.Explained | src/flameox/providers/benchmark_scaling.py:151-158 | r squared lies in [0, 1] without the clamp |
| ScalingFit.PowerLaw | src/flameox/providers/benchmark_scaling.py:121-160 | points of an exact power law give back its exponent and coefficient with r squared 1 |
| ScalingFit.TwoInputsSuffice | src/flameox/providers/benchmark_scaling.py:106-127 | two different inputs are enough for an estimate |
| TopRows.StableSortIs | src/flameox/providers/structured_workers.py:87-94 | the sort orders the rows, keeps each, and keeps rows of one key in the order they came in |
| TopRows.InsertAllCut | src/flameox/providers/structured_workers.py:86-96 | rows that were cut off never come back |
| TopRows.Merge | src/flameox/providers/structured_workers.py:62-98 | cutting after every profile gives the rows of one stable sort cut at the end; values never increase from row to row, and identifiers decide between equal ones; the result is complete exactly when every profile was and all rows fit; counts and metrics add up |
| PerfScript.CollapseScript | src/flameox/runtime.py:2875-2916 | the stacks written are the non-empty stacks of the script with their multiplicities |
| PerfScript.SamplesAreClean | src/flameox/runtime.py:2893-2908 | every frame that is written is non-empty and holds neither a semicolon nor a newline |
| PerfFrames.FrameMeans | src/flameox/runtime.py:2893-2908 | a frame that is accepted is an address, a symbol, and behind the last opening parenthesis its shared object; it is written under its symbol without the offset that reaches to the end |
| PerfFrames.FrameAccepted | src/flameox/runtime.py:2893-2908 | every such line is accepted |
| PerfFrames.SampleRead | src/flameox/runtime.py:2875-2892 | a sample is a block of frame lines, its first line the leaf and its last the root; the samples behind it are read as if alone |
| PerfCollapsed.SplitIs | src/flameox/providers/cpu.py:181-181 | the pieces of a stack hold no semicolon and joined by semicolons give it back |
| PerfCollapsed.ReadDeep | src/flameox/providers/cpu.py:170-188 | the leaf of a stack of several frames is read back whatever its root looks like |
| PerfCollapsed.ReadSingle | src/flameox/providers/cpu.py:170-188 | a single frame is read back under its own name, or with a leading blank never under it |
| PerfRoundTrip.ReadCollapsed | src/flameox/providers/cpu.py:160-192 | the reader's table and total are the sums over the lines |
| PerfRoundTrip.CountsAddUp | src/flameox/runtime.py:2879-2883 | counts by stack add up to samples by leaf |
| PerfRoundTrip.RoundTrip | src/flameox/providers/cpu.py:159-200 | a profile is read back with every leaf's samples and the right total if and only if no sample is a single frame whose symbol starts with a blank |
| PerfRoundTrip.ScriptRoundTrip | src/flameox/runtime.py:2874-2916 | the same from the lines of a perf script to the profile |
| PerfRoundTrip.BlankSymbol | src/flameox/runtime.py:2893-2908 | a line of a perf script, with two blanks behind its address, from which such a sample comes |
| Decimals.ComparesAsNumbers | src/flameox/providers/nvbench.py:265-267 | length first, then the texts, compares canonical numerals as their numbers |
| BoundedNumerals.PatternDecides | src/flameox/runtime_contracts.py:249-261 | the generated pattern accepts exactly the canonical numerals up to its maximum, for any maximum of two digits or more |
| BoundedNumerals.PatternAgrees | src/flameox/runtime_contracts.py:249-287 | schema pattern and validator accept the same texts |
| BoundedNumerals.BoundRoundTrip | src/flameox/runtime_contracts.py:320-322 | a serialized window bound is read back as itself |
| BoundedNumerals.WrittenForDoubles | src/flameox/runtime_contracts.py:269-322 | a bound is written as a number exactly if it is accepted back from a reader that keeps numbers as doubles; all others are written as text |
| BoundedNumerals.SampleLimit | src/flameox/providers/nvbench.py:258-268 | the digit-string check decides value > 1,000,000 for every numeral |

## Left out

- JsoncEditor.UpdateMcpEntry: promises the unchanged rest only where bare values of the edited section hold none of the characters JSON5 forbids in them, because the bracket loop and the property loop disagree on such texts; the configuration has been accepted by json5 before the edit.
- JsoncPin.UpdateLauncher: has the same proviso along the path to the array; where the array is too short or lacks commas only the errors of the scan are stated.
- JsoncReading.ReadRendered: a number is the numeral it is written as; how json.dumps chooses the numeral of a float is not modelled.
- RepositoryCorruption.CorruptExactly: symbolic links, permissions and fsync are not modelled, nor files placed into the repository by other programs; a rename onto a non-empty directory is assumed to fail; existence tests that swallow errors, as from Python 3.13 on, are not modelled.
- RepositoryTheorems.PublishedStays: the process identities behind the removal of dead staging are taken to be right; a reused process number is not modelled.
- OutputProtocol.CompleteMeansAll: the process, signals, clocks and resource observation are not modelled; they appear as cancellation of a reader or as a close that marks both streams incomplete.
- ScratchLedger.CeilingsHold: assumes captures write no more than they reserved, and does not cover conversions, which write first and prune afterwards.
- ScratchPruning.PruningSpares: paths are compared as written; paths that meet only through symbolic links are not modelled.
- ProjectionPaging.Runtime.AllPages: the provider is a function of the request, and the JSON of a token any lossless codec; deep copies are not modelled.
- InventoryQuery.QueryPage: what the filters ask of a manifest is one predicate of both; validation of each manifest while paging is part of the repository model.
- InventoryQuery.CursorRoundTrip: the JSON of a cursor is any lossless codec.
- Base64Url.TokenRoundTrip: the lenient decoding of texts that were never encoded is not modelled.
- JsonEvents.ItemsOfDocument: tokenizing bytes into events is not part of this model.
- ManifestMembership.FindSource: the choice of a single source without a selector is not modelled.
- SarifReader.Reader.ParseSarif: what a result becomes is any function; exit statuses, truncation notes and the texts of limitations are not modelled.
- PublicationLayout.BuildLayout: reading files and listing directories are inputs; that a listing holds distinct paths, none inside another, is required.
- BundleDigest.AnyListing: injectivity of the digest is not claimed; names and digests are concatenated without separators.
- CanonicalIdentity.IdentityExact: the bytes of RFC 8785 are not modelled beyond when two of them agree; NaN and the infinities, which it refuses, are no values here.
- ScalingFit.LeastSquares: reals instead of IEEE doubles; logarithms are taken before the model starts, and the branches for overflow and for a variance below rounding error are idealised to a variance of zero.
- PerfRoundTrip.ScriptRoundTrip: splitting the script into lines, and the reader's limits on line length and frame count, are not modelled.
- BoundedNumerals.PatternAgrees: bool and non-integral floats are one rejected case.
- The command line, the MCP server, schemas, installers, provider adapters other than those above, capture planning and the sampled-caller and speedscope readers: not modelled, or only easy members would be added.
