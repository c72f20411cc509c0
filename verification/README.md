# Verification of the agent's protocols, compilers and codecs

Dafny models of the parts of the agent whose correctness spans several functions, several processes
or whole runs, with proofs about them. `dafny verify dfyconfig.toml` checks everything.

## What is modelled

- **Search** (`SearchWalk`, `SearchHits`, `Search`, `SearchService`, `SearchCursors`, `SearchClients`). A
  resumable depth-first search with an explicit stack, a queue of at most 200 matches, a half-scanned file,
  budgets of 500 entries and 32000 characters, and a bounded listing cache, cut into pages at arbitrary
  points. It is proved against a plain recursive walk: what a state still owes is a list of items, and every
  step moves items from owed to handed out. What that walk finds is told again from the tree alone: places,
  terms and depths. Any number of clients, and strangers with cursors of any origin, are interleaved at
  the awaits.
- **Mutations** (`Journal`, `Outcome`, `Mutation`, `MutationCore`). The durable journal as a table
  changed by whole transactions; the classification of one native mutation by helper, transport,
  client, runtime and core; and the protocol that joins them, as interleaved steps of any number of
  calls with crashes, retries, lost native processes and journal writes that fail or succeed unheard.
- **Recovery** (`Recovery`, `IdealCodec`, `Documents`, `OwnerFiles`). Encrypted preimages read back before
  they are relied on, the operations on files and directories that may only dispatch once such a record
  is attached, and whole calls that undo each other, while others change the volume at every await.
- **Repository lock** (`RepoLock`, `RepoLockService`, `Heartbeat`). Lock file and lease row as interleaved
  steps of any number of processes, and the heartbeat timer with its drain.
- **Scheduler** (`Scheduler`). Claiming, dispatching, settling and stopping in any order.
- **Publishing** (`Publishing`). Publication, task runs and repairs as sequences of effects under ports that
  may fail before or after taking effect, while others change the task's status.
- **Compilers and codecs** (`Bpf`, `Manifest`, `GitIndex`, `GitSnapshot`, `GitRecords`, `Base64`, `Xattr`).
  The system-call filter against its decision table; the tree manifest as a unique encoding; the
  index, status and raw-diff readers against writers; base64 of section 4 of RFC 4648 and the
  serializer of extended attributes.
- **Shell commands** (`ShellSyntax`, `Shell`, `ShellTheorems`, `ShellRoundTrip`, `ShellRefusals`). Three
  scanners over one quoting automaton, the writers they invert (any quoting, any spacing, any `sudo` and
  `env` in front), and the characters they refuse.
- **Single-use authority** (`Consent`, `Approvals`, `CommandRunner`). In-memory grants with requests
  suspended at the verifier, durable approvals, and the command runner that spends them.

`Wrappers`, `Sequences`, `Octets`, `Decimals`, `Formats`, `Lexical`, `Utf8` (section 3 of RFC 3629) and `Json`
(strings of section 7 of RFC 8259) hold what the others share.

## How it is modelled

Code that changes state step by step is a class or a method with a loop, proved against a function or
a relation on values; the properties are lemmas about those. Where a protocol is concurrent, its
atomic steps form a state machine, and the sequential code is proved to be a run of it. SQLite tables
are maps changed by atomic transactions; file systems are values that do not change during a call
unless the model says so. Texts are printed and encoded as the code prints and encodes them; JSON parsers,
lenient decoders, AES-GCM and hashes are parameters of which only the least is asked (parsing undoes
printing, a box opens to what was sealed and only under its own id, a digest stands for what was
digested), and lemmas show that such parameters exist. Clocks, random ids, native outcomes, failures of
ports and what others do at an await are parameters too, and the results hold for all their values.

## Where the code does not do what one would expect

- Trimming a shell segment drops an escaped trailing space, so the words of `x\ ` differ from those of
  the segment it stands in: `ShellTheorems.TrimKeepsWordsIff` gives the exact condition and
  `ShellTheorems.EscapedTrailingSpaceIsLost` a command that is accepted and misreported. Empty quoted
  words vanish: `ShellRoundTrip.SingleCommandIff`, and `ShellRoundTrip.EmptyWordVanishes` for an input.
- The index reader drops a byte order mark at the start of a path, so it does not return the written
  path set then: `GitIndex.ExactPathsIff`, and `GitIndex.AMarkedNameIsMisread` for an input. The skip
  rule is safe nevertheless, because the walk refuses names with format characters:
  `GitSnapshot.SkippedHoldsNothing`. Its signature test ignores the top bit of each byte.
- A command that contains the same approval-gated operation twice can never be covered by one approval,
  and the first consumption is lost: `CommandRunner.SufficeIff`, and
  `CommandRunner.TwoEqualAsksLoseTheApproval` for an input.
- A crash between creating the lock file and releasing the lease, a failed write of the token, or a
  failed release closes the repository for good, since nothing removes another attempt's file:
  `RepoLock.AbandonedLockStays`. As long as the maker of the file goes on it can still be freed:
  `RepoLock.FreedIff`, and `RepoLock.CrashAbandons` for a run that gets stuck.
- The conflict on the lease row that the service translates into "locked" cannot occur:
  `RepoLock.InsertNeverConflicts`. What does get translated is an unknown task or repository, whose
  foreign key fails while the lock file was free: `RepoLockService.Service.Acquire`.
- The drain of the heartbeat timer waits for the latest tick only. It means that no tick is running
  exactly when the older ones had settled: `Heartbeat.DrainIsQuietIff`, with a run of overlapping ticks
  in `Heartbeat.OverlapDrainsEarly`. Ticks overlap only if a beat takes longer than the interval; the
  beat of the repository lease does its work synchronously, so this needs another, slow one.
- The scheduler takes a candidate that was listed as waiting without looking at the table again, so a
  stale listing dispatches a task that has moved on: `Scheduler.DispatchedWaitsIff` gives the exact
  condition and `Scheduler.StaleListingDispatches` an input. A pass is synchronous, so it takes
  another process that writes to the same database to make the listing stale.
- A post-dispatch step that raised a native denial would turn a committed change into a recorded
  denial; the code has none: `Mutation.MisjudgedIff`.
- A content version does not say whether it is a file's or a directory's: `Documents.VersionsAgreeIff`.
  The helper compares kinds, so nothing of the wrong kind is moved: `OwnerFiles.Owner.DispatchTrash`.
- A publication releases the lease only after a check on the commit exactly if that check is wired:
  `Publishing.CheckedIff`, and `Publishing.CommitCheckIff` for a run that fails on the way. A repair has
  no such check, and releases the lease for a sha that none has seen: `Publishing.RepairHasNoCommitCheck`.

## Model

| member | source | states |
|---|---|---|
| `SearchWalk.FolderReports` | apps/agent/src/owner-workspace-core.ts:388-428 | the work items a folder stands for (one step per entry, the entry's own matches before those below it) report exactly the matches, unreadable places and errors of the recursive walk |
| `SearchService.ListingCache.Put` | apps/agent/src/owner-workspace-core.ts:395-403 | evicts listings only if the new one would not fit; afterwards `cachedEntries` is the sum of the cached listings and at most 10000, and the new one is cached |
| `SearchService.ListingCache.Fetch` | apps/agent/src/owner-workspace-core.ts:390-408 | gives the listing an unchanging tree has, cached or not |
| `SearchService.SearchState.QueueLines` | apps/agent/src/owner-workspace-core.ts:349-361 | queues the matching lines from `start` on, stops at 200 pending, and remembers exactly where it stopped: queued matches plus the remembered rest are the file's matches |
| `SearchService.SearchState.ContinueScan` | apps/agent/src/owner-workspace-core.ts:376-387 | resuming a half-scanned file owes nothing more and nothing less; a changed version counts as unreadable |
| `SearchService.SearchState.NextEntry` | apps/agent/src/owner-workspace-core.ts:388-428 | examining one entry, popping an exhausted frame (at no cost of work) or an unreadable folder keeps what is owed and leaves strictly less to do |
| `SearchService.SearchState.ShowNext` | apps/agent/src/owner-workspace-core.ts:363-374 | shows the head of the queue cut to the remaining text budget and marks it truncated exactly if something was cut |
| `SearchService.SearchState.Page` | apps/agent/src/owner-workspace-core.ts:343-429 | one page: terminates, at most 500 entries examined, at most maxResults matches and 32000 characters; what was owed before is the page's matches followed by what is owed after; an unfinished page makes progress; it throws only if the recursive walk meets an error |
| `SearchService.PagesFollowWalk` | apps/agent/src/owner-workspace-core.ts:317-442 | after any number of pages, the matches handed out followed by those still owed are the recursive walk's matches in its order |
| `SearchService.AllPagesAreTheWalk` | apps/agent/src/owner-workspace-core.ts:317-442 | following cursors to null gives exactly the recursive walk: none lost, repeated or reordered, same unreadable count |
| `SearchHits.IncludesIff` | apps/agent/src/owner-workspace-core.ts:355 | the text test is: the term stands somewhere in the text |
| `SearchHits.WalkFinds` | apps/agent/src/owner-workspace-core.ts:355-425 | what the recursive walk finds are the events of the tree (matches, unreadable places, errors), each once and in the order of the names |
| `SearchHits.FindsOneMatchPerPlace` | apps/agent/src/owner-workspace-core.ts:355-425 | told from the tree alone: one match for each line that contains the term, of each readable text file at most maxDepth folders below the start (in name mode for each entry whose shown name contains it), with shown path, line number and at most 32000 characters; no other match; in the order of the names |
| `SearchHits.FindsEveryObstacle` | apps/agent/src/owner-workspace-core.ts:380-424 | the unreadable places and the errors are counted exactly, each place once |
| `SearchService.AllPagesFindWhatThereIs` | apps/agent/src/owner-workspace-core.ts:317-442 | the pages of a finished search hold exactly those matches and that count |
| `SearchService.ThrowingPageMeansFailingWalk` | apps/agent/src/owner-workspace-core.ts:362-429 | a page can throw only when the recursive walk meets an error as well |
| `SearchService.FinitelyManyPages` | apps/agent/src/owner-workspace-core.ts:362-438 | the number of pages is bounded by the size of the tree |
| `SearchCursors.Searches.Open` | apps/agent/src/owner-workspace-core.ts:329-342 | expired cursors go; a request is opened exactly for a live cursor of its own root and query, or for a new search while fewer than 64 cursors live; then its cursor is gone and the search reachable from no other |
| `SearchCursors.MayOpenIff` | apps/agent/src/owner-workspace-core.ts:329-342 | when a request is opened, told from the table alone |
| `SearchCursors.Searches.Keep` | apps/agent/src/owner-workspace-core.ts:430-438 | a rest is kept under a new cursor unless 64 exist or the lifetime counted from the first page is over |
| `SearchCursors.Searches.Request` | apps/agent/src/owner-workspace-core.ts:317-442 | a request answers with one page of the search its cursor stood for, and carries a cursor exactly when something is left; it is denied only if it was not opened, the journal refuses the observation at its beginning or its end, the search meets an error or its lifetime is over; every other live search is kept as it was |
| `SearchCursors.Searches.Follow` | apps/agent/src/owner-workspace-core.ts:317-442 | redeeming one cursor after another, from any state of a search: the pages are exactly what the search still owed, and their number is bounded by it; it finishes if no error is owed, the search was opened and the journal takes everything before its lifetime is over |
| `SearchCursors.Searches.SearchAll` | apps/agent/src/owner-workspace-core.ts:317-442 | a whole search by redeeming cursors until none comes back is the recursive walk and finds exactly what there is in the tree; it finishes whenever that walk meets no error, the table has room, the journal takes the observations and the lifetime suffices |
| `SearchClients.StepKeepsInv` | apps/agent/src/owner-workspace-core.ts:317-442 | one step of any client or stranger (a request opens, produces its page, ends or fails) keeps every client's balance: its walk is what it received and what its search still owes |
| `SearchClients.EveryClientGetsItsWalk` | apps/agent/src/owner-workspace-core.ts:317-442 | over every interleaving of any number of clients and of strangers using any cursor: what a client has received is a beginning of its own recursive walk, with what its search still owes it is the whole of it, and a client that is done has received exactly the walk |
| `SearchClients.RequestIsARun` | apps/agent/src/owner-workspace-core.ts:317-442 | a request that runs undisturbed and answers with a page is three steps of that machine, with the same table and the same matches afterwards, and touches no other client |
| `Shell.AssertSupportedShellSyntax` | packages/policy/src/command-parser.ts:42-110 | the first scanner accepts exactly the commands the quoting automaton passes without an unquoted unsupported character |
| `Shell.SplitShellComposition` | packages/policy/src/command-parser.ts:117-172 | the second scanner cuts at exactly the unquoted separators of the same automaton |
| `Shell.Tokenize` | packages/policy/src/command-parser.ts:185-242 | the third scanner yields the words of the same automaton, each with its expansion mark |
| `Shell.UnwrapCommand` | packages/policy/src/command-parser.ts:244-280 | drops `sudo`, `env`, their options and assignments; what is left is what `ShellRoundTrip.UnwrappingInvertsWrapping` says |
| `Shell.NormalizeShellCommand` | packages/policy/src/command-parser.ts:324-359 | all three scanners composed; a command is refused as a whole or reported operation by operation |
| `ShellTheorems.TokenizerMode` | packages/policy/src/command-parser.ts:185-242 | the tokenizer is in the same quote and escape state as the other scanners at every character |
| `ShellTheorems.SplittingIsSound` | packages/policy/src/command-parser.ts:117-172 | pieces and separators account for every character, every cut is outside quotes, and on an accepted command no piece holds an unquoted separator, redirection, newline or lone ampersand |
| `ShellTheorems.PieceModes` | packages/policy/src/command-parser.ts:117-172 | inside a piece the state is the one reached by scanning the whole command up to there |
| `ShellTheorems.TrimKeepsWordsIff` | packages/policy/src/command-parser.ts:124-128 | exactly when trimming a segment keeps its words: the trimmed text ends outside quotes and escapes, or nothing was trimmed at its end |
| `ShellTheorems.EscapedTrailingSpaceIsLost` | packages/policy/src/command-parser.ts:124-128 | an input on which it does not: the normalizer accepts `x\ ` and reports the argument `x` without its space |
| `ShellRoundTrip.NormalizeInvertsPrint` | packages/policy/src/command-parser.ts:324-359 | normalizing printed commands gives what their words mean, however each stretch of a word is written (bare, in single or double quotes, after a backslash), whatever white space stands between words and around separators |
| `ShellRoundTrip.UnwrappingInvertsWrapping` | packages/policy/src/command-parser.ts:244-280 | `sudo` with options, `env` with options and assignments, both or neither, each perhaps ended by `--`, in front of a command: exactly the command is left |
| `ShellRoundTrip.EveryCommandIsWrapped` | packages/policy/src/command-parser.ts:244-280 | and every list of words is such a wrapping of what is left of it |
| `ShellRoundTrip.CommandsComeBack` | packages/policy/src/command-parser.ts:324-359 | printed commands of non-empty words, wrapped or not, are reported one for one with their own argv, separator and text |
| `ShellRoundTrip.SingleCommandIff` | packages/policy/src/command-parser.ts:244-280 | a single printed command comes back as its words if and only if it has words, none is empty and the first is neither `sudo` nor `env` |
| `ShellRoundTrip.EmptyWordVanishes` | packages/policy/src/command-parser.ts:185-242 | an input on which it does not: `x ''` is accepted and reported without its empty argument |
| `ShellRefusals.SupportedIff` | packages/policy/src/command-parser.ts:42-110 | the first scanner refuses exactly a newline outside quotes or after a backslash, a redirection or lone ampersand outside quotes, or a command substitution outside single quotes |
| `ShellRefusals.DynamicIff` | packages/policy/src/command-parser.ts:185-242 | a segment is marked for expansion exactly by an unquoted `$ * ? [ {`, an unquoted tilde before anything of its word, or a `$` inside double quotes |
| `ShellRefusals.RefusedIff` | packages/policy/src/command-parser.ts:324-359 | the normalizer refuses a command exactly for one of these characters |
| `Journal.Repository.Get` | packages/persistence/src/repositories/local-operation-repository.ts:71-86 | every row of a reachable store passes the checks made on reading it |
| `Journal.Repository.Insert` | packages/persistence/src/repositories/local-operation-repository.ts:60-62 | the partial unique index refuses exactly a second PREPARED or UNRESOLVED mutation on a volume |
| `Journal.Repository.Admit` | packages/persistence/src/repositories/local-operation-repository.ts:87-104 | succeeds exactly for an admissible request that is new on a free volume or repeats a known one field for field; a repetition changes nothing |
| `Journal.Repository.Finish` | packages/persistence/src/repositories/local-operation-repository.ts:105-118 | one transition out of PREPARED or OBSERVING with a reportable result; a READ cannot become UNRESOLVED |
| `Journal.Repository.AttachRecovery` | packages/persistence/src/repositories/local-operation-repository.ts:119-129 | one recovery id per PREPARED mutation, recorded as an event |
| `Journal.Repository.Events` | packages/persistence/src/repositories/local-operation-repository.ts:130-133 | the events of an operation in order; folding them gives its state |
| `Journal.InEveryRun` | packages/persistence/src/repositories/local-operation-repository.ts:49-133 | in every run: at most one PREPARED or UNRESOLVED mutation per volume, every row readable, each row's state the fold of its events |
| `Journal.FinalForever` | packages/persistence/src/repositories/local-operation-repository.ts:105-118 | a finished row never changes again, so UNRESOLVED is absorbing |
| `Journal.UnresolvedBlocksVolume` | packages/persistence/src/repositories/local-operation-repository.ts:45-62 | after an UNRESOLVED mutation no run ever admits another mutation on that volume |
| `Journal.UnresolvedRefuses` | packages/persistence/src/repositories/local-operation-repository.ts:87-104 | at every later moment such an admission is refused |
| `Journal.BindingForever` | packages/persistence/src/repositories/local-operation-repository.ts:87-104 | what was admitted under an id stays bound to it |
| `Journal.TurnFrees` | packages/persistence/src/repositories/local-operation-repository.ts:60-62 | a mutation that ends APPLIED frees its volume: the next one can be admitted there |
| `Outcome.Helper.AskCommit` | apps/windows-workspace-helper/main.cpp:52-54 | the claim is Unknown from the request on |
| `Outcome.Helper.CommitAnswered` | apps/windows-workspace-helper/main.cpp:54-55 | and Applied only once the commit is reported |
| `Outcome.Helper.Perform` | apps/windows-workspace-helper/main.cpp:44-57 | after the transaction is gone the claim is Applied exactly for a reported commit, and NoChange exactly if nothing was begun or a rollback was reported |
| `Outcome.Helper.Run` | apps/windows-workspace-helper/main.cpp:438-453 | exit code and receipt of one run, for every point of failure and for a run that the watchdog or a signal ends |
| `Outcome.ReceiptIsTrue` | apps/windows-workspace-helper/main.cpp:438-453 | exit 0 only with the change on disk, exit 1 with the no-change receipt only without it |
| `Outcome.Exchange.Receive` | apps/agent/src/windows-workspace-transport.ts:49-61 | chunks, overflow, diagnostics, stream errors and the timeout in any order: the exchange is spoiled exactly if anything but output within 4 MiB happened, and otherwise holds the output |
| `Outcome.Exchange.Close` | apps/agent/src/windows-workspace-transport.ts:62-84 | the classification of a closed child as a function of what was received |
| `Outcome.ClientInvoke` | apps/agent/src/windows-workspace-client.ts:153-181 | own refusals deny, anything unclear after a mutation was sent is unresolved |
| `Outcome.BackendInvoke` | apps/agent/src/owner-workspace-runtime.ts:253-276 | guards before the dispatch deny, a lost root pin after a mutation is unresolved |
| `Outcome.ChangeIsNeverDenied` | apps/agent/src/windows-workspace-transport.ts:62-84 | a change that happened, or may still happen, is called a no-change denial by no layer: transport, client, runtime or core |
| `Outcome.ReplyMeansCommitted` | apps/agent/src/windows-workspace-client.ts:162-176 | a reply that reaches the core proves the change is on disk |
| `Outcome.DeniedIff` | apps/agent/src/owner-workspace-runtime.ts:253-276 | exactly when the whole stack answers with a no-change denial: nothing was launched, or the helper's own receipt came through |
| `Outcome.RepliedIff` | apps/agent/src/owner-workspace-runtime.ts:253-276 | exactly when a reply reaches the core: all guards passed, a clean exchange, exit code 0, and every check of the reply passed |
| `Outcome.WatchdogIsUnresolved` | apps/agent/src/windows-workspace-transport.ts:62-84 | a run the watchdog ends is unresolved on every layer, whatever it had done or printed |
| `Outcome.WatchdogIsRelayed` | apps/windows-workspace-helper/main.cpp:441-444 | such a run, with its exit code relayed, is among the answers the results speak of |
| `Mutation.MisjudgedIff` | apps/agent/src/owner-workspace-core.ts:475-479 | a possible change would be recorded as a denial only if the work after a good reply raised a native denial, which it never does |
| `Mutation.StepKeepsInv` | apps/agent/src/owner-workspace-core.ts:453-484 | every step of the protocol (admission, retry, capture, dispatch, native landing, verdict, journal write that fails or is unheard, crash) keeps the invariant |
| `Mutation.RunsKeepInv` | apps/agent/src/owner-workspace-core.ts:453-484 | so does every run |
| `Mutation.DispatchedAtMostOnce` | apps/agent/src/owner-workspace-core.ts:464-471 | across calls, crashes and retries the native operation is handed down at most once per request id |
| `Mutation.AppliedAnswerIsTrue` | apps/agent/src/owner-workspace-core.ts:444-484 | an APPLIED answer means an APPLIED row and a change on disk |
| `Mutation.DeniedAnswerIsTrue` | apps/agent/src/owner-workspace-core.ts:444-484 | a DENIED answer means a DENIED row and an operation that changed nothing and never will |
| `Mutation.ChangesAreOnRecord` | apps/agent/src/owner-workspace-core.ts:475-484 | whatever changed the disk, or still may, is on record as APPLIED, UNRESOLVED or PREPARED |
| `Mutation.OneFlightPerVolume` | apps/agent/src/owner-workspace-core.ts:226-236 | never two native mutations in the air on one volume, not even after their controllers crashed or timed out |
| `MutationCore.Core.Attempted` | apps/agent/src/owner-workspace-core.ts:525-531 | the body of an operation from capture to verdict is a run of the protocol, together with whatever others do at its awaits |
| `MutationCore.Core.Await` | apps/agent/src/owner-workspace-core.ts:468-474 | an await: any possible steps of other operations, and retries of this one, leave its row, phase and flight alone |
| `MutationCore.Core.Refuse` | apps/agent/src/owner-workspace-core.ts:475-483 | the error handler records the outcome only while the row is PREPARED |
| `MutationCore.Core.Mutate` | apps/agent/src/owner-workspace-core.ts:453-484 | a whole call, including replays, failing journal writes and other calls at every await, is a run of the interleaved protocol; with a working journal a new call is answered and recorded DENIED exactly if it stopped before the dispatch, nothing was launched or the no-change receipt came through, APPLIED exactly if a reply passed every check and can be reported, UNRESOLVED otherwise, and only then its volume stays closed |
| `Json.QuotedCut` | apps/agent/src/local-recovery-store.ts:100-102 | a printed JSON string says where it ends, so what follows cannot change what it says |
| `Recovery.PayloadTextInjective` | apps/agent/src/local-recovery-store.ts:100 | different contexts or bytes are printed differently |
| `Formats.RelativePathIff` | apps/agent/src/local-recovery-store.ts:16-20 | a relative path has 1 to 2048 characters, none of them a backslash, colon or control character, and nothing between its slashes is empty, a dot or two dots |
| `Recovery.RecordRoundTrip` | apps/agent/src/local-recovery-store.ts:93-145 | a written record reads back under its own id and as nothing under any other |
| `IdealCodec.IdealExists` | apps/agent/src/local-recovery-store.ts:93-145 | parsers, decoders and a cipher with everything the store is proved under do exist |
| `Recovery.FileFits` | apps/agent/src/local-recovery-store.ts:93-145 | no record within the 2 MiB limit is refused for its size on reading: the file stays below four times the limit through both rounds of base64 |
| `Recovery.Store.Read` | apps/agent/src/local-recovery-store.ts:111-116 | the bytes of a record whose context is the expected one |
| `Recovery.Store.ReadForTarget` | apps/agent/src/local-recovery-store.ts:118-123 | a record only for its own root, root identity and path |
| `Recovery.Store.Capture` | apps/agent/src/local-recovery-store.ts:93-110 | succeeds exactly for a valid context and an accepted size under a new id whose file stays readable; then the id reads as exactly these bytes in this context; every other id reads as before |
| `OwnerFiles.Owner.DispatchWrite` | apps/agent/src/owner-workspace-core.ts:531-533 | may be called over an existing file only when the journal row points at a record that reads back to exactly that file's content; the helper compares identity and bytes with what it meets, whatever others did meanwhile |
| `OwnerFiles.Owner.KeepRecord` | apps/agent/src/owner-workspace-core.ts:528-530 | a record and its id in the journal, exactly if store and journal both accept |
| `OwnerFiles.Owner.Replace` | apps/agent/src/owner-workspace-core.ts:525-537 | capture, attach, dispatch: exactly when it succeeds; the volume only ever changes from the recorded file to the new content, whatever the native outcome |
| `OwnerFiles.Owner.WriteFile` | apps/agent/src/owner-workspace-core.ts:539-551 | exactly when a write succeeds, with others changing the volume at every await; it replaces only the version the caller saw, and only with that version's content on record |
| `OwnerFiles.Owner.OverwrittenMeans` | apps/agent/src/owner-workspace-core.ts:485-551 | what a successful write or restore of bytes left: the file has exactly the new bytes, nothing else differs from what the helper met; it replaced exactly the file the expected version shows, whose identity and bytes are on record under the recovery id of the row |
| `OwnerFiles.Owner.ReplaceVersion` | apps/agent/src/owner-workspace-core.ts:485-537 | the look, its version, consent and the second look where the content is sensitive, the replacement: exactly when they succeed |
| `OwnerFiles.Owner.DispatchTrash` | apps/agent/src/owner-workspace-core.ts:742-743 | may be called only when the descriptor of the file or directory is on record; only what has the recorded kind, identity and content is moved |
| `OwnerFiles.Owner.TrashFile` | apps/agent/src/owner-workspace-core.ts:729-746 | exactly when a trash of a file or a directory succeeds, second look included; it only ever moves what the recorded descriptor describes, into the vault |
| `OwnerFiles.Owner.VaultedMeans` | apps/agent/src/owner-workspace-core.ts:729-746 | what a successful trash left: exactly this entry moved, unchanged, into the vault; it is what the expected version shows, and its descriptor is on record |
| `OwnerFiles.Owner.RestoreFile` | apps/agent/src/owner-workspace-core.ts:624-668 | exactly when a restore succeeds; it gives a file the bytes of the record, or brings the trashed file or directory back from the vault |
| `OwnerFiles.Owner.WriteCall` | apps/agent/src/owner-workspace-core.ts:453-551 | a write from admission to APPLIED; it goes through whenever volume, version, sizes, consent, I/O and helper allow it |
| `OwnerFiles.Owner.TrashCall` | apps/agent/src/owner-workspace-core.ts:453-484 | the same for a trash of a file or a directory |
| `OwnerFiles.Owner.RestoreCall` | apps/agent/src/owner-workspace-core.ts:453-484 | the same for a restore, of bytes, of a trashed file or of a trashed directory |
| `OwnerFiles.Owner.WriteThenRestore` | apps/agent/src/owner-workspace-core.ts:539-668 | two calls, a write and a restore of what it recorded: the file has the bytes again that were replaced, whatever others do; undisturbed, the whole volume is as it was and both calls go through |
| `OwnerFiles.Owner.TrashThenRestore` | apps/agent/src/owner-workspace-core.ts:624-746 | trash, then restore, of a file or a directory: what comes back has the kind, identity and content (bytes, or tree version) of what went away, whatever others do; undisturbed, volume and vault are as they were and both calls go through |
| `Documents.DescriptorFits` | apps/agent/src/owner-workspace-core.ts:737-741 | the trash descriptor of any directory, and of any file small enough to be looked at, fits a record |
| `Documents.ReparsesExists` | apps/agent/src/owner-workspace-core.ts:634-636 | a parser of descriptors as the owner is proved under does exist |
| `Documents.SameSummarySameTree` | apps/windows-workspace-helper/main.cpp:365-413 | two directories with the same identity and tree version are the same tree, in whatever order they are listed, or two different manifests whose hashes collide are named |
| `Documents.VersionsAgreeIff` | apps/agent/src/owner-workspace-core.ts:670-672 | directories agree in version exactly if they agree in identity and tree version; a file agrees with a directory exactly if its bytes spell out that pair, so a version does not say the kind |
| `Bpf.FilterBuilder.Seccomp` | apps/execution-sandbox/entry.c:75-147 | emits exactly the program, and dies exactly when the allowlist has more than 240 entries, so never more than 512 instructions |
| `Bpf.ExecIsRun` | apps/execution-sandbox/entry.c:71-74 | relative forward jumps: interpreting from a program counter is running the rest of the program |
| `Bpf.ArgumentDecides` | apps/execution-sandbox/entry.c:81-87 | five instructions decide one argument test and otherwise fall through |
| `Bpf.CloneDecides` | apps/execution-sandbox/entry.c:97-101 | the clone block allows exactly calls without a forbidden flag |
| `Bpf.IoctlDecides` | apps/execution-sandbox/entry.c:103-110 | the four request tests reach the same final allow |
| `Bpf.GuardsDecide` | apps/execution-sandbox/entry.c:89-96 | architecture, x32 bit and clone3 come first |
| `Bpf.AllowListDecides` | apps/execution-sandbox/entry.c:143-144 | the allowlist and the default |
| `Bpf.FilterDecidesTable` | apps/execution-sandbox/entry.c:71-147 | for every allowlist that fits and every call data: the program stays in range, returns, and gives the verdict of the ordered decision table |
| `Manifest.FieldPrefixFree` | apps/windows-workspace-helper/main.cpp:219-223 | a length-prefixed field says where it ends |
| `Manifest.StreamPrefixFree` | apps/windows-workspace-helper/main.cpp:224-255 | two streams with anything after them are equal exactly for equal trees and tails: nothing that follows a tree's stream can make it read as another tree |
| `Manifest.CanonicalShape` | apps/windows-workspace-helper/main.cpp:252-254 | sorting children does not change what a tree is |
| `Manifest.ShapeDetermines` | apps/windows-workspace-helper/main.cpp:252-254 | a tree sorted at every level is determined by what it is |
| `Manifest.ManifestIffSameTree` | apps/windows-workspace-helper/main.cpp:211-261 | two accepted trees have the same manifest if and only if they are the same tree (kinds, identities, names, contents, shape), whatever order the file system lists them in |
| `Manifest.Tree.Enumerate` | apps/windows-workspace-helper/main.cpp:245-252 | accepts a listing exactly if every entry is ordinary and there are at most 10000 |
| `Manifest.Tree.Walk` | apps/windows-workspace-helper/main.cpp:224-255 | succeeds exactly if every check passes and depth, entry and byte caps hold, and then has fed the canonical stream |
| `Manifest.Tree.VisitAll` | apps/windows-workspace-helper/main.cpp:252-254 | children one after another, each within the budget its elder siblings left |
| `Manifest.ChildrenFitTogether` | apps/windows-workspace-helper/main.cpp:224-255 | the running caps amount to caps on the whole tree |
| `Manifest.FitsIff` | apps/windows-workspace-helper/main.cpp:224-255 | which trees are accepted, told from the tree alone: every item passes its checks, none lies more than 60 levels down, there are at most 10000, and 64 MiB in all files together |
| `RepoLock.StepKeepsInv` | packages/repo-lock/src/repo-lock-service.ts:114-228 | every step of acquire, heartbeat, release, failure or crash, by any process, keeps files, rows and attempts consistent |
| `RepoLock.RowMeansFile` | packages/repo-lock/src/repo-lock-service.ts:114-228 | in every interleaving a row with a token means a lock file with that token |
| `RepoLock.OneHolder` | packages/repo-lock/src/repo-lock-service.ts:114-158 | no two attempts are past creating the lock file of one repository |
| `RepoLock.OnlyMakerRemovesFile` | packages/repo-lock/src/repo-lock-service.ts:154-158 | a lock file disappears only by its maker's step, and no row is left behind |
| `RepoLock.OnlyHolderDeletesRow` | packages/persistence/src/repositories/lock-repository.ts:139-145 | a row is deleted only by its holder's release and never changes holder |
| `RepoLock.InsertNeverConflicts` | packages/persistence/src/repositories/lock-repository.ts:76-120 | the insert never meets another holder's row; only the task or the database can make it fail |
| `RepoLock.HeldLeaseKeepsRow` | packages/persistence/src/repositories/lock-repository.ts:130-138 | a lease that is still held always finds its row, however long ago it expired |
| `RepoLock.NeverHeldAgain` | packages/repo-lock/src/repo-lock-service.ts:212-226 | a lease given back, lost or crashed is never held again |
| `RepoLock.AbandonedLockStays` | packages/repo-lock/src/repo-lock-service.ts:121-141 | what a crash, a failed write or a failed release leaves behind closes the repository in every continuation |
| `RepoLock.FreedIff` | packages/repo-lock/src/repo-lock-service.ts:121-226 | exactly when a repository can still be freed: some continuation removes its lock file if and only if the attempt that made it is not over |
| `RepoLock.CrashAbandons` | packages/repo-lock/src/repo-lock-service.ts:121-141 | a run that gets there: an attempt that crashes right after creating the file |
| `RepoLockService.LockRepository.AcquireAndPrepare` | packages/persistence/src/repositories/lock-repository.ts:76-120 | row and task transition commit together or not at all; it says locked exactly for a row that is there, an unknown repository or an unknown task |
| `RepoLockService.LockRepository.Heartbeat` | packages/persistence/src/repositories/lock-repository.ts:130-138 | renews exactly the row with this token |
| `RepoLockService.LockRepository.Release` | packages/persistence/src/repositories/lock-repository.ts:139-145 | deletes exactly the row with this token |
| `RepoLockService.Service.PlaceFile` | packages/repo-lock/src/repo-lock-service.ts:121-141 | exclusive creation and the write of the token; a failed write leaves the file |
| `RepoLockService.Service.Acquire` | packages/repo-lock/src/repo-lock-service.ts:114-158 | is a run of the protocol; succeeds exactly if the file was free, nothing failed and the task was waiting; says locked exactly if the file was there, or nothing failed and repository or task is unknown |
| `RepoLockService.RepoLockLease.Heartbeat` | packages/repo-lock/src/repo-lock-service.ts:174-190 | is one step of the protocol; without its row the task moves toward recovery |
| `RepoLockService.RepoLockLease.Release` | packages/repo-lock/src/repo-lock-service.ts:212-226 | is a run of the protocol; only the first call does anything, and it leaves neither file nor row |
| `Heartbeat.LeaseHeartbeat.Begin` | packages/repo-lock/src/lease-heartbeat.ts:26-44 | starting arms the timer once |
| `Heartbeat.LeaseHeartbeat.Halt` | packages/repo-lock/src/lease-heartbeat.ts:46-50 | stopping disarms it; ticks already running go on |
| `Heartbeat.LeaseHeartbeat.Tick` | packages/repo-lock/src/lease-heartbeat.ts:28-43 | a tick begins and replaces the promise the timer holds, whether or not the one before has settled |
| `Heartbeat.LeaseHeartbeat.FailBeat` | packages/repo-lock/src/lease-heartbeat.ts:32-41 | a beat that fails disarms the timer; the tick itself goes on |
| `Heartbeat.DrainIsQuietIff` | packages/repo-lock/src/lease-heartbeat.ts:52-60 | after a stop, a completed drain means that no tick is running, in every continuation, if and only if every tick but the latest had settled at the stop |
| `Heartbeat.WithoutOverlapDrainIsQuiet` | packages/repo-lock/src/lease-heartbeat.ts:52-60 | if ticks never overlap, a completed drain always means quiet |
| `Heartbeat.OverlapDrainsEarly` | packages/repo-lock/src/lease-heartbeat.ts:52-60 | a run of overlapping ticks on which the drain completes while one is running |
| `Scheduler.TaskScheduler.Tick` | apps/agent/src/task-scheduler.ts:105-143 | one pass over the listed candidates is the run of their claims, with others writing to the table before each of them |
| `Scheduler.TaskScheduler.Take` | apps/agent/src/task-scheduler.ts:108-142 | one candidate by its listed status: claimed by compare-and-swap if queued, taken as it is if waiting; a run that ends at once is settled at once |
| `Scheduler.PassTakesEach` | apps/agent/src/task-scheduler.ts:105-143 | a pass looks at every listed candidate exactly once, in order |
| `Scheduler.TaskScheduler.StartUp` | apps/agent/src/task-scheduler.ts:95-103 | the first tick runs before the timer is armed, and only once |
| `Scheduler.TaskScheduler.SettleRun` | apps/agent/src/task-scheduler.ts:130-141 | a run that settles later is judged and leaves the set in flight |
| `Scheduler.TaskScheduler.FailTask` | apps/agent/src/task-scheduler.ts:164-182 | a failed run moves the task to FAILED only where the graph allows it, a lock conflict leaves it |
| `Scheduler.TaskScheduler.Finish` | apps/agent/src/task-scheduler.ts:205-212 | a settled run leaves the set in flight; the last one completes a waiting drain |
| `Scheduler.TaskScheduler.StopAll` | apps/agent/src/task-scheduler.ts:145-162 | stopping disarms the timer and answers with the one drain |
| `Scheduler.NeverTwiceAtOnce` | apps/agent/src/task-scheduler.ts:105-143 | in every run a task is dispatched only while not stopping and never while an earlier run of it is unsettled |
| `Scheduler.DispatchedWaitsIff` | apps/agent/src/task-scheduler.ts:112-121 | exactly when a dispatched task is waiting for its lock: it was listed as queued, or is still what it was listed as |
| `Scheduler.StaleListingDispatches` | apps/agent/src/task-scheduler.ts:118-124 | an out-of-date listing dispatches a task that is over |
| `Scheduler.DrainedIff` | apps/agent/src/task-scheduler.ts:145-212 | the drain is complete exactly when the scheduler is stopping and no run is unsettled |
| `Scheduler.DrainedForGood` | apps/agent/src/task-scheduler.ts:145-212 | once the drain is complete nothing is dispatched and nothing runs ever again |
| `Scheduler.WritesFollowGraph` | apps/agent/src/task-scheduler.ts:164-182 | the scheduler's own writes follow the task graph and never leave COMPLETED or CANCELLED |
| `GitIndex.TrackedIndexPaths` | apps/agent/src/local-git-read-snapshot.ts:21-50 | the reader computes the reference reading; its signature test ignores the top bit of each byte |
| `GitIndex.ReadPaths` | apps/agent/src/local-git-read-snapshot.ts:29-49 | its loop over the entries computes the reference reading of the entries |
| `GitIndex.ReadEntry` | apps/agent/src/local-git-read-snapshot.ts:31-48 | an accepted entry ends strictly further on and still in the body |
| `GitIndex.EntryRoundTrip` | apps/agent/src/local-git-read-snapshot.ts:31-48 | a written entry of either version reads back with its exact length, or is refused for its name alone |
| `GitIndex.ReaderUndoesWriter` | apps/agent/src/local-git-read-snapshot.ts:21-50 | reading a written index gives its names, each without a leading byte order mark; one unacceptable name refuses the index |
| `GitIndex.ExactPathsIff` | apps/agent/src/local-git-read-snapshot.ts:21-50 | the reader returns exactly the written path set if and only if every name is acceptable and none begins with a byte order mark |
| `GitIndex.AMarkedNameIsMisread` | apps/agent/src/local-git-read-snapshot.ts:40-45 | an acceptable path that is reported under another name |
| `Utf8.DecodesIffEncoded` | apps/agent/src/local-git-read-snapshot.ts:40 | a strict decoder accepts exactly the encoder's outputs and inverts them |
| `GitSnapshot.Capture.Walk` | apps/agent/src/local-git-read-snapshot.ts:96-127 | the walk computes the reference capture |
| `GitSnapshot.Capture.VisitEntry` | apps/agent/src/local-git-read-snapshot.ts:101-126 | one entry: counted, refused, omitted, skipped, entered or copied |
| `GitSnapshot.SkippedHoldsNothing` | apps/agent/src/local-git-read-snapshot.ts:114-122 | no written path lies under a skipped top-level directory, byte order marks or not |
| `GitSnapshot.TrackedFilesAreCaptured` | apps/agent/src/local-git-read-snapshot.ts:21-127 | from index writer to capture: a file the index lists is in every successful capture with its exact content, outside Git's own directory |
| `GitSnapshot.FileComesFrom` | apps/agent/src/local-git-read-snapshot.ts:86-127 | every captured file is a file of the tree, at that path, with that content |
| `GitSnapshot.OmittedIff` | apps/agent/src/local-git-read-snapshot.ts:111-112 | what stays out below Git's directory: everything but the eight administrative names, and below `info` everything but `exclude` |
| `GitSnapshot.CapsHold` | apps/agent/src/local-git-read-snapshot.ts:86-127 | a successful capture has at most 20000 entries and 256 MiB |
| `Base64.Write` | apps/filesystem-worker/native.c:112-127 | the encoding loop computes section 4 of RFC 4648 and refuses exactly a buffer that is too small |
| `Base64.DecodesIffEncoded` | apps/filesystem-worker/native.c:112-127 | a strict decoder accepts exactly the encoder's outputs and inverts them |
| `Base64.EncodeLength` | apps/filesystem-worker/native.c:113-114 | the length the helper computes is the length written |
| `Xattr.Collect` | apps/filesystem-worker/native.c:66-103 | name loop, checks, sort and test of neighbours give the reference collection |
| `Xattr.CollectedIff` | apps/filesystem-worker/native.c:66-103 | attributes are collected exactly if the kernel's list is the names of at most 64 of them, each copyable, of 1 to 255 bytes and with a NUL, none twice, with values of 65536 bytes in all; and then with the file's own values, sorted by name |
| `Xattr.DistinctIffKeys` | apps/filesystem-worker/native.c:97-99 | testing sorted neighbours finds every repeated name |
| `Xattr.CollectedIsModest` | apps/filesystem-worker/native.c:74-96 | what the loop accepts: at most 64 attributes, 16384 bytes of names, 65536 of values |
| `Xattr.CollectedFits` | apps/filesystem-worker/native.c:128-155 | for any metadata the collector accepts, no buffer check in the serializer can fire |
| `Xattr.Serialize` | apps/filesystem-worker/native.c:134-155 | produces the text exactly when everything fits its buffers |
| `Xattr.JsonSpelled` | apps/filesystem-worker/native.c:134-155 | the text: permission bits, owner, group, attributes |
| `Xattr.Output` | apps/filesystem-worker/native.c:156-172 | the final encoding can never be refused |
| `Xattr.EqualTextsIff` | apps/filesystem-worker/native.c:193-195 | the comparison of serialized texts is equality of permission bits, owner, group and sorted attributes |
| `Xattr.JsonHasNoNul` | apps/filesystem-worker/native.c:193-195 | the texts contain no NUL, so comparing C strings compares them whole |
| `Consent.LocalOwnerConsent.Begin` | apps/agent/src/local-owner-consent.ts:89-103 | a challenge exactly if the operation is well-formed and fewer than 256 grants are left after pruning; it then waits |
| `Consent.LocalOwnerConsent.Finish` | apps/agent/src/local-owner-consent.ts:104-117 | the part after it: a grant exactly if the presence answers this challenge inside its window and the table still has room |
| `Consent.LocalOwnerConsent.Consume` | apps/agent/src/local-owner-consent.ts:119-132 | true exactly for an unspent grant of the same operation inside its window, which is gone afterwards |
| `Consent.StepKeepsInv` | apps/agent/src/local-owner-consent.ts:85-132 | every event, with any number of requests suspended, keeps the table within bounds and every use proper |
| `Consent.NeverTooMany` | apps/agent/src/local-owner-consent.ts:96-115 | live grants never exceed 256 |
| `Consent.FinishIssuesIff` | apps/agent/src/local-owner-consent.ts:104-117 | a capability is issued exactly by a VERIFIED presence of this challenge and operation, by a valid owner, in time, with room in the table |
| `Consent.IssuedStemsFrom` | apps/agent/src/local-owner-consent.ts:89-117 | in every run: behind every capability ever issued there is a request for exactly its operation, and later a VERIFIED answer to that very request inside its window; the operation is one whose target and digests fit its action |
| `Consent.ConsumeSpendsIff` | apps/agent/src/local-owner-consent.ts:119-132 | a capability is spent exactly while its grant is live, for its own operation, inside its window |
| `Consent.SpentOnceAndProperly` | apps/agent/src/local-owner-consent.ts:119-132 | each capability is spent at most once, for the field-for-field same operation, between issue and expiry |
| `Approvals.ApprovalRepository.Request` | packages/persistence/src/repositories/approval-repository.ts:95-147 | returns the live row of the pair or inserts one; never a second |
| `Approvals.ApprovalRepository.Approve` | packages/persistence/src/repositories/approval-repository.ts:162-189 | only a pending row with the expected hash |
| `Approvals.ApprovalRepository.Deny` | packages/persistence/src/repositories/approval-repository.ts:190-211 | only a pending row with the expected hash |
| `Approvals.ApprovalRepository.Consume` | packages/persistence/src/repositories/approval-repository.ts:212-235 | true exactly when an unexpired approved row exists, and then none is left |
| `Approvals.RunsStaySound` | packages/persistence/src/repositories/approval-repository.ts:95-235 | over any run at most one row per task and hash is PENDING or APPROVED |
| `Approvals.RowsMove` | packages/persistence/src/repositories/approval-repository.ts:95-235 | over any step: a new row is a pending one of the requested pair, and only if none of the pair is live; a row that changes keeps its pair and goes from pending to approved (for thirty minutes) or denied by its own id and hash, or from approved to expired after its time or to consumed within it, by a call about its pair |
| `Approvals.RowsMustMove` | packages/persistence/src/repositories/approval-repository.ts:95-235 | and these moves do happen whenever their conditions are met |
| `Approvals.SucceedsIff` | packages/persistence/src/repositories/approval-repository.ts:95-235 | when each call succeeds, told from the rows alone |
| `Approvals.ConsumesWithinApprovals` | packages/persistence/src/repositories/approval-repository.ts:95-235 | conservation: over any run and any clock, successful consumptions plus the approval left never exceed approvals plus the approval at the start |
| `CommandRunner.Runner.ConsumeAll` | packages/shell/src/command-runner.ts:323-330 | one awaited consumption per gated decision, in order, stopping at the first that is missing, whatever others do to the table in between |
| `CommandRunner.Runner.Preflight` | packages/shell/src/command-runner.ts:345-370 | the guard passes exactly if every path of an allowed `git worktree add -b` or `remove --force` is vouched for |
| `CommandRunner.AsksAreTheGated` | packages/shell/src/command-runner.ts:323-330 | one consumption for each gated decision and no other, in order, for its own hash and at its own time |
| `CommandRunner.SuccessInTurn` | packages/shell/src/command-runner.ts:323-330 | they all succeed only if each finds its approval in the table as it stands then |
| `CommandRunner.Runner.Run` | packages/shell/src/command-runner.ts:309-385 | spawns exactly if there is an operation, none is denied, every consumption succeeded at its own moment and no allowed worktree command names a path nobody vouches for; a denial consumes nothing |
| `CommandRunner.SufficeIff` | packages/shell/src/command-runner.ts:323-330 | left alone, a command's approvals suffice if and only if it asks for no hash twice and a usable approval exists for each |
| `CommandRunner.TwoEqualAsksLoseTheApproval` | packages/shell/src/command-runner.ts:323-330 | one approval and two equal operations: the command is refused and the approval is gone |
| `CommandRunner.StartsWithinApprovals` | packages/shell/src/command-runner.ts:309-385 | over every interleaving of any number of commands with any other use of the table, gated operations started never outnumber the approvals the owner gave |
| `CommandRunner.ConsumingIsARun` | packages/shell/src/command-runner.ts:323-330 | what one command's consumptions do to the table is a run of that machine |
| `Publishing.OnlyPublishingCompletes` | packages/domain/src/task.ts:28-47 | PUBLISHING is the only status a task completes from, and COMPLETED the end |
| `Publishing.Publish` | packages/publishing/src/publishing-service.ts:101-190 | exactly when a publication succeeds; whatever port fails, early or after its effect, the effects are a beginning of the one publication, and all of it on success |
| `Publishing.TaskRunner.Complete` | apps/agent/src/task-runner-composition.ts:598-612 | writes COMPLETED only from PUBLISHING |
| `Publishing.TaskRunner.Run` | packages/task-engine/src/task-runner.ts:135-173 | effects are a beginning of the one whole run, and all of it if nothing fails; no effect happens whose condition (checks, evidence, sha, remote, CI) was not met; COMPLETED only at its very end, from PUBLISHING, after CI succeeded |
| `Publishing.TaskRunner.RunRepairCycle` | packages/task-engine/src/task-runner.ts:175-236 | exactly when a repair succeeds; its effects are a beginning of the one whole repair, and there are none unless CI was seen to fail |
| `Publishing.ReleaseRules` | packages/publishing/src/publishing-service.ts:114-176 | the lease is released at most once and only after the remote confirmed the sha that was committed; pull request, CI and completion come only after it |
| `Publishing.StepRules` | packages/task-engine/src/task-runner.ts:135-173 | however far a run gets: no change without the lease, no commit without bound evidence of passed checks, no push of a commit that is not on record (and checked, if the check is wired), CI after the pull request, completion only after CI succeeded; every step is about the one sha |
| `Publishing.CommitCheckIff` | packages/publishing/src/publishing-service.ts:126-160 | a beginning of a run keeps the rule that no release precedes the check on the commit, if and only if the check is wired or the release is not reached |
| `Publishing.CheckedIff` | packages/publishing/src/publishing-service.ts:126-160 | the rule holds however far a run gets if and only if the check is wired |
| `Publishing.RepairReleaseRules` | packages/task-engine/src/task-runner.ts:194-218 | in a repair the release follows verification and confirmation, and CI follows the release |
| `Publishing.RepairStepRules` | packages/task-engine/src/task-runner.ts:175-236 | a repair works under the lease and pushes only what passed the checks |
| `Publishing.RepairHasNoCommitCheck` | packages/task-engine/src/task-runner.ts:194-218 | a whole repair releases the lease without any check on a commit, so a beginning of it keeps the rule exactly if it stops short of the release |
| `GitRecords.RecordsRoundTrip` | apps/agent/src/verification-snapshot.ts:36-38 | NUL-terminated records read back as the same records |
| `GitRecords.ReadStatusPaths` | apps/agent/src/verification-snapshot.ts:35-60 | the loop computes the reference reading |
| `GitRecords.StatusRoundTrip` | apps/agent/src/verification-snapshot.ts:35-60 | printed porcelain status reads back as exactly its paths, sorted and once each, sources of renames and copies included; one unsupported status or unsafe path refuses it all |
| `GitRecords.StatusNames` | apps/agent/src/verification-snapshot.ts:35-60 | accepted status output reports exactly the paths of its changes and the sources of its renames and copies |
| `GitRecords.OneChangeReads` | apps/agent/src/verification-snapshot.ts:41-54 | one change spelled out, and which pairs of letters are refused |
| `GitRecords.RepositoryPathIff` | apps/agent/src/verification-snapshot.ts:26-33 | a path is safe exactly if it is no option, not absolute, has no space at its ends and no special character, and nothing between its slashes is empty, climbs or is Git's own directory in any letter case |
| `GitRecords.StatusAcceptedIff` | apps/agent/src/verification-snapshot.ts:35-60 | the status reader accepts exactly what prints supported changes with safe paths |
| `GitRecords.ReadCommittedEntries` | apps/agent/src/verification-snapshot.ts:154-182 | the loop computes the reference reading |
| `GitRecords.DiffRoundTrip` | apps/agent/src/verification-snapshot.ts:154-182 | a printed raw diff reads back as exactly its entries, deletions included, sorted by path |
| `GitRecords.WrittenEntriesReadBack` | apps/agent/src/verification-snapshot.ts:154-182 | records that carry entries on their new sides, whatever their old sides, read back as these entries in path order; a deletion is a `D` without mode and blob |
| `GitRecords.OneRecordReads` | apps/agent/src/verification-snapshot.ts:161-181 | one record spelled out, and what it reads as or why it is refused |
| `GitRecords.DiffAccepted` | apps/agent/src/verification-snapshot.ts:154-182 | whatever the diff reader accepts is a print of well-formed records and reads as their entries |
| `GitRecords.ApprovedEntries` | apps/agent/src/verification-snapshot.ts:129-152 | the approved entries in path order, or a refusal if snapshot and paths do not fit together |
| `GitRecords.AcceptedIffExactlyApproved` | apps/agent/src/verification-snapshot.ts:241-257 | a commit on the verified HEAD is accepted if and only if its diff consists of exactly the approved entries, each once, same mode and blob |
| `GitRecords.AcceptedIff` | apps/agent/src/verification-snapshot.ts:129-257 | for any output whatever: accepted if and only if snapshot and paths fit together, the parent is the verified HEAD and the output prints exactly the approved entries |
| `GitRecords.AcceptedIffDiffIsApproved` | apps/agent/src/verification-snapshot.ts:129-257 | the same from the fields alone: the snapshot is this task's, well-formed and strictly in path order, the paths different, the parent the verified HEAD, and the output prints one record for each path and no other, which leaves there the verified mode and blob, or nothing where nothing was |

## Left out

- The queue that serializes admissions inside one process: the protocols hold for every interleaving, so no property here depends on it.
- The reassembly of Git pack chunks, path canonicalization of command targets, change classification, verification planning, CI polling and migrations: comparatively easy members.
- Windows, Landlock, bubblewrap and `/proc` checks, access lists and stat stamps: they enter as parameters that may fail any operation, never as guarantees.
- Screening and redaction of text: an arbitrary function.
- The POSIX workspace client and its worker protocol: only the Windows helper's outcome is modelled.
- Strings are sequences of Unicode scalar values compared by scalar value; the code compares UTF-16 units, which differs for characters beyond the basic plane, and lone surrogates cannot be written here. The manifest does use UTF-16 units.
- SearchService.AllPagesAreTheWalk: stated for a tree that does not change and for matches before the cut of displayed path and text, which `SearchService.SearchState.ShowNext` describes; masking, path validation and the search term are arbitrary functions.
- SearchCursors.Searches.Request: new cursor ids are assumed fresh, as random ids are; the request itself runs undisturbed, requests interleaved at their awaits are the subject of `SearchClients`.
- SearchClients.EveryClientGetsItsWalk: about one tree that does not change; that a client ever gets its next page is stated for the undisturbed case only, by `SearchCursors.Searches.SearchAll`.
- Outcome.ChangeIsNeverDenied: assumes the transaction manager keeps its word (a reported commit is on disk, a reported rollback is not) and that a relay which exits normally has passed on the helper's exit code and whole output.
- Outcome.ClientInvoke: validation of the request and of the reply are one condition each.
- Outcome.BackendInvoke: the guards of root and path and the root pin are one condition each.
- Mutation.StepKeepsInv: one step of a call is atomic where the code is synchronous; consent, screening and the contents of previews are not part of it.
- MutationCore.Core.Mutate: the awaits before a capture (reads, consent) are one await; others act there, twice during the native call and once on the way back from it.
- OwnerFiles.Owner.TrashFile: a directory is one entry of the volume, its files are not entries of their own; the stat and the reading inside one look are one step; the hash of a tree is an arbitrary function.
- OwnerFiles.Owner.ReplaceVersion: the second look at a path that is to be created examines the root only, which is not modelled.
- OwnerFiles.Owner.WriteCall: how a call that fails is recorded is the subject of `MutationCore`; here it only ends without success.
- Moving, copying, patching and creating directories: they dispatch in the same way, and would add no harder property.
- Recovery.RecordRoundTrip: parsing is asked to undo printing only; what it makes of other texts is arbitrary.
- Recovery.FileFits: for identities of at most 64 characters, which two 64-bit numbers and a colon need; the format alone does not bound them.
- Manifest.ManifestIffSameTree: about the stream that is hashed, SHA-256 being ideal; names in a directory are assumed distinct, as a file system guarantees.
- RepoLock.StepKeepsInv: lock files change only through the protocol; removal by hand is outside the model, and so is the deletion of tasks or repositories, which nothing in the code does. Quiescing a lease stops its timer and touches neither file nor row; the timer is the subject of `Heartbeat`.
- GitIndex.ReaderUndoesWriter: SHA-1 is any function with twenty-byte digests.
- GitSnapshot.TrackedFilesAreCaptured: about a tree that does not change during the capture; the deadline and the repeated verification of the root can only refuse a capture.
- Xattr.Collect: attributes do not change during the collection; the stamp comparison at its end can only refuse.
- Consent.SpentOnceAndProperly: capabilities are assumed fresh, as 32 random bytes are.
- Approvals.ConsumesWithinApprovals: instants are integers; the code compares ISO strings of one format.
- CommandRunner.Runner.Run: the policy's decisions and the worktree guard are arbitrary functions; output capture after the spawn is not modelled.
- CommandRunner.SufficeIff: about a command that nobody disturbs; with interference, `CommandRunner.Runner.Run` says when it spawns, and `CommandRunner.StartsWithinApprovals` what every interleaving keeps.
- Publishing.TaskRunner.Run: assumes nobody else completes the task; the adapters' checks before the publication are one condition.
- Scheduler.TaskScheduler.Tick: the order and limit of the listing are arbitrary; audit and log entries are not modelled.
- GitRecords.AcceptedIff: about what Git prints; that Git's output describes the commit is assumed.
