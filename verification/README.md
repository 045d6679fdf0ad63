# Verified models of logosctl and its daemon

A Dafny 4.11 project that models the parts of this repository where state, failure and text
formats meet, and proves what they keep. `dafny verify dfyconfig.toml` checks all of it.

Every modelled loop and object of the source is a method or a class here. Each is proved equal to
a function on values; the promises are then lemmas about those functions, or invariants of a
state machine over every interleaving.

| files | what they model |
|---|---|
| `Framing`, `PageRelay`, `RelayProtocol` | newline framing, and the relay between daemon, webhost process and page |
| `ChannelLifetime`, `ReceiverHandover`, `DeathNotice` | pump, senders and closers of one socket; replacing its receiver; announcing its death |
| `TokenFiles`, `TokenStore`, `TokenGrants`, `TokenStatuses`, `TokenRecovery`, `TokenSurvival`, `TokenLifetime`, `TokenText` | the token store on a file system that may fail anywhere, and the token encoder |
| `Calendar`, `Expiry`, `AbsoluteExpiry` | `--expires`, the stamp on disk, and the accept decision |
| `ArgvQuoting` | the Windows command line and the argv parser it is written for |
| `RemovalOrder`, `PackageGate`, `PackageProtocol`, `PackageOutcome` | planning a removal, and driving the request, acknowledge, confirm gate |
| `JsonSchema`, `DaemonConfig`, `DaemonConfigReader`, `ConfigRoundTrip`, `ConfigAcceptance` | the daemon's configuration document, printed and read back, and what an operator may write |
| `ClientConfig`, `ClientAcceptance`, `LocalArtifacts` | the client's document, and what the daemon writes for clients over its boots |
| `ModuleTransport`, `Decimals`, `ArgCoerce` | the `--module-transport` flag, C number parsing, argument coercion |
| `LogSink`, `LogRetention` | the chunked line splitter of the log pipe, and the retention of session logs |
| `Options`, `Orders`, `Division`, `Json` | what several of them share |

## How to read the models

- Concurrency is a state machine whose steps are the critical sections and atomic operations of
  the source; a run is any sequence of enabled steps. Timers of equal delay and QWebChannel
  signals are first in, first out, and the webhost handles one event at a time.
- Failure is a parameter. File steps take a record that says which of them fail and how; package
  calls take an oracle that says whether the n-th call of the run succeeds; `send` takes the
  replies of the kernel. A theorem over all of them is a theorem over every failure pattern.
- The hash of a token is an arbitrary function, assumed injective and never empty on the tokens
  in play; generated tokens are assumed new. A rename is atomic.
- JSON is a value (`Json.dfy`). An operator's document may list the modules in any order, so the
  readers take that order as an argument; `OrderDoesNotMatter` shows what depends on it.
- Error messages are data (path, expected, found); their wording is not modelled.

## Where the code does not do what it says

Where a lemma is named it proves the point, with the condition under which the promise does hold
in it or beside it; the others are differences from a comment, and the model follows the code.

- A page whose `send` said yes may lose the text by closing: the webhost quits, and its socket
  drops what the kernel had no room for (`RelayProtocol.TextLostAtTheClose`, with the exact
  condition in `ClosingLosesTheOutbox`).
- `writeRawTokenFile` never looks at the stream after `close()`. A flush that fails there goes
  unnoticed, and a call that reports success has lost its token (`TokenRecovery.IssuedTokenIsOnDisk`).
- Staging a token truncates the `.new` file first, so a token that survived only there (two failed
  renames) is lost by the next issue (`TokenRecovery.FirstStepLosesSideFile`, with the exact condition in `SafeExactlyWhen`).
- A relative expiry is added to the clock in 64-bit ticks, which wrap at about 292 years with
  nanosecond ticks: `--expires 300000d` is accepted and stamped with another deadline (`Expiry.TickOverflow`).
- An absolute expiry is checked for its shape only: month 13, month 00 and hour 24 are stored and
  never accepted (`AbsoluteExpiry.NeverAccepted`, with the exact condition in `AbsoluteTime`), and
  a day past the end of its month counts on into the next (`AbsoluteExpiry.DayRollsOver`).
- The reason given for parsing strictly in `strptimeIso8601Utc`, that a malformed expiry must not
  read as a valid date, holds for the Windows branch only: the POSIX branch reads a time with
  anything behind it (`AbsoluteExpiry.JunkIsAccepted`, with the exact condition in
  `TrailingTextExactlyWhen`).
- The comment on `generateToken` says that the last four bits are discarded; they become the 43rd letter.
- A failed acknowledgement of an install or upgrade leaves the action pending; a removal is
  cancelled (`PackageProtocol.FailedAcknowledgement`). A removal whose confirmation fails is not.
  `PendingExactlyWhen` says which failures of calls leave an action behind.
- Without secrets, the configuration still prints the session-wide `ssl.key` path
  (`ConfigRoundTrip.SessionKeyIsPublished`).
- A `tcp` transport, not only a `local` one, loses its certificate fields when printed.
- The client's reader narrows the schema version to 32 bits before comparing, so version
  4294967298 is accepted as 2 (`ClientConfig.WrongVersionAccepted`).
- A client configuration whose `instance_id` is not text is kept for ever; the comment says it is
  regenerated (`LocalArtifacts.MistypedIdIsKept`).
- Starting the log sink removes whatever is at the stable log name, link or not
  (`LogRetention.StableNameIsReplaced`); pruning itself stays within the stamped names.
- A log line longer than 65536 bytes may be written in pieces, depending on where the reads end
  (`LogSink.LongLineInTwoPieces`, with the exact condition on the reads in `SplitExactlyWhen`).

## Model

| member | source | states |
|---|---|---|
| Framing.RoundTripIff | src/webhost/main.cpp:354-364 | decoding the encoded list gives it back exactly when every message is non-empty and newline-free |
| Framing.MessagesConcat | src/webhost/main.cpp:355-363 | what a reader hands on does not depend on how the stream was cut: the rest of a stream decodes after the buffer the first part left |
| Framing.CutConcat | src/web/webhost_view.cpp:135-148 | complete lines stay complete when more bytes arrive, and only the unfinished rest is cut again |
| Framing.MessagesOfEncode | src/web/webhost_view.cpp:97-114 | framed messages in front of any bytes are decoded first, in order, and leave those bytes as they are |
| Framing.Decoder.Feed | src/webhost/main.cpp:354-364 | one chunk hands on exactly the messages of buffer plus chunk and keeps the unfinished line |
| PageRelay.SocketEnd.Write | src/web/webhost_view.cpp:97-114 | for every sequence of kernel replies: what is on the wire afterwards, and true only when the whole frame is out |
| PageRelay.SentExactlyWhen | src/web/webhost_view.cpp:104-112 | a write succeeds exactly when the kernel takes the whole frame, over any number of partial and interrupted calls; otherwise exactly what it took is out |
| PageRelay.Bridge.Deliver | src/webhost/main.cpp:69-73 | a text is held back before the page is ready and emitted at once after that |
| PageRelay.Bridge.OnReady | src/webhost/main.cpp:98-105 | the backlog is emitted once, in order, on the first call only |
| PageRelay.OnReadyRead | src/webhost/main.cpp:354-364 | one socket chunk delivers exactly its complete messages to the bridge |
| PageRelay.ChannelShim.Deliver | src/webhost/main.cpp:136-145 | a text goes to a timer bound to the current receiver, or to the pending list |
| PageRelay.ChannelShim.SetReceiver | src/webhost/main.cpp:153-159 | installing a receiver moves the pending texts, in order, to timers for it; removing one moves nothing |
| RelayProtocol.StepKeepsInv | src/web/webhost_view.cpp:97-149 | every step of daemon, webhost and page keeps the relay's invariant (framing, staging, conservation) |
| RelayProtocol.Conservation | src/webhost/main.cpp:69-105 | in every interleaving and chunking, what receivers got followed by what is queued is exactly the list written, in both directions; no byte is dropped before the webhost quits |
| RelayProtocol.QuietMeansDelivered | src/webhost/main.cpp:129-193 | once nothing moves, a built page with a receiver has got every message and the pump every text: none is stranded |
| RelayProtocol.StepBinds | src/webhost/main.cpp:136-159 | each step binds every new delivery to the receiver installed after it, takes what a receiver got from the front of the timers, and changes the receiver only by `setReceiver` |
| RelayProtocol.OnlyInstalledReceive | src/webhost/main.cpp:136-159 | over any run no text is or will be run by a receiver that the page did not install |
| RelayProtocol.OneReceiverGetsAll | src/webhost/main.cpp:136-159 | with one receiver every delivery is its own, and once the run is quiet it got exactly the messages written, in order |
| RelayProtocol.LostExactlyWhen | src/webhost/main.cpp:348-374 | in every run in which the webhost has quit for a close, every accepted text is decoded by the pump or on the socket if and only if the quit dropped no byte |
| RelayProtocol.ClosingLosesTheOutbox | src/webhost/main.cpp:348-374 | whatever runs before and after the webhost serves a page's close: lost are exactly the texts whose frames were not all with the kernel by then, the last ones accepted, so none if and only if the socket's buffer was empty |
| RelayProtocol.TextLostAtTheClose | src/webhost/main.cpp:348-374 | a concrete run after which a text that `send` accepted is never decoded, however the run goes on |
| RelayProtocol.NothingAfterClose | src/webhost/main.cpp:148-167 | after the page closed its channel no run makes `send` accept a text or opens the channel again |
| RelayProtocol.FrameAfterStubIsFused | src/web/webhost_view.cpp:104-112 | a frame written after a send that failed part way is fused with the stub, which is why a broken writer must stop |
| ChannelLifetime.StepKeepsInv | src/web/webhost_view.cpp:71-155 | every step of the pump, of any sender and of any closer keeps the descriptor invariant |
| ChannelLifetime.DescriptorSafety | src/web/webhost_view.cpp:118-154 | in every run no step uses a closed descriptor, it is closed at most once and only by the pump, and nothing is written after the channel is marked closed |
| ChannelLifetime.FramesAreNotInterleaved | src/web/webhost_view.cpp:97-114 | two senders are never inside their frames at the same time |
| ChannelLifetime.ReportsAreTrue | src/web/webhost_view.cpp:80-155 | over every interleaving, by the history of steps alone: a write reports success exactly with its last byte and failure exactly when a send failed or it found the channel closed; the channel is closed from the first close call or the pump's end on; the pump leaves exactly at the end of the stream or on a closed channel |
| ChannelLifetime.CloserShutsDown | src/web/webhost_view.cpp:80-95 | a finished close call has shut the descriptor down exactly if it is the one that found the channel open |
| ChannelLifetime.NobodyIsStuck | src/web/webhost_view.cpp:80-155 | in every reachable state the holder of the lock can go on, and a free lock can be taken by any that waits |
| ReceiverHandover.StepKeepsInv | src/web/webhost_view.cpp:143-147 | every step of the pump's delivery and of any caller keeps the ownership of the recursive lock and the order of events |
| ReceiverHandover.ReplacedReceiverIsGone | src/web/webhost_view.cpp:179-183 | once `setReceiver` returned on another thread, the previous receiver is not running and never runs again; from inside its own delivery it may still finish |
| ReceiverHandover.InstalledIsInvoked | src/web/webhost_view.cpp:140-147 | over every interleaving, by the history of steps alone: each delivery runs the receiver assigned last, and none runs when there is none |
| ReceiverHandover.NotAfterReturn | src/web/webhost_view.cpp:179-183 | from the moment a call on another thread returns, the receiver it replaced neither runs nor is invoked, however the run goes on |
| ReceiverHandover.NotAfterAssign | src/web/webhost_view.cpp:179-183 | from the moment a receiver is replaced, by whomever, it is not invoked again |
| ReceiverHandover.NobodyIsStuck | src/web/webhost_view.cpp:143-183 | the lock's owner can always go on, a receiver that replaces itself included: no deadlock |
| DeathNotice.StepKeepsInv | src/web/webhost_view.cpp:240-275 | every step of announcers and of teardown keeps the single claim on the announcement |
| DeathNotice.AnnouncedAtMostOnce | src/web/webhost_view.cpp:240-250 | the death callback fires at most once over any run, and never if the teardown claimed the announcement first |
| DeathNotice.DeathIsAnnounced | src/web/webhost_view.cpp:240-258 | with a callback installed from the start: once every announcer is through, it has run exactly once if an announcer came before every teardown, and not at all otherwise |
| DeathNotice.AliveExactlyWhen | src/web/webhost_view.cpp:240-258 | once announcers and teardowns are through, the view is alive exactly if none ever came |
| TokenText.GenerateToken | src/daemon/token_store.cpp:178-223 | the packing loop with its wrapping 32-bit accumulator emits the unpadded base64url text of its 32 bytes, 43 characters, or nothing without randomness |
| TokenText.ByteStep | src/daemon/token_store.cpp:206-215 | shifting a byte in keeps the bits not emitted, and the shifts read off exactly the sextets it completes, whatever older bits are above them |
| TokenText.Base64RoundTrip | src/daemon/token_store.cpp:178-223 | a decoder (sections 4 and 5 of RFC 4648) recovers every byte from the text |
| TokenText.TextsAreDistinct | src/daemon/token_store.cpp:178-223 | distinct random inputs give distinct tokens |
| Calendar.Broken | src/platform_compat.h:25-32 | the contract of `gmtime_r`: the one valid broken-down time whose seconds (section 4.16 of POSIX.1-2017 Base Definitions) are the given ones, for every integer |
| Calendar.YearRange | src/platform_compat.h:25-32 | the seconds from the Epoch to the end of 9999 are exactly those of the years 1970 to 9999 |
| Expiry.ParseFormat | src/platform_compat.h:63-83 | formatting a valid time and parsing it gives the same time exactly when the year has at most four digits |
| Expiry.StampedDeadline | src/daemon/token_store.cpp:242-258 | for every deadline from the Epoch to the end of 9999, its stamp is accepted at every second before it and at none from it on |
| Expiry.UnreadableDeadline | src/daemon/token_store.cpp:242-258 | the stamp of a deadline outside the years 0 to 9999 is not readable and counts as expired at every time |
| Expiry.RelativeSeconds | src/client/commands/issue_token_command.cpp:36-57 | a relative expiry is n times its unit exactly, or refused when that does not fit a long |
| Expiry.DurationsAreRead | src/client/commands/issue_token_command.cpp:34-57 | relative are exactly the texts of a number followed by s, m, h or d, worth 1, 60, 3600 and 86400 seconds each, or refused when they do not fit |
| Expiry.UnitsAreWorth | src/client/commands/issue_token_command.cpp:50-53 | the same spelled out for each unit |
| Expiry.ResolvedExactlyWhen | src/client/commands/issue_token_command.cpp:30-74 | an argument is accepted exactly if it is empty, a duration that fits, a date, or a date and time |
| Expiry.RelativeExpiry | src/client/commands/issue_token_command.cpp:58-65 | the stored deadline is exact if and only if the clock's ticks do not overflow and the year has four digits |
| Expiry.TickOverflow | src/client/commands/issue_token_command.cpp:58-60 | a concrete expiry that is accepted on the command line and whose deadline is wrong |
| AbsoluteExpiry.AbsoluteTime | src/client/commands/issue_token_command.cpp:68-73 | every text of the full shape is stored as given; it is readable exactly when its month, day, hour, minute and second are in their ranges, and is then honoured to the second, and else expired at every time |
| AbsoluteExpiry.AbsoluteDate | src/client/commands/issue_token_command.cpp:68-73 | the same for a date alone, which means its midnight |
| AbsoluteExpiry.NeverAccepted | src/client/commands/issue_token_command.cpp:68-73 | two concrete deadlines that are stored and never accepted, with month 00 and with hour 24 |
| AbsoluteExpiry.MonthPastTwelve | src/client/commands/issue_token_command.cpp:68-73 | nor is any deadline with a month past 12 ever accepted |
| AbsoluteExpiry.DayRollsOver | src/platform_compat.h:80-82 | a day past the end of its month is accepted and means a day of the next one |
| AbsoluteExpiry.TrailingTextExactlyWhen | src/platform_compat.h:80-82 | a text of the full shape with anything behind it is readable exactly when the fields are in range, and is then honoured to the second |
| AbsoluteExpiry.TrailingTextIsIgnored | src/platform_compat.h:80-82 | whatever follows any readable text changes nothing, be it of the full shape or not |
| AbsoluteExpiry.JunkIsAccepted | src/platform_compat.h:55-82 | a concrete text with something behind the time that is accepted until that time |
| ArgvQuoting.QuoteArg | src/main.cpp:66-92 | the loop over the argument computes the quoted form with its 2n and 2n+1 backslash rules |
| ArgvQuoting.JoinArgs | src/main.cpp:117-121 | the join loop computes the quoted arguments separated by single spaces |
| ArgvQuoting.RoundTrip | src/main.cpp:66-121 | the parser of `CommandLineToArgvW` gives back exactly the list, with empty arguments, quotes and any run of backslashes |
| ArgvQuoting.RoundTripIff | src/main.cpp:68 | the round trip holds for exactly the delimiter sets made of the blanks that the quoting knows |
| ArgvQuoting.WholeCommandLine | src/main.cpp:117-121 | with a program name first, the arguments always come back, and the name exactly when it does not both need quotes and end in a backslash |
| TokenFiles.PathsAreDistinct | src/daemon/token_store.cpp:461-464 | raw files, `.new` files, the index and its temporary file never share a path, and names map to paths injectively |
| TokenFiles.EntriesRoundTrip | src/daemon/token_store.cpp:42-68 | reading undoes writing for every list of storable entries |
| TokenFiles.IndexRoundTrip | src/daemon/token_store.cpp:72-99 | a written index reads back as its entries and is of a supported version |
| TokenFiles.FileSystem.Move | src/daemon/token_store.cpp:146-155 | a rename is atomic: it moves the whole file or changes nothing |
| TokenStore.Without | src/daemon/token_store.cpp:412-417 | revoking keeps every entry of another name and no entry of that name |
| TokenStore.Store.WriteIndex | src/daemon/token_store.cpp:114-156 | the states the files go through while the index is replaced, for every pattern of failures |
| TokenStore.Store.IssueToken | src/daemon/token_store.cpp:328-395 | the status returned and every file state on the way, for every pattern of failures |
| TokenStore.Store.RevokeToken | src/daemon/token_store.cpp:397-425 | the status returned and every file state on the way, for every pattern of failures |
| TokenStore.Store.LookupByToken | src/daemon/token_store.cpp:440-459 | the first entry with the token's hash decides; an empty token never matches |
| TokenGrants.IssueRefines | src/daemon/token_store.cpp:328-395 | an issue acts on the map of grants exactly when it reports success, and otherwise leaves it unchanged |
| TokenGrants.RevokeRefines | src/daemon/token_store.cpp:397-425 | a revoke removes the name from the map exactly when it reports success |
| TokenGrants.LookupMatches | src/daemon/token_store.cpp:440-459 | a lookup answers a name if and only if the map grants that name this token, not expired, and on an allowed transport |
| TokenGrants.StoreIsAMap | src/daemon/token_store.cpp:328-425 | over any run of issues and revokes with any failures, the files represent the map, with unique names |
| TokenGrants.LookupAfterAnyRun | src/daemon/token_store.cpp:440-459 | after any run from an empty directory, lookups answer as the map does |
| TokenLifetime.GrantedTokenLives | src/daemon/token_store.cpp:440-459 | from the argument to the lookup, through any run with any failures: a token granted for n seconds, minutes, hours or days is accepted at every second before that deadline and at none from it on, if and only if the deadline fits the clock and four-digit years |
| TokenLifetime.UnlimitedTokenLives | src/daemon/token_store.cpp:242-252 | a token granted without an expiry is accepted at every time, through any run |
| TokenGrants.StatusMatchesMap | src/daemon/token_store.cpp:347-353 | "already exists" and "not found" are reported exactly when the map says so |
| TokenStatuses.SafeNamesStayInside | src/daemon/token_store.cpp:225-241 | a safe name has no separator and no "..", so its raw file is in the directory of tokens |
| TokenStatuses.SafeExactlyWhen | src/daemon/token_store.cpp:229-241 | exactly which names are accepted |
| TokenStatuses.IssueReports | src/daemon/token_store.cpp:328-395 | every status of an issue, by the map of grants and the steps that fail, success included |
| TokenStatuses.RevokeReports | src/daemon/token_store.cpp:397-425 | every status of a revoke, likewise |
| TokenStatuses.OtherVersionIsLeftAlone | src/daemon/token_store.cpp:333-345 | an index of another version makes issue and revoke fail without a file step, and lookups find nothing |
| TokenStatuses.CleanIssue | src/daemon/token_store.cpp:355-395 | an issue in which nothing fails leaves exactly the new index and the new raw file, and nothing beside them |
| TokenStatuses.FailedCommitIsCleanedUp | src/daemon/token_store.cpp:378-383 | a failed commit with working clean-up leaves all but the temporary files as they were |
| TokenStatuses.CleanRevoke | src/daemon/token_store.cpp:410-425 | a revoke in which nothing fails removes exactly the entry and the raw file |
| TokenRecovery.StoppedAnywhere | src/daemon/token_store.cpp:369-394 | stopping an issue after any file step, under any failures but a committed token whose staging failed unseen: the token committed at that moment is in the raw or the `.new` file |
| TokenRecovery.SafeExactlyWhen | src/daemon/token_store.cpp:297-394 | over all failures: every stop is safe if and only if the side file cannot be opened, or the committed token was in the raw file and no index was written after a staging that failed unseen |
| TokenRecovery.OthersNeverChange | src/daemon/token_store.cpp:369-394 | whatever fails, no step touches the files of another name |
| TokenSurvival.InRawExactlyWhen | src/daemon/token_store.cpp:369-394 | an issue leaves its name's token in the raw file if and only if it did not commit, or its staging and its promotion worked |
| TokenSurvival.RevokeKeepsRaw | src/daemon/token_store.cpp:397-425 | a revoke, stopped after any step and whatever fails, keeps every name's committed token in its raw file |
| TokenSurvival.RunKeepsRaw | src/daemon/token_store.cpp:328-425 | over any run whose commits were staged in full and promoted, every committed token is in its raw file, which is what a safe issue needs |
| TokenSurvival.EveryTokenIsOnDisk | src/daemon/token_store.cpp:328-425 | after such a run from an empty directory, one more call stopped after any step leaves every name's token on disk, whatever fails in it but a commit after a staging that failed unseen |
| TokenRecovery.FirstStepLosesSideFile | src/daemon/token_store.cpp:311-313 | a token that was only in the `.new` file is lost as soon as that file is opened again |
| TokenRecovery.IssuedTokenIsOnDisk | src/daemon/token_store.cpp:297-322 | a call that reports success has its token on disk if and only if the flush at close worked |
| RemovalOrder.PlanRemoval | src/core_service/package_ops.cpp:247-267 | the nested loops over names and answers compute the merged list, or the error of the first bad name |
| RemovalOrder.FindRemovalSet | src/core_service/package_ops.cpp:205-224 | the usable dependents of a package, then the package; nothing when the resolver fails |
| RemovalOrder.MergeKeepsOrder | src/core_service/package_ops.cpp:255-259 | appending what is not yet listed keeps dependents first and makes no duplicate |
| RemovalOrder.RemovalPlan | src/core_service/package_ops.cpp:247-267 | with complete answers the plan is duplicate-free, closed under dependents, holds the named packages and their dependents and nothing else, and lists every dependent before what it depends on |
| RemovalOrder.NamedOnly | src/core_service/package_ops.cpp:205-224 | without dependents the plan is the named packages, each once, in the order first named |
| RemovalOrder.UsableIs | src/core_service/package_ops.cpp:214-221 | of an answer exactly the empty names and the package itself are dropped |
| RemovalOrder.PlannedExactlyWhen | src/core_service/package_ops.cpp:248-254 | a plan exists if and only if every name is installed and resolved |
| RemovalOrder.FirstFailureDecides | src/core_service/package_ops.cpp:249-254 | the first failing name decides between "not installed" and "could not resolve" |
| PackageGate.PackageOps.Apply | src/core_service/package_ops.cpp:383-545 | the trace and the outcome of a run, for every oracle of call failures |
| PackageGate.PackageOps.Gate | src/core_service/package_ops.cpp:486-497 | request, acknowledge, stop, confirm, and cancel when the confirmation fails |
| PackageGate.PackageOps.ApplyRemoval | src/core_service/package_ops.cpp:407-451 | the one batch gate of a removal, with its cancellation |
| PackageProtocol.EveryRunKeepsTheProtocol | src/core_service/package_ops.cpp:383-545 | for every failure pattern: no request while an action may be pending, a confirmation only after its acknowledgement and with everything stopped, no unload before an acknowledgement, no install before the confirmations covering it, nothing but a cancel after a failed call, and loads last and exactly the captured ones in order |
| PackageProtocol.EachEventWasAllowed | src/core_service/package_ops.cpp:383-545 | each event of an accepted trace was allowed in the state the earlier ones left |
| PackageProtocol.PendingExactlyWhen | src/core_service/package_ops.cpp:348-451 | nothing stays pending exactly when, for a removal, the request works and then the confirmation, or after a failed acknowledgement the cancellation; for the others, no gate that is reached has a failed request, a failed acknowledgement, or a failed confirmation with a failed cancellation |
| PackageProtocol.FailedAcknowledgement | src/core_service/package_ops.cpp:348-369 | a note on one case: a removal cancels, so that nothing is left if the cancellation works; an install or upgrade does not cancel and always leaves its action |
| PackageProtocol.RemovalStops | src/core_service/package_ops.cpp:434-437 | a removal stops all its victims in the planned order, or none |
| PackageProtocol.DependentsStopFirst | src/core_service/package_ops.cpp:407-437 | plan and apply together: no module is stopped while one that depends on it is still to be stopped, whatever fails |
| PackageProtocol.SuccessIsTrue | src/core_service/package_ops.cpp:446-545 | a success report names exactly what was installed or removed and exactly the modules that loaded again |
| PackageProtocol.WorkingCallsSucceed | src/core_service/package_ops.cpp:383-545 | if every call works and the download set is clean, the run ends in success |
| PackageOutcome.OutcomeExactlyWhen | src/core_service/package_ops.cpp:383-545 | for every job and failure pattern, by the results of the calls: success exactly if the job can be done and every deciding call worked, and otherwise exactly which step is named |
| PackageOutcome.DownloadErrorFails | src/core_service/package_ops.cpp:509-513 | a download entry that reports an error always fails the run |
| JsonSchema.Errors.Note | src/json_schema.h:51-54 | a note: the collector keeps the first problem |
| JsonSchema.Reader.ReadStr | src/json_schema.h:77-86 | the value or the default, and the problem recorded if the type is wrong; null counts as absent |
| JsonSchema.Reader.ReadBool | src/json_schema.h:88-97 | the same for true and false |
| JsonSchema.Reader.ReadInt | src/json_schema.h:102-127 | the same for whole numbers with a range, never wrapping a value above the signed 64-bit maximum |
| JsonSchema.IntOf | src/json_schema.h:102-127 | whatever the document holds, the result is within the range |
| JsonSchema.Reader.ReadStringList | src/json_schema.h:129-150 | all strings of the list, or the default and the problem of the first entry that is none |
| JsonSchema.StringsOf | src/json_schema.h:138-149 | a list of strings is refused exactly when some entry is not a string |
| JsonSchema.Reader.ReadMapping | src/json_schema.h:156-166 | a nested mapping; a wrong type is recorded, not ignored |
| JsonSchema.Reader.ReadList | src/json_schema.h:168-178 | a nested list; a wrong type is recorded, not ignored |
| DaemonConfigReader.ReadTransport | src/daemon/daemon_state.cpp:75-118 | with any earlier problem: the entry is handed back only when nothing at all went wrong, and the first problem stays |
| DaemonConfigReader.ReadTransports | src/daemon/daemon_state.cpp:232-241 | the loop over a transport list stops at the first bad entry and agrees with reading them one by one |
| DaemonConfigReader.ReadModule | src/daemon/daemon_state.cpp:203-241 | null, bare list, mapping with a list, and the wrong types |
| DaemonConfigReader.ReadModules | src/daemon/daemon_state.cpp:199-245 | the loop over the modules with its early returns gives the map of the non-empty ones or the first problem |
| DaemonConfigReader.ReadConfig | src/daemon/daemon_state.cpp:190-300 | early exits and one shared collector amount to: every field on its own, and the first problem in document order rejects the whole |
| DaemonConfigReader.ReadDocument | src/daemon/daemon_state.cpp:366-397 | a document is accepted exactly when it parses, and a refusal always has its reason |
| ConfigAcceptance.KindsAreNamed | src/json_schema.h:27-41 | what a problem calls the value it found tells the seven kinds of values apart |
| ConfigAcceptance.TransportAccepted | src/daemon/daemon_state.cpp:75-118 | a transport is accepted exactly if it is a mapping with one of the three protocols and every key it sets has its type and range; the rest has defaults |
| ConfigAcceptance.ModuleAccepted | src/daemon/daemon_state.cpp:203-241 | a module's entry names the transports it lists, in order, none dropped: nothing, a bare list, or a mapping with or without a list, and no other type |
| ConfigAcceptance.BareListIsShorthand | src/daemon/daemon_state.cpp:208-222 | a bare list reads as the mapping with that list, with the same first problem |
| ConfigAcceptance.SpellingDoesNotMatter | src/daemon/daemon_state.cpp:208-222 | respelling any of the modules leaves the whole reading unchanged |
| ConfigAcceptance.FirstBadTransport | src/daemon/daemon_state.cpp:232-241 | the problem reported for a list is that of its first bad transport |
| ConfigAcceptance.ConfigAccepted | src/daemon/daemon_state.cpp:190-300 | the configuration is read exactly if every key that is set has its type, range and allowed value; it is then what is set, null counting as unset, and defaults for the rest |
| ConfigAcceptance.DocumentAccepted | src/daemon/daemon_state.cpp:366-397 | a document is accepted exactly if it is a mapping of version 2 with such a body |
| ConfigAcceptance.MinimalDocument | src/daemon/daemon_state.cpp:190-300 | what a document that sets nothing but its version means |
| ConfigAcceptance.FirstProblemIsReported | src/daemon/daemon_state.cpp:190-300 | the problem reported is that of the first part of the document that has one |
| ConfigRoundTrip.TransportRoundTrip | src/daemon/daemon_state.cpp:53-118 | a printed transport is read back in normal form exactly when its protocol is known and its port in range |
| ConfigRoundTrip.DocumentRoundTrip | src/daemon/daemon_state.cpp:430-441 | reading the written configuration succeeds exactly for known protocols and policy and numbers in range, and gives the normal form |
| ConfigRoundTrip.StateRoundTrip | src/daemon/daemon_state.cpp:450-460 | the same for the block in `state.json`, where listeners lose certificate and key |
| ConfigRoundTrip.NormalIsFixed | src/daemon/daemon_state.cpp:190-300 | a normal form is valid and its own normal form |
| ConfigRoundTrip.NoListenerKeys | src/daemon/daemon_state.cpp:62-69 | without secrets, configurations that differ only in listeners' certificates and keys print the same |
| ConfigRoundTrip.SessionKeyIsPublished | src/daemon/daemon_state.cpp:140-144 | the session-wide key path is printed with or without secrets |
| ConfigRoundTrip.OrderDoesNotMatter | src/daemon/daemon_state.cpp:200 | the order in which modules are visited decides nothing but which problem is reported |
| ClientConfig.ReadDial | src/client/client_state.cpp:60-97 | a dial entry is handed back only when nothing went wrong, and the first problem stays |
| ClientConfig.ReadClient | src/client/client_state.cpp:101-157 | the client's reader answers what its field-by-field meaning says, with the first problem |
| ClientAcceptance.DialAccepted | src/client/client_state.cpp:60-97 | which dial entries are accepted, said about the entry alone, and as what |
| ClientAcceptance.ClientAccepted | src/client/client_state.cpp:101-157 | which client documents are accepted and which are usable, said about the document alone |
| ClientConfig.DialRoundTrip | src/client/client_state.cpp:42-97 | a printed dial entry is read back, fields its protocol does not use reset, exactly when it is valid |
| ClientConfig.ClientRoundTrip | src/client/client_state.cpp:188-212 | a written client file is read back in normal form exactly when its entries are valid, and is usable when it names a token file and a module |
| ClientConfig.NarrowedIsCongruent | src/client/client_state.cpp:116-118 | a version passes the check exactly when its low 32 bits are those of 2 |
| ClientConfig.WrongVersionAccepted | src/client/client_state.cpp:116-118 | a concrete document of a version other than 2 that is accepted |
| LocalArtifacts.PickClientDialTransport | src/daemon/daemon_state.cpp:541-549 | the loop finds the first `local` listener, else the first listener, else nothing |
| LocalArtifacts.ToClientDialHost | src/daemon/daemon_state.cpp:561-568 | the host is never empty or a wildcard, and unchanged when it was neither |
| LocalArtifacts.WildcardsBecomeLoopback | src/daemon/daemon_state.cpp:561-568 | a wildcard becomes the loopback address of its own family |
| LocalArtifacts.ClientArtifact.WriteLocalClientArtifacts | src/daemon/daemon_state.cpp:762-822 | when the client configuration is rewritten, with what, and when the boot fails |
| LocalArtifacts.OperatorFileIsKept | src/daemon/daemon_state.cpp:760-788 | a client configuration without an instance id never changes over any boots |
| LocalArtifacts.MistypedIdIsKept | src/daemon/daemon_state.cpp:774-781 | neither does one whose instance id is not text |
| LocalArtifacts.OwnFileIsKept | src/daemon/daemon_state.cpp:774-788 | a daemon that finds its own id rewrites nothing over any boots |
| LocalArtifacts.OwnedFileFollows | src/daemon/daemon_state.cpp:751-788 | an absent or daemon-owned one ends with the id of the last boot that could write, and keeps naming its token file |
| LocalArtifacts.DialsTheRightListener | src/daemon/daemon_state.cpp:534-592 | the emitted entry dials `local` if bound, else the first listener, never at a wildcard or empty host |
| LocalArtifacts.EmittedIsUsable | src/daemon/daemon_state.cpp:792-807 | the client's reader accepts an emitted document as usable exactly when the picked listeners are valid |
| LocalArtifacts.ClientFollowsTheDaemon | src/daemon/daemon_state.cpp:747-822 | after any boots that changed it, the client reads the latest id and the kept token file, and dials what the last boot that could write had bound |
| ModuleTransport.SplitBody | src/main_legacy.cpp:400-408 | the splitter loop computes the comma-separated parts |
| ModuleTransport.JoinOfSplit | src/main_legacy.cpp:400-408 | the parts are comma-free, and joining them gives back the body up to one trailing comma |
| ModuleTransport.SplitOfJoin | src/main_legacy.cpp:400-408 | comma-free parts come back from their joined text exactly when the last one is not empty |
| ModuleTransport.SetKeys | src/main_legacy.cpp:429-482 | the key loop applies the pairs in order and stops at the first bad one |
| ModuleTransport.ParseFlag | src/main_legacy.cpp:385-516 | one flag gives its name and listener, or the first error in the order of the checks |
| ModuleTransport.PortIsRead | src/main_legacy.cpp:459-476 | a printed port is read back, refused above 65535, and not an integer above the 32-bit maximum |
| ModuleTransport.RenderedIsParsed | src/main_legacy.cpp:385-516 | for comma-free fields, rendering and parsing gives the same name and listener exactly when port, codec and certificates are valid |
| ModuleTransport.ProtocolAlone | src/main_legacy.cpp:415-428 | what a flag without keys gives for each protocol |
| ModuleTransport.VerifyPeerIsRead | src/main_legacy.cpp:445-457 | true and 1, false and 0 are read, nothing else |
| ModuleTransport.OtherKeysAreRefused | src/main_legacy.cpp:429-482 | a key other than the seven is refused, and so is a part without '=' |
| ModuleTransport.FlagShape | src/main_legacy.cpp:386-392 | a flag is malformed exactly if it has no '=', nothing before it, or nothing after it |
| ModuleTransport.LastOneWins | src/main_legacy.cpp:429-482 | of several values for a key the last one decides, whatever came before |
| ModuleTransport.ParseFlags | src/main_legacy.cpp:384-517 | the loop over the flags computes the map of listeners, or the error of the first bad flag |
| ModuleTransport.FlagsByModule | src/main_legacy.cpp:384-517 | each module ends with exactly its own listeners in the order of the flags |
| ArgCoerce.IsDecimalNumber | src/client/commands/arg_coerce.cpp:9-37 | the index-walking scanner decides what its part-by-part description says |
| ArgCoerce.ScannerIsTheGrammar | src/client/commands/arg_coerce.cpp:9-37 | the scanner accepts exactly the texts of the declared grammar |
| ArgCoerce.IntegersAreExact | src/client/commands/arg_coerce.cpp:64-76 | an integer literal becomes the exact signed value if it fits, the exact unsigned one if it fits only there, and otherwise never an integer |
| ArgCoerce.OthersStayText | src/client/commands/arg_coerce.cpp:39-89 | a note on the remaining cases: a double, or the caller's text unchanged |
| ArgCoerce.WordsAreFlags | src/client/commands/arg_coerce.cpp:39-43 | the two words become flags, unpadded only, and nothing else does |
| ArgCoerce.PrintedIsCoercedBack | src/client/commands/arg_coerce.cpp:39-89 | printing any integer from -2^63 to 2^64 - 1 and coercing it, blanks around it allowed, gives it back |
| ArgCoerce.TrimmedPadded | src/string_utils.h:51-59 | trimming removes exactly the blanks around a text |
| Decimals.ScanOfDecimal | src/client/commands/arg_coerce.cpp:64-76 | the C library's number scan (section 7.22.1.4 of C11) reads a printed number back whole |
| LogSink.LogReader.CompleteLines | src/daemon/log_sink.cpp:257-266 | the byte loop finds exactly the complete lines and where the rest begins |
| LogSink.LogReader.ReaderLoop | src/daemon/log_sink.cpp:236-284 | the lines written for any sequence of reads, with the final partial line |
| LogSink.NothingIsLost | src/daemon/log_sink.cpp:236-284 | however the stream is chunked, the lines written concatenate to the stream without its newlines |
| LogSink.PendingIsBounded | src/daemon/log_sink.cpp:266-272 | a note: after each read the buffer is newline-free and at most 65536 bytes |
| LogSink.ShortLinesAreTheSplit | src/daemon/log_sink.cpp:236-284 | if no line exceeds 65536 bytes, the lines written are the split of the whole stream |
| LogSink.NoFlushExactlyWhen | src/daemon/log_sink.cpp:266-272 | nothing is written early exactly when no read ends inside a partial line of more than 65536 bytes |
| LogSink.SplitExactlyWhen | src/daemon/log_sink.cpp:266-272 | the lines written are the split of the stream exactly when no read ends inside a partial line of more than 65536 bytes, unless no byte follows it |
| LogSink.LongLineInTwoPieces | src/daemon/log_sink.cpp:266-272 | a concrete stream of eighteen full reads whose one line is written as two |
| LogRetention.LogDirectory.PruneOldLogs | src/daemon/log_sink.cpp:67-95 | the directory after pruning: the oldest candidates beyond the limit removed, where removal works |
| LogRetention.LogDirectory.Start | src/daemon/log_sink.cpp:122-168 | the directory after a start: pruned, the new log, and the stable name |
| LogRetention.StableNameIsNoCandidate | src/daemon/log_sink.cpp:77-81 | the stable name never matches the stamped pattern |
| LogRetention.StampedIsCandidate | src/daemon/log_sink.cpp:77-81 | the log that a session writes always matches it |
| LogRetention.CandidateExactlyWhen | src/daemon/log_sink.cpp:77-81 | a name matches exactly if it has the stem, an underscore, and the log's extension if there is one |
| LogRetention.PruneBounds | src/daemon/log_sink.cpp:88-95 | with working removals exactly the allowed number of candidates stays, or all if there are fewer |
| LogRetention.PruneKeepsNewest | src/daemon/log_sink.cpp:89-94 | no removed log is newer than a kept one |
| LogRetention.PruneTouchesCandidatesOnly | src/daemon/log_sink.cpp:73-86 | nothing but candidates is removed, whichever removals fail |
| LogRetention.AtMostMaxFiles | src/daemon/log_sink.cpp:122-132 | after every start with a limit and working removals, at most that many stamped logs remain besides those whose time cannot be read; exactly how many when the new log has a name of its own |
| LogRetention.OthersAreLeftAlone | src/daemon/log_sink.cpp:122-168 | a start touches nothing outside the pattern but the stable name |
| LogRetention.StableNameIsReplaced | src/daemon/log_sink.cpp:164-168 | a note on one step: whatever was at the stable name is replaced if it can be removed, and else stays as it was |

## Left out

- Qt, CLI11, spdlog (its own rotation included), liblogos, `posix_spawn`, signals, chmod and chown: foreign calls without logic of their own here.
- SHA-256 and `RAND_bytes`: the hash is assumed injective and non-empty on the tokens in play, generated tokens are assumed new.
- JSON and YAML text syntax: documents are values, and printing then parsing the text is taken to be the identity.
- Conversion between UTF-8 and Qt strings in the relay: texts stay bytes, so invalid UTF-8 from the daemon is not modelled.
- Page navigation and reload: one page load per channel.
- Writes after a failed partial send: the writer of the relay stops then, for the reason `RelayProtocol.FrameAfterStubIsFused` shows.
- Liveness of concurrent `close()` calls: `shutdown` holds a mutex across `join`; only safety is proved.
- Power loss: nothing is synced to disk, and neither the source nor the model claims durability.
- Failed reads of the token index: a read that fails counts as "no tokens" in the source; reads succeed here.
- Token index documents that are no mapping or have fields of the wrong type: the JSON library throws there, and the exception is not modelled.
- File systems that fold case: token names are taken to be distinct files when they differ.
- Concurrent writers of the token store share one temporary name: one writer is assumed, as is a store without hand-made duplicate names.
- Undefined behaviour of signed overflow in the clock's ticks: the model wraps to 64 bits.
- The Windows branch of `strptimeIso8601Utc`, which uses `sscanf`: the POSIX branch is modelled.
- Planning an install or upgrade (resolver answers, `depAction`): a run takes its planned items and modules to restart as arbitrary input.
- Reading the installed packages before a download: its answer only fills an argument of the download call.
- The argument after which `logos_core_unload_module` cascades to dependents: cascaded unloads that `apply` does not restart are not modelled.
- The rest of `writeLocalClientArtifacts`: file modes, groups, and the auto token file, which is always rewritten.
- `applySslDefaults` and `findTlsListenersMissingMaterial`: one branch each.
- A start whose log file or pipe cannot be opened: it undoes itself and logging stays off.
- The console mirror of the log reader, interrupted reads, and directory iteration errors during pruning.
- `call_envelope.cpp`, `package_bootstrap.cpp`, `core_service_dispatch.cpp`, `rpc_deadlines.h`, client output and help: small decision tables or user interface.
- Bytes handed to the kernel are taken to arrive: a connection reset that discards them on the way is not modelled.
- A page that loses its renderer, and a daemon that closes the socket: both make the webhost quit as a close does.
- TokenRecovery.SafeExactlyWhen: a raw file that already holds the newly generated token is shut out where the staging fails unseen; generated tokens are new.
- TokenSurvival.InRawExactlyWhen: the half that a failed promotion takes the token out of the raw file is for raw files that do not hold the new token already.
