# lsp-det, modelled and verified

lsp-det sits between an LSP client and a language server. It follows the state of the server on two
axes (health and readiness), holds the client's cross-workspace requests until their answers would
be complete, and tells the client how the state changes. This project models that relay and what
feeds it, and proves what the relay and its parts promise.

How the model is built:

- **Functions over values say what one message does** (`Relaying.Step`, `Gopls.OnProgress`, ...). The
  objects that the program updates in place are classes whose methods are proved to compute exactly
  those functions (`UpstreamSides.UpstreamSide`, `Gates.Gate`, `Tracking.Tracker`, the mappings).
- **Whole-run claims are about those functions**, for every sequence of events: the relay's counts,
  orders and notifications, and, for the mappings, that the few fields are functions of the whole
  history. `Histories.Since(h, a, b)` reads "a happened in h, and b not after it". What is open after begins
  and ends is told from the history as well (`Openings`): how many of a token, and which begin an end
  belongs to, since ends take the oldest.
- **A mapping is arbitrary in the relay.** What it reads from a message, which name it is selected
  by, and the difference of the watched files are arguments of every step (`Relaying.Environment`),
  so what is proved of the relay holds for any mapping, also one that does not repeat itself.
- **Messages are parsed** (`Messages`), JSON is a tree (`Jsons`), and the file system is a finite tree
  of entries that may refuse to be read (`FileTrees`). Bytes appear where the program works on bytes:
  framing, URIs, and the match within a file name.

Files by subject:

- the relay: `Messages`, `ServerStates`, `Gate`, `Tracker`, `Documents`, `Relay`, `UpstreamSide`, and the
  claims about its runs in `RelayRuns`, `RelayContents`, `RelayAnswers`, `RelayDocuments`,
  `RelaySafety`, `RelayOrder`, `RelayVerdicts`, `RelayNotifications`, `RelayStates`, `RelayHandshake`
- the mappings: `Histories`, `Progress`, `Openings`, `Gopls`, `Sorbet`, `Pyright`, `Expert`, `Haxe`, `Nil`,
  `Metals`, `Nextflow`, `TypescriptServer`, `TypescriptPromise`, `TypescriptCoverage`; and what the tracker
  makes of their answers: `Hearing`
- the TypeScript layout reader: `FileTree`, `Patterns`, `Jsonc`, `Layout`, `LayoutSettings`
- codecs and rewriters: `Framing`, `FramingHeaders`, `Uri`, `Utf8`, `Json`, `Initialize`, `InitializeBody`,
  `WatchedFiles`

`dafny verify dfyconfig.toml` checks everything.

## What does not hold as one would expect

Where the code does not do what its documentation, or a first reading, says, the model follows the
code, and a lemma gives the exact condition or the failing input.

- **A held request can be stranded.** The answer to `initialize` selects the mapping again without
  asking the gate to look at what it holds (src/proxy.rs:546-554). `RelaySafety.WaitsWithReasonExactly`
  gives the exact condition, `RelaySafety.AnEarlyRequestCanBeStranded` a run that fails it, and
  `RelaySafety.NothingWaitsWithoutReason` shows that it cannot happen with a client that keeps to the
  section "Initialize Request" of LSP 3.17.
  A stranded request can be overtaken: `RelayOrder.OrderExactly` is exact,
  `RelayOrder.AStrandedRequestIsOvertaken` a run.
- **The state can be notified before `InitializeResult`.** src/proxy.rs:252-254 says that it never moves
  before. A mapping named by a startup log moves it, by the very message that names it or a later one of
  either side. `RelayNotifications.SilentExactly` is exact, `RelayNotifications.AReportCanComeFirst` a
  run that writes the notification.
- **A repeated answer of the upstream is passed on.** Nothing is remembered of requests that were passed on
  (`RelayAnswers.RepeatedAnswerIsPassedOn`), so "at most one answer" needs the upstream to answer once
  (`RelayAnswers.RequestsAreAnsweredAtMostOnce`); `RelayAnswers.RepliesExactly` is exact.
- **An excluded directory does not exclude everything beneath.** An `exclude` entry without a wildcard
  or an extension is expanded to what an `include` entry would take in, so files below a dotted
  directory, and minified ones, stay in (src/adapter/typescript_layout.rs:304-323).
  `Patterns.DirectoryExcludesEligible` is exact, `Patterns.GenDoesNotExcludeCache` an instance.
- **A re-announced version hides layout changes.** While an untested version stands, changes of the
  TypeScript layout are not looked at, and a tested version declares coverage again on the old layout.
  `TypescriptPromises.AnUntestedVersionHidesASource` is a run that ends with coverage declared on an
  incomplete folder; `TypescriptPromises.PromiseExactly` says exactly when the promise still holds.
- **nil's workspace folders reset readiness while tokens are open.** A second `initialize` tells the
  selected mapping its folders again (src/tracker.rs:69-76), and without the lock in them readiness
  becomes unknown (src/adapter/nil.rs:277-281), also while a token is open: `Nil.UnknownWhileLoading`
  gives the messages, `Nil.ReadinessExactly` is exact. Learning folders answers nothing, so lsp-det is not told
  and goes on by the old readiness: `Nil.TheDoubtIsNotTold` is an instance, `Nil.HeardExactly` says exactly until
  when.
- **A second injection of initialization options** can change the body again when one key is asked for
  with both values; `Initializes.OptionsInjectedOnce` is exact.
- **Only an object is a declaration** of the upstream (src/initialize.rs:201-204), although
  src/initialize.rs:151-153 also names `true`.
- **Percent-decoding** takes a plus sign and a digit for a byte (`Uris.PlainExactly` is exact,
  `Uris.PlusSignIsDecoded` an instance). When the two bytes after a percent sign end within a character,
  the program panics and the model answers none (src/uri.rs:63-66): `Uris.CutsExactly` is exact,
  `Uris.AccentIsCut` an instance, and `Uris.DecodedEncoded` shows that no URI of a path is such a text.

## Model

| member | source | states |
|---|---|---|
| Gates.Gate.OnRequest | src/gate.rs:148-181 | On the axes: passed on for a client that decides itself, for another method, and when health is not error and readiness ready or unknown; queued last while loading; answered with the code -32803 when health is error |
| Gates.Gate.OnState | src/gate.rs:187-214 | On the axes: while loading nothing is released and the queue is as before; otherwise the whole queue, in order, as the messages themselves or as their errors |
| Gates.Gate.OnCancel | src/gate.rs:218-232 | Exactly the first held request with the id leaves the queue and is answered; otherwise the queue is as before |
| Gates.Gate.Drain | src/gate.rs:235-258 | Every held request is answered once, in order, and the queue is empty |
| Gates.VerdictIsOnTheAxes | src/gate.rs:289-297 | Forward iff health is not error and readiness is ready or unknown, hold iff it is not error and readiness is initializing or indexing, reject iff it is error; so suppressing message changes loses nothing |
| Tracking.Tracker.Select | src/tracker.rs:120-138 | Selection by name: an unknown name keeps the mapping, the same name keeps its state, another replaces it |
| Tracking.Tracker.OnUpstream | src/tracker.rs:185-205 | A startup announcement selects a mapping only while there is none; a state is returned only on an axis change |
| Tracking.Tracker.OnClient | src/tracker.rs:93-97 | A predicted state is returned only on an axis change, and only under a mapping |
| UpstreamSides.UpstreamSide.OnClientRequest | src/proxy.rs:373-448 | The object's new fields and its ordered writes for a request are those of the step function |
| UpstreamSides.UpstreamSide.OnClientNotification | src/proxy.rs:324-480 | The same for a notification: `initialized`, cancellation, documents, watched files, any other |
| UpstreamSides.UpstreamSide.OnUpstream | src/proxy.rs:483-543 | The same for a message of the upstream, in the order of the program's tests |
| UpstreamSides.UpstreamSide.OnInitializeResult | src/proxy.rs:546-591 | The same for the answer to `initialize`, with its four outcomes |
| UpstreamSides.UpstreamSide.OnUpstreamUnderIdentity | src/proxy.rs:597-635 | The same once the upstream speaks the protocol itself |
| UpstreamSides.UpstreamSide.ClosePending | src/proxy.rs:224-235 | When the upstream is gone, `initialize` and all held requests are answered |
| UpstreamSides.UpstreamSide.Turn | src/proxy.rs:49-128 | One turn of the event loop, whichever side the event comes from |
| RelayRuns.EveryRequestIsAccountedFor | src/proxy.rs:310-480 | In every run and for every id: the requests that arrived are those forwarded, plus those lsp-det answered, plus those held |
| RelayRuns.EachRequestIsInOnePlace | src/proxy.rs:310-480 | A request whose id is not reused is at every moment in exactly one of the three places, once |
| RelayRuns.NothingIsLeftBehind | src/proxy.rs:224-235 | After the upstream is gone nothing waits, and no `initialize` is open |
| RelayContents.ForwardedIsWhatCame | src/proxy.rs:366-447 | In every run, each request passed on to the upstream is one the client sent, as it sent it; only an `initialize` has flags injected |
| RelayContents.SharesArePassedOn | src/proxy.rs:483-635 | In every run, the client gets each upstream message once, in order and unaltered, but for the declaration added to the answer to `initialize` and the messages that are lsp-det's own business |
| RelayRuns.InitializeResultIsPassedOn | src/proxy.rs:546-591 | The step that takes the upstream's answer to `initialize` passes it on once: as it is, or with the declaration added |
| RelayRuns.InitializeIsAnsweredAtMostOnce | src/proxy.rs:647-652 | In every run: the answers the upstream gives to a pending `initialize`, the failures of lsp-det and the pending one are together no more than the `initialize` requests |
| RelayAnswers.RepliesExactly | src/proxy.rs:310-543 | In every run and for every id, on what is written: answers to the client, plus requests passed on or held, are requests that arrived, plus answers passed on or made up for an open `initialize` |
| RelayAnswers.RequestsAreAnsweredAtMostOnce | src/proxy.rs:310-652 | If the upstream never answers an id more often than it was passed on, the client gets no more answers with the id than it sent requests, from the upstream and lsp-det together |
| RelayAnswers.RepeatedAnswerIsPassedOn | src/proxy.rs:483-543 | An answer that the upstream repeats is passed on again |
| RelayRuns.NoInitializeIsLost | src/proxy.rs:384-386 | With one `initialize` at a time they are exactly as many |
| RelaySafety.WaitsWithReasonExactly | src/proxy.rs:546-554 | In every run, for any mapping: at every moment at which something waits, health is not error and readiness is initializing or indexing, if and only if no answer to `initialize` reselects a mapping to release on while requests are held |
| RelaySafety.StepKeepsReason | src/proxy.rs:456-477 | Every single step keeps the reason to wait, except exactly that one |
| RelaySafety.NothingWaitsWithoutReason | src/gate.rs:187-214 | With a client that asks nothing across the workspace before `InitializeResult`, in every run: while anything waits, health is not error and readiness is initializing or indexing |
| RelayVerdicts.CrossRequestExactly | src/gate.rs:148-181 | At every step of every run of a client that does not declare: a cross-workspace request is written upstream iff health is not error and readiness is ready or unknown, answered with an error and nothing else iff health is error, and held last otherwise |
| RelayVerdicts.NeverHeld | src/gate.rs:148-160 | A request of a client that decides itself, and one that does not go across the workspace, is passed on whatever the state, and nothing is answered |
| RelayVerdicts.StateStepExactly | src/gate.rs:187-214 | In every run of a client that keeps to LSP, at every step that can move the state: what waited is written upstream in order iff the state is then answerable, answered with errors that carry its message iff health is error, and kept otherwise; nothing else is written of either kind |
| RelayVerdicts.DeclaredExactly | src/proxy.rs:385-396 | In every run, who decides about holding, who is notified and who is asked for progress tokens is what the last `initialize` declared |
| RelayVerdicts.CancelExactly | src/gate.rs:218-232 | A cancellation answers the first held request with the id, with the code -32800, and the rest keeps waiting in order; otherwise it is passed on |
| RelayVerdicts.ShutdownExactly | src/proxy.rs:415-425 | A shutdown is passed on after an error for each request that waited, in order; nothing waits then |
| RelayVerdicts.GoneExactly | src/proxy.rs:224-235 | When the upstream is gone, an open `initialize` is answered, and then each request that waited, with the code -32603 |
| RelayVerdicts.PassedOnFirst | src/proxy.rs:456-542 | What lsp-det adds to a message it passes on comes after it |
| RelaySafety.AnEarlyRequestCanBeStranded | src/proxy.rs:546-554 | A run of four messages after which a request waits although the server is ready |
| RelayOrder.OrderExactly | src/gate.rs:148-232 | For a client that does not declare and repeats no request, in every run: what is written of the cross-workspace requests, then what is held, is at every moment a subsequence of the order of arrival, iff none comes while others wait and the state is answerable |
| RelayOrder.NoRequestOvertakes | src/gate.rs:148-232 | In every run of a client that does not declare, the order is kept at every moment, as long as no answer to `initialize` reselects a mapping to release on while requests are held |
| RelayOrder.QuietClientIsNotOvertaken | src/gate.rs:148-232 | In particular when nothing is asked across the workspace before `InitializeResult` |
| RelayOrder.AStrandedRequestIsOvertaken | src/proxy.rs:546-554 | A run in which request 3 is written while request 2 stays held |
| RelayOrder.WrittenOnlyWhenAnswerable | src/gate.rs:289-297 | A cross-workspace request is written only if health is not error and readiness is ready or unknown |
| RelayOrder.EveryCrossWriteIsAnswerable | src/proxy.rs:431-447 | The same for every step of every run |
| RelayNotifications.ReportsAreTheAxisChanges | src/tracker.rs:208-212 | From any state under a mapping with a declaring client, over every run up to the next selection: the notified states differ one from the next, are as many as the axis changes, and the last has the axes of the boundary state |
| RelayNotifications.IdentityReportsNothing | src/proxy.rs:656-661 | Once the upstream declares the protocol, lsp-det itself notifies nothing, in every run |
| RelayNotifications.SilentExactly | src/proxy.rs:252-255 | In every run, for any mapping: no state is notified before the answer to `initialize`, iff no message before it brings a reading on other axes under a mapping, or with the one it announces, for a client that declared |
| RelayNotifications.AReportCanComeFirst | src/proxy.rs:252-255 | A run in which the notification is written and the handshake is not done |
| RelayStates.StateRequestExactly | src/proxy.rs:373-384 | In every run, a server-state request gets exactly one write and changes nothing: a response with its id and the state on the boundary, which is the last one told through a mapping; or, once the upstream speaks the protocol itself, it is passed on and nothing is answered |
| RelayStates.AnsweredIsLastReported | src/proxy.rs:663-672 | For a declaring client under a mapping, over every run up to the next selection: the answered state has the axes of the last notified one, or of the state the run started in |
| RelayStates.UnmappedAnswersUnknown | src/proxy.rs:663-672 | In every run without a mapping, the answer is unknown on both axes |
| RelayStates.BoundaryIsLastTold | src/tracker.rs:120-212 | In every run, the state on the boundary is the last one told: by the upstream of itself once it declares (initializing before), else through a mapping, as a reading or as the starting state of a new selection (claiming nothing before) |
| RelayStates.IdentityExactly | src/proxy.rs:563-574 | In every run, the upstream counts as speaking the protocol iff it once declared so in its answer to the open `initialize`; its state is still to be asked for iff no `initialized` came since |
| RelayStates.QueriedExactly | src/proxy.rs:448-455 | In every run, the upstream is asked for its state exactly by the first `initialized` after that, and right after it |
| RelayStates.ReportedExactly | src/proxy.rs:656-661 | In every run, at every step: the client is told a state iff it last declared so, the upstream does not speak the protocol itself and the event moves an axis; and it is told that state |
| RelayStates.WhereReportsStand | src/proxy.rs:456-542 | A state moved by the upstream is told right after the message, before what it releases; one moved by the client is told last |
| RelayStates.ProgressTokenExactly | src/proxy.rs:504-513 | In every run, a request for a progress token is answered with null and not shown to the client, iff the last `initialize` did not declare that it shows progress; else it is passed on first |
| RelayStates.DifferenceIsToldExactly | src/proxy.rs:432-440 | In every run, a cross-workspace request is preceded by the difference of the watched files, once, iff there is one and lsp-det stands in for the client: it initialized without watching over a root, and has not told of changed files or initialized without a root since |
| RelayHandshake.HandshakeExactly | src/proxy.rs:515-591 | In every run, the handshake is done iff the open `initialize` was answered with a result, and the open one is the last that came unless it was answered with an error or the upstream went |
| RelayHandshake.SelectionExactly | src/tracker.rs:120-205 | In every run, the mapping is the one selected last, by the result or, while there is none, by an announcement; and the upstream is named but unknown iff such a result came while there was none |
| RelayHandshake.InitializeIsForwarded | src/proxy.rs:397-413 | An `initialize` goes upstream at once with the flags injected, and nothing else is written |
| Hearing.HeardIsLastAnswer | src/tracker.rs:93-212 | Under a mapping, the state lsp-det goes by is the last one the mapping answered, or the one it was selected with |
| Hearing.AnswerIsHeard | src/tracker.rs:208-212 | An answer is heard alike from either side, becomes the state, and is to be notified iff it differs on an axis |
| Documents.OpenDocuments.OnDidOpen | src/documents.rs:67-86 | A first open is kept as it is, a second is rewritten to a change of the whole text; the open set gains the uri |
| Documents.RewritingSimulatesReopening | src/documents.rs:67-94 | Over every stream: a strict server fed the rewritten stream never refuses an open, and holds the same text and version for each uri as a lenient server fed the raw stream |
| Documents.RawIsTakenExactly | src/documents.rs:1-8 | Over every raw stream: a strict server takes it iff no document is opened that was opened before and not closed since; then it holds what the lenient one holds |
| RelayDocuments.UpSharesArePassedOn | src/proxy.rs:324-480 | In every run, the upstream gets each client message that is no request once, in order and unaltered, but for the rewritten opens and the cancellations of held requests |
| RelayDocuments.DocumentsAreRewritten | src/proxy.rs:332-354 | In every run, the document notifications passed on are the rewritten stream of those the client sent, and the remembered uris are its open documents |
| RelayDocuments.StrictServerBehindTheRelay | src/proxy.rs:468-469 | So in every run a strict server behind the relay never refuses an open, and holds what a lenient one would hold that the client spoke to |
| Histories.FlooredIsGreatestSuffixSum | src/adapter/sorbet.rs:81-107 | A counter with a floor at zero is the greatest sum over all suffixes of its history |
| Gopls.GoplsAdapter.Observe | src/adapter/gopls.rs:131-194 | The fields and the answer after one progress notification |
| Openings.OpenIsGreatestExcess | src/adapter/expert.rs:106-125 | The number of open tokens, from a history of begins and ends, is the greatest excess of begins that a suffix has |
| Openings.ListIsStillBegun | src/adapter/expert.rs:106-125 | In a list where an end takes the oldest entry, the entries of each token carry the phases of its last begins, as many as are open |
| Openings.ListIsEmptyExactly | src/adapter/expert.rs:106-125 | The list is empty iff no token is open |
| Openings.EndedIsOldest | src/adapter/expert.rs:106-125 | The entry an end takes carries the phase of the begin with one less than the open number of begins of its token after it |
| Openings.TokensAreOpen | src/adapter/gopls.rs:131-194 | In a list of tokens alone, each is as often as it is open |
| Gopls.LoadingIsBegunNotEnded | src/adapter/gopls.rs:131-194 | In every history each token is in the list as often as loads of it are open, where an end of the open failure progress is no end of a load |
| Gopls.ReadinessFollowsLoads | src/adapter/gopls.rs:131-194 | Indexing exactly while a load is open, ready once one has begun and none is, initializing before |
| Gopls.FailureIsLastBegun | src/adapter/gopls.rs:131-194 | The failure progress is the last one begun and not ended; while it is open health is error |
| Gopls.FailureIsOfTheRound | src/adapter/gopls.rs:131-194 | A failed folder is remembered exactly for its round |
| Gopls.HealthExactly | src/adapter/gopls.rs:131-194 | Health at every moment, from the history: error from a failure progress or a round with a failed folder until the progress ends or a round ends well with none open, ok from then, unknown before |
| Gopls.HealthAtRoundEnd | src/adapter/gopls.rs:164-194 | At the end of a round health is error iff a folder failed in it or a failure progress is open, else ok |
| Gopls.AnswerIsState | src/adapter/gopls.rs:131-194 | In every history, an answer is the state after the event, and where there is none the state is as before |
| Gopls.HeardExactly | src/adapter/gopls.rs:131-194 | After every history, what the tracker makes of the answers: readiness, health and message as the history of loads and failures tells them |
| Sorbet.SorbetAdapter.Observe | src/adapter/sorbet.rs:81-107 | The fields and the answer after one operation |
| Sorbet.ReadyWhenAllOperationsEnded | src/adapter/sorbet.rs:81-107 | The counter is the greatest excess of starts over ends of a suffix; ready iff it is zero and a counted operation has started; health is never claimed |
| Sorbet.AnswerIsState | src/adapter/sorbet.rs:81-107 | In every history, an answer is the state after the event, and where there is none the state is as before |
| Sorbet.HeardExactly | src/adapter/sorbet.rs:81-107 | After every history, what the tracker makes of the answers: ready iff some operation started and none is open, else indexing once it has been ready, else initializing |
| Pyright.PyrightAdapter.Observe | src/adapter/pyright.rs:148-176 | The counters and the answer after one log line |
| Pyright.ReadyWhenAllEnumerated | src/adapter/pyright.rs:148-176 | In every history completions never exceed the started instances, ready iff they are equal and positive, health unknown |
| Pyright.CompletionExactly | src/adapter/pyright.rs:179-193 | A log tells of a completed enumeration iff it is the text for no files, or a count between its two parts, for one file or many |
| Pyright.AnswerIsState | src/adapter/pyright.rs:148-176 | In every history, an answer is the state after the event, and where there is none the state is as before |
| Pyright.HeardExactly | src/adapter/pyright.rs:148-176 | After every history of logs, what the tracker makes of the answers: ready iff all enumerations are completed, counted between zero and the instances; else indexing once they have been or one started for an instance, else initializing |
| Expert.ExpertAdapter.Observe | src/adapter/expert.rs:106-125 | The fields and the answer after one progress notification |
| Expert.OpenIsBegunNotEnded | src/adapter/expert.rs:106-125 | The entries of each token are its last begins, as many as the ends leave open, with the phases they announced |
| Expert.ReadyAfterIndexing | src/adapter/expert.rs:106-125 | Ready iff no phase is open and the one that ended last was announced as an index phase, all told by the history |
| Expert.AnswerIsState | src/adapter/expert.rs:106-125 | In every history, an answer is the state after the event, and where there is none the state is as before |
| Expert.HeardExactly | src/adapter/expert.rs:106-125 | After every history, what the tracker makes of the answers: ready as above, else indexing once a phase began, else initializing; health unknown |
| Haxe.HaxeLanguageServerAdapter.ObserveProgress | src/adapter/haxe_language_server.rs:116-141 | The fields and the answer after one progress notification |
| Haxe.OpenIsBegunNotEnded | src/adapter/haxe_language_server.rs:116-141 | Each token is in the list as often as startup phases of it are begun and not ended |
| Haxe.ReadyExactly | src/adapter/haxe_language_server.rs:116-141 | Ready iff a startup phase has begun and none is open |
| Haxe.HealthIsLastReported | src/adapter/haxe_language_server.rs:143-175 | Health is what was reported last, whatever the progress |
| Haxe.AnswerIsState | src/adapter/haxe_language_server.rs:116-175 | In every history, an answer is the state after the event, and where there is none the state is as before |
| Haxe.HeardExactly | src/adapter/haxe_language_server.rs:116-175 | After every history, what the tracker makes of the answers: ready as above, else indexing once it has been ready, else initializing; health and message as reported last |
| Nil.NilAdapter.ObserveProgress | src/adapter/nil.rs:193-224 | The fields and the answer after one progress notification |
| Nil.OpenIsBegunNotEnded | src/adapter/nil.rs:193-224 | Each known token is in the list as often as it is begun and not ended |
| Nil.ReadinessExactly | src/adapter/nil.rs:193-281 | Readiness as a function of the history of progress, shown messages and workspace folders |
| Nil.UnknownWhileLoading | src/tracker.rs:69-76 | A known token begins, then a second `initialize` tells folders without the lock: the token is open and readiness unknown |
| Nil.HealthIsLastTold | src/adapter/nil.rs:193-250 | Health is error, warning or ok by the last shown error, shown warning or begin, and unknown before any |
| Nil.AnswerIsState | src/adapter/nil.rs:193-281 | In every history, an answer is the state after the event, and where there is none the state is as before, except that folders without the lock make readiness unknown and are not answered |
| Nil.HeardExactly | src/adapter/nil.rs:193-281 | After every history, the tracker holds nil's health and message; and nil's readiness iff no folders without the lock were learned again, when it was not unknown, since the last answer |
| Nil.TheDoubtIsNotTold | src/tracker.rs:69-76 | A history after which the tracker holds indexing and nil's readiness is unknown |
| Metals.MetalsAdapter.ObserveProgress | src/adapter/metals.rs:154-181 | The fields and the answer after one progress notification |
| Metals.MetalsAdapter.ObserveWatched | src/adapter/metals.rs:252-296 | The fields and the answer after watched-file changes |
| Metals.OpenIsBegunNotEnded | src/adapter/metals.rs:154-181 | The entries of each token are its last begins, as many as the ends leave open, with the phases they announced |
| Metals.ImportIsRemembered | src/adapter/metals.rs:154-181 | The build counts as imported iff a phase announced as Indexing has ended and no build change was told since the last such end |
| Metals.ReadyExactly | src/adapter/metals.rs:154-296 | Ready iff no phase is open, the one that ended last was announced as Indexing, or as Compiling of an imported build, and no change was told since that end, all told by the history |
| Metals.HealthIsLastTold | src/adapter/metals.rs:183-204 | Health is what the last status told, unknown before any |
| Metals.ClassifiedExactly | src/adapter/metals.rs:103-120 | Which changes are of the build and which of a source, by the name of the file and the kind of change |
| Metals.AnswerIsState | src/adapter/metals.rs:154-296 | In every history, an answer is the state after the event, and where there is none the state is as before |
| Metals.HeardExactly | src/adapter/metals.rs:154-296 | After every history, what the tracker makes of the answers: ready as above, else indexing once a phase began, else initializing; health and message as the last status told |
| Nextflow.VisitFolders | src/adapter/nextflow.rs:117-143 | The walk, entry by entry, collects the scripts of all folders |
| Nextflow.ScriptsAreUnexcluded | src/adapter/nextflow.rs:108-135 | Below a folder it finds exactly the `.nf` entries with no excluded path from the folder down |
| Nextflow.WorkspaceScriptsAreUnexcluded | src/adapter/nextflow.rs:137-143 | The same for all folders of the workspace |
| Nextflow.NextflowAdapter.ObserveProgress | src/adapter/nextflow.rs:207-221 | The fields and the answer after one progress notification |
| Nextflow.NextflowAdapter.ObserveWatchedFiles | src/adapter/nextflow.rs:253-264 | The fields and the answer after watched-file changes |
| Nextflow.ReadinessIsOfTheBookkeeping | src/adapter/nextflow.rs:183-201 | In every history the stored readiness is the one the bookkeeping gives |
| Nextflow.ExpectedIsFoundNotCleared | src/adapter/nextflow.rs:207-264 | A script is expected iff the last walk found it and it was neither diagnosed outside the token nor deleted since |
| Nextflow.PendingIsTouchedNotCleared | src/adapter/nextflow.rs:223-264 | A document is pending iff it was touched below a folder and neither diagnosed outside the token nor deleted since |
| Nextflow.ReadyExactly | src/adapter/nextflow.rs:183-264 | Ready iff no token is open, one has ended, and nothing found or touched is uncleared, all told by the history |
| Nextflow.AnswerIsState | src/adapter/nextflow.rs:183-264 | In every history, an answer is the state after the event, and where there is none the state is as before |
| Nextflow.HeardExactly | src/adapter/nextflow.rs:183-264 | After every history, what the tracker makes of the answers: initializing while a token is open, none has ended or a script is uncleared; else indexing while a touched document is; else ready; health unknown |
| Nextflow.ExcludedExactly | src/adapter/nextflow.rs:108-114 | A path is excluded iff its last names are those of a configured pattern |
| FileTrees.JoinIsOneMore | src/adapter/nextflow.rs:117-135 | The path of an entry is that of its directory with one more name, however the directory is written |
| FileTrees.SameDirectory | src/adapter/nextflow.rs:154-161 | Paths compare by their names: a slash, or a slash and a dot, after one changes nothing |
| FileTrees.AbsoluteIsKept | src/adapter/nextflow.rs:154-161 | A slash before a path makes it absolute and keeps its names |
| TypescriptServers.TypescriptAdapter.LayoutBrokenBy | src/adapter/typescript_language_server.rs:179-217 | Each layout with a told configuration change is read again, the others are kept; broken iff the rest is incomplete or a created source is outside |
| TypescriptServers.TypescriptAdapter.ObserveProgress | src/adapter/typescript_language_server.rs:219-247 | The fields and the answer after one progress notification |
| TypescriptPromises.PromiseExactly | src/adapter/typescript_language_server.rs:179-325 | From a declared complete layout, over every run at whose end all changes of the folder have been told: the promise is withdrawn and readiness unknown, or the folder as it is now is complete iff telling again what was told while an untested version stood, as far as it is still there, would not withdraw it |
| TypescriptPromises.PromiseHolds | src/adapter/typescript_language_server.rs:179-295 | With the tested version kept, such a run withdraws the promise, or a full re-read of the folder as it is now gives the stored layout and calls it complete |
| TypescriptPromises.AnUntestedVersionHidesASource | src/adapter/typescript_language_server.rs:285-325 | A run of three messages after which coverage is declared with the same fields and a full re-read calls the folder incomplete |
| TypescriptPromises.AddedFolderIsHeard | src/adapter/typescript_language_server.rs:210-216 | A folder told as added withdraws the promise unless an untested version stands then |
| TypescriptPromises.NewSourceBreaksExactly | src/adapter/typescript_layout.rs:93-111 | One new source, told as created, withdraws the promise iff the full re-read no longer calls the folder complete |
| TypescriptPromises.WithdrawnForever | src/adapter/typescript_language_server.rs:285-295 | Once withdrawn, readiness is unknown after every further run |
| TypescriptPromises.UntestedVersionHidesChanges | src/adapter/typescript_language_server.rs:285-325 | While an untested version stands nothing is withdrawn, whatever is told, and a tested one restores the very same fields |
| TypescriptServers.LoadingIsBegunNotEnded | src/adapter/typescript_language_server.rs:219-247 | Each token is in the list as often as project loads of it are begun and not ended |
| TypescriptServers.ReadinessExactly | src/adapter/typescript_language_server.rs:219-295 | Unknown once withdrawn; else indexing while a load is open, ready once one has begun and none is |
| TypescriptServers.ErrorOnceExited | src/adapter/typescript_language_server.rs:249-256 | Health is error exactly from the first exit of tsserver on |
| TypescriptServers.HealthExactly | src/adapter/typescript_language_server.rs:219-256 | Health is error from the first exit on, before it ok once a round of loads has ended, else unknown |
| TypescriptServers.AnswerIsState | src/adapter/typescript_language_server.rs:219-256 | In every history, an answer is the state after the event, and where there is none the state is as before |
| TypescriptServers.HeardExactly | src/adapter/typescript_language_server.rs:219-256 | After every history, what the tracker makes of the answers: readiness, health and message as the history tells them |
| TypescriptCoverage.CoverageExactly | src/adapter/typescript_language_server.rs:172-174 | Coverage is declared iff the version is the tested one and there is a single folder, which its settings make complete |
| TypescriptCoverage.WithdrawnExactly | src/adapter/typescript_language_server.rs:179-295 | In every history, readiness is unknown iff an event broke the declared coverage: a folder added, a layout that is no longer complete when read again, or a created source that it refuses |
| TypescriptCoverage.VersionIsLastTold | src/adapter/typescript_language_server.rs:309-325 | In every history, whether the version counts as tested is told by the last one announced |
| Patterns.NormalizeEntry | src/adapter/typescript_layout.rs:294-300 | An entry without white space around it and without leading `./` |
| Patterns.WildcardIsSpelling | src/adapter/typescript_layout.rs:362-369 | A name matches iff it falls into one block for each byte of the pattern: anything for a star, one byte for a question mark, the byte itself otherwise |
| Patterns.MatchesIsCovering | src/adapter/typescript_layout.rs:335-346 | A path matches iff it falls into one block for each segment: a run of undotted directories for `**`, one matching name otherwise |
| Patterns.SegmentExactly | src/adapter/typescript_layout.rs:348-360 | A name matches a segment without wildcards iff it is that; one with wildcards iff it is spelled by it, not dotted, and not minified unless the segment says so or has no star |
| Patterns.DoubleStarIsIdempotent | src/adapter/typescript_layout.rs:335-346 | `**/**` anywhere in a pattern matches the same paths as `**` |
| Patterns.CompileSlashed | src/adapter/typescript_layout.rs:304-323 | What plain segments compile to |
| Patterns.CompileAgain | src/adapter/typescript_layout.rs:304-323 | Compiling a compiled pattern changes nothing |
| Patterns.DirectoryTakesInEligible | src/adapter/typescript_layout.rs:318-369 | A directory entry takes in exactly the files below it with no dotted directory on the way and a name neither dotted nor minified |
| Patterns.ExcludesEverythingBeneath | src/adapter/typescript_layout.rs:275-278 | What an exclude pattern matches, it excludes with everything beneath |
| Patterns.DirectoryExcludesEligible | src/adapter/typescript_layout.rs:275-323 | A directory entry excludes a path iff some name below the directory is eligible and no dotted one comes before it |
| Patterns.GenDoesNotExcludeCache | src/adapter/typescript_layout.rs:275-323 | The entry `gen` does not exclude `gen/.cache/a.ts` |
| Jsoncs.PiecesRender | src/adapter/typescript_layout.rs:373-422 | The pieces a text is read into (characters, strings, comments) are well formed and write the text |
| Jsoncs.RenderedPieces | src/adapter/typescript_layout.rs:373-422 | A text written from well-formed pieces is read into those pieces and no others |
| Jsoncs.UnreadableIsUnclosed | src/adapter/typescript_layout.rs:401-416 | There is no result iff a block comment outside strings and comments never closes |
| Jsoncs.StripJsonc | src/adapter/typescript_layout.rs:373-422 | Both passes, for every text: the pieces with each block comment a space, each line comment its newline, and no comma with a closing bracket next, strings untouched |
| Jsoncs.RemoveTrailingCommas | src/adapter/typescript_layout.rs:425-454 | The second pass, character by character |
| Jsoncs.CommasOfClean | src/adapter/typescript_layout.rs:425-454 | The second pass drops exactly the commas whose next visible piece is a closing bracket |
| Jsoncs.StrippedPieces | src/adapter/typescript_layout.rs:373-454 | What any text written from pieces is stripped to; a text without decorations is unchanged |
| Jsoncs.DecorationIsUndone | src/adapter/typescript_layout.rs:371-454 | Comments in any gap and one trailing comma for each closing bracket are undone: the visible pieces left are those of the undecorated text |
| Jsoncs.FinalIsReadable | src/adapter/typescript_layout.rs:371-454 | The pieces left are read back from the text that is left |
| Jsoncs.StrippedTextIsUndecorated | src/adapter/typescript_layout.rs:371-454 | The text left of a decorated text reads into the visible pieces of the undecorated text |
| Layouts.CollectFiles | src/adapter/typescript_layout.rs:166-197 | The walk with its early exits, entry by entry |
| Layouts.WalkFinds | src/adapter/typescript_layout.rs:166-197 | The listing holds exactly the configuration files and the sources with no skipped directory on the way |
| Layouts.ConfigsAreDistinct | src/adapter/typescript_layout.rs:166-197 | No configuration file is listed twice |
| Layouts.ReadFolder | src/adapter/typescript_layout.rs:113-162 | The assessment of a folder, with every reason to call it incomplete |
| Layouts.CompleteExactly | src/adapter/typescript_layout.rs:113-162 | Complete iff the folder can be walked, its only configuration file is at the root, can be read without `extends`, and takes in every source |
| Layouts.OutsideIsNotHad | src/adapter/typescript_layout.rs:93-106 | The cheap check refuses a source of the folder iff the project does not take it in |
| Layouts.ReassessedAfterSources | src/adapter/typescript_layout.rs:93-162 | With the same configuration files, a full re-read of a complete folder gives the layout as before, complete iff the cheap check refuses none of the new sources |
| Layouts.ConfigFolderIsComplete | src/adapter/typescript_layout.rs:113-162 | A folder with nothing but a `tsconfig.json` that reads as `{}` is complete |
| Layouts.EmptyScope | src/adapter/typescript_layout.rs:219-261 | What the configuration `{}` is read as |
| Layouts.EverythingButBelow | src/adapter/typescript_layout.rs:264-279 | Which sources that takes in: no dotted directory, a name neither dotted nor minified, not below a package directory |
| LayoutSettings.NormalizedExactly | src/adapter/typescript_layout.rs:294-300 | What is left of an entry is exactly it without white space around it and `./` before it, any number of times |
| LayoutSettings.CompileExactly | src/adapter/typescript_layout.rs:304-323 | An entry has a pattern iff it is relative and has no backslash and no `..`; the pattern is the names between its slashes, and everything below when the last has neither wildcard nor dot |
| LayoutSettings.ScopeExactly | src/adapter/typescript_layout.rs:217-292 | For all settings: they are read iff the three lists, their patterns and, where it counts, `outDir` are readable; and then a source is taken in iff `files` lists it, or `include` covers it (everything undotted and unminified without `include` and `files`) and `exclude` (the package directories and `outDir` without it) covers neither it nor a directory on the way |
| LayoutSettings.FilesAlone | src/adapter/typescript_layout.rs:236-242 | With `files` and without `include`, exactly the listed names are taken in |
| LayoutSettings.AllowJsExactly | src/adapter/typescript_layout.rs:140-147 | JavaScript is taken in as `allowJs` says, without it iff the configuration is a `jsconfig.json`; any other value is unreadable |
| LayoutSettings.WalkExactly | src/adapter/typescript_layout.rs:166-197 | The walk gives nothing iff an entry of unreadable kind or a directory that cannot be listed lies below no skipped directory |
| LayoutSettings.SourceExactly | src/adapter/typescript_layout.rs:211-215 | Which names are of sources: something, a dot and one of the eight extensions |
| LayoutSettings.CompleteBySettings | src/adapter/typescript_layout.rs:113-162 | A folder is complete iff nothing stops the walk and its only configuration is at the root, is readable, does not extend another, and takes in every source, all told by the files and the entries of the JSON |
| LayoutSettings.ConfigChangeExactly | src/adapter/typescript_layout.rs:70-90 | A path calls for reading the folder again iff it is a configuration file inside it |
| LayoutSettings.RefusedExactly | src/adapter/typescript_layout.rs:93-111 | Against a complete folder, a path is refused iff it is inside, named like a source, and the settings do not take it in |
| Initializes.BlockedByAParent | src/initialize.rs:236-252 | A flag is blocked iff a value strictly above the leaf is no object |
| Initializes.LeafIsSet | src/initialize.rs:236-260 | A flag that is not blocked is true afterwards; a blocked one changes nothing |
| Initializes.OthersAreKept | src/initialize.rs:236-260 | Whatever is neither above nor within the leaf is as it was |
| Initializes.ParentsKeepKeys | src/initialize.rs:236-260 | Each parent is an object with its keys as before and the one on the path |
| Initializes.SetTrueCommutes | src/initialize.rs:236-260 | Two flags in either order give the same tree, for all paths |
| Initializes.OrderDoesNotMatter | src/initialize.rs:222-226 | Any order of the flags gives the same tree |
| Initializes.InjectClientCapabilities | src/initialize.rs:211-232 | The loop over the flags; no body iff nothing can or need be changed |
| Initializes.InjectedOnce | src/initialize.rs:205-232 | A second injection gives no body |
| Initializes.InjectInitializationOptions | src/initialize.rs:273-302 | The loop over the options; no body iff none has to be changed when its turn comes |
| Initializes.OptionsInjectedOnce | src/initialize.rs:273-302 | A second injection gives no body iff no key is asked for with both values |
| InitializeBodies.NoBodyExactly | src/initialize.rs:211-232 | There is no new body iff `params` is no object, `params.capabilities` is there and is none, or each flag reads true already or has a value above it that is no object |
| InitializeBodies.BodyIsKept | src/initialize.rs:211-232 | In the new body, every key path neither within nor above `params.capabilities` reads as before, and above it the keys are as before |
| InitializeBodies.LeafReadsTrue | src/initialize.rs:211-260 | Each injected flag reads true at its place in the body, iff it is not blocked by a value above it that is no object or by a flag above it |
| InitializeBodies.OtherLeavesAreKept | src/initialize.rs:211-260 | Every other place below `params.capabilities`, neither within nor above a flag that is not blocked, reads as before |
| InitializeBodies.NoOptionsExactly | src/initialize.rs:273-302 | There is no new body iff `params` is no object, the options are there and are none, or each reads as asked for |
| InitializeBodies.OptionsExactly | src/initialize.rs:273-302 | In the new body, each key asked for has the last value asked for it, and everything else reads as before, within the options and outside |
| Initializes.OutcomeExactly | src/initialize.rs:154-204 | Each outcome of the declaration by what the upstream's answer holds |
| Initializes.DeclaredOnlyAdds | src/initialize.rs:154-198 | The declaration is added, everything off its path is as it was, and the answer then counts as one whose upstream declares |
| WatchedFiles.Scan | src/watched_files.rs:97-108 | None iff a root cannot be listed; else exactly the paths with a time, each with the time of its last entry that has one |
| WatchedFiles.StandIn.ChangesSinceLastScan | src/watched_files.rs:67-94 | Each changed path once with its kind; nothing is sent iff the listing is the same or the scan failed, which keeps the old listing |
| WatchedFiles.DifferenceExactly | src/watched_files.rs:67-94 | A path is sent as created (1), changed (2) or deleted (3) iff it is only in the later listing, in both with different times, or only in the earlier |
| WatchedFiles.FoldIsNext | src/watched_files.rs:67-94 | A notification turns the paths of one listing into those of the next |
| WatchedFiles.AllSentIsLastListing | src/watched_files.rs:67-108 | For every run with failing scans: all that was sent turns the first listing's paths into those of the last successful scan |
| Framings.Reader.ReadHeader | src/framing.rs:46-87 | The loop over header lines, with each error |
| Framings.Reader.ReadMessage | src/framing.rs:31-40 | A message, a clean end, or an error, and what remains |
| Framings.Writer.WriteMessage | src/framing.rs:90-94 | The framed body is appended |
| Framings.ParseOfDecimal | src/framing.rs:74-78 | The printed length is parsed back |
| Framings.MessageOfFrame | src/framing.rs:31-94 | A written message is read back, and nothing beyond it |
| Framings.StreamIsReadBack | src/framing.rs:31-94 | Any list of written messages is read back, then the stream ends cleanly |
| Framings.TruncatedIsAnError | src/framing.rs:42-60 | A message cut short anywhere is an error, neither a message nor a clean end |
| FramingHeaders.SizeExactly | src/framing.rs:75-79 | A length is read from its decimal digits, with zeros and one plus sign before them if any, below 2^64; and from nothing else |
| FramingHeaders.MessageUnderHeader | src/framing.rs:31-87 | Whatever other lines stand beside it, in any order and letter case, the last Content-Length gives the body |
| FramingHeaders.MissingLength | src/framing.rs:46-87 | A header without Content-Length is an error, after the whole header |
| FramingHeaders.BadLength | src/framing.rs:75-79 | The first Content-Length that is no size is an error that names it |
| FramingHeaders.NoSeparatorIsAnError | src/framing.rs:71-73 | A line without a colon and a space is an error that names it |
| Uris.PathToUri | src/uri.rs:11-31 | The scheme and the encoded path, rooted |
| Uris.PercentDecode | src/uri.rs:59-76 | The decoder's loop |
| Uris.DecodedEncoded | src/uri.rs:11-76 | Decoding undoes encoding and cuts no character |
| Uris.UriOfPathLeadsBack | src/uri.rs:11-53 | The URI of a path leads back to it |
| Uris.SpelledIsDecoded | src/uri.rs:59-76 | However the bytes of a path are spelled, as they are or with two digits of either case, they are decoded to the path |
| Uris.EncodedExactly | src/uri.rs:11-31 | Of all spellings, the URI has the one that keeps exactly the allowed bytes and spells the others with upper-case digits |
| Uris.PathExactly | src/uri.rs:34-53 | A URI has a path iff it is of the scheme, without a host, and cuts no character; the path is what the rest stands for |
| Uris.UrisAreDistinct | src/uri.rs:11-31 | Two absolute paths with the same URI are the same |
| Uris.EncodedIsUriText | src/uri.rs:55-57 | Only the characters that sections 2.1 and 2.3 of RFC 3986 allow, slashes and colons are in a URI |
| Uris.PlainExactly | src/uri.rs:59-76 | The decoder gives what two hexadecimal digits stand for iff no percent sign is followed by a plus sign and a digit |
| Uris.PlusSignIsDecoded | src/uri.rs:63-70 | An instance: a plus sign and a digit are decoded to one byte |
| Uris.CutsExactly | src/uri.rs:63-66 | The decoder cuts a character iff somewhere in the text one goes on right after a percent sign or two bytes later |
| Uris.AsciiIsNeverCut | src/uri.rs:63-66 | A text of single-byte characters is never cut |
| Uris.AccentIsCut | src/uri.rs:63-66 | An instance: a valid text that is cut, so that there is no path |

## Left out

- Processes, threads, channels, polling and signals (src/main.rs, src/process): operating-system calls. The event loop is any sequence of events; its end without the upstream being gone just stops it.
- The client closing its side (src/proxy.rs:49-128): the loop ends and held requests are dropped with the connection.
- Logging and time: no decision depends on them.
- serde: messages are parsed, JSON trees are compared and edited as values. That the program edits a tree through references is not captured; each edit has the value it leaves.
- Number kinds in JSON: a number is its text, and is only compared.
- The other mappings (clangd, Dart, Gleam, crystalline, nixd, rust-analyzer, jdtls, HLS): tables, or instances of the shapes proved here.
- Tables of tested versions, reading a name or a version from a log line, and what `guarantees` answers: constants and single tests. The relay takes a name as announced.
- The JSON of Metals' status messages: they enter with their level and text.
- The widths of counters (`u32`, `usize`), except the 64 bits of a Content-Length.
- Running `git ls-files` and reading times: a listing per root that may fail. The order of the changes in one notification is not fixed by the model.
- Windows paths, paths that are not UTF-8, and links on the way to a folder. A path's text is compared by its components, with `.` and doubled slashes dropped.
- The JSON parser of the layout reader: an arbitrary function of the stripped text, the same at every reading.
- The folder changing while it is read: one reading sees one tree. `TypescriptPromises.PromiseExactly` takes the tree at each message as the one a reading would see then, and that a folder has no name twice and no entry named `..`.
- `String::from_utf8_lossy` after percent-decoding, and a body length too large to allocate.
- Framings.Reader.ReadMessage: a stream read in pieces is one sequence of bytes, so waiting for more input is not modelled.
- Initializes.LeafIsSet: a dot-separated path is the list of its keys.
