/** The relay between the client and the upstream language server (src/proxy.rs): what one
    message does to the state, and what is written to either side because of it. */
module Relaying {
  import opened Wrappers
  import opened ServerStates
  import opened Messages
  import opened Documents
  import opened Gates
  import opened Tracking

  /** One write. `own` marks what lsp-det itself says, as opposed to a message it passes on
      (possibly rewritten, possibly after holding it); the wire does not carry the mark. */
  datatype Out = ToClient(msg: Message, own: bool) | ToUpstream(msg: Message, own: bool)

  /** What code outside this model answers while a message is processed: the mapping's reading,
      the identity in an upstream message, the difference of the watched files, and whether some
      root can be listed. */
  datatype Environment = Environment(
    reading: Option<ServerState>,
    who: Option<Announcement>,
    difference: Option<Message>,
    usableRoots: bool)

  datatype Event =
    | FromClient(msg: Message, env: Environment)
    | FromUpstream(msg: Message, env: Environment)
    /** The upstream's output closed, or its process ended. */
    | UpstreamGone

  datatype Relay = Relay(
    tracked: Tracked,
    queue: Queue,
    clientDeclared: bool,
    clientDeclaredProgress: bool,
    initializeId: Option<RequestId>,
    handshakeDone: bool,
    identity: bool,
    identityState: ServerState,
    identityQueryPending: bool,
    watching: bool,
    uris: set<string>)
  {
    /** The state on the boundary: all the downstream side looks at. */
    function Boundary(): ServerState {
      if identity then identityState else tracked.state
    }

    ghost predicate Valid() {
      && tracked.Valid()
      && (if identity then handshakeDone else identityState == INITIALIZING)
    }
  }

  const START := Relay(UNTRACKED, Queue([], false), false, false, None, false, false, INITIALIZING, false, false, {})

  const SELF_STATE_REQUEST := Request(SELF_STATE_REQUEST_ID, ServerStateRequest, Null)

  function ChangedNotification(state: ServerState): Message {
    Notification(ServerStateChanged, State(state))
  }

  function InitializeFailed(id: RequestId): Message {
    ErrorResponse(id, INTERNAL_ERROR, ExitedBeforeInitialize)
  }

  function AllToClient(msgs: seq<Message>, own: bool): seq<Out> {
    seq(|msgs|, i requires 0 <= i < |msgs| => ToClient(msgs[i], own))
  }

  function AllToUpstream(msgs: seq<Message>, own: bool): seq<Out> {
    seq(|msgs|, i requires 0 <= i < |msgs| => ToUpstream(msgs[i], own))
  }

  /** The gate re-evaluates what it holds on a state change. */
  function Releases(q: Queue, state: ServerState): (Queue, seq<Out>) {
    match VerdictOf(state)
    case Hold => (q, [])
    case Forward => (q.(held := []), AllToUpstream(HeldMessages(q.held), false))
    case Reject =>
      (q.(held := []), AllToClient(Answers(q.held, REQUEST_FAILED, HealthIsError(state.message)), true))
  }

  /** Not sent to a client that did not declare, nor under the identity mapping, where the
      upstream is the sender. */
  function Notify(clientDeclared: bool, identity: bool, state: ServerState): seq<Out> {
    if !clientDeclared || identity then [] else [ToClient(ChangedNotification(state), true)]
  }

  // --- Client to upstream ---------------------------------------------------------------

  /** A notification observed by the mapping: forwarded first, the predicted change conveyed
      after it. `sent` stands for `msg`. */
  function OnNotification(r: Relay, sent: Message, env: Environment): (Relay, seq<Out>) {
    var (tracked, predicted) := if r.identity then (r.tracked, None) else ObserveClient(r.tracked, env.reading);
    var r := r.(tracked := tracked);
    match predicted
    case None => (r, [ToUpstream(sent, false)])
    case Some(state) =>
      var (queue, released) := Releases(r.queue, state);
      (r.(queue := queue), [ToUpstream(sent, false)] + released + Notify(r.clientDeclared, r.identity, state))
  }

  function OnInitialize(r: Relay, msg: Message, env: Environment): (Relay, seq<Out>)
    requires msg.Request?
  {
    var p := msg.payload;
    var declares := p.InitializeParams? && p.declaresState;
    (r.(initializeId := Some(msg.id),
        watching := if p.InitializeParams? && p.declaresWatchedFiles then r.watching else env.usableRoots,
        clientDeclared := declares,
        clientDeclaredProgress := p.InitializeParams? && p.declaresProgress,
        queue := r.queue.(clientDecides := declares)),
     [ToUpstream(Request(msg.id, msg.name, Injected(p)), false)])
  }

  function OnCancel(r: Relay, msg: Message, id: RequestId): (Relay, seq<Out>) {
    var i := Position(r.queue.held, id);
    if i == |r.queue.held| then (r, [ToUpstream(msg, false)])
    else (r.(queue := r.queue.(held := r.queue.held[..i] + r.queue.held[i + 1..])), [ToClient(Cancelled(id), true)])
  }

  function DecisionOuts(decision: Decision): seq<Out> {
    match decision
    case Forwarded(m) => [ToUpstream(m, false)]
    case Held => []
    case Rejected(response) => [ToClient(response, true)]
  }

  /** Before a cross-workspace request, the upstream is told what changed on disk. */
  function ToldFirst(r: Relay, msg: Message, env: Environment): seq<Out>
    requires msg.Request?
  {
    if IsCrossWorkspace(msg.name) && r.watching && env.difference.Some?
    then [ToUpstream(env.difference.value, true)] else []
  }

  function OnOtherRequest(r: Relay, msg: Message, env: Environment): (Relay, seq<Out>)
    requires msg.Request?
  {
    var (queue, decision) := Decide(r.queue, msg, msg.id, msg.name, r.Boundary());
    (r.(queue := queue), ToldFirst(r, msg, env) + DecisionOuts(decision))
  }

  function OnShutdown(r: Relay, msg: Message): (Relay, seq<Out>) {
    (r.(queue := r.queue.(held := [])),
     AllToClient(Answers(r.queue.held, REQUEST_FAILED, ShutdownWhileWaiting), true) + [ToUpstream(msg, false)])
  }

  function OnClientRequest(r: Relay, msg: Message, env: Environment): (Relay, seq<Out>)
    requires msg.Request?
  {
    if msg.name == ServerStateRequest then
      (r, if r.identity then [ToUpstream(msg, false)] else [ToClient(Response(msg.id, State(r.tracked.state)), true)])
    else if msg.name == Initialize then OnInitialize(r, msg, env)
    else if msg.name == Shutdown then OnShutdown(r, msg)
    else OnOtherRequest(r, msg, env)
  }

  function OnInitialized(r: Relay, msg: Message): (Relay, seq<Out>) {
    (r.(identityQueryPending := false),
     [ToUpstream(msg, false)] + if r.identityQueryPending then [ToUpstream(SELF_STATE_REQUEST, true)] else [])
  }

  /** The documents and the watched files follow a notification before it is passed on. */
  function Noted(r: Relay, msg: Message): Relay
    requires msg.Notification?
  {
    r.(uris := Observed(r.uris, msg), watching := r.watching && msg.name != DidChangeWatchedFiles)
  }

  function OnClientNotification(r: Relay, msg: Message, env: Environment): (Relay, seq<Out>)
    requires msg.Notification?
  {
    if msg.name == Initialized then OnInitialized(r, msg)
    else if msg.name == CancelRequest then
      if msg.payload.CancelParams? then OnCancel(r, msg, msg.payload.target) else (r, [ToUpstream(msg, false)])
    else OnNotification(Noted(r, msg), Documents.Forwarded(r.uris, msg), env)
  }

  function OnClient(r: Relay, msg: Message, env: Environment): (Relay, seq<Out>) {
    if msg.Request? then OnClientRequest(r, msg, env)
    else if msg.Notification? then OnClientNotification(r, msg, env)
    else (r, [ToUpstream(msg, false)])
  }

  // --- Upstream to client ---------------------------------------------------------------

  function Action(p: Payload): InitializeAction {
    if p.InitializeResult? then p.action else NotASuccess
  }

  /** An error response carries no `serverInfo`. */
  function NamedBy(p: Payload, env: Environment): Option<Announcement> {
    if Action(p) == NotASuccess then None else env.who
  }

  predicate AnswersInitialize(r: Relay, msg: Message) {
    !r.handshakeDone && msg.Response? && r.initializeId == Some(msg.id)
  }

  function OnInitializeResult(r: Relay, msg: Message, env: Environment): (Relay, seq<Out>)
    requires msg.Response?
  {
    var r := r.(tracked := SelectMapping(r.tracked, NamedBy(msg.payload, env)).0);
    match Action(msg.payload)
    case NotASuccess => (r.(initializeId := None), [ToClient(msg, false)])
    case UpstreamDeclares =>
      (r.(handshakeDone := true, identity := true, identityQueryPending := true), [ToClient(msg, false)])
    case Unrewritable => (r.(handshakeDone := true), [ToClient(msg, false)])
    case Rewritable => (r.(handshakeDone := true), [ToClient(Response(msg.id, Declaring(msg.payload)), false)])
  }

  function AdoptIdentityState(r: Relay, state: ServerState): (Relay, seq<Out>) {
    var (queue, released) := Releases(r.queue, state);
    (r.(identityState := state, queue := queue), released)
  }

  function OnUpstreamUnderIdentity(r: Relay, msg: Message): (Relay, seq<Out>) {
    if msg.Response? && msg.id == SELF_STATE_REQUEST_ID then
      AdoptIdentityState(r, if msg.payload.State? then msg.payload.state else UNOBSERVED)
    else if msg.Notification? && msg.name == ServerStateChanged then
      var passed := if r.clientDeclared then [ToClient(msg, false)] else [];
      if msg.payload.State? then
        var (r', released) := AdoptIdentityState(r, msg.payload.state);
        (r', passed + released)
      else (r, passed)
    else (r, [ToClient(msg, false)])
  }

  /** A message the mapping observes: passed on first, the change conveyed after it. */
  function OnObserved(r: Relay, msg: Message, env: Environment): (Relay, seq<Out>) {
    var (tracked, changed) := ObserveUpstream(r.tracked, env.who, env.reading);
    var r := r.(tracked := tracked);
    match changed
    case None => (r, [ToClient(msg, false)])
    case Some(state) =>
      var (queue, released) := Releases(r.queue, state);
      (r.(queue := queue), [ToClient(msg, false)] + Notify(r.clientDeclared, r.identity, state) + released)
  }

  predicate SkipsPeek(r: Relay) {
    r.handshakeDone && !r.identity && !r.tracked.mapped && r.tracked.namedButUnknown && r.clientDeclaredProgress
  }

  predicate AsksForProgress(r: Relay, msg: Message) {
    msg.Request? && msg.name == WorkDoneProgressCreate && !r.clientDeclaredProgress
  }

  function OnUpstream(r: Relay, msg: Message, env: Environment): (Relay, seq<Out>) {
    if SkipsPeek(r) || msg.Unreadable? then (r, [ToClient(msg, false)])
    else if AsksForProgress(r, msg) then (r, [ToUpstream(Response(msg.id, Null), true)])
    else if AnswersInitialize(r, msg) then OnInitializeResult(r, msg, env)
    else if r.identity then OnUpstreamUnderIdentity(r, msg)
    else OnObserved(r, msg, env)
  }

  /** The answer to an `initialize` the upstream left open. */
  function FailPendingInitialize(r: Relay): seq<Out> {
    if r.handshakeDone || r.initializeId.None? then [] else [ToClient(InitializeFailed(r.initializeId.value), true)]
  }

  /** The upstream disappeared: everything unanswered is answered with an error. */
  function ClosePending(r: Relay): (Relay, seq<Out>) {
    (r.(initializeId := if r.handshakeDone then r.initializeId else None, queue := r.queue.(held := [])),
     FailPendingInitialize(r) + AllToClient(Answers(r.queue.held, INTERNAL_ERROR, ExitedWhileWaiting), true))
  }

  function Step(r: Relay, e: Event): (Relay, seq<Out>) {
    match e
    case FromClient(msg, env) => OnClient(r, msg, env)
    case FromUpstream(msg, env) => OnUpstream(r, msg, env)
    case UpstreamGone => ClosePending(r)
  }
}
