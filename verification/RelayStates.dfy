/** Which state is on the boundary, and that the client is told that state, over whole runs
    (src/tracker.rs, src/proxy.rs). */
module RelayStates {
  import opened Wrappers
  import opened ServerStates
  import opened Histories
  import opened Messages
  import opened Documents
  import opened Gates
  import opened Tracking
  import opened Relaying
  import opened RelayRuns
  import opened RelayNotifications
  import opened RelaySafety
  import opened RelayOrder
  import opened RelayVerdicts

  // --- Who speaks the protocol --------------------------------------------------------------

  /** The answer to the `initialize` that is open, while no answer has ended the handshake. */
  predicate AnswersOpen(r: Relay, msg: Message) {
    !r.handshakeDone && msg.Response? && r.initializeId == Some(msg.id)
  }

  /** A progress token is asked for, of a client that shows none. */
  predicate AsksUndeclared(r: Relay, msg: Message) {
    msg.Request? && msg.name == WorkDoneProgressCreate && !r.clientDeclaredProgress
  }

  /** The upstream answers the open `initialize` and declares the protocol. */
  predicate TakesOver(before: seq<Event>, e: Event) {
    && e.FromUpstream? && AnswersOpen(Final(START, before), e.msg)
    && e.msg.payload.InitializeResult? && e.msg.payload.action == UpstreamDeclares
  }

  predicate Never(before: seq<Event>, e: Event) { false }

  predicate SendsInitialized(before: seq<Event>, e: Event) {
    e.FromClient? && e.msg.Notification? && e.msg.name == Initialized
  }

  lemma ClientSpeakers(r: Relay, msg: Message, env: Environment)
    ensures var r' := OnClient(r, msg, env).0;
      && r'.identity == r.identity && r'.identityState == r.identityState
      && r'.identityQueryPending == (r.identityQueryPending && !(msg.Notification? && msg.name == Initialized))
  {
    if msg.Notification? {
      NotificationSpeakers(r, msg, env);
    } else if msg.Request? {
      RequestSpeakers(r, msg, env);
    }
  }

  lemma RequestSpeakers(r: Relay, msg: Message, env: Environment)
    requires msg.Request?
    ensures var r' := OnClientRequest(r, msg, env).0;
      r'.identity == r.identity && r'.identityState == r.identityState && r'.identityQueryPending == r.identityQueryPending
  {}

  lemma NotificationSpeakers(r: Relay, msg: Message, env: Environment)
    requires msg.Notification?
    ensures var r' := OnClientNotification(r, msg, env).0;
      && r'.identity == r.identity && r'.identityState == r.identityState
      && r'.identityQueryPending == (r.identityQueryPending && msg.name != Initialized)
  {
    if msg.name == CancelRequest && msg.payload.CancelParams? {
      CancelSpeakers(r, msg, msg.payload.target);
    } else if msg.name != Initialized && msg.name != CancelRequest {
      ObservedSpeakers(Noted(r, msg), Documents.Forwarded(r.uris, msg), env);
    }
  }

  predicate SameSpeaker(r: Relay, r': Relay) {
    r'.identity == r.identity && r'.identityState == r.identityState && r'.identityQueryPending == r.identityQueryPending
  }

  lemma CancelSpeakers(r: Relay, msg: Message, target: RequestId)
    ensures SameSpeaker(r, OnCancel(r, msg, target).0)
  {}

  lemma ObservedSpeakers(r: Relay, sent: Message, env: Environment)
    ensures SameSpeaker(r, OnNotification(r, sent, env).0)
  {}

  lemma IdentitySpeakers(r: Relay, msg: Message)
    ensures var r' := OnUpstreamUnderIdentity(r, msg).0;
      r'.identity == r.identity && r'.identityQueryPending == r.identityQueryPending
  {}

  lemma UpstreamObservedSpeakers(r: Relay, msg: Message, env: Environment)
    ensures SameSpeaker(r, OnObserved(r, msg, env).0)
  {}

  lemma ResultSpeakers(r: Relay, msg: Message, env: Environment)
    requires msg.Response?
    ensures var r' := OnInitializeResult(r, msg, env).0; var takesOver := Action(msg.payload) == UpstreamDeclares;
      && r'.identity == (r.identity || takesOver)
      && r'.identityQueryPending == (r.identityQueryPending || takesOver)
  {}

  lemma UpstreamSpeakers(before: seq<Event>, msg: Message, env: Environment)
    ensures var (r, r') := (Final(START, before), OnUpstream(Final(START, before), msg, env).0);
      && r'.identity == (r.identity || TakesOver(before, FromUpstream(msg, env)))
      && r'.identityQueryPending == (r.identityQueryPending || TakesOver(before, FromUpstream(msg, env)))
  {
    var r := Final(START, before);
    if SkipsPeek(r) || msg.Unreadable? || AsksForProgress(r, msg) {
    } else if AnswersInitialize(r, msg) {
      ResultSpeakers(r, msg, env);
    } else if r.identity {
      IdentitySpeakers(r, msg);
    } else {
      UpstreamObservedSpeakers(r, msg, env);
    }
  }

  lemma SpeakersStep(before: seq<Event>, e: Event)
    ensures var (r, r') := (Final(START, before), Step(Final(START, before), e).0);
      && r'.identity == (r.identity || TakesOver(before, e))
      && r'.identityQueryPending == ((r.identityQueryPending && !SendsInitialized(before, e)) || TakesOver(before, e))
  {
    match e
    case UpstreamGone =>
    case FromClient(msg, env) => ClientSpeakers(Final(START, before), msg, env);
    case FromUpstream(msg, env) => UpstreamSpeakers(before, msg, env);
  }

  /** In every run: the upstream is taken to speak the protocol itself iff it once declared it in its
      answer to the open `initialize`; and its state is still to be asked for iff no `initialized`
      has come since. */
  lemma {:induction false} IdentityExactly(events: seq<Event>)
    ensures var r := Final(START, events);
      && (r.identity <==> Since(events, TakesOver, Never))
      && (r.identityQueryPending <==> Since(events, TakesOver, SendsInitialized))
  {
    if events != [] {
      var before, e := events[..|events| - 1], events[|events| - 1];
      IdentityExactly(before);
      SplitLast(events);
      SinceStep(before, e, TakesOver, Never);
      SinceStep(before, e, TakesOver, SendsInitialized);
      SpeakersStep(before, e);
    }
  }

  /** In every run, the upstream is asked for its state exactly by the step that takes the first
      `initialized` after that declaration, and right after it. */
  lemma QueriedExactly(events: seq<Event>, msg: Message, env: Environment)
    requires msg.Notification? && msg.name == Initialized
    ensures Step(Final(START, events), FromClient(msg, env)).1 ==
      if Since(events, TakesOver, SendsInitialized)
      then [ToUpstream(msg, false), ToUpstream(Request(Text("lsp-det:serverState"), ServerStateRequest, Null), true)]
      else [ToUpstream(msg, false)]
  {
    IdentityExactly(events);
  }

  // --- The state on the boundary ------------------------------------------------------------

  /** The state lsp-det takes in at an event: a reading under a mapping that is there or announced by the
      message, or the starting state of a mapping that is newly selected; from an upstream that speaks
      the protocol itself, what that says of itself. */
  function Told(r: Relay, e: Event): Option<ServerState> {
    match e
    case UpstreamGone => None
    case FromClient(msg, env) =>
      if msg.Notification? && msg.name != Initialized && msg.name != CancelRequest && !r.identity && r.tracked.mapped
      then env.reading else None
    case FromUpstream(msg, env) =>
      if msg.Unreadable? || AsksUndeclared(r, msg) then None
      else if AnswersOpen(r, msg) then
        if msg.payload.InitializeResult? && msg.payload.action != NotASuccess && Known(env.who)
           && r.tracked.identity != Some(env.who.value.name)
        then env.who.value.starting else None
      else if r.identity then SelfTold(msg)
      else if r.tracked.mapped then env.reading
      else if !Known(env.who) || IsPastAnnouncing(r) then None
      else if env.reading.Some? then env.reading
      else env.who.value.starting
  }

  predicate Known(who: Option<Announcement>) { who.Some? && who.value.starting.Some? }

  /** An answer that is no state counts as one that observes nothing. */
  function SelfTold(msg: Message): Option<ServerState> {
    if msg.Response? && msg.id == Text("lsp-det:serverState") then
      Some(if msg.payload.State? then msg.payload.state else UNOBSERVED)
    else if msg.Notification? && msg.name == ServerStateChanged && msg.payload.State? then Some(msg.payload.state)
    else None
  }

  /** What was told by the upstream of itself, and what through a mapping. */
  function ToldBySelf(before: seq<Event>, e: Event): Option<ServerState> {
    if Final(START, before).identity then Told(Final(START, before), e) else None
  }

  function ToldByMapping(before: seq<Event>, e: Event): Option<ServerState> {
    if Final(START, before).identity then None else Told(Final(START, before), e)
  }

  lemma ObservationKeepsValid(t: Tracked, env: Environment)
    requires t.Valid()
    ensures ObserveClient(t, env.reading).0.Valid() && ObserveUpstream(t, env.who, env.reading).0.Valid()
    ensures SelectMapping(t, env.who).0.Valid() && SelectMapping(t, None).0.Valid()
  {}

  lemma NotificationTracked(r: Relay, sent: Message, env: Environment)
    ensures var r' := OnNotification(r, sent, env).0;
      && r'.tracked == (if r.identity then r.tracked else ObserveClient(r.tracked, env.reading).0)
      && r'.handshakeDone == r.handshakeDone
  {}

  lemma NotificationKeepsValid(r: Relay, msg: Message, env: Environment)
    requires r.Valid() && msg.Notification? && msg.name != Initialized && msg.name != CancelRequest
    ensures OnClientNotification(r, msg, env).0.Valid()
  {
    ObservationKeepsValid(r.tracked, env);
    NotificationTracked(Noted(r, msg), Documents.Forwarded(r.uris, msg), env);
    ObservedSpeakers(Noted(r, msg), Documents.Forwarded(r.uris, msg), env);
  }

  lemma ResultKeepsValid(r: Relay, msg: Message, env: Environment)
    requires r.Valid() && msg.Response?
    ensures OnInitializeResult(r, msg, env).0.Valid()
  {
    ObservationKeepsValid(r.tracked, env);
  }

  lemma ObservedKeepsValid(r: Relay, msg: Message, env: Environment)
    requires r.Valid() && !r.identity
    ensures OnObserved(r, msg, env).0.Valid()
  {
    ObservationKeepsValid(r.tracked, env);
  }

  lemma UpstreamKeepsValid(r: Relay, msg: Message, env: Environment)
    requires r.Valid()
    ensures OnUpstream(r, msg, env).0.Valid()
  {
    if SkipsPeek(r) || msg.Unreadable? || AsksForProgress(r, msg) {
    } else if AnswersInitialize(r, msg) {
      ResultKeepsValid(r, msg, env);
    } else if !r.identity {
      ObservedKeepsValid(r, msg, env);
    }
  }

  lemma {:induction false} AlwaysValid(events: seq<Event>)
    ensures Final(START, events).Valid()
  {
    if events != [] {
      var before, e := events[..|events| - 1], events[|events| - 1];
      AlwaysValid(before);
      match e
      case UpstreamGone =>
      case FromUpstream(msg, env) => UpstreamKeepsValid(Final(START, before), msg, env);
      case FromClient(msg, env) =>
        if msg.Notification? && msg.name != Initialized && msg.name != CancelRequest {
          NotificationKeepsValid(Final(START, before), msg, env);
        } else {
          HandshakeFrame(Final(START, before), msg, env);
          QuietClientStep(Final(START, before), msg, env);
        }
    }
  }

  lemma HandshakeFrame(r: Relay, msg: Message, env: Environment)
    requires !(msg.Notification? && msg.name != Initialized && msg.name != CancelRequest)
    ensures OnClient(r, msg, env).0.handshakeDone == r.handshakeDone
  {}

  /** How one event moves the two states. */
  predicate Moved(r: Relay, r': Relay, told: Option<ServerState>) {
    && r'.identityState == (if r.identity && told.Some? then told.value else r.identityState)
    && r'.tracked.state == (if !r.identity && told.Some? then told.value else r.tracked.state)
  }

  lemma NotificationMoves(r: Relay, msg: Message, env: Environment)
    requires msg.Notification? && msg.name != Initialized && msg.name != CancelRequest
    ensures Moved(r, OnClientNotification(r, msg, env).0, Told(r, FromClient(msg, env)))
  {
    ObservedSpeakers(Noted(r, msg), Documents.Forwarded(r.uris, msg), env);
    TrackedFollows(Noted(r, msg), Documents.Forwarded(r.uris, msg), env);
  }

  lemma TrackedFollows(r: Relay, sent: Message, env: Environment)
    ensures OnNotification(r, sent, env).0.tracked.state ==
      if !r.identity && r.tracked.mapped && env.reading.Some? then env.reading.value else r.tracked.state
  {}

  lemma ResultMoves(r: Relay, msg: Message, env: Environment)
    requires r.Valid() && AnswersInitialize(r, msg) && !AsksForProgress(r, msg)
    ensures Moved(r, OnInitializeResult(r, msg, env).0, Told(r, FromUpstream(msg, env)))
  {}

  lemma IdentityMoves(r: Relay, msg: Message)
    requires r.identity
    ensures Moved(r, OnUpstreamUnderIdentity(r, msg).0, SelfTold(msg))
  {}

  lemma ObservedMoves(r: Relay, msg: Message, env: Environment)
    requires r.Valid() && !r.identity
    ensures Moved(r, OnObserved(r, msg, env).0, if r.tracked.mapped then env.reading
      else if !Known(env.who) then None
      else if env.reading.Some? then env.reading else env.who.value.starting)
  {}

  lemma StepMoves(r: Relay, e: Event)
    requires r.Valid()
    ensures Moved(r, Step(r, e).0, Told(r, e))
  {
    match e
    case UpstreamGone =>
    case FromClient(msg, env) =>
      if msg.Notification? && msg.name != Initialized && msg.name != CancelRequest {
        NotificationMoves(r, msg, env);
      } else {
        QuietClientStep(r, msg, env);
      }
    case FromUpstream(msg, env) =>
      if SkipsPeek(r) || msg.Unreadable? || AsksForProgress(r, msg) {
      } else if AnswersInitialize(r, msg) {
        ResultMoves(r, msg, env);
      } else if r.identity {
        IdentityMoves(r, msg);
      } else {
        ObservedMoves(r, msg, env);
      }
  }

  /** In every run: under an upstream that speaks the protocol itself the state on the boundary is the
      last one it told, or initializing; otherwise it is the last one told through a mapping, or the one
      that claims nothing. */
  lemma {:induction false} BoundaryIsLastTold(events: seq<Event>)
    ensures var r := Final(START, events);
      && (if r.identity then IsLast(events, ToldBySelf, INITIALIZING, r.Boundary())
          else IsLast(events, ToldByMapping, UNOBSERVED, r.Boundary()))
      && IsLast(events, ToldBySelf, INITIALIZING, r.identityState)
      && IsLast(events, ToldByMapping, UNOBSERVED, r.tracked.state)
  {
    if events != [] {
      var before, e := events[..|events| - 1], events[|events| - 1];
      var r := Final(START, before);
      BoundaryIsLastTold(before);
      AlwaysValid(before);
      SplitLast(events);
      IsLastStep(before, e, ToldBySelf, INITIALIZING, r.identityState);
      IsLastStep(before, e, ToldByMapping, UNOBSERVED, r.tracked.state);
      StepMoves(r, e);
    }
  }

  // --- Asking for the state -----------------------------------------------------------------

  /** In every run, a server-state request gets exactly one write: while the upstream does not speak the
      protocol itself, a response with its id and the state on the boundary, which is the last one told
      through a mapping; otherwise it is passed on and nothing is answered. Nothing else changes. */
  lemma StateRequestExactly(events: seq<Event>, msg: Message, env: Environment)
    requires msg.Request? && msg.name == ServerStateRequest
    ensures var r := Final(START, events); var (r', outs) := Step(r, FromClient(msg, env));
      && r' == r
      && if r.identity then outs == [ToUpstream(msg, false)]
         else outs == [ToClient(Response(msg.id, State(r.Boundary())), true)]
              && IsLast(events, ToldByMapping, UNOBSERVED, r.Boundary())
  {
    BoundaryIsLastTold(events);
  }

  /** For a declaring client under a mapping, over every run up to the next selection: the answered state
      has the axes of the last notified one, or of the state the run started in when none was notified. */
  lemma AnsweredIsLastReported(r: Relay, events: seq<Event>, msg: Message, env: Environment)
    requires Reporting(r) && UndisturbedRun(r, events) && msg.Request? && msg.name == ServerStateRequest
    ensures var outs := Step(Final(r, events), FromClient(msg, env)).1;
      && |outs| == 1 && outs[0].ToClient? && outs[0].msg.Response? && outs[0].msg.id == msg.id && outs[0].msg.payload.State?
      && SameAxes(outs[0].msg.payload.state, Last(r.Boundary(), Reported(Written(r, events))))
  {
    ReportsAreTheAxisChanges(r, events);
  }

  /** After the handshake, an announcement is not looked at any more when the upstream gave a name that no
      mapping is known by and the client shows progress. */
  predicate IsPastAnnouncing(r: Relay) {
    r.handshakeDone && !r.tracked.mapped && r.tracked.namedButUnknown && r.clientDeclaredProgress
  }

  lemma UpstreamReports(r: Relay, msg: Message, env: Environment)
    requires !r.identity
    ensures Reported(OnUpstream(r, msg, env).1) ==
      if r.clientDeclared && !IsPastAnnouncing(r) && Moves(r, FromUpstream(msg, env)) then [env.reading.value] else []
  {
    if SkipsPeek(r) || msg.Unreadable? || AsksForProgress(r, msg) || AnswersInitialize(r, msg) {
      NothingReported(OnUpstream(r, msg, env).1);
    } else {
      AnnouncementReports(r, msg, env);
      ObservedIsRead(r.tracked, env.who, env.reading);
    }
  }

  lemma ClientStepReports(r: Relay, msg: Message, env: Environment)
    requires !r.identity
    ensures Reported(OnClient(r, msg, env).1) ==
      if r.clientDeclared && Moves(r, FromClient(msg, env)) then [env.reading.value] else []
  {
    if msg.Notification? && msg.name != Initialized && msg.name != CancelRequest {
      ObservationReports(Noted(r, msg), Documents.Forwarded(r.uris, msg), env);
    } else {
      QuietClientStep(r, msg, env);
    }
  }

  /** In every run, at every step: the client is told a state iff it last declared so, the upstream does
      not speak the protocol itself, and the event moves an axis; and it is told exactly that state. */
  lemma ReportedExactly(events: seq<Event>, e: Event)
    ensures var r := Final(START, events);
      Reported(Step(r, e).1) ==
        if Since(events, DeclaresState, InitializesAgain) && !Since(events, TakesOver, Never) && Moves(r, e)
           && !(e.FromUpstream? && IsPastAnnouncing(r))
        then [e.env.reading.value] else []
  {
    var r := Final(START, events);
    DeclaredExactly(events);
    IdentityExactly(events);
    AlwaysValid(events);
    if r.identity {
      IdentityStepReportsNothing(r, e);
    } else {
      match e
      case UpstreamGone => NothingReported(Step(r, e).1);
      case FromClient(msg, env) => ClientStepReports(r, msg, env);
      case FromUpstream(msg, env) => UpstreamReports(r, msg, env);
    }
  }

  lemma ReleasesAreNoReports(q: Queue, state: ServerState)
    ensures forall o | o in Releases(q, state).1 :: !IsReport(o)
  {}

  /** A state moved by the upstream is told before what it releases or refuses, right after the message; one
      moved by the client is told after that. */
  lemma WhereReportsStand(r: Relay, msg: Message, env: Environment)
    ensures var outs := OnUpstream(r, msg, env).1;
      forall i | 0 <= i < |outs| && IsReport(outs[i]) :: i == 1
    ensures var outs := OnClient(r, msg, env).1;
      forall i | 0 <= i < |outs| && IsReport(outs[i]) :: i == |outs| - 1
  {
    if msg.Notification? && msg.name != Initialized && msg.name != CancelRequest {
      LastIsReport(Noted(r, msg), Documents.Forwarded(r.uris, msg), env);
    } else {
      NoClientReport(r, msg, env);
    }
    if SkipsPeek(r) || msg.Unreadable? || AsksForProgress(r, msg) || AnswersInitialize(r, msg) || r.identity {
      NoUpstreamReport(r, msg, env);
    } else {
      SecondIsReport(r, msg, env);
    }
  }

  lemma LastIsReport(r: Relay, sent: Message, env: Environment)
    ensures var outs := OnNotification(r, sent, env).1;
      forall i | 0 <= i < |outs| && IsReport(outs[i]) :: i == |outs| - 1
  {
    var predicted := if r.identity then None else ObserveClient(r.tracked, env.reading).1;
    if predicted.Some? {
      ReleasesAreNoReports(r.queue, predicted.value);
    }
  }

  lemma SecondIsReport(r: Relay, msg: Message, env: Environment)
    ensures var outs := OnObserved(r, msg, env).1;
      forall i | 0 <= i < |outs| && IsReport(outs[i]) :: i == 1
  {
    var changed := ObserveUpstream(r.tracked, env.who, env.reading).1;
    if changed.Some? {
      ReleasesAreNoReports(r.queue, changed.value);
      var first, told := [ToClient(msg, false)], Notify(r.clientDeclared, r.identity, changed.value);
      assert OnObserved(r, msg, env).1 == first + told + Releases(r.queue, changed.value).1;
    }
  }

  lemma NoClientReport(r: Relay, msg: Message, env: Environment)
    requires !(msg.Notification? && msg.name != Initialized && msg.name != CancelRequest)
    ensures forall o | o in OnClient(r, msg, env).1 :: !IsReport(o)
  {}

  lemma NoUpstreamReport(r: Relay, msg: Message, env: Environment)
    requires SkipsPeek(r) || msg.Unreadable? || AsksForProgress(r, msg) || AnswersInitialize(r, msg) || r.identity
    ensures forall o | o in OnUpstream(r, msg, env).1 :: !IsReport(o)
  {}

  /** In every run without a mapping and without an upstream that declares: neither axis is claimed. */
  lemma UnmappedAnswersUnknown(events: seq<Event>, msg: Message, env: Environment)
    requires msg.Request? && msg.name == ServerStateRequest
    requires var r := Final(START, events); !r.identity && !r.tracked.mapped
    ensures Step(Final(START, events), FromClient(msg, env)).1 ==
      [ToClient(Response(msg.id, State(ServerState(Health.Unknown, Readiness.Unknown, None))), true)]
  {
    AlwaysValid(events);
  }

  // --- What the upstream asks for -----------------------------------------------------------

  /** In every run: an upstream that asks for a progress token is answered by lsp-det, with null, and the
      client is told nothing, iff the last `initialize` of the client did not declare that it shows
      progress; otherwise the request is passed on first. */
  lemma ProgressTokenExactly(events: seq<Event>, msg: Message, env: Environment)
    requires msg.Request? && msg.name == WorkDoneProgressCreate
    ensures var outs := Step(Final(START, events), FromUpstream(msg, env)).1;
      if Since(events, DeclaresProgress, InitializesAgain) then |outs| > 0 && outs[0] == ToClient(msg, false)
      else outs == [ToUpstream(Response(msg.id, Null), true)]
  {
    DeclaredExactly(events);
    var r := Final(START, events);
    if r.clientDeclaredProgress {
      RequestOfUpstreamFirst(r, msg, env);
    }
  }

  lemma RequestOfUpstreamFirst(r: Relay, msg: Message, env: Environment)
    requires msg.Request? && !AsksForProgress(r, msg)
    ensures var outs := OnUpstream(r, msg, env).1; |outs| > 0 && outs[0] == ToClient(msg, false)
  {}

  // --- The watched files --------------------------------------------------------------------

  /** The client does not declare that it watches files, and there is a root to look at. */
  predicate StandsIn(before: seq<Event>, e: Event) {
    IsInitialize(e) && !(e.msg.payload.InitializeParams? && e.msg.payload.declaresWatchedFiles) && e.env.usableRoots
  }

  /** The client tells of changed files itself, or initializes without declaring and without a root. */
  predicate StandsDown(before: seq<Event>, e: Event) {
    || (e.FromClient? && e.msg.Notification? && e.msg.name == DidChangeWatchedFiles)
    || (IsInitialize(e) && !(e.msg.payload.InitializeParams? && e.msg.payload.declaresWatchedFiles) && !e.env.usableRoots)
  }

  lemma WatchingStep(r: Relay, e: Event)
    ensures Step(r, e).0.watching == (StandsIn([], e) || (r.watching && !StandsDown([], e)))
  {
    match e
    case UpstreamGone =>
    case FromUpstream(msg, env) => UpstreamWatching(r, msg, env);
    case FromClient(msg, env) =>
      if msg.Notification? {
        NotificationWatching(r, msg, env);
      } else if msg.Request? {
        RequestWatching(r, msg, env);
      }
  }

  lemma UpstreamWatching(r: Relay, msg: Message, env: Environment)
    ensures OnUpstream(r, msg, env).0.watching == r.watching
  {}

  lemma NotificationWatching(r: Relay, msg: Message, env: Environment)
    requires msg.Notification?
    ensures OnClientNotification(r, msg, env).0.watching == (r.watching && msg.name != DidChangeWatchedFiles)
  {}

  lemma RequestWatching(r: Relay, msg: Message, env: Environment)
    requires msg.Request?
    ensures OnClientRequest(r, msg, env).0.watching ==
      (StandsIn([], FromClient(msg, env)) || (r.watching && !StandsDown([], FromClient(msg, env))))
  {}

  lemma {:induction false} StandsInExactly(events: seq<Event>)
    ensures Final(START, events).watching <==> Since(events, StandsIn, StandsDown)
  {
    if events != [] {
      var before, e := events[..|events| - 1], events[|events| - 1];
      StandsInExactly(before);
      SplitLast(events);
      SinceStep(before, e, StandsIn, StandsDown);
      WatchingStep(Final(START, before), e);
    }
  }

  /** In every run, the step that takes a cross-workspace request begins with the difference of the
      watched files, if there is one, iff lsp-det stands in for the client: the client initialized
      without watching, over a root, and has neither told of changed files nor taken that back since. */
  lemma DifferenceIsToldExactly(events: seq<Event>, e: Event)
    requires AsksAcross(e)
    ensures var outs := Step(Final(START, events), e).1;
      (exists o :: o in outs && o.ToUpstream? && o.own) <==> e.env.difference.Some? && Since(events, StandsIn, StandsDown)
    ensures var outs := Step(Final(START, events), e).1;
      e.env.difference.Some? && Since(events, StandsIn, StandsDown) ==>
        && outs[0] == ToUpstream(e.env.difference.value, true)
        && forall i | 0 < i < |outs| :: !(outs[i].ToUpstream? && outs[i].own)
  {
    StandsInExactly(events);
    var r := Final(START, events);
    if r.watching && e.env.difference.Some? {
      DifferenceFirst(r, e.msg, e.env);
      assert Step(r, e).1[0] in Step(r, e).1;
    } else {
      NothingToTell(r, e.msg, e.env);
    }
  }

  lemma NothingToTell(r: Relay, msg: Message, env: Environment)
    requires msg.Request? && IsCrossWorkspace(msg.name) && !(r.watching && env.difference.Some?)
    ensures forall o | o in OnClient(r, msg, env).1 :: !(o.ToUpstream? && o.own)
  {}
}
