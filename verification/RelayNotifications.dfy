/** The state notifications a declaring client receives, over whole runs (src/tracker.rs,
    src/proxy.rs). */
module RelayNotifications {
  import opened Wrappers
  import opened ServerStates
  import opened Messages
  import opened Documents
  import opened Gates
  import opened Tracking
  import opened Relaying
  import opened RelayRuns

  /** The states lsp-det itself notifies, in order. */
  function Reported(outs: seq<Out>): seq<ServerState> {
    if outs == [] then [] else ReportOf(outs[0]) + Reported(outs[1..])
  }

  function ReportOf(o: Out): seq<ServerState> { if IsReport(o) then [o.msg.payload.state] else [] }

  predicate IsReport(o: Out) {
    o.ToClient? && o.own && o.msg.Notification? && o.msg.name == ServerStateChanged && o.msg.payload.State?
  }

  /** Consecutive states differ on an axis, from the first on. */
  predicate Chain(start: ServerState, states: seq<ServerState>)
    decreases |states|
  {
    states == [] || (!SameAxes(start, states[0]) && Chain(states[0], states[1..]))
  }

  function Last(start: ServerState, states: seq<ServerState>): ServerState {
    if states == [] then start else states[|states| - 1]
  }

  lemma {:induction false} ReportedConcat(a: seq<Out>, b: seq<Out>)
    ensures Reported(a + b) == Reported(a) + Reported(b)
  {
    if a == [] {
      assert a + b == b;
    } else {
      assert (a + b)[1..] == a[1..] + b && (a + b)[0] == a[0];
      ReportedConcat(a[1..], b);
      assert ReportOf(a[0]) + (Reported(a[1..]) + Reported(b)) == ReportOf(a[0]) + Reported(a[1..]) + Reported(b);
    }
  }

  lemma {:induction false} NothingReported(outs: seq<Out>)
    requires forall o | o in outs :: !IsReport(o)
    ensures Reported(outs) == []
  {
    if outs != [] {
      NothingReported(outs[1..]);
    }
  }

  lemma {:induction false} ChainExtends(start: ServerState, states: seq<ServerState>, next: ServerState)
    requires Chain(start, states) && !SameAxes(Last(start, states), next)
    ensures Chain(start, states + [next])
    decreases |states|
  {
    if states != [] {
      assert (states + [next])[1..] == states[1..] + [next];
      ChainExtends(states[0], states[1..], next);
    }
  }

  lemma ReleasesReportNothing(q: Queue, state: ServerState)
    ensures Reported(Releases(q, state).1) == []
  {
    NothingReported(Releases(q, state).1);
  }

  /** Exactly the axis change of one step, if there is one. */
  function Change(before: ServerState, after: ServerState): seq<ServerState> {
    if SameAxes(before, after) then [] else [after]
  }

  /** A client that declared, under a mapping. */
  predicate Reporting(r: Relay) {
    r.clientDeclared && r.tracked.mapped && !r.identity
  }

  lemma NotificationReports(r: Relay, sent: Message, env: Environment)
    requires Reporting(r)
    ensures var (r', outs) := OnNotification(r, sent, env);
      Reporting(r') && Reported(outs) == Change(r.Boundary(), r'.Boundary())
  {
    var first := [ToUpstream(sent, false)];
    NothingReported(first);
    var changed := ObserveClient(r.tracked, env.reading).1;
    if changed.Some? {
      ReleasesReportNothing(r.queue, changed.value);
      ReportedAround(first, Releases(r.queue, changed.value).1, changed.value);
    }
  }

  lemma ReportOfChange(state: ServerState)
    ensures Reported([ToClient(ChangedNotification(state), true)]) == [state]
  {
    assert [ToClient(ChangedNotification(state), true)][1..] == [];
  }

  lemma ReportedAround(first: seq<Out>, released: seq<Out>, state: ServerState)
    requires Reported(first) == Reported(released) == []
    ensures var told := [ToClient(ChangedNotification(state), true)];
      Reported(first + released + told) == Reported(first + told + released) == [state]
  {
    var told := [ToClient(ChangedNotification(state), true)];
    ReportOfChange(state);
    ReportedConcat(first + released, told);
    ReportedConcat(first, released);
    ReportedConcat(first + told, released);
    ReportedConcat(first, told);
  }

  lemma ObservedReports(r: Relay, msg: Message, env: Environment)
    requires Reporting(r)
    ensures var (r', outs) := OnObserved(r, msg, env);
      Reporting(r') && Reported(outs) == Change(r.Boundary(), r'.Boundary())
  {
    var first := [ToClient(msg, false)];
    NothingReported(first);
    var changed := ObserveUpstream(r.tracked, env.who, env.reading).1;
    if changed.Some? {
      ReleasesReportNothing(r.queue, changed.value);
      ReportedAround(first, Releases(r.queue, changed.value).1, changed.value);
    }
  }

  /** No step selects a mapping anew, and every `initialize` declares. */
  predicate Undisturbed(r: Relay, e: Event) {
    && !IsInitializeResult(r, e)
    && (IsInitialize(e) ==> e.msg.payload.InitializeParams? && e.msg.payload.declaresState)
  }

  lemma ClientReports(r: Relay, msg: Message, env: Environment)
    requires Reporting(r) && Undisturbed(r, FromClient(msg, env))
    ensures var (r', outs) := OnClient(r, msg, env);
      Reporting(r') && Reported(outs) == Change(r.Boundary(), r'.Boundary())
  {
    if msg.Notification? && msg.name != Initialized && msg.name != CancelRequest {
      NotificationReports(Noted(r, msg), Documents.Forwarded(r.uris, msg), env);
    } else {
      QuietClientStep(r, msg, env);
    }
  }

  lemma QuietClientStep(r: Relay, msg: Message, env: Environment)
    requires !(msg.Notification? && msg.name != Initialized && msg.name != CancelRequest)
    ensures var (r', outs) := OnClient(r, msg, env);
      && r'.tracked == r.tracked && r'.identity == r.identity && r'.identityState == r.identityState
      && (r'.clientDeclared == r.clientDeclared || IsInitialize(FromClient(msg, env)))
      && Reported(outs) == []
  {
    if msg.Request? {
      QuietRequest(r, msg, env);
    } else {
      NothingReported(OnClient(r, msg, env).1);
    }
  }

  lemma QuietRequest(r: Relay, msg: Message, env: Environment)
    requires msg.Request?
    ensures var (r', outs) := OnClientRequest(r, msg, env);
      && r'.tracked == r.tracked && r'.identity == r.identity && r'.identityState == r.identityState
      && (r'.clientDeclared == r.clientDeclared || msg.name == Initialize)
      && Reported(outs) == []
  {
    NothingReported(OnClientRequest(r, msg, env).1);
  }

  lemma StepReports(r: Relay, e: Event)
    requires Reporting(r) && Undisturbed(r, e)
    ensures var (r', outs) := Step(r, e);
      Reporting(r') && Reported(outs) == Change(r.Boundary(), r'.Boundary())
  {
    match e
    case UpstreamGone => NothingReported(Step(r, e).1);
    case FromClient(msg, env) => ClientReports(r, msg, env);
    case FromUpstream(msg, env) =>
      if msg.Unreadable? || AsksForProgress(r, msg) {
        NothingReported(Step(r, e).1);
      } else {
        ObservedReports(r, msg, env);
      }
  }

  ghost predicate UndisturbedRun(r: Relay, events: seq<Event>) {
    events == [] ||
    var before := events[..|events| - 1];
    UndisturbedRun(r, before) && Undisturbed(Final(r, before), events[|events| - 1])
  }

  /** How many steps changed an axis of the state on the boundary. */
  function AxisChanges(r: Relay, events: seq<Event>): nat {
    if events == [] then 0
    else
      var before := events[..|events| - 1];
      AxisChanges(r, before) + |Change(Final(r, before).Boundary(), Final(r, events).Boundary())|
  }

  lemma ChainFollows(start: ServerState, states: seq<ServerState>, before: ServerState, after: ServerState)
    requires Chain(start, states) && SameAxes(Last(start, states), before)
    ensures var states' := states + Change(before, after);
      Chain(start, states') && SameAxes(Last(start, states'), after)
  {
    if SameAxes(before, after) {
      assert states + [] == states;
    } else {
      ChainExtends(start, states, after);
    }
  }

  /** From any state under a mapping with a declaring client, over every run up to the next
      selection of a mapping: the notified states are exactly the axis changes. Consecutive ones
      differ (the first from the state the run started in), there is one per change, and the
      last one has the axes of the state on the boundary. */
  lemma {:induction false} ReportsAreTheAxisChanges(r: Relay, events: seq<Event>)
    requires Reporting(r) && UndisturbedRun(r, events)
    ensures var states := Reported(Written(r, events));
      && Chain(r.Boundary(), states)
      && SameAxes(Last(r.Boundary(), states), Final(r, events).Boundary())
      && |states| == AxisChanges(r, events)
    ensures Reporting(Final(r, events))
  {
    if events != [] {
      var before, e := events[..|events| - 1], events[|events| - 1];
      ReportsAreTheAxisChanges(r, before);
      StepReports(Final(r, before), e);
      ReportedConcat(Written(r, before), Step(Final(r, before), e).1);
      ChainFollows(r.Boundary(), Reported(Written(r, before)), Final(r, before).Boundary(), Final(r, events).Boundary());
    }
  }

  lemma IdentityStepReportsNothing(r: Relay, e: Event)
    requires r.identity && r.handshakeDone
    ensures Step(r, e).0.identity && Step(r, e).0.handshakeDone && Reported(Step(r, e).1) == []
  {
    match e
    case UpstreamGone => NothingReported(Step(r, e).1);
    case FromUpstream(msg, env) => IdentityReports(r, msg, env);
    case FromClient(msg, env) =>
      if !IsInitialize(e) {
        ClientFrame(r, msg, env);
      }
      if msg.Notification? && msg.name != Initialized && msg.name != CancelRequest {
        NothingPredicted(Noted(r, msg), Documents.Forwarded(r.uris, msg), env);
      } else {
        QuietClientStep(r, msg, env);
      }
  }

  lemma IdentityReports(r: Relay, msg: Message, env: Environment)
    requires r.identity && r.handshakeDone
    ensures var (r', outs) := OnUpstream(r, msg, env);
      r'.identity && r'.handshakeDone && Reported(outs) == []
  {
    NothingReported(OnUpstream(r, msg, env).1);
  }

  lemma NothingPredicted(r: Relay, sent: Message, env: Environment)
    requires r.identity
    ensures Reported(OnNotification(r, sent, env).1) == []
  {
    NothingReported(OnNotification(r, sent, env).1);
  }

  /** Once the upstream speaks the protocol itself, lsp-det notifies nothing, whatever happens:
      no two streams flow on one connection. */
  lemma {:induction false} IdentityReportsNothing(r: Relay, events: seq<Event>)
    requires r.identity && r.handshakeDone
    ensures Reported(Written(r, events)) == [] && Final(r, events).identity && Final(r, events).handshakeDone
  {
    if events != [] {
      var before, e := events[..|events| - 1], events[|events| - 1];
      IdentityReportsNothing(r, before);
      IdentityStepReportsNothing(Final(r, before), e);
      ReportedConcat(Written(r, before), Step(Final(r, before), e).1);
    }
  }

  // --- Before the answer to `initialize` ----------------------------------------------------

  /** A reading on other axes. */
  predicate Differs(reading: Option<ServerState>, state: ServerState) { reading.Some? && !SameAxes(reading.value, state) }

  /** The mapping reads another state from the message: a notification of the client, or a message of
      the upstream, which can also be the one that announces the mapping. */
  predicate Moves(r: Relay, e: Event) {
    match e
    case UpstreamGone => false
    case FromClient(msg, env) =>
      && msg.Notification? && msg.name != Initialized && msg.name != CancelRequest
      && r.tracked.mapped && Differs(env.reading, r.tracked.state)
    case FromUpstream(msg, env) =>
      && !msg.Unreadable? && !AsksForProgress(r, msg) && !AnswersInitialize(r, msg)
      && if r.tracked.mapped then Differs(env.reading, r.tracked.state)
         else env.who.Some? && env.who.value.starting.Some? && Differs(env.reading, env.who.value.starting.value)
  }

  /** It does so for a declaring client before the handshake. */
  predicate MovesEarly(r: Relay, e: Event) { !r.handshakeDone && r.clientDeclared && Moves(r, e) }

  lemma NothingAdded(first: seq<Out>, released: seq<Out>)
    ensures first + released + [] == first + released && first + [] + released == first + released
  {}

  lemma OneReport(first: seq<Out>, released: seq<Out>, clientDeclared: bool, state: ServerState)
    requires Reported(first) == Reported(released) == []
    ensures var told := Notify(clientDeclared, false, state);
      Reported(first + released + told) == Reported(first + told + released) == if clientDeclared then [state] else []
  {
    if clientDeclared {
      ReportedAround(first, released, state);
    } else {
      NothingAdded(first, released);
      ReportedConcat(first, released);
    }
  }

  lemma ObservationReports(r: Relay, sent: Message, env: Environment)
    requires !r.identity
    ensures Reported(OnNotification(r, sent, env).1) ==
      if r.clientDeclared && r.tracked.mapped && Differs(env.reading, r.tracked.state) then [env.reading.value] else []
  {
    var first := [ToUpstream(sent, false)];
    NothingReported(first);
    var changed := ObserveClient(r.tracked, env.reading).1;
    if changed.Some? {
      ReleasesReportNothing(r.queue, changed.value);
      OneReport(first, Releases(r.queue, changed.value).1, r.clientDeclared, changed.value);
    }
  }

  /** What the observation of an upstream message changes is what was read from it. */
  lemma ObservedIsRead(t: Tracked, who: Option<Announcement>, reading: Option<ServerState>)
    ensures var changed := ObserveUpstream(t, who, reading).1;
      && (changed.Some? <==>
            if t.mapped then Differs(reading, t.state)
            else who.Some? && who.value.starting.Some? && Differs(reading, who.value.starting.value))
      && (changed.Some? ==> changed == reading)
  {}

  lemma AnnouncementReports(r: Relay, msg: Message, env: Environment)
    requires !r.identity
    ensures Reported(OnObserved(r, msg, env).1) ==
      var changed := ObserveUpstream(r.tracked, env.who, env.reading).1;
      if r.clientDeclared && changed.Some? then [changed.value] else []
  {
    var first := [ToClient(msg, false)];
    NothingReported(first);
    var changed := ObserveUpstream(r.tracked, env.who, env.reading).1;
    if changed.Some? {
      var released := Releases(r.queue, changed.value).1;
      ReleasesReportNothing(r.queue, changed.value);
      OneReport(first, released, r.clientDeclared, changed.value);
      assert OnObserved(r, msg, env).1 == first + Notify(r.clientDeclared, false, changed.value) + released;
    } else {
      assert OnObserved(r, msg, env).1 == first;
    }
  }

  lemma EarlyUpstreamReports(r: Relay, msg: Message, env: Environment)
    requires !r.handshakeDone && !r.identity
    ensures Reported(OnUpstream(r, msg, env).1) != [] <==> MovesEarly(r, FromUpstream(msg, env))
  {
    if msg.Unreadable? || AsksForProgress(r, msg) || AnswersInitialize(r, msg) {
      NothingReported(OnUpstream(r, msg, env).1);
    } else {
      AnnouncementReports(r, msg, env);
      ObservedIsRead(r.tracked, env.who, env.reading);
    }
  }

  lemma EarlyClientReports(r: Relay, msg: Message, env: Environment)
    requires !r.handshakeDone && !r.identity
    ensures Reported(OnClient(r, msg, env).1) != [] <==> MovesEarly(r, FromClient(msg, env))
  {
    if msg.Notification? && msg.name != Initialized && msg.name != CancelRequest {
      ObservationReports(Noted(r, msg), Documents.Forwarded(r.uris, msg), env);
    } else {
      QuietClientStep(r, msg, env);
    }
  }

  lemma EarlyStepReports(r: Relay, e: Event)
    requires !r.handshakeDone && !r.identity
    ensures Reported(Step(r, e).1) != [] <==> MovesEarly(r, e)
  {
    match e
    case UpstreamGone => NothingReported(Step(r, e).1);
    case FromClient(msg, env) => EarlyClientReports(r, msg, env);
    case FromUpstream(msg, env) => EarlyUpstreamReports(r, msg, env);
  }

  lemma {:induction false} IdentityAfterHandshake(events: seq<Event>)
    ensures Final(START, events).identity ==> Final(START, events).handshakeDone
  {
    if events != [] {
      var before, e := events[..|events| - 1], events[|events| - 1];
      var r := Final(START, before);
      IdentityAfterHandshake(before);
      if !IsInitialize(e) && !IsInitializeResult(r, e) && !e.UpstreamGone? {
        HandshakeFrame(r, e);
      }
    }
  }

  /** lsp-det reports nothing before the handshake is done. */
  ghost predicate SilentBeforeHandshake(events: seq<Event>) {
    events == [] ||
    var before := events[..|events| - 1];
    var r := Final(START, before);
    SilentBeforeHandshake(before) && (!r.handshakeDone ==> Reported(Step(r, events[|events| - 1]).1) == [])
  }

  ghost predicate NeverMovesEarly(events: seq<Event>) {
    events == [] ||
    var before := events[..|events| - 1];
    NeverMovesEarly(before) && !MovesEarly(Final(START, before), events[|events| - 1])
  }

  /** For every run and any mapping: no state is notified before the answer to `initialize` if and only
      if the mapping, once there is one or as it is announced, reads no other state before it for a
      client that declared. */
  lemma {:induction false} SilentExactly(events: seq<Event>)
    ensures SilentBeforeHandshake(events) <==> NeverMovesEarly(events)
  {
    if events != [] {
      var before, e := events[..|events| - 1], events[|events| - 1];
      SilentExactly(before);
      IdentityAfterHandshake(before);
      if !Final(START, before).handshakeDone {
        EarlyStepReports(Final(START, before), e);
      }
    }
  }

  /** It can: a declaring client initializes, and a startup log names the server with a reading of its
      mapping. The notification is written although the handshake is not done. */
  lemma AReportCanComeFirst() returns (events: seq<Event>, state: ServerState)
    ensures Reported(Written(START, events)) == [state] && !Final(START, events).handshakeDone
    ensures !SilentBeforeHandshake(events)
  {
    state := ServerState(Health.Unknown, Indexing, None);
    var quiet := Environment(None, None, None, false);
    var e0 := FromClient(Request(Number(1), Initialize, InitializeParams(true, false, false)), quiet);
    var e1 := FromUpstream(Notification(Other("window/logMessage"), Opaque(0)),
                           quiet.(who := Some(Announcement("pyright", Some(INITIALIZING))), reading := Some(state)));
    events := [e0, e1];
    var r := Step(START, e0).0;
    assert r == START.(initializeId := Some(Number(1)), clientDeclared := true, queue := START.queue.(clientDecides := true));
    EarlyStepReports(START, e0);
    AnnouncementIsReported(r, e1, state);
    TwoSteps(e0, e1);
  }

  lemma AnnouncementIsReported(r: Relay, e: Event, state: ServerState)
    requires !r.identity && r.clientDeclared && !r.tracked.mapped && !r.handshakeDone
    requires e.FromUpstream? && e.msg.Notification? && e.env.reading == Some(state) && !SameAxes(state, INITIALIZING)
    requires e.env.who.Some? && e.env.who.value.starting == Some(INITIALIZING)
    ensures Reported(Step(r, e).1) == [state] && !Step(r, e).0.handshakeDone
  {
    assert Step(r, e) == OnObserved(r, e.msg, e.env);
    AnnouncementReports(r, e.msg, e.env);
    ObservedIsRead(r.tracked, e.env.who, e.env.reading);
  }

  lemma TwoSteps(e0: Event, e1: Event)
    ensures var r := Step(START, e0).0;
      && Final(START, [e0, e1]) == Step(r, e1).0
      && Reported(Written(START, [e0, e1])) == Reported(Step(START, e0).1) + Reported(Step(r, e1).1)
      && (!r.handshakeDone && Reported(Step(r, e1).1) != [] ==> !SilentBeforeHandshake([e0, e1]))
  {
    var r := Step(START, e0).0;
    assert [] + [e0] == [e0] && [e0] + [e1] == [e0, e1];
    OneMoreEvent(START, [], e0);
    OneMoreEvent(START, [e0], e1);
    assert Written(START, [e0]) == Step(START, e0).1;
    ReportedConcat(Step(START, e0).1, Step(r, e1).1);
    assert [e0, e1][..1] == [e0];
  }
}
