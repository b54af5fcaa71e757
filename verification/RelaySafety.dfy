/** What waits, waits for a reason: safety over whole runs, for any mapping. */
module RelaySafety {
  import opened Wrappers
  import opened ServerStates
  import opened Messages
  import opened Documents
  import opened Gates
  import opened Tracking
  import opened Relaying
  import opened RelayRuns

  // --- Nothing waits without a reason ---------------------------------------------------

  /** What waits, waits for a state the gate holds on. */
  predicate WaitsWithReason(r: Relay) {
    r.queue.held != [] ==> Loading(r.Boundary())
  }

  /** The guard at the upstream's answer to `initialize`, where the mapping is selected without
      asking the gate again: nothing is held, or the upstream speaks the protocol itself, or no
      other mapping is adopted, or the adopted one starts in a state to hold on. */
  predicate ReselectsHarmlessly(r: Relay, e: Event)
    requires IsInitializeResult(r, e)
  {
    var who := NamedBy(e.msg.payload, e.env);
    || r.queue.held == []
    || Action(e.msg.payload) == UpstreamDeclares
    || who.None? || who.value.starting.None? || r.tracked.identity == Some(who.value.name)
    || Loading(who.value.starting.value)
  }

  lemma ReleasesSettle(q: Queue, state: ServerState)
    ensures var q' := Releases(q, state).0;
      && q'.clientDecides == q.clientDecides
      && (q'.held != [] ==> Loading(state))
      && (q'.held == [] || q'.held == q.held)
  {}

  lemma NotificationKeepsReason(r: Relay, sent: Message, env: Environment)
    requires r.tracked.Valid() && WaitsWithReason(r)
    ensures var r' := OnNotification(r, sent, env).0; r'.tracked.Valid() && WaitsWithReason(r')
  {
    if !r.identity {
      var changed := ObserveClient(r.tracked, env.reading).1;
      if changed.Some? {
        ReleasesSettle(r.queue, changed.value);
      }
    }
  }

  lemma ClientRequestKeepsReason(r: Relay, msg: Message, env: Environment)
    requires r.Valid() && WaitsWithReason(r) && msg.Request?
    ensures var r' := OnClientRequest(r, msg, env).0; r'.Valid() && WaitsWithReason(r')
  {}

  lemma CancelKeepsReason(r: Relay, msg: Message, target: RequestId)
    requires r.Valid() && WaitsWithReason(r)
    ensures var r' := OnCancel(r, msg, target).0; r'.Valid() && WaitsWithReason(r')
  {}

  lemma ClientNotificationKeepsReason(r: Relay, msg: Message, env: Environment)
    requires r.Valid() && WaitsWithReason(r) && msg.Notification?
    ensures var r' := OnClientNotification(r, msg, env).0; r'.Valid() && WaitsWithReason(r')
  {
    if msg.name == CancelRequest && msg.payload.CancelParams? {
      CancelKeepsReason(r, msg, msg.payload.target);
    } else if msg.name != Initialized && msg.name != CancelRequest {
      NotificationKeepsReason(Noted(r, msg), Documents.Forwarded(r.uris, msg), env);
      NotificationFrame(r, msg, env);
      IdentityStateFrame(Noted(r, msg), Documents.Forwarded(r.uris, msg), env);
    }
  }

  lemma IdentityStateFrame(r: Relay, sent: Message, env: Environment)
    ensures OnNotification(r, sent, env).0.identityState == r.identityState
  {}

  lemma ClientKeepsReason(r: Relay, msg: Message, env: Environment)
    requires r.Valid() && WaitsWithReason(r)
    ensures var r' := OnClient(r, msg, env).0; r'.Valid() && WaitsWithReason(r')
  {
    if msg.Request? {
      ClientRequestKeepsReason(r, msg, env);
    } else if msg.Notification? {
      ClientNotificationKeepsReason(r, msg, env);
    }
  }

  lemma ObservedKeepsReason(r: Relay, msg: Message, env: Environment)
    requires r.Valid() && WaitsWithReason(r) && !r.identity
    ensures var r' := OnObserved(r, msg, env).0; r'.Valid() && WaitsWithReason(r')
  {
    var changed := ObserveUpstream(r.tracked, env.who, env.reading).1;
    if changed.Some? {
      ReleasesSettle(r.queue, changed.value);
    }
  }

  lemma UpstreamKeepsReason(r: Relay, msg: Message, env: Environment)
    requires r.Valid() && WaitsWithReason(r) && !AnswersInitialize(r, msg)
    ensures var r' := OnUpstream(r, msg, env).0; r'.Valid() && WaitsWithReason(r')
  {
    if !SkipsPeek(r) && !msg.Unreadable? && !AsksForProgress(r, msg) && !r.identity {
      ObservedKeepsReason(r, msg, env);
    }
  }

  lemma ResultKeepsReason(r: Relay, msg: Message, env: Environment)
    requires r.Valid() && WaitsWithReason(r) && AnswersInitialize(r, msg)
    ensures var r' := OnInitializeResult(r, msg, env).0;
      r'.Valid() && (WaitsWithReason(r') <==> ReselectsHarmlessly(r, FromUpstream(msg, env)))
  {}

  /** Every step keeps the reason to wait, except exactly the answer to `initialize` that fails
      the guard. */
  lemma StepKeepsReason(r: Relay, e: Event)
    requires r.Valid() && WaitsWithReason(r)
    ensures Step(r, e).0.Valid()
    ensures WaitsWithReason(Step(r, e).0) <==> (IsInitializeResult(r, e) ==> ReselectsHarmlessly(r, e))
  {
    match e
    case UpstreamGone =>
    case FromClient(msg, env) => ClientKeepsReason(r, msg, env);
    case FromUpstream(msg, env) =>
      if AnswersInitialize(r, msg) {
        ResultKeepsReason(r, msg, env);
        assert !SkipsPeek(r) && !AsksForProgress(r, msg);
      } else {
        UpstreamKeepsReason(r, msg, env);
      }
  }

  /** The reason to wait holds after every prefix of the run. */
  ghost predicate AlwaysWithReason(events: seq<Event>) {
    WaitsWithReason(Final(START, events)) && (events == [] || AlwaysWithReason(events[..|events| - 1]))
  }

  ghost predicate AlwaysReselectsHarmlessly(events: seq<Event>) {
    events == [] ||
    var before, e := events[..|events| - 1], events[|events| - 1];
    && AlwaysReselectsHarmlessly(before)
    && (IsInitializeResult(Final(START, before), e) ==> ReselectsHarmlessly(Final(START, before), e))
  }

  /** For every run and any mapping: in all its states a held request has a state on the
      boundary to wait for, if and only if no answer to `initialize` fails the guard. */
  lemma {:induction false} WaitsWithReasonExactly(events: seq<Event>)
    ensures AlwaysWithReason(events) <==> AlwaysReselectsHarmlessly(events)
    ensures AlwaysWithReason(events) ==> Final(START, events).Valid()
  {
    if events != [] {
      var before, e := events[..|events| - 1], events[|events| - 1];
      WaitsWithReasonExactly(before);
      if AlwaysWithReason(before) {
        StepKeepsReason(Final(START, before), e);
      }
    }
  }

  /** A cross-workspace request from the client. */
  predicate AsksAcross(e: Event) {
    e.FromClient? && e.msg.Request? && IsCrossWorkspace(e.msg.name)
  }

  /** The client sends no cross-workspace request before the handshake is done (LSP 3.17,
      section "Initialize Request", allows it no request at all). */
  ghost predicate QuietBeforeHandshake(events: seq<Event>) {
    events == [] ||
    var before, e := events[..|events| - 1], events[|events| - 1];
    && QuietBeforeHandshake(before)
    && (AsksAcross(e) ==> Final(START, before).handshakeDone)
  }

  lemma NothingHeldBeforeHandshake(r: Relay, e: Event)
    requires !r.handshakeDone ==> r.queue.held == []
    requires AsksAcross(e) ==> r.handshakeDone
    ensures var r' := Step(r, e).0; !r'.handshakeDone ==> r'.queue.held == []
  {
    if r.handshakeDone {
      HandshakeStays(r, e);
    } else if e.FromClient? {
      NothingToHold(r, e);
    } else if e.FromUpstream? {
      UpstreamReleases(r, e.msg, e.env);
    }
  }

  lemma HandshakeStays(r: Relay, e: Event)
    requires r.handshakeDone
    ensures Step(r, e).0.handshakeDone
  {
    if !IsInitialize(e) && !e.UpstreamGone? {
      HandshakeFrame(r, e);
    }
  }

  lemma NothingToHold(r: Relay, e: Event)
    requires r.queue.held == [] && e.FromClient? && !AsksAcross(e)
    ensures Step(r, e).0.queue.held == []
  {
    if e.msg.Request? {
      RequestHoldsNothing(r, e.msg, e.env);
    } else if e.msg.Notification? && e.msg.name != Initialized && e.msg.name != CancelRequest {
      NotificationHoldsNothing(Noted(r, e.msg), Documents.Forwarded(r.uris, e.msg), e.env);
    }
  }

  lemma RequestHoldsNothing(r: Relay, msg: Message, env: Environment)
    requires r.queue.held == [] && msg.Request? && !IsCrossWorkspace(msg.name)
    ensures OnClientRequest(r, msg, env).0.queue.held == []
  {}

  lemma NotificationHoldsNothing(r: Relay, sent: Message, env: Environment)
    requires r.queue.held == []
    ensures OnNotification(r, sent, env).0.queue.held == []
  {
    var predicted := if r.identity then None else ObserveClient(r.tracked, env.reading).1;
    if predicted.Some? {
      ReleasesSettle(r.queue, predicted.value);
    }
  }

  /** The gate keeps what it holds or lets all of it go. */
  predicate OnlyReleases(before: Queue, after: Queue) {
    after.clientDecides == before.clientDecides && (after.held == [] || after.held == before.held)
  }

  lemma ObservedReleases(r: Relay, msg: Message, env: Environment)
    ensures OnlyReleases(r.queue, OnObserved(r, msg, env).0.queue)
  {
    var changed := ObserveUpstream(r.tracked, env.who, env.reading).1;
    if changed.Some? {
      ReleasesSettle(r.queue, changed.value);
    }
  }

  lemma IdentityReleases(r: Relay, msg: Message)
    ensures OnlyReleases(r.queue, OnUpstreamUnderIdentity(r, msg).0.queue)
  {
    ReleasesSettle(r.queue, UNOBSERVED);
    if !msg.Unreadable? && msg.payload.State? {
      ReleasesSettle(r.queue, msg.payload.state);
    }
  }

  lemma UpstreamReleases(r: Relay, msg: Message, env: Environment)
    ensures OnlyReleases(r.queue, OnUpstream(r, msg, env).0.queue)
  {
    if SkipsPeek(r) || msg.Unreadable? || AsksForProgress(r, msg) || AnswersInitialize(r, msg) {
      assert OnUpstream(r, msg, env).0.queue == r.queue;
    } else if r.identity {
      IdentityReleases(r, msg);
    } else {
      ObservedReleases(r, msg, env);
    }
  }

  /** With a client that keeps to LSP: nothing keeps waiting once the state is ready, unknown or
      error. */
  lemma {:induction false} NothingWaitsWithoutReason(events: seq<Event>)
    requires QuietBeforeHandshake(events)
    ensures var r := Final(START, events);
      r.Valid() && WaitsWithReason(r) && (!r.handshakeDone ==> r.queue.held == [])
    ensures var r := Final(START, events); var s := r.Boundary();
      r.queue.held != [] ==> s.health != Health.Error && (s.readiness == Initializing || s.readiness == Indexing)
  {
    if events != [] {
      var before, e := events[..|events| - 1], events[|events| - 1];
      NothingWaitsWithoutReason(before);
      StepKeepsReason(Final(START, before), e);
      NothingHeldBeforeHandshake(Final(START, before), e);
    }
  }

  /** Such a client never fails the guard. */
  lemma {:induction false} QuietReselectsHarmlessly(events: seq<Event>)
    requires QuietBeforeHandshake(events)
    ensures AlwaysReselectsHarmlessly(events)
  {
    QuietAlwaysWithReason(events);
    WaitsWithReasonExactly(events);
  }

  lemma {:induction false} QuietAlwaysWithReason(events: seq<Event>)
    requires QuietBeforeHandshake(events)
    ensures AlwaysWithReason(events)
  {
    NothingWaitsWithoutReason(events);
    if events != [] {
      QuietAlwaysWithReason(events[..|events| - 1]);
    }
  }

  /** Without the premise it can fail: a startup log selects a mapping, the client asks too early
      and is held, and `serverInfo` then names another mapping that starts as unknown. */
  lemma AnEarlyRequestCanBeStranded() returns (events: seq<Event>)
    ensures !QuietBeforeHandshake(events) && !WaitsWithReason(Final(START, events))
    ensures Answerable(Final(START, events).Boundary()) && !Final(START, events).queue.clientDecides
    ensures forall e | e in events && AsksAcross(e) :: e.msg.id == Number(2)
  {
    var quiet := Environment(None, None, None, false);
    var e0 := FromClient(Request(Number(1), Initialize, InitializeParams(false, false, false)), quiet);
    var e1 := FromUpstream(Notification(Other("window/logMessage"), Opaque(0)),
                           quiet.(who := Some(Announcement("pyright", Some(INITIALIZING)))));
    var e2 := FromClient(Request(Number(2), References, Opaque(0)), quiet);
    var e3 := FromUpstream(Response(Number(1), InitializeResult(Rewritable)),
                           quiet.(who := Some(Announcement("nil", Some(UNOBSERVED)))));
    events := [e0, e1, e2, e3];
    Stranded(e0, e1, e2, e3);
    OnlyOneAsks(e0, e1, e2, e3);
  }

  lemma Stranded(e0: Event, e1: Event, e2: Event, e3: Event)
    requires e0.FromClient? && e0.msg == Request(Number(1), Initialize, InitializeParams(false, false, false)) && !e0.env.usableRoots
    requires e1.FromUpstream? && e1.msg == Notification(Other("window/logMessage"), Opaque(0))
    requires e1.env == Environment(None, Some(Announcement("pyright", Some(INITIALIZING))), None, false)
    requires AsksAcross(e2)
    requires e3.FromUpstream? && e3.msg == Response(Number(1), InitializeResult(Rewritable))
    requires e3.env.who == Some(Announcement("nil", Some(UNOBSERVED)))
    ensures var events, last := [e0, e1, e2, e3], Final(START, [e0, e1, e2, e3]);
      && !QuietBeforeHandshake(events) && !WaitsWithReason(last)
      && Answerable(last.Boundary()) && !last.queue.clientDecides
  {
    FirstInitialize(e0);
    var r := StartupLogAdopts(Step(START, e0).0, e1);
    StrandedAfter(r, e2, e3);
    FinalOfFour(e0, e1, e2, e3);
  }

  lemma FirstInitialize(e: Event)
    requires e.FromClient? && e.msg == Request(Number(1), Initialize, InitializeParams(false, false, false)) && !e.env.usableRoots
    ensures Step(START, e).0 == START.(initializeId := Some(Number(1)))
  {}

  lemma StrandedAfter(r: Relay, e2: Event, e3: Event)
    requires AsksAcross(e2) && !r.queue.clientDecides && Loading(r.Boundary()) && !r.handshakeDone && !r.identity
    requires e3.FromUpstream? && AnswersInitialize(r, e3.msg) && r.tracked.identity == Some("pyright")
    requires e3.msg.payload == InitializeResult(Rewritable) && e3.env.who == Some(Announcement("nil", Some(UNOBSERVED)))
    ensures var last := Step(Step(r, e2).0, e3).0;
      !WaitsWithReason(last) && Answerable(last.Boundary()) && !last.queue.clientDecides
  {
    EarlyRequestIsHeld(r, e2);
    ReselectionStrands(Step(r, e2).0, e3);
  }

  lemma OnlyOneAsks(e0: Event, e1: Event, e2: Event, e3: Event)
    requires !AsksAcross(e0) && !AsksAcross(e1) && !AsksAcross(e3) && e2.FromClient? && e2.msg.Request?
    ensures forall e | e in [e0, e1, e2, e3] && AsksAcross(e) :: e.msg.id == e2.msg.id
  {}

  lemma StartupLogAdopts(r: Relay, e: Event) returns (r': Relay)
    requires e.FromUpstream? && e.msg == Notification(Other("window/logMessage"), Opaque(0))
    requires e.env == Environment(None, Some(Announcement("pyright", Some(INITIALIZING))), None, false)
    requires r == START.(initializeId := Some(Number(1)))
    ensures r' == Step(r, e).0 == r.(tracked := Tracked(INITIALIZING, true, Some("pyright"), false))
  {
    r' := OnObserved(r, e.msg, e.env).0;
  }

  lemma EarlyRequestIsHeld(r: Relay, e: Event)
    requires AsksAcross(e) && !r.queue.clientDecides && Loading(r.Boundary())
    ensures Step(r, e).0 == r.(queue := r.queue.(held := r.queue.held + [HeldRequest(e.msg.id, e.msg.name, e.msg)]))
  {
    assert Step(r, e) == OnOtherRequest(r, e.msg, e.env);
  }

  lemma ReselectionStrands(r: Relay, e: Event)
    requires r.queue.held != [] && !r.handshakeDone && IsInitializeResult(r, e) && !r.identity
    requires e.msg.payload == InitializeResult(Rewritable) && e.env.who == Some(Announcement("nil", Some(UNOBSERVED)))
    requires r.tracked.identity == Some("pyright")
    ensures !WaitsWithReason(Step(r, e).0) && Answerable(Step(r, e).0.Boundary())
    ensures Step(r, e).0.queue == r.queue
  {
    assert |"nil"| != |"pyright"|;
    assert Step(r, e) == OnInitializeResult(r, e.msg, e.env);
  }

  lemma FinalOfFour(e0: Event, e1: Event, e2: Event, e3: Event)
    ensures Final(START, [e0, e1, e2, e3]) == Step(Step(Step(Step(START, e0).0, e1).0, e2).0, e3).0
    ensures AsksAcross(e2) && !Step(Step(START, e0).0, e1).0.handshakeDone ==> !QuietBeforeHandshake([e0, e1, e2, e3])
  {
    assert [e0, e1, e2, e3][..3] == [e0, e1, e2] && [e0, e1, e2][..2] == [e0, e1] && [e0, e1][..1] == [e0] && [e0][..0] == [];
    assert Final(START, [e0]) == Step(START, e0).0;
    assert Final(START, [e0, e1]) == Step(Final(START, [e0]), e1).0;
    assert Final(START, [e0, e1, e2]) == Step(Final(START, [e0, e1]), e2).0;
    if AsksAcross(e2) && !Step(Step(START, e0).0, e1).0.handshakeDone {
      assert !QuietBeforeHandshake([e0, e1, e2]);
    }
  }
}
