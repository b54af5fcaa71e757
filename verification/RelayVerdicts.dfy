/** What becomes of the requests the gate decides on, told on the axes of the state and on what is
    written (src/gate.rs, src/proxy.rs). */
module RelayVerdicts {
  import opened Wrappers
  import opened ServerStates
  import opened Histories
  import opened Messages
  import opened Documents
  import opened Gates
  import opened Tracking
  import opened Relaying
  import opened RelayRuns
  import opened RelaySafety
  import opened RelayOrder
  import opened RelayContents
  import opened RelayDocuments

  // --- A cross-workspace request ------------------------------------------------------------

  /** The error that answers a request at a failing server. */
  function ErrorFor(id: RequestId, state: ServerState): Message {
    Response(id, Failure(-32803, HealthIsError(state.message)))
  }

  /** A request that goes across the workspace is none of those the relay treats by itself. */
  lemma AcrossIsOther(r: Relay, e: Event)
    requires AsksAcross(e)
    ensures Step(r, e) == OnOtherRequest(r, e.msg, e.env)
  {}

  lemma DecisionExactly(r: Relay, msg: Message, env: Environment)
    requires msg.Request? && IsCrossWorkspace(msg.name) && !r.queue.clientDecides
    ensures var s, (r', outs) := r.Boundary(), OnOtherRequest(r, msg, env);
      && (ToUpstream(msg, false) in outs <==>
            s.health != Health.Error && (s.readiness == Ready || s.readiness == Readiness.Unknown))
      && (forall o | o in outs && o.ToClient? :: o == ToClient(ErrorFor(msg.id, s), true))
      && (ToClient(ErrorFor(msg.id, s), true) in outs <==> s.health == Health.Error)
      && (if s.health != Health.Error && (s.readiness == Initializing || s.readiness == Indexing)
          then r'.queue.held == r.queue.held + [HeldRequest(msg.id, msg.name, msg)]
          else r'.queue.held == r.queue.held)
      && r'.Boundary() == s && !r'.queue.clientDecides
  {
    var told, decided := ToldFirst(r, msg, env), DecisionOuts(Decide(r.queue, msg, msg.id, msg.name, r.Boundary()).1);
    assert OnOtherRequest(r, msg, env).1 == told + decided;
    assert ToUpstream(msg, false) !in told && forall o | o in told :: !o.ToClient?;
    VerdictIsOnTheAxes(r.Boundary(), r.Boundary());
    if VerdictOf(r.Boundary()) == Forward {
      assert decided == [ToUpstream(msg, false)] && decided[0] in told + decided;
    } else if VerdictOf(r.Boundary()) == Reject {
      assert decided == [ToClient(ErrorFor(msg.id, r.Boundary()), true)] && decided[0] in told + decided;
    }
  }

  /** For a client that does not declare, at every step of every run that takes a cross-workspace
      request: it is written upstream iff health is not error and readiness is ready or unknown, answered
      with an error, and nothing else, iff health is error, and held last otherwise. */
  lemma CrossRequestExactly(events: seq<Event>, e: Event)
    requires NeverDeclares(events) && AsksAcross(e)
    ensures var r := Final(START, events); var s, (r', outs) := r.Boundary(), Step(r, e);
      && (ToUpstream(e.msg, false) in outs <==>
            s.health != Health.Error && (s.readiness == Ready || s.readiness == Readiness.Unknown))
      && (forall o | o in outs && o.ToClient? :: o == ToClient(ErrorFor(e.msg.id, s), true))
      && (ToClient(ErrorFor(e.msg.id, s), true) in outs <==> s.health == Health.Error)
      && (if s.health != Health.Error && (s.readiness == Initializing || s.readiness == Indexing)
          then r'.queue.held == r.queue.held + [HeldRequest(e.msg.id, e.msg.name, e.msg)]
          else r'.queue.held == r.queue.held)
  {
    NobodyDecides(events);
    AcrossIsOther(Final(START, events), e);
    DecisionExactly(Final(START, events), e.msg, e.env);
  }

  /** A client that declares decides for itself: its requests are never held and never refused, and
      neither is a request of any client that does not go across the workspace. */
  lemma NeverHeld(r: Relay, msg: Message, env: Environment)
    requires msg.Request? && (r.queue.clientDecides || !IsCrossWorkspace(msg.name))
    requires msg.name != ServerStateRequest && msg.name != Initialize && msg.name != Shutdown
    ensures var (r', outs) := OnClient(r, msg, env);
      ToUpstream(msg, false) in outs && (forall o | o in outs :: o.ToUpstream?) && r'.queue == r.queue
  {
    var told := ToldFirst(r, msg, env);
    assert OnClient(r, msg, env).1 == told + [ToUpstream(msg, false)];
    assert (told + [ToUpstream(msg, false)])[|told|] == ToUpstream(msg, false);
  }

  // --- What the client declared -------------------------------------------------------------

  predicate DeclaresState(before: seq<Event>, e: Event) {
    IsInitialize(e) && e.msg.payload.InitializeParams? && e.msg.payload.declaresState
  }

  predicate DeclaresProgress(before: seq<Event>, e: Event) {
    IsInitialize(e) && e.msg.payload.InitializeParams? && e.msg.payload.declaresProgress
  }

  predicate InitializesAgain(before: seq<Event>, e: Event) { IsInitialize(e) }

  predicate SameDeclarations(r: Relay, r': Relay) {
    r'.clientDeclared == r.clientDeclared && r'.clientDeclaredProgress == r.clientDeclaredProgress
  }

  lemma RequestDeclarations(r: Relay, msg: Message, env: Environment)
    requires msg.Request? && msg.name != Initialize
    ensures SameDeclarations(r, OnClientRequest(r, msg, env).0)
  {}

  lemma NotificationDeclarations(r: Relay, msg: Message, env: Environment)
    requires msg.Notification?
    ensures SameDeclarations(r, OnClientNotification(r, msg, env).0)
  {}

  lemma UpstreamDeclarations(r: Relay, msg: Message, env: Environment)
    ensures SameDeclarations(r, OnUpstream(r, msg, env).0)
  {}

  lemma DeclarationsStep(r: Relay, e: Event)
    ensures !IsInitialize(e) ==> SameDeclarations(r, Step(r, e).0)
    ensures IsInitialize(e) ==> Step(r, e).0.clientDeclared == DeclaresState([], e)
    ensures IsInitialize(e) ==> Step(r, e).0.clientDeclaredProgress == DeclaresProgress([], e)
  {
    if e.FromUpstream? {
      UpstreamDeclarations(r, e.msg, e.env);
    } else if e.FromClient? && e.msg.Notification? {
      NotificationDeclarations(r, e.msg, e.env);
    } else if e.FromClient? && e.msg.Request? && !IsInitialize(e) {
      RequestDeclarations(r, e.msg, e.env);
    }
  }

  /** In every run: who decides about holding, who is notified, and who is asked for progress, is what the
      last `initialize` declared. */
  lemma {:induction false} DeclaredExactly(events: seq<Event>)
    ensures var r := Final(START, events);
      && (r.queue.clientDecides <==> Since(events, DeclaresState, InitializesAgain))
      && (r.clientDeclared <==> Since(events, DeclaresState, InitializesAgain))
      && (r.clientDeclaredProgress <==> Since(events, DeclaresProgress, InitializesAgain))
  {
    if events != [] {
      var before, e := events[..|events| - 1], events[|events| - 1];
      DeclaredExactly(before);
      SplitLast(events);
      SinceStep(before, e, DeclaresState, InitializesAgain);
      SinceStep(before, e, DeclaresProgress, InitializesAgain);
      DeclarationsStep(Final(START, before), e);
      ClientDecidesFrame(Final(START, before), e);
    }
  }

  // --- A change of the state ----------------------------------------------------------------

  /** What lsp-det answers itself, in order. */
  function OwnAnswers(outs: seq<Out>): seq<Message> {
    if outs == [] then [] else OwnAnswer(outs[0]) + OwnAnswers(outs[1..])
  }

  function OwnAnswer(o: Out): seq<Message> { if o.ToClient? && o.own && o.msg.Response? then [o.msg] else [] }

  lemma {:induction false} OwnAnswersConcat(a: seq<Out>, b: seq<Out>)
    ensures OwnAnswers(a + b) == OwnAnswers(a) + OwnAnswers(b)
  {
    if a == [] {
      assert a + b == b;
    } else {
      assert (a + b)[1..] == a[1..] + b && (a + b)[0] == a[0];
      OwnAnswersConcat(a[1..], b);
      Associative(OwnAnswer(a[0]), OwnAnswers(a[1..]), OwnAnswers(b));
    }
  }

  lemma {:induction false} NoOwnAnswers(outs: seq<Out>)
    requires forall o | o in outs :: OwnAnswer(o) == []
    ensures OwnAnswers(outs) == []
  {
    if outs != [] {
      assert OwnAnswer(outs[0]) == [];
      NoOwnAnswers(outs[1..]);
    }
  }

  lemma {:induction false} AllOwnAnswers(msgs: seq<Message>)
    requires forall i | 0 <= i < |msgs| :: msgs[i].Response?
    ensures OwnAnswers(AllToClient(msgs, true)) == msgs
  {
    if msgs != [] {
      assert AllToClient(msgs, true)[1..] == AllToClient(msgs[1..], true);
      AllOwnAnswers(msgs[1..]);
      assert [msgs[0]] + msgs[1..] == msgs;
    }
  }

  /** The error for each held request, in order. */
  function ErrorsFor(held: seq<HeldRequest>, state: ServerState): seq<Message> {
    seq(|held|, i requires 0 <= i < |held| => ErrorFor(held[i].id, state))
  }

  /** What waits goes upstream in order at an answerable state, is answered with errors at a failing
      one, and stays otherwise; nothing else is written of either kind. */
  predicate Settled(before: Queue, outs: seq<Out>, after: Queue, s: ServerState) {
    && CrossWritten(outs) == (if Answerable(s) then HeldMessages(before.held) else [])
    && OwnAnswers(outs) == (if Failing(s) then ErrorsFor(before.held, s) else [])
    && after.held == if Loading(s) then before.held else []
  }

  lemma ReleasesSettleAll(q: Queue, state: ServerState)
    requires q.Valid()
    ensures Settled(q, Releases(q, state).1, Releases(q, state).0, state)
  {
    var outs := Releases(q, state).1;
    if Answerable(state) {
      AllCrossWritten(q.held);
      NoOwnAnswers(outs);
    } else if Failing(state) {
      NoneCrossWritten(outs);
      AllOwnAnswers(Answers(q.held, REQUEST_FAILED, HealthIsError(state.message)));
      assert Answers(q.held, REQUEST_FAILED, HealthIsError(state.message)) == ErrorsFor(q.held, state);
    }
  }

  lemma Surrounded(before: Queue, first: seq<Out>, outs: seq<Out>, last: seq<Out>, after: Queue, s: ServerState)
    requires Settled(before, outs, after, s)
    requires forall o | o in first || o in last :: !IsCrossWrite(o) && OwnAnswer(o) == []
    ensures Settled(before, first + outs + last, after, s)
  {
    NoneCrossWritten(first);
    NoneCrossWritten(last);
    NoOwnAnswers(first);
    NoOwnAnswers(last);
    CrossWrittenConcat(first + outs, last);
    CrossWrittenConcat(first, outs);
    OwnAnswersConcat(first + outs, last);
    OwnAnswersConcat(first, outs);
    NothingAround(CrossWritten(outs));
    NothingAround(OwnAnswers(outs));
  }

  lemma NothingAround<T>(a: seq<T>)
    ensures [] + a + [] == a
  {}

  lemma QuietlySettled(r: Relay, outs: seq<Out>, r': Relay)
    requires WaitsWithReason(r) && r'.queue == r.queue && (r.queue.held == [] || SameAxes(r.Boundary(), r'.Boundary()))
    requires forall o | o in outs :: !IsCrossWrite(o) && OwnAnswer(o) == []
    ensures Settled(r.queue, outs, r'.queue, r'.Boundary())
  {
    NoneCrossWritten(outs);
    NoOwnAnswers(outs);
    if r.queue.held == [] {
      assert HeldMessages([]) == [] && ErrorsFor([], r'.Boundary()) == [];
    }
  }

  lemma NotificationSettles(r: Relay, sent: Message, env: Environment)
    requires r.queue.Valid() && WaitsWithReason(r) && !sent.Request?
    ensures var (r', outs) := OnNotification(r, sent, env); Settled(r.queue, outs, r'.queue, r'.Boundary())
  {
    var first := [ToUpstream(sent, false)];
    var predicted := if r.identity then None else ObserveClient(r.tracked, env.reading).1;
    if predicted.Some? {
      var (q, released) := Releases(r.queue, predicted.value);
      ReleasesSettleAll(r.queue, predicted.value);
      Surrounded(r.queue, first, released, Notify(r.clientDeclared, r.identity, predicted.value), q, predicted.value);
    } else {
      QuietlySettled(r, first, OnNotification(r, sent, env).0);
    }
  }

  lemma ObservedSettles(r: Relay, msg: Message, env: Environment)
    requires r.queue.Valid() && r.tracked.Valid() && WaitsWithReason(r) && !r.identity
    ensures var (r', outs) := OnObserved(r, msg, env); Settled(r.queue, outs, r'.queue, r'.Boundary())
  {
    var first := [ToClient(msg, false)];
    var (tracked, changed) := ObserveUpstream(r.tracked, env.who, env.reading);
    if changed.Some? {
      ChangeSettles(r, first, changed.value);
      ChangedIsState(r, env);
      assert OnObserved(r, msg, env).1 ==
        first + Notify(r.clientDeclared, r.identity, changed.value) + Releases(r.queue, changed.value).1;
    } else {
      UnchangedBoundary(r, env);
      assert OnObserved(r, msg, env) == (r.(tracked := tracked), first);
      QuietlySettled(r, first, r.(tracked := tracked));
    }
  }

  lemma ChangedIsState(r: Relay, env: Environment)
    ensures var (tracked, changed) := ObserveUpstream(r.tracked, env.who, env.reading);
      changed.Some? ==> changed.value == tracked.state
  {}

  lemma ChangeSettles(r: Relay, first: seq<Out>, state: ServerState)
    requires r.queue.Valid() && forall o | o in first :: !IsCrossWrite(o) && OwnAnswer(o) == []
    ensures var (q, released) := Releases(r.queue, state);
      Settled(r.queue, first + Notify(r.clientDeclared, r.identity, state) + released, q, state)
  {
    var (q, released) := Releases(r.queue, state);
    var told := first + Notify(r.clientDeclared, r.identity, state);
    ReleasesSettleAll(r.queue, state);
    Surrounded(r.queue, told, released, [], q, state);
    assert told + released + [] == told + released;
  }

  /** An observation that changes nothing keeps the axes, or it announces the first mapping; and
      without a mapping nothing waits. */
  lemma UnchangedBoundary(r: Relay, env: Environment)
    requires r.tracked.Valid() && WaitsWithReason(r) && !r.identity
    requires ObserveUpstream(r.tracked, env.who, env.reading).1.None?
    ensures r.queue.held == [] || SameAxes(r.tracked.state, ObserveUpstream(r.tracked, env.who, env.reading).0.state)
  {}

  lemma IdentitySettles(r: Relay, msg: Message)
    requires r.queue.Valid() && WaitsWithReason(r) && r.identity
    ensures var (r', outs) := OnUpstreamUnderIdentity(r, msg); Settled(r.queue, outs, r'.queue, r'.Boundary())
  {
    var first := [ToClient(msg, false)];
    if msg.Response? && msg.id == SELF_STATE_REQUEST_ID {
      ReleasesSettleAll(r.queue, if msg.payload.State? then msg.payload.state else UNOBSERVED);
    } else if msg.Notification? && msg.name == ServerStateChanged && msg.payload.State? {
      var state := msg.payload.state;
      var (q, released) := Releases(r.queue, state);
      var passed := if r.clientDeclared then first else [];
      ReleasesSettleAll(r.queue, state);
      Surrounded(r.queue, passed, released, [], q, state);
      assert passed + released + [] == passed + released;
    } else {
      QuietlySettled(r, OnUpstreamUnderIdentity(r, msg).1, OnUpstreamUnderIdentity(r, msg).0);
    }
  }

  lemma UpstreamSettles(r: Relay, msg: Message, env: Environment)
    requires r.queue.Valid() && r.tracked.Valid() && WaitsWithReason(r) && !AnswersInitialize(r, msg)
    ensures var (r', outs) := OnUpstream(r, msg, env); Settled(r.queue, outs, r'.queue, r'.Boundary())
  {
    if SkipsPeek(r) || msg.Unreadable? || AsksForProgress(r, msg) {
      QuietlySettled(r, OnUpstream(r, msg, env).1, OnUpstream(r, msg, env).0);
    } else if r.identity {
      IdentitySettles(r, msg);
    } else {
      ObservedSettles(r, msg, env);
    }
  }

  /** A message that can move the state: any of the upstream but its answer to `initialize`, and a
      notification of the client but a cancellation. */
  predicate MayMove(r: Relay, e: Event) {
    || (e.FromUpstream? && !AnswersInitialize(r, e.msg))
    || (e.FromClient? && e.msg.Notification? && e.msg.name != CancelRequest)
  }

  lemma InitializedSettles(r: Relay, msg: Message)
    requires WaitsWithReason(r) && !msg.Request?
    ensures var (r', outs) := OnInitialized(r, msg); Settled(r.queue, outs, r'.queue, r'.Boundary())
  {
    QuietlySettled(r, OnInitialized(r, msg).1, OnInitialized(r, msg).0);
  }

  lemma ClientNotificationSettles(r: Relay, msg: Message, env: Environment)
    requires r.queue.Valid() && WaitsWithReason(r) && msg.Notification? && msg.name != CancelRequest
    ensures var (r', outs) := OnClientNotification(r, msg, env); Settled(r.queue, outs, r'.queue, r'.Boundary())
  {
    if msg.name == Initialized {
      InitializedSettles(r, msg);
    } else {
      assert Noted(r, msg).queue == r.queue && Noted(r, msg).Boundary() == r.Boundary();
      NotificationSettles(Noted(r, msg), Documents.Forwarded(r.uris, msg), env);
    }
  }

  /** In every run with a client that keeps to LSP, at every step that can move the state: if the state
      is then answerable, exactly what waited is written upstream, in order; if it is failing, exactly
      what waited is answered, with errors that carry its message; if it is loading, nothing is. */
  lemma StateStepExactly(events: seq<Event>, e: Event)
    requires QuietBeforeHandshake(events) && MayMove(Final(START, events), e)
    ensures var r := Final(START, events); var (r', outs) := Step(r, e); var s := r'.Boundary();
      && CrossWritten(outs) == (if s.health != Health.Error && (s.readiness == Ready || s.readiness == Readiness.Unknown)
                                then HeldMessages(r.queue.held) else [])
      && OwnAnswers(outs) == (if s.health == Health.Error then ErrorsFor(r.queue.held, s) else [])
      && r'.queue.held == if s.health != Health.Error && (s.readiness == Initializing || s.readiness == Indexing)
                          then r.queue.held else []
  {
    var r := Final(START, events);
    NothingWaitsWithoutReason(events);
    EveryRequestIsAccountedFor(events, Number(0));
    if e.FromUpstream? {
      UpstreamSettles(r, e.msg, e.env);
    } else {
      ClientNotificationSettles(r, e.msg, e.env);
    }
  }

  // --- Which answers lsp-det gives ----------------------------------------------------------

  /** The answers to what waits when the client shuts down, and when the upstream is gone. */
  function ShutdownErrors(held: seq<HeldRequest>): seq<Message> {
    seq(|held|, i requires 0 <= i < |held| => Response(held[i].id, Failure(-32803, ShutdownWhileWaiting)))
  }

  function GoneErrors(held: seq<HeldRequest>): seq<Message> {
    seq(|held|, i requires 0 <= i < |held| => Response(held[i].id, Failure(-32603, ExitedWhileWaiting)))
  }

  /** A cancellation answers the first held request with the id, and the rest keeps waiting. */
  lemma CancelExactly(r: Relay, e: Event)
    requires e.FromClient? && e.msg.Notification? && e.msg.name == CancelRequest && e.msg.payload.CancelParams?
    ensures CancelsFirst(r.queue.held, e.msg.payload.target, e.msg, Step(r, e).0.queue.held, Step(r, e).1)
  {
    assert Step(r, e) == OnCancel(r, e.msg, e.msg.payload.target);
  }

  /** A shutdown is passed on after all that waited has been answered. */
  lemma ShutdownExactly(r: Relay, e: Event)
    requires e.FromClient? && e.msg.Request? && e.msg.name == Shutdown
    ensures Step(r, e).1 == AllToClient(ShutdownErrors(r.queue.held), true) + [ToUpstream(e.msg, false)]
    ensures Step(r, e).0.queue.held == []
  {
    assert Step(r, e) == OnShutdown(r, e.msg);
    assert Answers(r.queue.held, REQUEST_FAILED, ShutdownWhileWaiting) == ShutdownErrors(r.queue.held);
  }

  /** When the upstream is gone, an open `initialize` is answered, and all that waited. */
  lemma GoneExactly(r: Relay)
    ensures var (r', outs) := Step(r, UpstreamGone);
      && r'.queue.held == []
      && outs == (if !r.handshakeDone && r.initializeId.Some?
                  then [ToClient(Response(r.initializeId.value, Failure(-32603, ExitedBeforeInitialize)), true)] else [])
                 + AllToClient(GoneErrors(r.queue.held), true)
  {
    assert Answers(r.queue.held, INTERNAL_ERROR, ExitedWhileWaiting) == GoneErrors(r.queue.held);
  }

  predicate CancelsFirst(held: seq<HeldRequest>, target: RequestId, msg: Message, held': seq<HeldRequest>, outs: seq<Out>) {
    if exists h | h in held :: h.id == target then
      && outs == [ToClient(Response(target, Failure(-32800, CancelledWhileWaiting)), true)]
      && exists i | 0 <= i < |held| ::
           held[i].id == target && (forall j | 0 <= j < i :: held[j].id != target) && held' == held[..i] + held[i + 1..]
    else outs == [ToUpstream(msg, false)] && held' == held
  }

  // --- What comes first ---------------------------------------------------------------------

  /** Whatever lsp-det adds to a message it passes on comes after it: released requests, answers and
      notified states after the notification or the upstream message that moved the state. */
  lemma PassedOnFirst(r: Relay, e: Event)
    ensures e.FromUpstream? && Share(r, e.msg) != [] ==> |Step(r, e).1| > 0 && Step(r, e).1[0] == ToClient(Share(r, e.msg)[0], false)
    ensures e.FromClient? && UpShare(r, e.msg) != [] ==> |Step(r, e).1| > 0 && Step(r, e).1[0] == ToUpstream(UpShare(r, e.msg)[0], false)
  {
    if e.FromClient? && e.msg.Notification? && UpShare(r, e.msg) != [] {
      NotificationFirst(r, e.msg, e.env);
    } else if e.FromUpstream? && Share(r, e.msg) != [] {
      UpstreamFirst(r, e.msg, e.env);
    }
  }

  lemma NotificationFirst(r: Relay, msg: Message, env: Environment)
    requires msg.Notification? && UpShare(r, msg) != []
    ensures var outs := OnClientNotification(r, msg, env).1; |outs| > 0 && outs[0] == ToUpstream(UpShare(r, msg)[0], false)
  {}

  lemma UpstreamFirst(r: Relay, msg: Message, env: Environment)
    requires Share(r, msg) != []
    ensures var outs := OnUpstream(r, msg, env).1; |outs| > 0 && outs[0] == ToClient(Share(r, msg)[0], false)
  {}

  /** Before a cross-workspace request, and only then, the upstream is told of the files that changed on
      disk: first, and once. */
  lemma DifferenceFirst(r: Relay, msg: Message, env: Environment)
    requires msg.Request? && IsCrossWorkspace(msg.name) && r.watching && env.difference.Some?
    ensures var outs := OnClient(r, msg, env).1;
      && |outs| > 0 && outs[0] == ToUpstream(env.difference.value, true)
      && forall i | 0 < i < |outs| :: !(outs[i].ToUpstream? && outs[i].own)
  {}
}
