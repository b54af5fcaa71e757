/** Whole runs of the relay: any sequence of events from either side, in any interleaving, with
    any mapping. */
module RelayRuns {
  import opened Wrappers
  import opened ServerStates
  import opened Messages
  import opened Documents
  import opened Gates
  import opened Tracking
  import opened Relaying

  function Final(r: Relay, events: seq<Event>): Relay {
    if events == [] then r
    else Step(Final(r, events[..|events| - 1]), events[|events| - 1]).0
  }

  /** Everything written to either side, in order. */
  function Written(r: Relay, events: seq<Event>): seq<Out> {
    if events == [] then []
    else
      var before := events[..|events| - 1];
      Written(r, before) + Step(Final(r, before), events[|events| - 1]).1
  }

  lemma OneMoreEvent(r: Relay, before: seq<Event>, e: Event)
    ensures Final(r, before + [e]) == Step(Final(r, before), e).0
    ensures Written(r, before + [e]) == Written(r, before) + Step(Final(r, before), e).1
  {
    assert (before + [e])[..|before|] == before;
  }

  // --- Counting ids ---------------------------------------------------------------------

  function One(b: bool): nat { if b then 1 else 0 }

  /** What a write does for a client request: it is forwarded (as it is, rewritten, or after
      waiting); it is answered by lsp-det instead; or it is an `initialize` that was forwarded
      and is answered by lsp-det after the upstream disappeared. */
  datatype Fate = Forwarding | Answering | FailingInitialize

  predicate FailsInitialize(o: Out) {
    o.ToClient? && o.own && o.msg.Response? && o.msg.payload.Failure? && o.msg.payload.reason == ExitedBeforeInitialize
  }

  predicate Settles(o: Out, fate: Fate, id: RequestId) {
    match fate
    case Forwarding => o.ToUpstream? && !o.own && o.msg.Request? && o.msg.id == id
    case Answering => o.ToClient? && o.own && o.msg.Response? && !FailsInitialize(o) && o.msg.id == id
    case FailingInitialize => FailsInitialize(o) && o.msg.id == id
  }

  /** How many writes settle requests with this id in one way. */
  function Tally(outs: seq<Out>, fate: Fate, id: RequestId): nat {
    if outs == [] then 0 else One(Settles(outs[0], fate, id)) + Tally(outs[1..], fate, id)
  }

  /** How many requests with this id wait. */
  function Waiting(held: seq<HeldRequest>, id: RequestId): nat {
    if held == [] then 0 else One(held[0].id == id) + Waiting(held[1..], id)
  }

  function Arrives(e: Event, id: RequestId): nat {
    One(e.FromClient? && e.msg.Request? && e.msg.id == id)
  }

  /** How many requests with this id came from the client. */
  function Arrived(events: seq<Event>, id: RequestId): nat {
    if events == [] then 0 else Arrived(events[..|events| - 1], id) + Arrives(events[|events| - 1], id)
  }

  lemma {:induction false} TallyConcat(a: seq<Out>, b: seq<Out>, id: RequestId)
    ensures Tally(a + b, Forwarding, id) == Tally(a, Forwarding, id) + Tally(b, Forwarding, id)
    ensures Tally(a + b, Answering, id) == Tally(a, Answering, id) + Tally(b, Answering, id)
    ensures Tally(a + b, FailingInitialize, id) == Tally(a, FailingInitialize, id) + Tally(b, FailingInitialize, id)
  {
    if a == [] {
      assert a + b == b;
    } else {
      assert (a + b)[1..] == a[1..] + b;
      TallyConcat(a[1..], b, id);
    }
  }

  lemma TallyOne(o: Out, id: RequestId)
    ensures Tally([o], Forwarding, id) == One(Settles(o, Forwarding, id))
    ensures Tally([o], Answering, id) == One(Settles(o, Answering, id))
    ensures Tally([o], FailingInitialize, id) == One(Settles(o, FailingInitialize, id))
  {
    assert [o][1..] == [];
  }

  lemma WaitingOne(h: HeldRequest, id: RequestId)
    ensures Waiting([h], id) == One(h.id == id)
  {
    assert [h][1..] == [];
  }

  lemma {:induction false} WaitingConcat(a: seq<HeldRequest>, b: seq<HeldRequest>, id: RequestId)
    ensures Waiting(a + b, id) == Waiting(a, id) + Waiting(b, id)
  {
    if a == [] {
      assert a + b == b;
    } else {
      assert (a + b)[1..] == a[1..] + b;
      WaitingConcat(a[1..], b, id);
    }
  }

  lemma {:induction false} TallyOfAnswers(held: seq<HeldRequest>, code: int, reason: Reason, id: RequestId)
    requires reason != ExitedBeforeInitialize
    ensures var outs := AllToClient(Answers(held, code, reason), true);
      && Tally(outs, Answering, id) == Waiting(held, id)
      && Tally(outs, Forwarding, id) == Tally(outs, FailingInitialize, id) == 0
  {
    if held != [] {
      TallyOfAnswers(held[1..], code, reason, id);
      assert AllToClient(Answers(held, code, reason), true)[1..] == AllToClient(Answers(held[1..], code, reason), true);
    }
  }

  lemma {:induction false} TallyOfHeld(held: seq<HeldRequest>, id: RequestId)
    requires forall h | h in held :: h.Valid()
    ensures var outs := AllToUpstream(HeldMessages(held), false);
      && Tally(outs, Forwarding, id) == Waiting(held, id)
      && Tally(outs, Answering, id) == Tally(outs, FailingInitialize, id) == 0
  {
    if held != [] {
      assert held[0].Valid();
      TallyOfHeld(held[1..], id);
      assert AllToUpstream(HeldMessages(held), false)[1..] == AllToUpstream(HeldMessages(held[1..]), false);
    }
  }

  // --- Every request is accounted for ---------------------------------------------------

  /** What the writes of one step account for: requests forwarded or answered, plus what waits
      afterwards, are the requests that waited before, plus those that arrived. `failing` says
      how many times an outstanding `initialize` is answered. */
  ghost predicate Accounts(arrived: nat, before: Queue, outs: seq<Out>, after: Queue, failing: nat, id: RequestId) {
    && arrived + Waiting(before.held, id) ==
       Tally(outs, Forwarding, id) + Tally(outs, Answering, id) + Waiting(after.held, id)
    && Tally(outs, FailingInitialize, id) == failing
    && after.Valid()
  }

  lemma ReleasesAccount(q: Queue, state: ServerState, id: RequestId)
    requires q.Valid()
    ensures Accounts(0, q, Releases(q, state).1, Releases(q, state).0, 0, id)
  {
    TallyOfHeld(q.held, id);
    TallyOfAnswers(q.held, REQUEST_FAILED, HealthIsError(state.message), id);
  }

  /** Writes that carry neither a request nor an answer of lsp-det to one settle nothing. */
  lemma {:induction false} SurroundingsDoNotCount(arrived: nat, before: Queue, outs: seq<Out>, after: Queue, failing: nat,
                                                  first: seq<Out>, last: seq<Out>, id: RequestId)
    requires Accounts(arrived, before, outs, after, failing, id)
    requires forall o, fate | o in first || o in last :: !Settles(o, fate, id)
    ensures Accounts(arrived, before, first + outs + last, after, failing, id)
  {
    TallyConcat(first + outs, last, id);
    TallyConcat(first, outs, id);
    NothingSettled(first, id);
    NothingSettled(last, id);
  }

  lemma {:induction false} NothingSettled(outs: seq<Out>, id: RequestId)
    requires forall o, fate | o in outs :: !Settles(o, fate, id)
    ensures Tally(outs, Forwarding, id) == Tally(outs, Answering, id) == Tally(outs, FailingInitialize, id) == 0
  {
    if outs != [] {
      NothingSettled(outs[1..], id);
    }
  }

  /** A step that leaves the queue alone and writes nothing that settles a request. */
  lemma QuietStep(q: Queue, outs: seq<Out>, id: RequestId)
    requires q.Valid()
    requires forall o, fate | o in outs :: !Settles(o, fate, id)
    ensures Accounts(0, q, outs, q, 0, id)
  {
    NothingSettled(outs, id);
  }

  lemma NotificationAccounts(r: Relay, sent: Message, env: Environment, id: RequestId)
    requires r.queue.Valid() && !sent.Request?
    ensures Accounts(0, r.queue, OnNotification(r, sent, env).1, OnNotification(r, sent, env).0.queue, 0, id)
  {
    var first := [ToUpstream(sent, false)];
    var predicted := if r.identity then None else ObserveClient(r.tracked, env.reading).1;
    if predicted.Some? {
      var (q, released) := Releases(r.queue, predicted.value);
      ReleasesAccount(r.queue, predicted.value, id);
      SurroundingsDoNotCount(0, r.queue, released, q, 0, first, Notify(r.clientDeclared, r.identity, predicted.value), id);
    } else {
      QuietStep(r.queue, first, id);
    }
  }

  lemma WaitingWithout(held: seq<HeldRequest>, i: nat, id: RequestId)
    requires i < |held|
    ensures Waiting(held, id) == Waiting(held[..i] + held[i + 1..], id) + One(held[i].id == id)
  {
    assert held == held[..i] + ([held[i]] + held[i + 1..]);
    WaitingConcat(held[..i], [held[i]] + held[i + 1..], id);
    WaitingConcat([held[i]], held[i + 1..], id);
    WaitingOne(held[i], id);
    WaitingConcat(held[..i], held[i + 1..], id);
  }

  lemma CancelAccounts(r: Relay, msg: Message, target: RequestId, id: RequestId)
    requires r.queue.Valid() && !msg.Request?
    ensures Accounts(0, r.queue, OnCancel(r, msg, target).1, OnCancel(r, msg, target).0.queue, 0, id)
  {
    var i := Position(r.queue.held, target);
    TallyOne(ToUpstream(msg, false), id);
    TallyOne(ToClient(Cancelled(target), true), id);
    if i < |r.queue.held| {
      WaitingWithout(r.queue.held, i, id);
    }
  }

  lemma DecisionAccounts(q: Queue, msg: Message, state: ServerState, id: RequestId)
    requires q.Valid() && msg.Request?
    ensures var (q', decision) := Decide(q, msg, msg.id, msg.name, state);
      Accounts(One(msg.id == id), q, DecisionOuts(decision), q', 0, id)
  {
    var (q', decision) := Decide(q, msg, msg.id, msg.name, state);
    match decision
    case Forwarded(m) => TallyOne(ToUpstream(m, false), id);
    case Rejected(response) => TallyOne(ToClient(response, true), id);
    case Held => HeldAccounts(q, HeldRequest(msg.id, msg.name, msg), id);
  }

  lemma HeldAccounts(q: Queue, h: HeldRequest, id: RequestId)
    requires q.Valid() && h.Valid()
    ensures Accounts(One(h.id == id), q, [], q.(held := q.held + [h]), 0, id)
  {
    WaitingConcat(q.held, [h], id);
    WaitingOne(h, id);
  }

  lemma RequestAccounts(r: Relay, msg: Message, env: Environment, id: RequestId)
    requires r.queue.Valid() && msg.Request?
    ensures Accounts(One(msg.id == id), r.queue, OnOtherRequest(r, msg, env).1, OnOtherRequest(r, msg, env).0.queue, 0, id)
  {
    var (q, decision) := Decide(r.queue, msg, msg.id, msg.name, r.Boundary());
    DecisionAccounts(r.queue, msg, r.Boundary(), id);
    var told := ToldFirst(r, msg, env);
    SurroundingsDoNotCount(One(msg.id == id), r.queue, DecisionOuts(decision), q, 0, told, [], id);
    assert told + DecisionOuts(decision) + [] == told + DecisionOuts(decision);
  }

  lemma ShutdownAccounts(r: Relay, msg: Message, id: RequestId)
    requires r.queue.Valid() && msg.Request?
    ensures var failed := AllToClient(Answers(r.queue.held, REQUEST_FAILED, ShutdownWhileWaiting), true);
      Accounts(One(msg.id == id), r.queue, failed + [ToUpstream(msg, false)], r.queue.(held := []), 0, id)
  {
    TallyOfAnswers(r.queue.held, REQUEST_FAILED, ShutdownWhileWaiting, id);
    TallyConcat(AllToClient(Answers(r.queue.held, REQUEST_FAILED, ShutdownWhileWaiting), true), [ToUpstream(msg, false)], id);
    TallyOne(ToUpstream(msg, false), id);
  }

  lemma InitializeAccounts(r: Relay, msg: Message, env: Environment, id: RequestId)
    requires r.queue.Valid() && msg.Request?
    ensures Accounts(One(msg.id == id), r.queue, OnInitialize(r, msg, env).1, OnInitialize(r, msg, env).0.queue, 0, id)
  {
    TallyOne(ToUpstream(Request(msg.id, msg.name, Injected(msg.payload)), false), id);
  }

  lemma ClientRequestAccounts(r: Relay, msg: Message, env: Environment, id: RequestId)
    requires r.queue.Valid() && msg.Request?
    ensures Accounts(One(msg.id == id), r.queue, OnClientRequest(r, msg, env).1, OnClientRequest(r, msg, env).0.queue, 0, id)
  {
    if msg.name == Shutdown {
      ShutdownAccounts(r, msg, id);
    } else if msg.name == Initialize {
      InitializeAccounts(r, msg, env, id);
    } else if msg.name == ServerStateRequest {
      TallyOne(ToUpstream(msg, false), id);
      TallyOne(ToClient(Response(msg.id, State(r.tracked.state)), true), id);
    } else {
      RequestAccounts(r, msg, env, id);
    }
  }

  lemma ClientNotificationAccounts(r: Relay, msg: Message, env: Environment, id: RequestId)
    requires r.queue.Valid() && msg.Notification?
    ensures Accounts(0, r.queue, OnClientNotification(r, msg, env).1, OnClientNotification(r, msg, env).0.queue, 0, id)
  {
    if msg.name == Initialized || (msg.name == CancelRequest && !msg.payload.CancelParams?) {
      QuietStep(r.queue, OnClientNotification(r, msg, env).1, id);
    } else if msg.name == CancelRequest {
      CancelAccounts(r, msg, msg.payload.target, id);
    } else {
      NotificationAccounts(Noted(r, msg), Documents.Forwarded(r.uris, msg), env, id);
    }
  }

  lemma IdentityAccounts(r: Relay, msg: Message, id: RequestId)
    requires r.queue.Valid()
    ensures Accounts(0, r.queue, OnUpstreamUnderIdentity(r, msg).1, OnUpstreamUnderIdentity(r, msg).0.queue, 0, id)
  {
    if msg.Response? && msg.id == SELF_STATE_REQUEST_ID {
      ReleasesAccount(r.queue, if msg.payload.State? then msg.payload.state else UNOBSERVED, id);
    } else if msg.Notification? && msg.name == ServerStateChanged && msg.payload.State? {
      var (q, released) := Releases(r.queue, msg.payload.state);
      ReleasesAccount(r.queue, msg.payload.state, id);
      var first := if r.clientDeclared then [ToClient(msg, false)] else [];
      SurroundingsDoNotCount(0, r.queue, released, q, 0, first, [], id);
      assert first + released + [] == first + released;
    } else {
      QuietStep(r.queue, OnUpstreamUnderIdentity(r, msg).1, id);
    }
  }

  lemma ObservedAccounts(r: Relay, msg: Message, env: Environment, id: RequestId)
    requires r.queue.Valid()
    ensures Accounts(0, r.queue, OnObserved(r, msg, env).1, OnObserved(r, msg, env).0.queue, 0, id)
  {
    var passed := [ToClient(msg, false)];
    var changed := ObserveUpstream(r.tracked, env.who, env.reading).1;
    if changed.Some? {
      var (q, released) := Releases(r.queue, changed.value);
      var first := passed + Notify(r.clientDeclared, r.identity, changed.value);
      ReleasesAccount(r.queue, changed.value, id);
      SurroundingsDoNotCount(0, r.queue, released, q, 0, first, [], id);
      assert first + released + [] == first + released;
    } else {
      QuietStep(r.queue, passed, id);
    }
  }

  lemma UpstreamAccounts(r: Relay, msg: Message, env: Environment, id: RequestId)
    requires r.queue.Valid()
    ensures Accounts(0, r.queue, OnUpstream(r, msg, env).1, OnUpstream(r, msg, env).0.queue, 0, id)
  {
    if SkipsPeek(r) || msg.Unreadable? || AsksForProgress(r, msg) || AnswersInitialize(r, msg) {
      QuietStep(r.queue, OnUpstream(r, msg, env).1, id);
    } else if r.identity {
      IdentityAccounts(r, msg, id);
    } else {
      ObservedAccounts(r, msg, env, id);
    }
  }

  lemma FailureTally(r: Relay, id: RequestId)
    ensures var failed := FailPendingInitialize(r);
      && Tally(failed, FailingInitialize, id) == Pending(r, id)
      && Tally(failed, Forwarding, id) == Tally(failed, Answering, id) == 0
  {
    if !r.handshakeDone && r.initializeId.Some? {
      TallyOne(ToClient(InitializeFailed(r.initializeId.value), true), id);
    }
  }

  lemma ClosePendingAccounts(r: Relay, id: RequestId)
    requires r.queue.Valid()
    ensures Accounts(0, r.queue, ClosePending(r).1, ClosePending(r).0.queue, Pending(r, id), id)
  {
    FailureTally(r, id);
    TallyOfAnswers(r.queue.held, INTERNAL_ERROR, ExitedWhileWaiting, id);
    TallyConcat(FailPendingInitialize(r), AllToClient(Answers(r.queue.held, INTERNAL_ERROR, ExitedWhileWaiting), true), id);
  }

  lemma StepAccounts(r: Relay, e: Event, id: RequestId)
    requires r.queue.Valid()
    ensures Accounts(Arrives(e, id), r.queue, Step(r, e).1, Step(r, e).0.queue, if e.UpstreamGone? then Pending(r, id) else 0, id)
  {
    match e
    case FromClient(msg, env) =>
      if msg.Request? {
        ClientRequestAccounts(r, msg, env, id);
      } else if msg.Notification? {
        ClientNotificationAccounts(r, msg, env, id);
      } else {
        QuietStep(r.queue, Step(r, e).1, id);
      }
    case FromUpstream(msg, env) => UpstreamAccounts(r, msg, env, id);
    case UpstreamGone => ClosePendingAccounts(r, id);
  }

  /** At every moment of every run, the client's requests with any id are exactly those
      forwarded upstream, those answered by lsp-det and those held. */
  lemma {:induction false} EveryRequestIsAccountedFor(events: seq<Event>, id: RequestId)
    ensures var outs := Written(START, events);
      Arrived(events, id) == Tally(outs, Forwarding, id) + Tally(outs, Answering, id) + Waiting(Final(START, events).queue.held, id)
    ensures Final(START, events).queue.Valid()
  {
    if events != [] {
      var before, e := events[..|events| - 1], events[|events| - 1];
      EveryRequestIsAccountedFor(before, id);
      StepAccounts(Final(START, before), e, id);
      TallyConcat(Written(START, before), Step(Final(START, before), e).1, id);
    }
  }

  /** With ids that are not reused: exactly one place, exactly once. */
  lemma EachRequestIsInOnePlace(events: seq<Event>, id: RequestId)
    requires Arrived(events, id) == 1
    ensures var outs := Written(START, events);
      var forwarded, answered := Tally(outs, Forwarding, id), Tally(outs, Answering, id);
      var held := Waiting(Final(START, events).queue.held, id);
      || (forwarded == 1 && answered == held == 0)
      || (answered == 1 && forwarded == held == 0)
      || (held == 1 && forwarded == answered == 0)
  {
    EveryRequestIsAccountedFor(events, id);
  }

  /** Once the upstream is gone, every request has been forwarded or answered; none waits, and
      `initialize` is not left open. */
  lemma NothingIsLeftBehind(events: seq<Event>, id: RequestId)
    requires events != [] && events[|events| - 1].UpstreamGone?
    ensures var outs := Written(START, events);
      Arrived(events, id) == Tally(outs, Forwarding, id) + Tally(outs, Answering, id)
    ensures Pending(Final(START, events), id) == 0
  {
    EveryRequestIsAccountedFor(events, id);
  }

  // --- `initialize` is answered at most once --------------------------------------------

  predicate IsInitialize(e: Event) {
    e.FromClient? && e.msg.Request? && e.msg.name == Initialize
  }

  predicate IsInitializeResult(r: Relay, e: Event) {
    e.FromUpstream? && AnswersInitialize(r, e.msg)
  }

  /** How many `initialize` requests with this id came from the client. */
  function Initializes(events: seq<Event>, id: RequestId): nat {
    if events == [] then 0
    else
      var e := events[|events| - 1];
      Initializes(events[..|events| - 1], id) + One(IsInitialize(e) && e.msg.id == id)
  }

  /** How many answers of the upstream to such a request were passed on. */
  function InitializeResults(events: seq<Event>, id: RequestId): nat {
    if events == [] then 0
    else
      var before, e := events[..|events| - 1], events[|events| - 1];
      InitializeResults(before, id) + One(IsInitializeResult(Final(START, before), e) && e.msg.id == id)
  }

  /** Whether the `initialize` with this id awaits its answer. */
  function Pending(r: Relay, id: RequestId): nat {
    One(r.initializeId == Some(id) && !r.handshakeDone)
  }

  /** The answer to `initialize` is passed on to the client once, in that very step: as it is, or with
      the declaration added where that can and has to be. */
  lemma InitializeResultIsPassedOn(r: Relay, e: Event)
    requires IsInitializeResult(r, e)
    ensures var p := e.msg.payload;
      Step(r, e).1 == [ToClient(Response(e.msg.id, if Action(p) == Rewritable then Declaring(p) else p), false)]
  {
    assert !SkipsPeek(r) && !AsksForProgress(r, e.msg);
  }

  predicate SameHandshake(r: Relay, r': Relay) {
    r'.initializeId == r.initializeId && r'.handshakeDone == r.handshakeDone && r'.identity == r.identity
  }

  lemma RequestFrame(r: Relay, msg: Message, env: Environment)
    requires msg.Request? && msg.name != Initialize
    ensures SameHandshake(r, OnClientRequest(r, msg, env).0)
  {}

  lemma NotificationFrame(r: Relay, msg: Message, env: Environment)
    requires msg.Notification?
    ensures SameHandshake(r, OnClientNotification(r, msg, env).0)
  {}

  lemma ClientFrame(r: Relay, msg: Message, env: Environment)
    requires !(msg.Request? && msg.name == Initialize)
    ensures SameHandshake(r, OnClient(r, msg, env).0)
  {
    if msg.Request? {
      RequestFrame(r, msg, env);
    } else if msg.Notification? {
      NotificationFrame(r, msg, env);
    }
  }

  lemma UpstreamFrame(r: Relay, msg: Message, env: Environment)
    requires !AnswersInitialize(r, msg)
    ensures SameHandshake(r, OnUpstream(r, msg, env).0)
  {}

  lemma HandshakeFrame(r: Relay, e: Event)
    requires !IsInitialize(e) && !IsInitializeResult(r, e) && !e.UpstreamGone?
    ensures SameHandshake(r, Step(r, e).0)
  {
    if e.FromClient? {
      ClientFrame(r, e.msg, e.env);
    } else {
      UpstreamFrame(r, e.msg, e.env);
    }
  }

  /** What one step does to the pending `initialize`. */
  lemma PendingStep(r: Relay, e: Event, id: RequestId)
    ensures var r' := Step(r, e).0;
      Pending(r', id) ==
        if IsInitialize(e) then One(!r.handshakeDone && e.msg.id == id)
        else if IsInitializeResult(r, e) || e.UpstreamGone? then 0
        else Pending(r, id)
    ensures IsInitializeResult(r, e) ==> Pending(r, id) == One(e.msg.id == id)
  {
    if !IsInitialize(e) && !IsInitializeResult(r, e) && !e.UpstreamGone? {
      HandshakeFrame(r, e);
    }
  }

  /** What has become of the `initialize` requests with this id: answered by the upstream, failed
      by lsp-det, or still pending. */
  function Outcomes(events: seq<Event>, id: RequestId): nat {
    InitializeResults(events, id) + Tally(Written(START, events), FailingInitialize, id) + Pending(Final(START, events), id)
  }

  lemma FailuresStep(before: seq<Event>, e: Event, id: RequestId)
    ensures Tally(Written(START, before + [e]), FailingInitialize, id) ==
            Tally(Written(START, before), FailingInitialize, id) + if e.UpstreamGone? then Pending(Final(START, before), id) else 0
  {
    assert (before + [e])[..|before|] == before;
    EveryRequestIsAccountedFor(before, id);
    StepAccounts(Final(START, before), e, id);
    TallyConcat(Written(START, before), Step(Final(START, before), e).1, id);
  }

  /** An `initialize` takes the place of one that is still pending; nothing else loses one. */
  lemma OutcomesStep(before: seq<Event>, e: Event, id: RequestId)
    ensures var r := Final(START, before);
      Outcomes(before + [e], id) == Outcomes(before, id)
        + if IsInitialize(e) then One(!r.handshakeDone && e.msg.id == id) - Pending(r, id) else 0
  {
    assert (before + [e])[..|before|] == before;
    FailuresStep(before, e, id);
    PendingStep(Final(START, before), e, id);
  }

  lemma InitializesStep(before: seq<Event>, e: Event, id: RequestId)
    ensures Initializes(before + [e], id) == Initializes(before, id) + One(IsInitialize(e) && e.msg.id == id)
  {
    assert (before + [e])[..|before|] == before;
  }

  /** For every run: each `initialize` has at most one outcome. It is answered by the upstream, failed
      by lsp-det, or still pending. */
  lemma {:induction false} InitializeIsAnsweredAtMostOnce(events: seq<Event>, id: RequestId)
    ensures Outcomes(events, id) <= Initializes(events, id)
  {
    if events != [] {
      var before, e := events[..|events| - 1], events[|events| - 1];
      assert before + [e] == events;
      InitializeIsAnsweredAtMostOnce(before, id);
      OutcomesStep(before, e, id);
      InitializesStep(before, e, id);
    }
  }

  /** At most one `initialize` is outstanding, and none follows a completed handshake. */
  ghost predicate OneInitializeAtATime(events: seq<Event>) {
    events == [] ||
    var before, e := events[..|events| - 1], events[|events| - 1];
    var r := Final(START, before);
    && OneInitializeAtATime(before)
    && (IsInitialize(e) ==> !r.handshakeDone && r.initializeId == None)
  }

  /** Under that premise none is lost either: what is not answered is still pending. */
  lemma {:induction false} NoInitializeIsLost(events: seq<Event>, id: RequestId)
    requires OneInitializeAtATime(events)
    ensures Outcomes(events, id) == Initializes(events, id)
  {
    if events != [] {
      var before, e := events[..|events| - 1], events[|events| - 1];
      assert before + [e] == events;
      NoInitializeIsLost(before, id);
      OutcomesStep(before, e, id);
      InitializesStep(before, e, id);
    }
  }
}
