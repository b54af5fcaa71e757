/** The order in which cross-workspace requests reach the upstream, and the states in which they
    do, over whole runs (src/gate.rs, src/proxy.rs). */
module RelayOrder {
  import opened Wrappers
  import opened ServerStates
  import opened Messages
  import opened Documents
  import opened Gates
  import opened Tracking
  import opened Relaying
  import opened RelayRuns
  import opened RelaySafety

  // --- Cross-workspace requests keep their order ----------------------------------------

  /** Whether `a` is what remains of `b` after leaving some elements out. */
  predicate Subsequence<T(==)>(a: seq<T>, b: seq<T>) {
    a == [] || (b != [] && ((a[0] == b[0] && Subsequence(a[1..], b[1..])) || Subsequence(a, b[1..])))
  }

  lemma {:induction false} SubsequenceOfItself<T>(a: seq<T>)
    ensures Subsequence(a, a)
  {
    if a != [] {
      SubsequenceOfItself(a[1..]);
    }
  }

  lemma {:induction false} SubsequenceTransitive<T>(a: seq<T>, b: seq<T>, c: seq<T>)
    requires Subsequence(a, b) && Subsequence(b, c)
    ensures Subsequence(a, c)
    decreases |b| + |c|
  {
    if a != [] {
      if b[0] == c[0] && Subsequence(b[1..], c[1..]) {
        if a[0] == b[0] && Subsequence(a[1..], b[1..]) {
          SubsequenceTransitive(a[1..], b[1..], c[1..]);
        } else {
          SubsequenceTransitive(a, b[1..], c[1..]);
        }
      } else {
        SubsequenceTransitive(a, b, c[1..]);
      }
    }
  }

  lemma {:induction false} SubsequenceConcat<T>(a: seq<T>, b: seq<T>, c: seq<T>, d: seq<T>)
    requires Subsequence(a, b) && Subsequence(c, d)
    ensures Subsequence(a + c, b + d)
    decreases |b|
  {
    if b == [] {
      assert a + c == c && b + d == d;
    } else {
      assert (b + d)[1..] == b[1..] + d;
      if a != [] && a[0] == b[0] && Subsequence(a[1..], b[1..]) {
        assert (a + c)[1..] == a[1..] + c;
        SubsequenceConcat(a[1..], b[1..], c, d);
      } else {
        SubsequenceConcat(a, b[1..], c, d);
      }
    }
  }

  lemma {:induction false} LeavingOneOut<T>(a: seq<T>, i: nat)
    requires i < |a|
    ensures Subsequence(a[..i] + a[i + 1..], a)
  {
    SubsequenceOfItself(a[..i]);
    SubsequenceOfItself(a[i + 1..]);
    assert a[i..][1..] == a[i + 1..];
    assert Subsequence(a[i + 1..], a[i..]);
    SubsequenceConcat(a[..i], a[..i], a[i + 1..], a[i..]);
    assert a[..i] + a[i..] == a;
  }

  predicate IsCrossRequest(msg: Message) {
    msg.Request? && IsCrossWorkspace(msg.name)
  }

  /** A client's cross-workspace request on its way to the upstream. */
  predicate IsCrossWrite(o: Out) { o.ToUpstream? && !o.own && IsCrossRequest(o.msg) }

  /** The client's cross-workspace requests among the writes to the upstream, in order. */
  function CrossWritten(outs: seq<Out>): seq<Message> {
    if outs == [] then []
    else CrossWrite(outs[0]) + CrossWritten(outs[1..])
  }

  function CrossWrite(o: Out): seq<Message> { if IsCrossWrite(o) then [o.msg] else [] }

  function CrossAsked(events: seq<Event>): seq<Message> {
    if events == [] then []
    else
      var e := events[|events| - 1];
      CrossAsked(events[..|events| - 1]) + if AsksAcross(e) then [e.msg] else []
  }

  lemma {:induction false} CrossWrittenConcat(a: seq<Out>, b: seq<Out>)
    ensures CrossWritten(a + b) == CrossWritten(a) + CrossWritten(b)
  {
    if a == [] {
      assert a + b == b;
    } else {
      assert (a + b)[1..] == a[1..] + b && (a + b)[0] == a[0];
      CrossWrittenConcat(a[1..], b);
      Associative(CrossWrite(a[0]), CrossWritten(a[1..]), CrossWritten(b));
    }
  }

  lemma {:induction false} NoneCrossWritten(outs: seq<Out>)
    requires forall o | o in outs :: !IsCrossWrite(o)
    ensures CrossWritten(outs) == []
  {
    if outs != [] {
      assert !IsCrossWrite(outs[0]);
      NoneCrossWritten(outs[1..]);
    }
  }

  lemma {:induction false} AllCrossWritten(held: seq<HeldRequest>)
    requires forall h | h in held :: h.Valid()
    ensures CrossWritten(AllToUpstream(HeldMessages(held), false)) == HeldMessages(held)
  {
    if held != [] {
      assert held[0].Valid();
      assert AllToUpstream(HeldMessages(held), false)[1..] == AllToUpstream(HeldMessages(held[1..]), false);
      AllCrossWritten(held[1..]);
      assert HeldMessages(held) == [held[0].msg] + HeldMessages(held[1..]);
    }
  }

  /** What a step writes, then what still waits, keeps the order of what waited and what came. */
  ghost predicate KeepsOrder(before: Queue, asked: seq<Message>, outs: seq<Out>, after: Queue) {
    Subsequence(CrossWritten(outs) + HeldMessages(after.held), HeldMessages(before.held) + asked)
  }

  lemma ReleasesKeepOrder(q: Queue, state: ServerState, first: seq<Out>, last: seq<Out>)
    requires q.Valid() && CrossWritten(first) == CrossWritten(last) == []
    ensures KeepsOrder(q, [], first + Releases(q, state).1 + last, Releases(q, state).0)
  {
    var (q', released) := Releases(q, state);
    CrossWrittenConcat(first + released, last);
    CrossWrittenConcat(first, released);
    SubsequenceOfItself(HeldMessages(q.held));
    match VerdictOf(state) {
      case Hold =>
      case Forward => AllCrossWritten(q.held);
      case Reject => NoneCrossWritten(released);
    }
    assert CrossWritten(first + released + last) + HeldMessages(q'.held) == if VerdictOf(state) == Reject then [] else HeldMessages(q.held);
    assert HeldMessages(q.held) + [] == HeldMessages(q.held);
  }

  lemma QuietKeepsOrder(q: Queue, outs: seq<Out>)
    requires CrossWritten(outs) == []
    ensures KeepsOrder(q, [], outs, q)
  {
    SubsequenceOfItself(HeldMessages(q.held));
    assert [] + HeldMessages(q.held) == HeldMessages(q.held) + [] == HeldMessages(q.held);
  }

  /** The request would be written at once although others wait. */
  predicate WouldOvertake(r: Relay, msg: Message) {
    IsCrossRequest(msg) && r.queue.held != [] && !r.queue.clientDecides && Answerable(r.Boundary())
  }

  predicate Overtakes(r: Relay, e: Event) { e.FromClient? && WouldOvertake(r, e.msg) }

  lemma DecisionKeepsOrder(q: Queue, msg: Message, state: ServerState)
    requires q.held != [] && IsCrossRequest(msg) ==> !Answerable(state)
    requires !q.clientDecides && msg.Request?
    ensures var (q', decision) := Decide(q, msg, msg.id, msg.name, state);
      KeepsOrder(q, if IsCrossRequest(msg) then [msg] else [], DecisionOuts(decision), q')
  {
    var (q', decision) := Decide(q, msg, msg.id, msg.name, state);
    var asked := if IsCrossRequest(msg) then [msg] else [];
    var waited := HeldMessages(q.held);
    SubsequenceOfItself(waited + asked);
    match decision {
      case Forwarded(m) =>
        assert CrossWritten([ToUpstream(m, false)]) == asked;
        assert asked + HeldMessages(q'.held) == waited + asked;
      case Held =>
        assert [] + HeldMessages(q'.held) == waited + asked;
      case Rejected(response) =>
        NoneCrossWritten(DecisionOuts(decision));
        SubsequenceOfItself(waited);
        SubsequenceConcat(waited, waited, [], asked);
        assert [] + HeldMessages(q'.held) == waited + [];
    }
  }

  lemma RequestKeepsOrder(r: Relay, msg: Message, env: Environment)
    requires !WouldOvertake(r, msg) && !r.queue.clientDecides && msg.Request?
    ensures var (r', outs) := OnOtherRequest(r, msg, env);
      KeepsOrder(r.queue, if IsCrossRequest(msg) then [msg] else [], outs, r'.queue)
  {
    DecisionKeepsOrder(r.queue, msg, r.Boundary());
    var told := ToldFirst(r, msg, env);
    var outs := DecisionOuts(Decide(r.queue, msg, msg.id, msg.name, r.Boundary()).1);
    NoneCrossWritten(told);
    CrossWrittenConcat(told, outs);
    assert [] + CrossWritten(outs) == CrossWritten(outs);
  }

  lemma ClientRequestKeepsOrder(r: Relay, msg: Message, env: Environment)
    requires !WouldOvertake(r, msg) && !r.queue.clientDecides && msg.Request?
    ensures var (r', outs) := OnClientRequest(r, msg, env);
      KeepsOrder(r.queue, if IsCrossRequest(msg) then [msg] else [], outs, r'.queue)
  {
    var outs := OnClientRequest(r, msg, env).1;
    if msg.name == Shutdown {
      NoneCrossWritten(outs);
    } else if msg.name == ServerStateRequest || msg.name == Initialize {
      NoneCrossWritten(outs);
      QuietKeepsOrder(r.queue, outs);
    } else {
      RequestKeepsOrder(r, msg, env);
    }
  }

  lemma NotificationKeepsOrder(r: Relay, sent: Message, env: Environment)
    requires r.queue.Valid() && !sent.Request?
    ensures KeepsOrder(r.queue, [], OnNotification(r, sent, env).1, OnNotification(r, sent, env).0.queue)
  {
    var first := [ToUpstream(sent, false)];
    NoneCrossWritten(first);
    var predicted := if r.identity then None else ObserveClient(r.tracked, env.reading).1;
    if predicted.Some? {
      var last := Notify(r.clientDeclared, r.identity, predicted.value);
      NoneCrossWritten(last);
      ReleasesKeepOrder(r.queue, predicted.value, first, last);
    } else {
      QuietKeepsOrder(r.queue, first);
    }
  }

  lemma CancelKeepsOrder(r: Relay, msg: Message, target: RequestId)
    requires !msg.Request?
    ensures KeepsOrder(r.queue, [], OnCancel(r, msg, target).1, OnCancel(r, msg, target).0.queue)
  {
    var held, i := r.queue.held, Position(r.queue.held, target);
    var outs := OnCancel(r, msg, target).1;
    NoneCrossWritten(outs);
    if i < |held| {
      LeavingOneOut(HeldMessages(held), i);
      assert [] + HeldMessages(held[..i] + held[i + 1..]) == HeldMessages(held)[..i] + HeldMessages(held)[i + 1..];
      assert HeldMessages(held) + [] == HeldMessages(held);
    } else {
      QuietKeepsOrder(r.queue, outs);
    }
  }

  lemma ClientNotificationKeepsOrder(r: Relay, msg: Message, env: Environment)
    requires r.queue.Valid() && msg.Notification?
    ensures KeepsOrder(r.queue, [], OnClientNotification(r, msg, env).1, OnClientNotification(r, msg, env).0.queue)
  {
    if msg.name == Initialized || (msg.name == CancelRequest && !msg.payload.CancelParams?) {
      NoneCrossWritten(OnClientNotification(r, msg, env).1);
      QuietKeepsOrder(r.queue, OnClientNotification(r, msg, env).1);
    } else if msg.name == CancelRequest {
      CancelKeepsOrder(r, msg, msg.payload.target);
    } else {
      NotificationKeepsOrder(Noted(r, msg), Documents.Forwarded(r.uris, msg), env);
    }
  }

  lemma IdentityKeepsOrder(r: Relay, msg: Message)
    requires r.queue.Valid()
    ensures KeepsOrder(r.queue, [], OnUpstreamUnderIdentity(r, msg).1, OnUpstreamUnderIdentity(r, msg).0.queue)
  {
    var outs := OnUpstreamUnderIdentity(r, msg).1;
    if msg.Response? && msg.id == SELF_STATE_REQUEST_ID {
      ReleasesKeepOrder(r.queue, if msg.payload.State? then msg.payload.state else UNOBSERVED, [], []);
      assert [] + outs + [] == outs;
    } else if msg.Notification? && msg.name == ServerStateChanged && msg.payload.State? {
      var first := if r.clientDeclared then [ToClient(msg, false)] else [];
      ReleasesKeepOrder(r.queue, msg.payload.state, first, []);
      assert outs + [] == outs;
    } else {
      NoneCrossWritten(outs);
      QuietKeepsOrder(r.queue, outs);
    }
  }

  lemma UpstreamKeepsOrder(r: Relay, msg: Message, env: Environment)
    requires r.queue.Valid()
    ensures KeepsOrder(r.queue, [], OnUpstream(r, msg, env).1, OnUpstream(r, msg, env).0.queue)
  {
    var outs := OnUpstream(r, msg, env).1;
    if SkipsPeek(r) || msg.Unreadable? || AsksForProgress(r, msg) || AnswersInitialize(r, msg) {
      NoneCrossWritten(outs);
      QuietKeepsOrder(r.queue, outs);
    } else if r.identity {
      IdentityKeepsOrder(r, msg);
    } else {
      ObservedKeepsOrder(r, msg, env);
    }
  }

  lemma ObservedKeepsOrder(r: Relay, msg: Message, env: Environment)
    requires r.queue.Valid()
    ensures KeepsOrder(r.queue, [], OnObserved(r, msg, env).1, OnObserved(r, msg, env).0.queue)
  {
    var changed := ObserveUpstream(r.tracked, env.who, env.reading).1;
    if changed.Some? {
      var first := [ToClient(msg, false)] + Notify(r.clientDeclared, r.identity, changed.value);
      NoneCrossWritten(first);
      ReleasesKeepOrder(r.queue, changed.value, first, []);
      assert first + Releases(r.queue, changed.value).1 + [] == first + Releases(r.queue, changed.value).1;
    } else {
      NoneCrossWritten([ToClient(msg, false)]);
      QuietKeepsOrder(r.queue, [ToClient(msg, false)]);
    }
  }

  lemma StepKeepsOrder(r: Relay, e: Event)
    requires r.queue.Valid() && !Overtakes(r, e) && !r.queue.clientDecides
    ensures KeepsOrder(r.queue, if AsksAcross(e) then [e.msg] else [], Step(r, e).1, Step(r, e).0.queue)
  {
    match e
    case UpstreamGone => NoneCrossWritten(Step(r, e).1);
    case FromUpstream(msg, env) => UpstreamKeepsOrder(r, msg, env);
    case FromClient(msg, env) =>
      if msg.Request? {
        ClientRequestKeepsOrder(r, msg, env);
      } else if msg.Notification? {
        ClientNotificationKeepsOrder(r, msg, env);
      } else {
        NoneCrossWritten(Step(r, e).1);
        QuietKeepsOrder(r.queue, Step(r, e).1);
      }
  }

  /** No `initialize` of the client declares that it interprets the state itself. */
  predicate NeverDeclares(events: seq<Event>) {
    forall e | e in events && IsInitialize(e) :: !(e.msg.payload.InitializeParams? && e.msg.payload.declaresState)
  }

  lemma ClientDecidesFrame(r: Relay, e: Event)
    ensures Step(r, e).0.queue.clientDecides ==
            if IsInitialize(e) then e.msg.payload.InitializeParams? && e.msg.payload.declaresState else r.queue.clientDecides
  {
    if e.FromUpstream? {
      UpstreamReleases(r, e.msg, e.env);
    } else if e.FromClient? && e.msg.Request? {
      RequestDecidesFrame(r, e.msg, e.env);
    } else if e.FromClient? && e.msg.Notification? {
      NotificationDecidesFrame(r, e.msg, e.env);
    }
  }

  lemma RequestDecidesFrame(r: Relay, msg: Message, env: Environment)
    requires msg.Request?
    ensures OnClientRequest(r, msg, env).0.queue.clientDecides ==
            if msg.name == Initialize then msg.payload.InitializeParams? && msg.payload.declaresState else r.queue.clientDecides
  {}

  lemma NotificationDecidesFrame(r: Relay, msg: Message, env: Environment)
    requires msg.Notification?
    ensures OnClientNotification(r, msg, env).0.queue.clientDecides == r.queue.clientDecides
  {
    if msg.name != Initialized && msg.name != CancelRequest {
      ObservationDecidesFrame(Noted(r, msg), Documents.Forwarded(r.uris, msg), env);
    }
  }

  lemma ObservationDecidesFrame(r: Relay, sent: Message, env: Environment)
    ensures OnNotification(r, sent, env).0.queue.clientDecides == r.queue.clientDecides
  {}

  lemma {:induction false} NobodyDecides(events: seq<Event>)
    requires NeverDeclares(events)
    ensures !Final(START, events).queue.clientDecides
  {
    if events != [] {
      NobodyDecides(events[..|events| - 1]);
      ClientDecidesFrame(Final(START, events[..|events| - 1]), events[|events| - 1]);
    }
  }

  /** The cross-workspace requests written to the upstream, followed by those that still wait, are a
      subsequence of the order in which they arrived. */
  ghost predicate InOrder(events: seq<Event>) {
    Subsequence(CrossWritten(Written(START, events)) + HeldMessages(Final(START, events).queue.held), CrossAsked(events))
  }

  ghost predicate AlwaysInOrder(events: seq<Event>) {
    InOrder(events) && (events == [] || AlwaysInOrder(events[..|events| - 1]))
  }

  ghost predicate NeverOvertakes(events: seq<Event>) {
    events == [] ||
    var before := events[..|events| - 1];
    NeverOvertakes(before) && !Overtakes(Final(START, before), events[|events| - 1])
  }

  lemma InOrderStep(before: seq<Event>, e: Event)
    requires InOrder(before) && NeverDeclares(before) && !Overtakes(Final(START, before), e)
    ensures InOrder(before + [e])
  {
    EveryRequestIsAccountedFor(before, Number(0));
    NobodyDecides(before);
    OneMoreEvent(START, before, e);
    assert (before + [e])[..|before|] == before;
    var r := Final(START, before);
    StepKeepsOrder(r, e);
    AppendInOrder(CrossWritten(Written(START, before)), HeldMessages(r.queue.held), CrossAsked(before),
                  CrossWritten(Step(r, e).1), HeldMessages(Step(r, e).0.queue.held), if AsksAcross(e) then [e.msg] else []);
    CrossWrittenConcat(Written(START, before), Step(r, e).1);
  }

  lemma {:induction false} InOrderUnlessOvertaken(events: seq<Event>)
    requires NeverDeclares(events) && NeverOvertakes(events)
    ensures AlwaysInOrder(events)
  {
    if events == [] {
      assert CrossWritten([]) + HeldMessages([]) == [];
    } else {
      var before, e := events[..|events| - 1], events[|events| - 1];
      assert events == before + [e];
      InOrderUnlessOvertaken(before);
      InOrderStep(before, e);
    }
  }

  /** What is last in the one can only be last in the other. */
  lemma {:induction false} LastIsLast<T>(s: seq<T>, a: seq<T>, m: T, i: nat)
    requires Subsequence(s, a + [m]) && m !in a && i < |s| && s[i] == m
    ensures i == |s| - 1
    decreases |a|
  {
    if a == [] {
      assert a + [m] == [m] && [m][1..] == [];
    } else {
      assert (a + [m])[1..] == a[1..] + [m] && (a + [m])[0] == a[0];
      if s[0] == a[0] && Subsequence(s[1..], a[1..] + [m]) {
        LastIsLast(s[1..], a[1..], m, i - 1);
      } else {
        LastIsLast(s, a[1..], m, i);
      }
    }
  }

  lemma OvertakerIsWritten(r: Relay, e: Event)
    requires Overtakes(r, e)
    ensures CrossWritten(Step(r, e).1) == [e.msg] && Step(r, e).0.queue == r.queue
  {
    var told := ToldFirst(r, e.msg, e.env);
    NoneCrossWritten(told);
    assert Step(r, e) == OnOtherRequest(r, e.msg, e.env);
    CrossWrittenConcat(told, [ToUpstream(e.msg, false)]);
    assert [ToUpstream(e.msg, false)][1..] == [];
  }

  /** A request that overtakes puts the run out of order, if no request came twice. */
  lemma OvertakenIsOutOfOrder(before: seq<Event>, e: Event)
    requires Overtakes(Final(START, before), e) && e.msg !in CrossAsked(before)
    ensures !InOrder(before + [e])
  {
    var r, events := Final(START, before), before + [e];
    OvertakerIsWritten(r, e);
    OneMoreEvent(START, before, e);
    assert events[..|before|] == before;
    CrossWrittenConcat(Written(START, before), Step(r, e).1);
    var written, held := CrossWritten(Written(START, before)), HeldMessages(r.queue.held);
    var s := written + [e.msg] + held;
    assert s[|written|] == e.msg;
    if InOrder(events) {
      LastIsLast(s, CrossAsked(before), e.msg, |written|);
    }
  }

  /** No cross-workspace request came twice. */
  ghost predicate DistinctRequests(events: seq<Event>) {
    events == [] ||
    var before, e := events[..|events| - 1], events[|events| - 1];
    DistinctRequests(before) && (AsksAcross(e) ==> e.msg !in CrossAsked(before))
  }

  /** For a client that does not declare and repeats no request, over every run with any interleaving of
      cancels and state changes: the order of arrival is kept at every moment if and only if no request
      comes while others wait and the state is answerable. */
  lemma {:induction false} OrderExactly(events: seq<Event>)
    requires NeverDeclares(events) && DistinctRequests(events)
    ensures AlwaysInOrder(events) <==> NeverOvertakes(events)
  {
    if NeverOvertakes(events) {
      InOrderUnlessOvertaken(events);
    } else {
      var before, e := events[..|events| - 1], events[|events| - 1];
      assert events == before + [e];
      OrderExactly(before);
      if NeverOvertakes(before) {
        OvertakenIsOutOfOrder(before, e);
      }
    }
  }

  lemma {:induction false} HarmlessNeverOvertakes(events: seq<Event>)
    requires AlwaysReselectsHarmlessly(events)
    ensures NeverOvertakes(events)
  {
    if events != [] {
      HarmlessNeverOvertakes(events[..|events| - 1]);
      WaitsWithReasonExactly(events[..|events| - 1]);
    }
  }

  /** So none overtakes another as long as no answer to `initialize` reselects a mapping to release on
      while requests wait, */
  lemma NoRequestOvertakes(events: seq<Event>)
    requires AlwaysReselectsHarmlessly(events) && NeverDeclares(events)
    ensures AlwaysInOrder(events)
  {
    HarmlessNeverOvertakes(events);
    InOrderUnlessOvertaken(events);
  }

  /** in particular with a client that asks nothing across the workspace before `InitializeResult`. */
  lemma QuietClientIsNotOvertaken(events: seq<Event>)
    requires QuietBeforeHandshake(events) && NeverDeclares(events)
    ensures AlwaysInOrder(events)
  {
    QuietReselectsHarmlessly(events);
    NoRequestOvertakes(events);
  }

  lemma {:induction false} AskedCame(events: seq<Event>, msg: Message)
    requires msg in CrossAsked(events)
    ensures exists e | e in events :: AsksAcross(e) && e.msg == msg
  {
    var before, e := events[..|events| - 1], events[|events| - 1];
    if msg in CrossAsked(before) {
      AskedCame(before, msg);
    }
  }

  /** Otherwise one can: after the run that strands request 2, request 3 is written at once. */
  lemma AStrandedRequestIsOvertaken() returns (events: seq<Event>, e: Event)
    ensures e.FromClient? && e.msg == Request(Number(3), References, Opaque(1))
    ensures CrossWritten(Step(Final(START, events), e).1) == [e.msg]
    ensures Final(START, events + [e]).queue.held == Final(START, events).queue.held != []
    ensures !InOrder(events + [e])
  {
    events := AnEarlyRequestCanBeStranded();
    e := FromClient(Request(Number(3), References, Opaque(1)), Environment(None, None, None, false));
    if e.msg in CrossAsked(events) {
      AskedCame(events, e.msg);
    }
    OvertakerIsWritten(Final(START, events), e);
    OneMoreEvent(START, events, e);
    OvertakenIsOutOfOrder(events, e);
  }

  lemma AppendInOrder<T>(written: seq<T>, held: seq<T>, asked: seq<T>, more: seq<T>, held': seq<T>, asks: seq<T>)
    requires Subsequence(written + held, asked) && Subsequence(more + held', held + asks)
    ensures Subsequence(written + more + held', asked + asks)
  {
    SubsequenceOfItself(written);
    SubsequenceOfItself(asks);
    SubsequenceConcat(written, written, more + held', held + asks);
    SubsequenceConcat(written + held, asked, asks, asks);
    Associative(written, held, asks);
    Associative(written, more, held');
    SubsequenceTransitive(written + (more + held'), written + (held + asks), asked + asks);
  }

  lemma Associative<T>(a: seq<T>, b: seq<T>, c: seq<T>)
    ensures a + (b + c) == a + b + c
  {}

  /** For a client that does not declare, a cross-workspace request is written only when the
      state on the boundary is answerable: health is not error, readiness is ready or unknown. */
  lemma WrittenOnlyWhenAnswerable(r: Relay, e: Event, o: Out)
    requires !r.queue.clientDecides
    requires o in Step(r, e).1 && IsCrossWrite(o)
    ensures var s := Step(r, e).0.Boundary();
      s.health != Health.Error && (s.readiness == Ready || s.readiness == Readiness.Unknown)
  {
    match e
    case UpstreamGone =>
    case FromUpstream(msg, env) => UpstreamWritesWhenAnswerable(r, msg, env, o);
    case FromClient(msg, env) => ClientWritesWhenAnswerable(r, msg, env, o);
  }

  lemma ReleasesWhenAnswerable(q: Queue, state: ServerState, o: Out)
    requires o in Releases(q, state).1 && IsCrossWrite(o)
    ensures Answerable(state)
  {}

  lemma ObservedWritesWhenAnswerable(r: Relay, msg: Message, env: Environment, o: Out)
    requires !r.identity && o in OnObserved(r, msg, env).1 && IsCrossWrite(o)
    ensures Answerable(OnObserved(r, msg, env).0.Boundary())
  {
    var changed := ObserveUpstream(r.tracked, env.who, env.reading).1;
    if changed.Some? {
      ReleasesWhenAnswerable(r.queue, changed.value, o);
    }
  }

  lemma IdentityWritesWhenAnswerable(r: Relay, msg: Message, o: Out)
    requires r.identity && o in OnUpstreamUnderIdentity(r, msg).1 && IsCrossWrite(o)
    ensures Answerable(OnUpstreamUnderIdentity(r, msg).0.Boundary())
  {}

  lemma UpstreamWritesWhenAnswerable(r: Relay, msg: Message, env: Environment, o: Out)
    requires o in OnUpstream(r, msg, env).1 && IsCrossWrite(o)
    ensures Answerable(OnUpstream(r, msg, env).0.Boundary())
  {
    if SkipsPeek(r) || msg.Unreadable? || AsksForProgress(r, msg) || AnswersInitialize(r, msg) {
    } else if r.identity {
      IdentityWritesWhenAnswerable(r, msg, o);
    } else {
      ObservedWritesWhenAnswerable(r, msg, env, o);
    }
  }

  lemma NotificationWritesWhenAnswerable(r: Relay, sent: Message, env: Environment, o: Out)
    requires !sent.Request? && o in OnNotification(r, sent, env).1 && IsCrossWrite(o)
    ensures Answerable(OnNotification(r, sent, env).0.Boundary())
  {
    var predicted := if r.identity then None else ObserveClient(r.tracked, env.reading).1;
    if predicted.Some? {
      ReleasesWhenAnswerable(r.queue, predicted.value, o);
    }
  }

  lemma RequestWritesWhenAnswerable(r: Relay, msg: Message, env: Environment, o: Out)
    requires !r.queue.clientDecides && msg.Request?
    requires o in OnClientRequest(r, msg, env).1 && IsCrossWrite(o)
    ensures Answerable(OnClientRequest(r, msg, env).0.Boundary())
  {
    if msg.name != Shutdown && msg.name != Initialize && msg.name != ServerStateRequest {
      OtherWritesWhenAnswerable(r, msg, env, o);
    }
  }

  lemma OtherWritesWhenAnswerable(r: Relay, msg: Message, env: Environment, o: Out)
    requires !r.queue.clientDecides && msg.Request?
    requires o in OnOtherRequest(r, msg, env).1 && IsCrossWrite(o)
    ensures Answerable(OnOtherRequest(r, msg, env).0.Boundary())
  {
    assert o !in ToldFirst(r, msg, env);
    assert o in DecisionOuts(Decide(r.queue, msg, msg.id, msg.name, r.Boundary()).1);
  }

  lemma ClientWritesWhenAnswerable(r: Relay, msg: Message, env: Environment, o: Out)
    requires !r.queue.clientDecides
    requires o in OnClient(r, msg, env).1 && IsCrossWrite(o)
    ensures Answerable(OnClient(r, msg, env).0.Boundary())
  {
    if msg.Request? {
      RequestWritesWhenAnswerable(r, msg, env, o);
    } else if msg.Notification? && msg.name != Initialized && msg.name != CancelRequest {
      NotificationWritesWhenAnswerable(Noted(r, msg), Documents.Forwarded(r.uris, msg), env, o);
    }
  }

  /** The same for every step of every run. */
  lemma EveryCrossWriteIsAnswerable(events: seq<Event>, k: nat, o: Out)
    requires NeverDeclares(events) && k < |events|
    requires o in Step(Final(START, events[..k]), events[k]).1 && IsCrossWrite(o)
    ensures var s := Step(Final(START, events[..k]), events[k]).0.Boundary();
      s.health != Health.Error && (s.readiness == Ready || s.readiness == Readiness.Unknown)
  {
    NobodyDecides(events[..k]);
    WrittenOnlyWhenAnswerable(Final(START, events[..k]), events[k], o);
  }
}
