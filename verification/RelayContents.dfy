/** What the relay passes on is what it was given: over whole runs, no request is invented or
    altered, and every answer of the upstream reaches the client as it is (src/proxy.rs). */
module RelayContents {
  import opened Wrappers
  import opened ServerStates
  import opened Messages
  import opened Documents
  import opened Gates
  import opened Tracking
  import opened Relaying
  import opened RelayRuns

  // --- From the client to the upstream ------------------------------------------------------

  /** A request of the client as it goes to the upstream: as it came, or an `initialize` with the
      flags injected. */
  predicate IsSentFor(msg: Message, e: Event) {
    && e.FromClient? && e.msg.Request?
    && (msg == e.msg || (e.msg.name == Initialize && msg == Request(e.msg.id, e.msg.name, Injected(e.msg.payload))))
  }

  predicate IsForwardedRequest(o: Out) { o.ToUpstream? && !o.own && o.msg.Request? }

  lemma ReleasesForwardHeld(q: Queue, state: ServerState, o: Out)
    requires o in Releases(q, state).1 && IsForwardedRequest(o)
    ensures o.msg in HeldMessages(q.held)
  {}

  lemma NotificationForwardsHeld(r: Relay, sent: Message, env: Environment, o: Out)
    requires !sent.Request? && o in OnNotification(r, sent, env).1 && IsForwardedRequest(o)
    ensures o.msg in HeldMessages(r.queue.held)
  {
    var predicted := if r.identity then None else ObserveClient(r.tracked, env.reading).1;
    if predicted.Some? {
      ReleasesForwardHeld(r.queue, predicted.value, o);
    }
  }

  lemma OtherRequestForwards(r: Relay, msg: Message, env: Environment, o: Out)
    requires msg.Request? && o in OnOtherRequest(r, msg, env).1 && IsForwardedRequest(o)
    ensures o.msg == msg
  {
    assert o !in ToldFirst(r, msg, env);
    assert o in DecisionOuts(Decide(r.queue, msg, msg.id, msg.name, r.Boundary()).1);
  }

  lemma RequestForwards(r: Relay, msg: Message, env: Environment, o: Out)
    requires msg.Request? && o in OnClientRequest(r, msg, env).1 && IsForwardedRequest(o)
    ensures IsSentFor(o.msg, FromClient(msg, env))
  {
    if msg.name != ServerStateRequest && msg.name != Initialize && msg.name != Shutdown {
      OtherRequestForwards(r, msg, env, o);
    }
  }

  lemma IdentityForwardsHeld(r: Relay, msg: Message, o: Out)
    requires o in OnUpstreamUnderIdentity(r, msg).1 && IsForwardedRequest(o)
    ensures o.msg in HeldMessages(r.queue.held)
  {}

  lemma ObservedForwardsHeld(r: Relay, msg: Message, env: Environment, o: Out)
    requires o in OnObserved(r, msg, env).1 && IsForwardedRequest(o)
    ensures o.msg in HeldMessages(r.queue.held)
  {
    var changed := ObserveUpstream(r.tracked, env.who, env.reading).1;
    if changed.Some? {
      ReleasesForwardHeld(r.queue, changed.value, o);
    }
  }

  lemma UpstreamForwardsHeld(r: Relay, msg: Message, env: Environment, o: Out)
    requires o in OnUpstream(r, msg, env).1 && IsForwardedRequest(o)
    ensures o.msg in HeldMessages(r.queue.held)
  {
    if SkipsPeek(r) || msg.Unreadable? || AsksForProgress(r, msg) || AnswersInitialize(r, msg) {
    } else if r.identity {
      IdentityForwardsHeld(r, msg, o);
    } else {
      ObservedForwardsHeld(r, msg, env, o);
    }
  }

  lemma StepForwards(r: Relay, e: Event, o: Out)
    requires o in Step(r, e).1 && IsForwardedRequest(o)
    ensures IsSentFor(o.msg, e) || o.msg in HeldMessages(r.queue.held)
  {
    match e
    case UpstreamGone =>
    case FromUpstream(msg, env) => UpstreamForwardsHeld(r, msg, env, o);
    case FromClient(msg, env) =>
      if msg.Request? {
        RequestForwards(r, msg, env, o);
      } else if msg.Notification? && msg.name != Initialized && msg.name != CancelRequest {
        NotificationForwardsHeld(Noted(r, msg), Documents.Forwarded(r.uris, msg), env, o);
      }
  }

  // --- What is held came from the client ----------------------------------------------------

  predicate HoldsNoMore(before: Queue, after: Queue) { forall h | h in after.held :: h in before.held }

  lemma RequestHolds(r: Relay, msg: Message, env: Environment, h: HeldRequest)
    requires msg.Request? && h in OnClientRequest(r, msg, env).0.queue.held
    ensures h in r.queue.held || h.msg == msg
  {
    if msg.name != ServerStateRequest && msg.name != Initialize && msg.name != Shutdown {
      OtherRequestHolds(r, msg, env, h);
    }
  }

  lemma OtherRequestHolds(r: Relay, msg: Message, env: Environment, h: HeldRequest)
    requires msg.Request? && h in OnOtherRequest(r, msg, env).0.queue.held
    ensures h in r.queue.held || h.msg == msg
  {}

  lemma NotificationHolds(r: Relay, sent: Message, env: Environment)
    ensures HoldsNoMore(r.queue, OnNotification(r, sent, env).0.queue)
  {
    var predicted := if r.identity then None else ObserveClient(r.tracked, env.reading).1;
    if predicted.Some? {
      ReleasesHold(r.queue, predicted.value);
    }
  }

  lemma ReleasesHold(q: Queue, state: ServerState)
    ensures HoldsNoMore(q, Releases(q, state).0)
  {}

  lemma CancelHolds(r: Relay, msg: Message, target: RequestId)
    ensures HoldsNoMore(r.queue, OnCancel(r, msg, target).0.queue)
  {}

  lemma ClientNotificationHolds(r: Relay, msg: Message, env: Environment)
    requires msg.Notification?
    ensures HoldsNoMore(r.queue, OnClientNotification(r, msg, env).0.queue)
  {
    if msg.name == CancelRequest && msg.payload.CancelParams? {
      CancelHolds(r, msg, msg.payload.target);
    } else if msg.name != Initialized && msg.name != CancelRequest {
      NotificationHolds(Noted(r, msg), Documents.Forwarded(r.uris, msg), env);
    }
  }

  lemma ObservedHolds(r: Relay, msg: Message, env: Environment)
    ensures HoldsNoMore(r.queue, OnObserved(r, msg, env).0.queue)
  {
    var changed := ObserveUpstream(r.tracked, env.who, env.reading).1;
    if changed.Some? {
      ReleasesHold(r.queue, changed.value);
    }
  }

  lemma IdentityHolds(r: Relay, msg: Message)
    ensures HoldsNoMore(r.queue, OnUpstreamUnderIdentity(r, msg).0.queue)
  {
    ReleasesHold(r.queue, UNOBSERVED);
    if !msg.Unreadable? && msg.payload.State? {
      ReleasesHold(r.queue, msg.payload.state);
    }
  }

  lemma UpstreamHolds(r: Relay, msg: Message, env: Environment)
    ensures HoldsNoMore(r.queue, OnUpstream(r, msg, env).0.queue)
  {
    if SkipsPeek(r) || msg.Unreadable? || AsksForProgress(r, msg) || AnswersInitialize(r, msg) {
      assert OnUpstream(r, msg, env).0.queue == r.queue;
    } else if r.identity {
      IdentityHolds(r, msg);
    } else {
      ObservedHolds(r, msg, env);
    }
  }

  lemma StepHolds(r: Relay, e: Event, h: HeldRequest)
    requires h in Step(r, e).0.queue.held
    ensures h in r.queue.held || (e.FromClient? && e.msg.Request? && h.msg == e.msg)
  {
    if e.FromUpstream? {
      UpstreamHolds(r, e.msg, e.env);
    } else if e.FromClient? && e.msg.Request? {
      RequestHolds(r, e.msg, e.env, h);
    } else if e.FromClient? && e.msg.Notification? {
      ClientNotificationHolds(r, e.msg, e.env);
    }
  }

  ghost predicate Came(events: seq<Event>, msg: Message) {
    exists e | e in events :: IsSentFor(msg, e)
  }

  lemma {:induction false} HeldCame(events: seq<Event>, h: HeldRequest)
    requires h in Final(START, events).queue.held
    ensures Came(events, h.msg)
  {
    if events != [] {
      var before, e := events[..|events| - 1], events[|events| - 1];
      StepHolds(Final(START, before), e, h);
      if h in Final(START, before).queue.held {
        HeldCame(before, h);
        CameStays(before, e, h.msg);
      } else {
        assert IsSentFor(h.msg, e);
      }
    }
  }

  lemma CameStays(before: seq<Event>, e: Event, msg: Message)
    requires Came(before, msg)
    ensures Came(before + [e], msg)
  {
    var other :| other in before && IsSentFor(msg, other);
    assert other in before + [e];
  }

  /** In every run, each request passed on to the upstream is one the client sent, as it sent it;
      only an `initialize` has flags injected. */
  lemma {:induction false} ForwardedIsWhatCame(events: seq<Event>, o: Out)
    requires o in Written(START, events) && IsForwardedRequest(o)
    ensures Came(events, o.msg)
  {
    var before, e := events[..|events| - 1], events[|events| - 1];
    assert before + [e] == events;
    if o in Written(START, before) {
      ForwardedIsWhatCame(before, o);
      CameStays(before, e, o.msg);
    } else {
      StepForwards(Final(START, before), e, o);
      if !IsSentFor(o.msg, e) {
        var i :| 0 <= i < |Final(START, before).queue.held| && HeldMessages(Final(START, before).queue.held)[i] == o.msg;
        HeldCame(before, Final(START, before).queue.held[i]);
        CameStays(before, e, o.msg);
      }
    }
  }

  // --- From the upstream to the client ------------------------------------------------------

  /** What is passed on to the client, in order; not what lsp-det itself says. */
  function PassedOn(outs: seq<Out>): seq<Message> {
    if outs == [] then []
    else (if outs[0].ToClient? && !outs[0].own then [outs[0].msg] else []) + PassedOn(outs[1..])
  }

  /** What of an upstream message the client gets: all of it, except that the answer to lsp-det's
      own question, a request for progress the client does not know, and state changes for a client
      that did not declare are kept back, and the answer to `initialize` may gain the declaration. */
  function Share(r: Relay, msg: Message): seq<Message> {
    if SkipsPeek(r) || msg.Unreadable? then [msg]
    else if AsksForProgress(r, msg) then []
    else if AnswersInitialize(r, msg) then
      [if Action(msg.payload) == Rewritable then Response(msg.id, Declaring(msg.payload)) else msg]
    else if r.identity && msg.Response? && msg.id == SELF_STATE_REQUEST_ID then []
    else if r.identity && msg.Notification? && msg.name == ServerStateChanged && !r.clientDeclared then []
    else [msg]
  }

  lemma {:induction false} PassedOnConcat(a: seq<Out>, b: seq<Out>)
    ensures PassedOn(a + b) == PassedOn(a) + PassedOn(b)
  {
    if a == [] {
      assert a + b == b;
    } else {
      assert (a + b)[1..] == a[1..] + b && (a + b)[0] == a[0];
      PassedOnConcat(a[1..], b);
    }
  }

  lemma {:induction false} NothingPassedOn(outs: seq<Out>)
    requires forall o | o in outs :: !(o.ToClient? && !o.own)
    ensures PassedOn(outs) == []
  {
    if outs != [] {
      assert !(outs[0].ToClient? && !outs[0].own);
      NothingPassedOn(outs[1..]);
    }
  }

  lemma OnePassedOn(msg: Message, rest: seq<Out>)
    requires forall o | o in rest :: !(o.ToClient? && !o.own)
    ensures PassedOn([ToClient(msg, false)] + rest) == [msg]
  {
    NothingPassedOn(rest);
    PassedOnConcat([ToClient(msg, false)], rest);
    assert [ToClient(msg, false)][1..] == [];
  }

  lemma ReleasesPassNothing(q: Queue, state: ServerState)
    ensures forall o | o in Releases(q, state).1 :: !(o.ToClient? && !o.own)
  {}

  lemma ObservedPassesOn(r: Relay, msg: Message, env: Environment)
    ensures PassedOn(OnObserved(r, msg, env).1) == [msg]
  {
    var changed := ObserveUpstream(r.tracked, env.who, env.reading).1;
    OnePassedOn(msg, []);
    assert [ToClient(msg, false)] + [] == [ToClient(msg, false)];
    if changed.Some? {
      var told, released := Notify(r.clientDeclared, r.identity, changed.value), Releases(r.queue, changed.value).1;
      ReleasesPassNothing(r.queue, changed.value);
      OnePassedOn(msg, told + released);
      assert [ToClient(msg, false)] + told + released == [ToClient(msg, false)] + (told + released);
    }
  }

  lemma IdentityPassesOn(r: Relay, msg: Message)
    requires r.identity && !msg.Unreadable?
    ensures PassedOn(OnUpstreamUnderIdentity(r, msg).1) ==
      if msg.Response? && msg.id == SELF_STATE_REQUEST_ID then []
      else if msg.Notification? && msg.name == ServerStateChanged && !r.clientDeclared then []
      else [msg]
  {
    OnePassedOn(msg, []);
    assert [ToClient(msg, false)] + [] == [ToClient(msg, false)];
    if msg.Response? && msg.id == SELF_STATE_REQUEST_ID {
      NothingPassedOn(OnUpstreamUnderIdentity(r, msg).1);
    } else if msg.Notification? && msg.name == ServerStateChanged && msg.payload.State? {
      var released := Releases(r.queue, msg.payload.state).1;
      ReleasesPassNothing(r.queue, msg.payload.state);
      OnePassedOn(msg, released);
      NothingPassedOn(released);
      assert [] + released == released;
    }
  }

  lemma StepPassesOn(r: Relay, e: Event)
    ensures PassedOn(Step(r, e).1) == if e.FromUpstream? then Share(r, e.msg) else []
  {
    if e.FromUpstream? {
      UpstreamPassesOn(r, e.msg, e.env);
    } else if e.FromClient? {
      ClientPassesNothing(r, e.msg, e.env);
    } else {
      NothingPassedOn(Step(r, e).1);
    }
  }

  lemma UpstreamPassesOn(r: Relay, msg: Message, env: Environment)
    ensures PassedOn(OnUpstream(r, msg, env).1) == Share(r, msg)
  {
    if SkipsPeek(r) || msg.Unreadable? || AsksForProgress(r, msg) || AnswersInitialize(r, msg) {
      var outs := OnUpstream(r, msg, env).1;
      assert |outs| == 1 && outs[1..] == [];
    } else if r.identity {
      IdentityPassesOn(r, msg);
    } else {
      ObservedPassesOn(r, msg, env);
    }
  }

  lemma ClientPassesNothing(r: Relay, msg: Message, env: Environment)
    ensures PassedOn(OnClient(r, msg, env).1) == []
  {
    if msg.Notification? && msg.name != Initialized && msg.name != CancelRequest {
      NotificationPassesNothing(Noted(r, msg), Documents.Forwarded(r.uris, msg), env);
    } else if msg.Request? {
      NothingPassedOn(OnClientRequest(r, msg, env).1);
    } else {
      NothingPassedOn(OnClient(r, msg, env).1);
    }
  }

  lemma NotificationPassesNothing(r: Relay, sent: Message, env: Environment)
    ensures PassedOn(OnNotification(r, sent, env).1) == []
  {
    NothingPassedOn(OnNotification(r, sent, env).1);
  }

  /** The client's share of all that came from the upstream, in order of arrival. */
  function Shares(events: seq<Event>): seq<Message> {
    if events == [] then []
    else
      var before, e := events[..|events| - 1], events[|events| - 1];
      Shares(before) + if e.FromUpstream? then Share(Final(START, before), e.msg) else []
  }

  /** In every run the client gets, of what the upstream sends, exactly its share: each message once,
      in order, unaltered but for the declaration added to the answer to `initialize`. */
  lemma {:induction false} SharesArePassedOn(events: seq<Event>)
    ensures PassedOn(Written(START, events)) == Shares(events)
  {
    if events != [] {
      var before, e := events[..|events| - 1], events[|events| - 1];
      SharesArePassedOn(before);
      StepPassesOn(Final(START, before), e);
      PassedOnConcat(Written(START, before), Step(Final(START, before), e).1);
    }
  }
}
