/** The handshake and the selection of a mapping over whole runs: which `initialize` is open, when the
    handshake is done, and by which name the mapping was selected (src/proxy.rs, src/tracker.rs). */
module RelayHandshake {
  import opened Wrappers
  import opened ServerStates
  import opened Histories
  import opened Messages
  import opened Documents
  import opened Gates
  import opened Tracking
  import opened Relaying
  import opened RelayRuns
  import opened RelayStates

  predicate Succeeds(msg: Message) {
    msg.Response? && msg.payload.InitializeResult? && msg.payload.action != NotASuccess
  }

  /** The open `initialize` is answered with a result. */
  predicate Finishes(before: seq<Event>, e: Event) {
    e.FromUpstream? && AnswersOpen(Final(START, before), e.msg) && Succeeds(e.msg)
  }

  /** An `initialize` opens; an error that answers it, or the end of the upstream, closes it. */
  function OpensOrCloses(before: seq<Event>, e: Event): Option<Option<RequestId>> {
    if IsInitialize(e) then Some(Some(e.msg.id))
    else if e.FromUpstream? && AnswersOpen(Final(START, before), e.msg) && !Succeeds(e.msg) then Some(None)
    else if e.UpstreamGone? && !Final(START, before).handshakeDone then Some(None)
    else None
  }

  /** The name a mapping is selected by: that of the result, or while there is none that of any message that
      is looked at and announces a known one. */
  function Selects(before: seq<Event>, e: Event): Option<Option<string>> {
    var r := Final(START, before);
    if !e.FromUpstream? || e.msg.Unreadable? || AsksUndeclared(r, e.msg) || !Known(e.env.who) then None
    else if AnswersOpen(r, e.msg) then (if Succeeds(e.msg) then Some(Some(e.env.who.value.name)) else None)
    else if r.identity || r.tracked.mapped || IsPastAnnouncing(r) then None
    else Some(Some(e.env.who.value.name))
  }

  /** The result names the upstream, by a name no mapping is known by, and there is no mapping. */
  predicate NamesUnknown(before: seq<Event>, e: Event) {
    Finishes(before, e) && e.env.who.Some? && e.env.who.value.starting.None? && !Final(START, before).tracked.mapped
  }

  /** What the lemmas below follow of the relay. */
  predicate Follows(r: Relay, r': Relay, before: seq<Event>, e: Event) {
    && r'.handshakeDone == (r.handshakeDone || Finishes(before, e))
    && r'.initializeId == OpensOrCloses(before, e).GetOr(r.initializeId)
    && r'.tracked.identity == Selects(before, e).GetOr(r.tracked.identity)
    && r'.tracked.namedButUnknown == (r.tracked.namedButUnknown || NamesUnknown(before, e))
  }

  predicate SameHandshake(r: Relay, r': Relay) {
    && r'.handshakeDone == r.handshakeDone && r'.initializeId == r.initializeId
    && r'.tracked.identity == r.tracked.identity && r'.tracked.namedButUnknown == r.tracked.namedButUnknown
  }

  lemma RequestFollows(r: Relay, msg: Message, env: Environment)
    requires msg.Request? && msg.name != Initialize
    ensures SameHandshake(r, OnClientRequest(r, msg, env).0)
  {}

  lemma CancelFollows(r: Relay, msg: Message, target: RequestId)
    ensures SameHandshake(r, OnCancel(r, msg, target).0)
  {}

  lemma ObservedFollows(r: Relay, sent: Message, env: Environment)
    ensures SameHandshake(r, OnNotification(r, sent, env).0)
  {}

  lemma NotificationFollows(r: Relay, msg: Message, env: Environment)
    requires msg.Notification?
    ensures SameHandshake(r, OnClientNotification(r, msg, env).0)
  {
    if msg.name == CancelRequest && msg.payload.CancelParams? {
      CancelFollows(r, msg, msg.payload.target);
    } else if msg.name != Initialized && msg.name != CancelRequest {
      ObservedFollows(Noted(r, msg), Documents.Forwarded(r.uris, msg), env);
    }
  }

  lemma ClientFollows(before: seq<Event>, msg: Message, env: Environment)
    ensures Follows(Final(START, before), OnClient(Final(START, before), msg, env).0, before, FromClient(msg, env))
  {
    var r := Final(START, before);
    if msg.Notification? {
      NotificationFollows(r, msg, env);
    } else if msg.Request? && msg.name != Initialize {
      RequestFollows(r, msg, env);
    }
  }

  lemma SelectionFollows(t: Tracked, who: Option<Announcement>)
    ensures var t' := SelectMapping(t, who).0;
      && t'.identity == (if Known(who) then Some(who.value.name) else t.identity)
      && t'.namedButUnknown == (t.namedButUnknown || (who.Some? && who.value.starting.None? && !t.mapped))
  {}

  lemma ResultFollows(before: seq<Event>, msg: Message, env: Environment)
    requires AnswersOpen(Final(START, before), msg)
    ensures Follows(Final(START, before), OnInitializeResult(Final(START, before), msg, env).0, before, FromUpstream(msg, env))
  {
    SelectionFollows(Final(START, before).tracked, NamedBy(msg.payload, env));
  }

  lemma IdentityFollows(r: Relay, msg: Message)
    ensures SameHandshake(r, OnUpstreamUnderIdentity(r, msg).0)
  {}

  lemma AnnouncementFollows(r: Relay, msg: Message, env: Environment)
    ensures var r' := OnObserved(r, msg, env).0;
      && r'.handshakeDone == r.handshakeDone && r'.initializeId == r.initializeId
      && r'.tracked.namedButUnknown == r.tracked.namedButUnknown
      && r'.tracked.identity == (if !r.tracked.mapped && Known(env.who) then Some(env.who.value.name) else r.tracked.identity)
  {}

  lemma UpstreamFollows(before: seq<Event>, msg: Message, env: Environment)
    ensures Follows(Final(START, before), OnUpstream(Final(START, before), msg, env).0, before, FromUpstream(msg, env))
  {
    var r := Final(START, before);
    if SkipsPeek(r) || msg.Unreadable? || AsksForProgress(r, msg) {
    } else if AnswersInitialize(r, msg) {
      ResultFollows(before, msg, env);
    } else if r.identity {
      IdentityFollows(r, msg);
    } else {
      AnnouncementFollows(r, msg, env);
    }
  }

  lemma StepFollows(before: seq<Event>, e: Event)
    ensures Follows(Final(START, before), Step(Final(START, before), e).0, before, e)
  {
    match e
    case UpstreamGone =>
    case FromClient(msg, env) => ClientFollows(before, msg, env);
    case FromUpstream(msg, env) => UpstreamFollows(before, msg, env);
  }

  /** In every run: the handshake is done iff the open `initialize` was once answered with a result; the open
      one is the last that came, unless it was answered with an error or the upstream went before. */
  lemma {:induction false} HandshakeExactly(events: seq<Event>)
    ensures Final(START, events).handshakeDone <==> Since(events, Finishes, Never)
    ensures IsLast(events, OpensOrCloses, None, Final(START, events).initializeId)
  {
    if events != [] {
      var before, e := events[..|events| - 1], events[|events| - 1];
      HandshakeExactly(before);
      SplitLast(events);
      SinceStep(before, e, Finishes, Never);
      IsLastStep(before, e, OpensOrCloses, None, Final(START, before).initializeId);
      StepFollows(before, e);
    }
  }

  /** In every run: the mapping is the one selected last, and there is one iff one was ever selected; the
      upstream counts as named but unknown iff such a result came while there was none. */
  lemma {:induction false} SelectionExactly(events: seq<Event>)
    ensures IsLast(events, Selects, None, Final(START, events).tracked.identity)
    ensures Final(START, events).tracked.mapped <==> Final(START, events).tracked.identity.Some?
    ensures Final(START, events).tracked.namedButUnknown <==> Since(events, NamesUnknown, Never)
  {
    AlwaysValid(events);
    if events != [] {
      var before, e := events[..|events| - 1], events[|events| - 1];
      SelectionExactly(before);
      SplitLast(events);
      SinceStep(before, e, NamesUnknown, Never);
      IsLastStep(before, e, Selects, None, Final(START, before).tracked.identity);
      StepFollows(before, e);
    }
  }

  /** Every `initialize` goes upstream at once, with the flags injected, and nothing else is written. */
  lemma InitializeIsForwarded(r: Relay, e: Event)
    requires IsInitialize(e)
    ensures Step(r, e).1 == [ToUpstream(Request(e.msg.id, Initialize, Injected(e.msg.payload)), false)]
  {}
}
