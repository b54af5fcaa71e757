/** What of the client's other messages reaches the upstream, and that the document notifications among
    them are the rewritten stream (src/proxy.rs, src/documents.rs). */
module RelayDocuments {
  import opened Wrappers
  import opened ServerStates
  import opened Messages
  import opened Documents
  import opened Gates
  import opened Tracking
  import opened Relaying
  import opened RelayRuns

  // --- Once, in order -----------------------------------------------------------------------

  /** What is passed on to the upstream and is no request. */
  predicate IsPassedUp(o: Out) { o.ToUpstream? && !o.own && !o.msg.Request? }

  function PassedUp(outs: seq<Out>): seq<Message> {
    if outs == [] then [] else Up(outs[0]) + PassedUp(outs[1..])
  }

  function Up(o: Out): seq<Message> { if IsPassedUp(o) then [o.msg] else [] }

  /** What of a client message that is no request the upstream gets: all of it, with a second open
      rewritten; except that a cancellation of a held request is answered here. */
  function UpShare(r: Relay, msg: Message): seq<Message> {
    if msg.Request? then []
    else if !msg.Notification? then [msg]
    else if msg.name == CancelRequest && msg.payload.CancelParams? && Position(r.queue.held, msg.payload.target) < |r.queue.held| then []
    else if msg.name == Initialized || msg.name == CancelRequest then [msg]
    else [Documents.Forwarded(r.uris, msg)]
  }

  lemma {:induction false} PassedUpConcat(a: seq<Out>, b: seq<Out>)
    ensures PassedUp(a + b) == PassedUp(a) + PassedUp(b)
  {
    if a == [] {
      assert a + b == b;
    } else {
      assert (a + b)[1..] == a[1..] + b && (a + b)[0] == a[0];
      PassedUpConcat(a[1..], b);
      assert Up(a[0]) + (PassedUp(a[1..]) + PassedUp(b)) == Up(a[0]) + PassedUp(a[1..]) + PassedUp(b);
    }
  }

  lemma {:induction false} NothingUp(outs: seq<Out>)
    requires forall o | o in outs :: !IsPassedUp(o)
    ensures PassedUp(outs) == []
  {
    if outs != [] {
      assert !IsPassedUp(outs[0]);
      NothingUp(outs[1..]);
    }
  }

  lemma OneUp(msg: Message, rest: seq<Out>)
    requires !msg.Request? && forall o | o in rest :: !IsPassedUp(o)
    ensures PassedUp([ToUpstream(msg, false)] + rest) == [msg]
  {
    NothingUp(rest);
    PassedUpConcat([ToUpstream(msg, false)], rest);
    assert [ToUpstream(msg, false)][1..] == [];
  }

  lemma ReleasesNothingUp(q: Queue, state: ServerState)
    requires q.Valid()
    ensures forall o | o in Releases(q, state).1 :: !IsPassedUp(o)
  {
    if VerdictOf(state) == Forward {
      forall o | o in Releases(q, state).1 ensures !IsPassedUp(o) {
        var i :| 0 <= i < |q.held| && o == ToUpstream(HeldMessages(q.held)[i], false);
        assert q.held[i].Valid();
      }
    }
  }

  lemma NotificationUp(r: Relay, sent: Message, env: Environment)
    requires r.queue.Valid() && !sent.Request?
    ensures PassedUp(OnNotification(r, sent, env).1) == [sent]
  {
    var predicted := if r.identity then None else ObserveClient(r.tracked, env.reading).1;
    if predicted.Some? {
      var released, told := Releases(r.queue, predicted.value).1, Notify(r.clientDeclared, r.identity, predicted.value);
      ReleasesNothingUp(r.queue, predicted.value);
      OneUp(sent, released + told);
      assert [ToUpstream(sent, false)] + released + told == [ToUpstream(sent, false)] + (released + told);
    } else {
      JustOneUp(sent);
    }
  }

  lemma JustOneUp(msg: Message)
    requires !msg.Request?
    ensures PassedUp([ToUpstream(msg, false)]) == [msg]
  {
    OneUp(msg, []);
    assert [ToUpstream(msg, false)] + [] == [ToUpstream(msg, false)];
  }

  lemma ClientNotificationUp(r: Relay, msg: Message, env: Environment)
    requires r.queue.Valid() && msg.Notification?
    ensures PassedUp(OnClientNotification(r, msg, env).1) == UpShare(r, msg)
  {
    JustOneUp(msg);
    if msg.name == Initialized {
      OneUp(msg, if r.identityQueryPending then [ToUpstream(SELF_STATE_REQUEST, true)] else []);
    } else if msg.name == CancelRequest {
      if UpShare(r, msg) == [] {
        NothingUp(OnClientNotification(r, msg, env).1);
      }
    } else {
      NotificationUp(Noted(r, msg), Documents.Forwarded(r.uris, msg), env);
    }
  }

  lemma RequestUp(r: Relay, msg: Message, env: Environment)
    requires msg.Request?
    ensures PassedUp(OnClientRequest(r, msg, env).1) == []
  {
    NothingUp(OnClientRequest(r, msg, env).1);
  }

  lemma IdentityUp(r: Relay, msg: Message)
    requires r.queue.Valid()
    ensures forall o | o in OnUpstreamUnderIdentity(r, msg).1 :: !IsPassedUp(o)
  {
    ReleasesNothingUp(r.queue, UNOBSERVED);
    if !msg.Unreadable? && msg.payload.State? {
      ReleasesNothingUp(r.queue, msg.payload.state);
    }
  }

  lemma ObservedUp(r: Relay, msg: Message, env: Environment)
    requires r.queue.Valid()
    ensures forall o | o in OnObserved(r, msg, env).1 :: !IsPassedUp(o)
  {
    var changed := ObserveUpstream(r.tracked, env.who, env.reading).1;
    if changed.Some? {
      ReleasesNothingUp(r.queue, changed.value);
    }
  }

  lemma UpstreamUp(r: Relay, msg: Message, env: Environment)
    requires r.queue.Valid()
    ensures PassedUp(OnUpstream(r, msg, env).1) == []
  {
    if !SkipsPeek(r) && !msg.Unreadable? && !AsksForProgress(r, msg) && !AnswersInitialize(r, msg) {
      if r.identity {
        IdentityUp(r, msg);
      } else {
        ObservedUp(r, msg, env);
      }
    }
    NothingUp(OnUpstream(r, msg, env).1);
  }

  lemma StepUp(r: Relay, e: Event)
    requires r.queue.Valid()
    ensures PassedUp(Step(r, e).1) == if e.FromClient? then UpShare(r, e.msg) else []
  {
    match e
    case UpstreamGone => NothingUp(Step(r, e).1);
    case FromUpstream(msg, env) => UpstreamUp(r, msg, env);
    case FromClient(msg, env) =>
      if msg.Request? {
        RequestUp(r, msg, env);
      } else if msg.Notification? {
        ClientNotificationUp(r, msg, env);
      } else {
        JustOneUp(msg);
      }
  }

  function UpShares(events: seq<Event>): seq<Message> {
    if events == [] then []
    else
      var before, e := events[..|events| - 1], events[|events| - 1];
      UpShares(before) + if e.FromClient? then UpShare(Final(START, before), e.msg) else []
  }

  /** In every run the upstream gets, of what the client sends besides requests, exactly its share: each
      message once, in order, unaltered but for the second opens. */
  lemma {:induction false} UpSharesArePassedOn(events: seq<Event>)
    ensures PassedUp(Written(START, events)) == UpShares(events)
  {
    if events != [] {
      var before, e := events[..|events| - 1], events[|events| - 1];
      UpSharesArePassedOn(before);
      EveryRequestIsAccountedFor(before, Number(0));
      StepUp(Final(START, before), e);
      PassedUpConcat(Written(START, before), Step(Final(START, before), e).1);
    }
  }

  // --- The documents ------------------------------------------------------------------------

  predicate OfDocument(msg: Message) { msg.Notification? && msg.name in {DidOpen, DidChange, DidClose} }

  function OfDocuments(msgs: seq<Message>): seq<Message> {
    if msgs == [] then []
    else
      var n := |msgs| - 1;
      OfDocuments(msgs[..n]) + IfDocument(msgs[n])
  }

  /** The document notifications of the client. */
  function ClientDocuments(events: seq<Event>): seq<Message> {
    if events == [] then []
    else
      var e := events[|events| - 1];
      ClientDocuments(events[..|events| - 1]) + if e.FromClient? then IfDocument(e.msg) else []
  }

  lemma OfDocumentsOneMore(msgs: seq<Message>, msg: Message)
    ensures OfDocuments(msgs + [msg]) == OfDocuments(msgs) + IfDocument(msg)
  {
    assert (msgs + [msg])[..|msgs|] == msgs;
  }

  /** The remembered uris change with document notifications alone. */
  lemma UrisStep(r: Relay, e: Event)
    ensures Step(r, e).0.uris == if e.FromClient? && e.msg.Notification? then Observed(r.uris, e.msg) else r.uris
  {
    if e.FromClient? && e.msg.Request? {
      RequestUris(r, e.msg, e.env);
    } else if e.FromClient? && e.msg.Notification? {
      NotificationUris(r, e.msg, e.env);
    } else if e.FromUpstream? {
      UpstreamUris(r, e.msg, e.env);
    }
  }

  lemma RequestUris(r: Relay, msg: Message, env: Environment)
    requires msg.Request?
    ensures OnClientRequest(r, msg, env).0.uris == r.uris
  {}

  lemma NotificationUris(r: Relay, msg: Message, env: Environment)
    requires msg.Notification?
    ensures OnClientNotification(r, msg, env).0.uris == Observed(r.uris, msg)
  {
    if msg.name != Initialized && msg.name != CancelRequest {
      ObservationUris(Noted(r, msg), Documents.Forwarded(r.uris, msg), env);
    }
  }

  lemma ObservationUris(r: Relay, sent: Message, env: Environment)
    ensures OnNotification(r, sent, env).0.uris == r.uris
  {}

  lemma UpstreamUris(r: Relay, msg: Message, env: Environment)
    ensures OnUpstream(r, msg, env).0.uris == r.uris
  {}

  lemma RewrittenOneMore(stream: seq<Message>, msg: Message)
    ensures RewrittenStream(stream + [msg]) == RewrittenStream(stream) + [Documents.Forwarded(OpenAfter(stream), msg)]
    ensures OpenAfter(stream + [msg]) == Observed(OpenAfter(stream), msg)
  {
    assert (stream + [msg])[..|stream|] == stream;
  }

  lemma ShareOfDocument(r: Relay, msg: Message)
    ensures if OfDocument(msg) then UpShare(r, msg) == [Documents.Forwarded(r.uris, msg)] && OfDocument(Documents.Forwarded(r.uris, msg))
            else UpShare(r, msg) == [] || UpShare(r, msg) == [msg]
  {}

  function IfDocument(msg: Message): seq<Message> { if OfDocument(msg) then [msg] else [] }

  lemma DocumentsStep(r: Relay, msg: Message, shares: seq<Message>, docs: seq<Message>)
    requires OfDocuments(shares) == RewrittenStream(docs) && r.uris == OpenAfter(docs)
    ensures OfDocuments(shares + UpShare(r, msg)) == RewrittenStream(docs + IfDocument(msg))
    ensures OpenAfter(docs + IfDocument(msg)) == if msg.Notification? then Observed(r.uris, msg) else r.uris
  {
    ShareOfDocument(r, msg);
    if OfDocument(msg) {
      RewrittenOneMore(docs, msg);
      OfDocumentsOneMore(shares, Documents.Forwarded(r.uris, msg));
    } else {
      assert docs + [] == docs && shares + [] == shares;
      OfDocumentsOneMore(shares, msg);
      assert OfDocuments(shares) + [] == OfDocuments(shares);
    }
  }

  /** In every run, the document notifications written to the upstream are the rewritten stream of those
      that the client sent. */
  lemma {:induction false} DocumentsAreRewritten(events: seq<Event>)
    ensures OfDocuments(UpShares(events)) == RewrittenStream(ClientDocuments(events))
    ensures Final(START, events).uris == OpenAfter(ClientDocuments(events))
  {
    if events != [] {
      var before, e := events[..|events| - 1], events[|events| - 1];
      var r := Final(START, before);
      DocumentsAreRewritten(before);
      UrisStep(r, e);
      if e.FromClient? {
        DocumentsStep(r, e.msg, UpShares(before), ClientDocuments(before));
      } else {
        assert UpShares(events) == UpShares(before) + [] == UpShares(before);
        assert ClientDocuments(events) == ClientDocuments(before) + [] == ClientDocuments(before);
      }
    }
  }

  /** So a strict server behind the relay never refuses an open, and holds what a lenient server would
      hold that the client spoke to itself. */
  lemma StrictServerBehindTheRelay(events: seq<Event>)
    ensures StrictAfter(OfDocuments(PassedUp(Written(START, events)))) == Some(LenientAfter(ClientDocuments(events)))
  {
    UpSharesArePassedOn(events);
    DocumentsAreRewritten(events);
    RewritingSimulatesReopening(ClientDocuments(events));
  }
}
