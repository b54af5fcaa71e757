/** The upstream side as the object it is: fields updated in place by each message, with the
    tracker, the documents and the gate it works on (src/proxy.rs). */
module UpstreamSides {
  import opened Wrappers
  import opened ServerStates
  import opened Messages
  import opened Documents
  import opened Gates
  import opened Tracking
  import opened Relaying

  class UpstreamSide {
    const tracker: Tracker
    const documents: OpenDocuments
    var clientDeclared: bool
    var clientDeclaredProgress: bool
    var initializeId: Option<RequestId>
    var handshakeDone: bool
    var identity: bool
    var identityState: ServerState
    var identityQueryPending: bool
    var watching: bool

    function Contents(gate: Gate): Relay
      reads this, tracker, documents, gate
    {
      Relay(tracker.Contents(), gate.Contents(), clientDeclared, clientDeclaredProgress, initializeId,
            handshakeDone, identity, identityState, identityQueryPending, watching, documents.uris)
    }

    constructor ()
      ensures fresh(tracker) && fresh(documents)
      ensures forall gate: Gate | gate.Contents() == Queue([], false) :: Contents(gate) == START
    {
      tracker := new Tracker();
      documents := new OpenDocuments();
      clientDeclared, clientDeclaredProgress := false, false;
      initializeId := None;
      handshakeDone, identity, identityQueryPending, watching := false, false, false, false;
      identityState := INITIALIZING;
    }

    method Release(gate: Gate, state: ServerState) returns (outs: seq<Out>)
      modifies gate`held
      ensures (gate.Contents(), outs) == Releases(old(gate.Contents()), state)
    {
      var released := gate.OnState(state);
      match VerdictOf(state) {
        case Hold => outs := [];
        case Forward => outs := AllToUpstream(released, false);
        case Reject => outs := AllToClient(released, true);
      }
    }

    method OnNotification(gate: Gate, sent: Message, env: Environment) returns (outs: seq<Out>)
      modifies tracker, gate
      ensures (Contents(gate), outs) == Relaying.OnNotification(old(Contents(gate)), sent, env)
    {
      outs := [ToUpstream(sent, false)];
      if !identity {
        var predicted := tracker.OnClient(env.reading);
        if predicted.Some? {
          var released := Release(gate, predicted.value);
          outs := outs + released + Notify(clientDeclared, identity, predicted.value);
        }
      }
    }

    method OnOtherRequest(gate: Gate, msg: Message, env: Environment) returns (outs: seq<Out>)
      requires msg.Request?
      modifies gate
      ensures (Contents(gate), outs) == Relaying.OnOtherRequest(old(Contents(gate)), msg, env)
    {
      outs := [];
      if IsCrossWorkspace(msg.name) && watching && env.difference.Some? {
        outs := [ToUpstream(env.difference.value, true)];
      }
      var boundary := if identity then identityState else tracker.state;
      var decision := gate.OnRequest(msg, msg.id, msg.name, boundary);
      match decision {
        case Forwarded(m) => outs := outs + [ToUpstream(m, false)];
        case Held => outs := outs + [];
        case Rejected(response) => outs := outs + [ToClient(response, true)];
      }
    }

    method OnInitialize(gate: Gate, msg: Message, env: Environment) returns (outs: seq<Out>)
      requires msg.Request?
      modifies this, gate
      ensures (Contents(gate), outs) == Relaying.OnInitialize(old(Contents(gate)), msg, env)
    {
      var p := msg.payload;
      initializeId := Some(msg.id);
      if !(p.InitializeParams? && p.declaresWatchedFiles) {
        watching := env.usableRoots;
      }
      clientDeclared := p.InitializeParams? && p.declaresState;
      clientDeclaredProgress := p.InitializeParams? && p.declaresProgress;
      gate.SetClientDecides(clientDeclared);
      outs := [ToUpstream(Request(msg.id, msg.name, Injected(p)), false)];
    }

    method OnClientRequest(gate: Gate, msg: Message, env: Environment) returns (outs: seq<Out>)
      requires msg.Request?
      modifies this, gate
      ensures (Contents(gate), outs) == Relaying.OnClientRequest(old(Contents(gate)), msg, env)
    {
      if msg.name == ServerStateRequest {
        outs := if identity then [ToUpstream(msg, false)] else [ToClient(Response(msg.id, State(tracker.state)), true)];
      } else if msg.name == Initialize {
        outs := OnInitialize(gate, msg, env);
      } else if msg.name == Shutdown {
        var failed := gate.Drain(ShutdownRequested);
        outs := AllToClient(failed, true) + [ToUpstream(msg, false)];
      } else {
        outs := OnOtherRequest(gate, msg, env);
      }
    }

    method OnClientNotification(gate: Gate, msg: Message, env: Environment) returns (outs: seq<Out>)
      requires msg.Notification?
      modifies this, tracker, documents, gate
      ensures (Contents(gate), outs) == Relaying.OnClientNotification(old(Contents(gate)), msg, env)
    {
      if msg.name == Initialized {
        outs := [ToUpstream(msg, false)] + if identityQueryPending then [ToUpstream(SELF_STATE_REQUEST, true)] else [];
        identityQueryPending := false;
      } else if msg.name == CancelRequest {
        outs := [ToUpstream(msg, false)];
        if msg.payload.CancelParams? {
          outs := OnCancel(gate, msg, msg.payload.target);
        }
      } else {
        var sent := Note(gate, msg);
        outs := OnNotification(gate, sent, env);
      }
    }

    method OnCancel(gate: Gate, msg: Message, target: RequestId) returns (outs: seq<Out>)
      modifies gate`held
      ensures (Contents(gate), outs) == Relaying.OnCancel(old(Contents(gate)), msg, target)
    {
      var response := gate.OnCancel(target);
      outs := if response.Some? then [ToClient(response.value, true)] else [ToUpstream(msg, false)];
    }

    /** What is passed on for the notification, once the documents and the watched files know it. */
    method Note(ghost gate: Gate, msg: Message) returns (sent: Message)
      requires msg.Notification?
      modifies this`watching, documents
      ensures Contents(gate) == Noted(old(Contents(gate)), msg)
      ensures sent == Documents.Forwarded(old(documents.uris), msg)
    {
      sent := msg;
      if msg.name == DidOpen {
        var rewritten := documents.OnDidOpen(msg.payload);
        sent := rewritten.GetOr(msg);
      } else if msg.name == DidClose {
        documents.OnDidClose(msg.payload);
      } else if msg.name == DidChangeWatchedFiles {
        watching := false;
      }
    }

    method OnInitializeResult(gate: Gate, msg: Message, env: Environment) returns (outs: seq<Out>)
      requires msg.Response?
      modifies this, tracker
      ensures (Contents(gate), outs) == Relaying.OnInitializeResult(old(Contents(gate)), msg, env)
    {
      var _ := tracker.Select(NamedBy(msg.payload, env));
      outs := [ToClient(msg, false)];
      match Action(msg.payload) {
        case NotASuccess =>
          initializeId := None;
        case UpstreamDeclares =>
          handshakeDone, identity, identityQueryPending := true, true, true;
        case Unrewritable =>
          handshakeDone := true;
        case Rewritable =>
          handshakeDone := true;
          outs := [ToClient(Response(msg.id, Declaring(msg.payload)), false)];
      }
    }

    method AdoptState(gate: Gate, state: ServerState) returns (outs: seq<Out>)
      modifies this, gate
      ensures (Contents(gate), outs) == AdoptIdentityState(old(Contents(gate)), state)
    {
      identityState := state;
      outs := Release(gate, state);
    }

    method OnUpstreamUnderIdentity(gate: Gate, msg: Message) returns (outs: seq<Out>)
      modifies this, gate
      ensures (Contents(gate), outs) == Relaying.OnUpstreamUnderIdentity(old(Contents(gate)), msg)
    {
      if msg.Response? && msg.id == SELF_STATE_REQUEST_ID {
        outs := AdoptState(gate, if msg.payload.State? then msg.payload.state else UNOBSERVED);
      } else if msg.Notification? && msg.name == ServerStateChanged {
        outs := if clientDeclared then [ToClient(msg, false)] else [];
        if msg.payload.State? {
          var released := AdoptState(gate, msg.payload.state);
          outs := outs + released;
        }
      } else {
        outs := [ToClient(msg, false)];
      }
    }

    method OnUpstream(gate: Gate, msg: Message, env: Environment) returns (outs: seq<Out>)
      modifies this, tracker, gate
      ensures (Contents(gate), outs) == Relaying.OnUpstream(old(Contents(gate)), msg, env)
    {
      if handshakeDone && !identity && !tracker.mapped && tracker.namedButUnknown && clientDeclaredProgress {
        return [ToClient(msg, false)];
      }
      if msg.Unreadable? {
        return [ToClient(msg, false)];
      }
      if msg.Request? && msg.name == WorkDoneProgressCreate && !clientDeclaredProgress {
        return [ToUpstream(Response(msg.id, Null), true)];
      }
      if !handshakeDone && msg.Response? && initializeId == Some(msg.id) {
        outs := OnInitializeResult(gate, msg, env);
        return;
      }
      if identity {
        outs := OnUpstreamUnderIdentity(gate, msg);
        return;
      }
      outs := [ToClient(msg, false)];
      var changed := tracker.OnUpstream(env.who, env.reading);
      if changed.Some? {
        var released := Release(gate, changed.value);
        outs := outs + Notify(clientDeclared, identity, changed.value) + released;
      }
    }

    method ClosePending(gate: Gate) returns (outs: seq<Out>)
      modifies this, gate
      ensures (Contents(gate), outs) == Relaying.ClosePending(old(Contents(gate)))
    {
      outs := [];
      if !handshakeDone {
        if initializeId.Some? {
          outs := [ToClient(InitializeFailed(initializeId.value), true)];
        }
        initializeId := None;
      }
      var failed := gate.Drain(UpstreamExited);
      outs := outs + AllToClient(failed, true);
    }

    /** One turn of the event loop: every write follows from the state and the event. */
    method Turn(gate: Gate, e: Event) returns (outs: seq<Out>)
      modifies this, tracker, documents, gate
      ensures (Contents(gate), outs) == Step(old(Contents(gate)), e)
    {
      match e {
        case FromUpstream(msg, env) => outs := OnUpstream(gate, msg, env);
        case UpstreamGone => outs := ClosePending(gate);
        case FromClient(msg, env) =>
          if msg.Request? {
            outs := OnClientRequest(gate, msg, env);
          } else if msg.Notification? {
            outs := OnClientNotification(gate, msg, env);
          } else {
            outs := [ToUpstream(msg, false)];
          }
      }
    }
  }
}
