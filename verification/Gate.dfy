/** The downstream side: holds, forwards or rejects cross-workspace requests according to the
    state on the boundary (src/gate.rs). */
module Gates {
  import opened Wrappers
  import opened ServerStates
  import opened Messages

  const CROSS_WORKSPACE_METHODS: set<Method> := {
    References, Definition, TypeDefinition, Declaration, Implementation, WorkspaceSymbol,
    PrepareCallHierarchy, IncomingCalls, OutgoingCalls, Rename, PrepareRename}

  predicate IsCrossWorkspace(name: Method) {
    name in CROSS_WORKSPACE_METHODS
  }

  /** A row of the decision table; `health` is looked at first. */
  datatype Verdict = Forward | Hold | Reject

  function VerdictOf(state: ServerState): Verdict {
    if state.health == Health.Error then Reject
    else match state.readiness
      case Ready => Forward
      case Unknown => Forward
      case Initializing => Hold
      case Indexing => Hold
  }

  /** The verdict depends on the two axes alone, by the table. */
  lemma VerdictIsOnTheAxes(a: ServerState, b: ServerState)
    ensures SameAxes(a, b) ==> VerdictOf(a) == VerdictOf(b)
    ensures VerdictOf(a) == Forward <==> Answerable(a)
    ensures VerdictOf(a) == Hold <==> Loading(a)
    ensures VerdictOf(a) == Reject <==> Failing(a)
  {}

  datatype Decision = Forwarded(msg: Message) | Held | Rejected(response: Message)

  datatype DrainReason = ShutdownRequested | UpstreamExited

  datatype HeldRequest = HeldRequest(id: RequestId, name: Method, msg: Message) {
    /** The queue holds the very request it names. */
    ghost predicate Valid() {
      msg.Request? && msg.id == id && msg.name == name && IsCrossWorkspace(name)
    }
  }

  datatype Queue = Queue(held: seq<HeldRequest>, clientDecides: bool) {
    ghost predicate Valid() {
      forall h | h in held :: h.Valid()
    }
  }

  function RequestFailed(id: RequestId, state: ServerState): Message {
    ErrorResponse(id, REQUEST_FAILED, HealthIsError(state.message))
  }

  function Decide(q: Queue, msg: Message, id: RequestId, name: Method, state: ServerState): (Queue, Decision) {
    if q.clientDecides || !IsCrossWorkspace(name) then (q, Forwarded(msg))
    else match VerdictOf(state)
      case Forward => (q, Forwarded(msg))
      case Hold => (q.(held := q.held + [HeldRequest(id, name, msg)]), Held)
      case Reject => (q, Rejected(RequestFailed(id, state)))
  }

  /** The messages of the queue, in order. */
  function HeldMessages(held: seq<HeldRequest>): (r: seq<Message>) {
    seq(|held|, i requires 0 <= i < |held| => held[i].msg)
  }

  /** One error response per held request, in order. */
  function Answers(held: seq<HeldRequest>, code: int, reason: Reason): (r: seq<Message>) {
    seq(|held|, i requires 0 <= i < |held| => ErrorResponse(held[i].id, code, reason))
  }

  /** The position of the first held request with this id, or the length of the queue. */
  function Position(held: seq<HeldRequest>, id: RequestId): (i: nat)
    ensures i <= |held|
    ensures i < |held| ==> held[i].id == id
    ensures forall j | 0 <= j < i :: held[j].id != id
  {
    if held == [] || held[0].id == id then 0 else 1 + Position(held[1..], id)
  }

  function Cancelled(id: RequestId): Message {
    ErrorResponse(id, REQUEST_CANCELLED, CancelledWhileWaiting)
  }

  function DrainAnswer(reason: DrainReason): (int, Reason) {
    match reason
    case ShutdownRequested => (REQUEST_FAILED, ShutdownWhileWaiting)
    case UpstreamExited => (INTERNAL_ERROR, ExitedWhileWaiting)
  }

  /** The gate itself: a queue that requests are pushed to, removed from and drained from. */
  class Gate {
    var held: seq<HeldRequest>
    var clientDecides: bool

    function Contents(): Queue
      reads this
    {
      Queue(held, clientDecides)
    }

    constructor ()
      ensures Contents() == Queue([], false)
    {
      held := [];
      clientDecides := false;
    }

    method SetClientDecides(decides: bool)
      modifies this`clientDecides
      ensures clientDecides == decides
    {
      clientDecides := decides;
    }

    method OnRequest(msg: Message, id: RequestId, name: Method, state: ServerState) returns (decision: Decision)
      modifies this`held
      ensures (Contents(), decision) == Decide(old(Contents()), msg, id, name, state)
      ensures clientDecides || !IsCrossWorkspace(name) || Answerable(state) ==> decision == Forwarded(msg) && held == old(held)
      ensures !clientDecides && IsCrossWorkspace(name) && Loading(state) ==>
                decision == Held && held == old(held) + [HeldRequest(id, name, msg)]
      ensures !clientDecides && IsCrossWorkspace(name) && Failing(state) ==>
                decision == Rejected(ErrorResponse(id, -32803, HealthIsError(state.message))) && held == old(held)
    {
      if clientDecides || !IsCrossWorkspace(name) {
        return Forwarded(msg);
      }
      match VerdictOf(state) {
        case Forward => decision := Forwarded(msg);
        case Hold =>
          held := held + [HeldRequest(id, name, msg)];
          decision := Held;
        case Reject => decision := Rejected(RequestFailed(id, state));
      }
    }

    /** The state on the boundary changed: re-evaluate everything that waits. `forwards` tells
        whether the returned messages are the held requests or errors for them. */
    method OnState(state: ServerState) returns (released: seq<Message>)
      modifies this`held
      ensures Loading(state) ==> released == [] && held == old(held)
      ensures Answerable(state) ==> released == HeldMessages(old(held)) && held == []
      ensures Failing(state) ==> released == Answers(old(held), -32803, HealthIsError(state.message)) && held == []
    {
      released := [];
      var verdict := VerdictOf(state);
      if verdict == Hold {
        return;
      }
      for i := 0 to |held|
        invariant released == if verdict == Forward then HeldMessages(held[..i])
                              else Answers(held[..i], REQUEST_FAILED, HealthIsError(state.message))
      {
        released := released + [if verdict == Forward then held[i].msg else RequestFailed(held[i].id, state)];
      }
      assert held[..|held|] == held;
      held := [];
    }

    /** `$/cancelRequest`: the first held request with this id leaves the queue and is answered. */
    method OnCancel(id: RequestId) returns (response: Option<Message>)
      modifies this`held
      ensures var i := Position(old(held), id);
        if i == |old(held)| then response == None && held == old(held)
        else response == Some(Cancelled(id)) && held == old(held)[..i] + old(held)[i + 1..]
    {
      var i := 0;
      while i < |held| && held[i].id != id
        invariant 0 <= i <= |held|
        invariant forall j | 0 <= j < i :: held[j].id != id
      {
        i := i + 1;
      }
      if i == |held| {
        return None;
      }
      held := held[..i] + held[i + 1..];
      response := Some(Cancelled(id));
    }

    /** An error response for every held request; the queue is empty afterwards. */
    method Drain(reason: DrainReason) returns (responses: seq<Message>)
      modifies this`held
      ensures responses == Answers(old(held), DrainAnswer(reason).0, DrainAnswer(reason).1)
      ensures held == []
    {
      var (code, why) := DrainAnswer(reason);
      responses := [];
      for i := 0 to |held|
        invariant responses == Answers(held[..i], code, why)
      {
        responses := responses + [ErrorResponse(held[i].id, code, why)];
      }
      assert held[..|held|] == held;
      held := [];
    }
  }
}
