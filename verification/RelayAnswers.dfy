/** How many answers the client gets to a request, counted on what is written to it: those of lsp-det
    and those passed on from the upstream (src/proxy.rs). */
module RelayAnswers {
  import opened Wrappers
  import opened Messages
  import opened Gates
  import opened Relaying
  import opened RelayRuns
  import opened RelayContents

  predicate IsReply(msg: Message, id: RequestId) { msg.Response? && msg.id == id }

  /** How many answers with the id are written to the client. */
  function Replies(outs: seq<Out>, id: RequestId): nat {
    if outs == [] then 0 else One(outs[0].ToClient? && IsReply(outs[0].msg, id)) + Replies(outs[1..], id)
  }

  function RepliesIn(msgs: seq<Message>, id: RequestId): nat {
    if msgs == [] then 0 else One(IsReply(msgs[0], id)) + RepliesIn(msgs[1..], id)
  }

  /** How many answers with the id the upstream sends. */
  function UpstreamReplies(events: seq<Event>, id: RequestId): nat {
    if events == [] then 0
    else
      var e := events[|events| - 1];
      UpstreamReplies(events[..|events| - 1], id) + One(e.FromUpstream? && IsReply(e.msg, id))
  }

  lemma {:induction false} RepliesInConcat(a: seq<Message>, b: seq<Message>, id: RequestId)
    ensures RepliesIn(a + b, id) == RepliesIn(a, id) + RepliesIn(b, id)
  {
    if a == [] {
      assert a + b == b;
    } else {
      assert (a + b)[1..] == a[1..] + b && (a + b)[0] == a[0];
      RepliesInConcat(a[1..], b, id);
    }
  }

  lemma RepliesInOne(msg: Message, id: RequestId)
    ensures RepliesIn([msg], id) == One(IsReply(msg, id))
  {
    assert [msg][1..] == [];
  }

  /** An answer is one of lsp-det instead of the upstream, one to an `initialize` left open, or one
      passed on. */
  lemma {:induction false} RepliesAre(outs: seq<Out>, id: RequestId)
    ensures Replies(outs, id) == Tally(outs, Answering, id) + Tally(outs, FailingInitialize, id) + RepliesIn(PassedOn(outs), id)
  {
    if outs != [] {
      var o := outs[0];
      var passed := if o.ToClient? && !o.own then [o.msg] else [];
      RepliesAre(outs[1..], id);
      RepliesInConcat(passed, PassedOn(outs[1..]), id);
      RepliesInOne(o.msg, id);
    }
  }

  lemma RepliesShared(r: Relay, msg: Message, id: RequestId)
    ensures RepliesIn(Share(r, msg), id) <= One(IsReply(msg, id))
    ensures AnswersInitialize(r, msg) ==> RepliesIn(Share(r, msg), id) == One(IsReply(msg, id))
  {
    RepliesInOne(msg, id);
    if AnswersInitialize(r, msg) {
      RepliesInOne(Response(msg.id, Declaring(msg.payload)), id);
    }
  }

  /** How many answers with the id have been passed on. */
  function Passed(events: seq<Event>, id: RequestId): nat { RepliesIn(Shares(events), id) }

  lemma PassedStep(before: seq<Event>, e: Event, id: RequestId)
    ensures Passed(before + [e], id) ==
      Passed(before, id) + if e.FromUpstream? then RepliesIn(Share(Final(START, before), e.msg), id) else 0
    ensures UpstreamReplies(before + [e], id) == UpstreamReplies(before, id) + One(e.FromUpstream? && IsReply(e.msg, id))
  {
    assert (before + [e])[..|before|] == before;
    RepliesInConcat(Shares(before), if e.FromUpstream? then Share(Final(START, before), e.msg) else [], id);
  }

  lemma {:induction false} PassedCame(events: seq<Event>, id: RequestId)
    ensures Passed(events, id) <= UpstreamReplies(events, id)
  {
    if events != [] {
      var before, e := events[..|events| - 1], events[|events| - 1];
      assert before + [e] == events;
      PassedCame(before, id);
      PassedStep(before, e, id);
      if e.FromUpstream? {
        RepliesShared(Final(START, before), e.msg, id);
      }
    }
  }

  function Forwarded(events: seq<Event>, id: RequestId): nat { Tally(Written(START, events), Forwarding, id) }

  function Failed(events: seq<Event>, id: RequestId): nat { Tally(Written(START, events), FailingInitialize, id) }

  /** At every moment the upstream has answered no more requests with the id than were passed on to
      it. */
  ghost predicate AnswersOnce(events: seq<Event>, id: RequestId) {
    forall n | 0 <= n <= |events| :: UpstreamReplies(events[..n], id) <= Forwarded(events[..n], id)
  }

  /** The `initialize` requests with the id that are failed by lsp-det or still open. */
  function Unanswered(events: seq<Event>, id: RequestId): nat { Failed(events, id) + Pending(Final(START, events), id) }

  lemma ForwardedStep(before: seq<Event>, e: Event, id: RequestId)
    ensures Forwarded(before + [e], id) >= Forwarded(before, id) + One(IsInitialize(e) && e.msg.id == id)
  {
    OneMoreEvent(START, before, e);
    TallyConcat(Written(START, before), Step(Final(START, before), e).1, id);
    if IsInitialize(e) {
      TallyOne(ToUpstream(Request(e.msg.id, e.msg.name, Injected(e.msg.payload)), false), id);
    }
  }

  lemma UnansweredStep(before: seq<Event>, e: Event, id: RequestId)
    ensures Unanswered(before + [e], id) + One(IsInitializeResult(Final(START, before), e) && e.msg.id == id)
      <= Unanswered(before, id) + One(IsInitialize(e) && e.msg.id == id)
  {
    OneMoreEvent(START, before, e);
    FailuresStep(before, e, id);
    PendingStep(Final(START, before), e, id);
  }

  lemma FailedStep(before: seq<Event>, e: Event, id: RequestId)
    requires !e.UpstreamGone?
    ensures Failed(before + [e], id) == Failed(before, id)
  {
    FailuresStep(before, e, id);
  }

  predicate NeverGone(events: seq<Event>) { forall e | e in events :: !e.UpstreamGone? }

  lemma {:induction false} NothingFailedYet(events: seq<Event>, id: RequestId)
    requires NeverGone(events)
    ensures Failed(events, id) == 0
  {
    if events != [] {
      var before, e := events[..|events| - 1], events[|events| - 1];
      NothingFailedYet(before, id);
      FailedStep(before, e, id);
      assert before + [e] == events;
    }
  }

  /** What one message passes on, against what it answers. */
  lemma PassedBy(r: Relay, e: Event, id: RequestId)
    ensures var passed := if e.FromUpstream? then RepliesIn(Share(r, e.msg), id) else 0;
      passed <= One(e.FromUpstream? && IsReply(e.msg, id))
      && (IsInitializeResult(r, e) ==> passed == One(e.msg.id == id))
      && (passed == 1 && !IsInitializeResult(r, e) ==> Pending(r, id) == 0)
  {
    if e.FromUpstream? {
      RepliesShared(r, e.msg, id);
    }
  }

  ghost predicate Balanced(events: seq<Event>, id: RequestId) {
    Passed(events, id) + Unanswered(events, id) <= Forwarded(events, id)
  }

  lemma BalancedStep(before: seq<Event>, e: Event, events: seq<Event>, id: RequestId)
    requires events == before + [e] && Balanced(before, id) && NeverGone(before)
    requires UpstreamReplies(events, id) <= Forwarded(events, id)
    ensures Balanced(events, id)
  {
    NothingFailedYet(before, id);
    ForwardedStep(before, e, id);
    UnansweredStep(before, e, id);
    PassedStep(before, e, id);
    PassedCame(events, id);
    PassedBy(Final(START, before), e, id);
  }

  lemma BalancedNext(events: seq<Event>, n: nat, id: RequestId)
    requires 0 < n <= |events| && AnswersOnce(events, id) && NeverGone(events[..n - 1])
    requires Balanced(events[..n - 1], id)
    ensures Balanced(events[..n], id)
  {
    assert events[..n] == events[..n - 1] + [events[n - 1]];
    BalancedStep(events[..n - 1], events[n - 1], events[..n], id);
  }

  lemma {:induction false} BalancedUpTo(events: seq<Event>, n: nat, id: RequestId)
    requires n <= |events| && AnswersOnce(events, id)
    requires forall i | 0 <= i < |events| - 1 :: !events[i].UpstreamGone?
    ensures Balanced(events[..n], id)
  {
    if n > 0 {
      BalancedUpTo(events, n - 1, id);
      BalancedNext(events, n, id);
    }
  }

  /** For every run: the answers the client gets, and the requests passed on or held, against those that
      arrived and the answers passed on or made up for an open `initialize`. So an id gets too many
      answers exactly if more are passed on or made up than requests are passed on or held. */
  lemma RepliesExactly(events: seq<Event>, id: RequestId)
    ensures Replies(Written(START, events), id) + Forwarded(events, id) + Waiting(Final(START, events).queue.held, id)
      == Arrived(events, id) + Failed(events, id) + Passed(events, id)
  {
    RepliesAre(Written(START, events), id);
    SharesArePassedOn(events);
    EveryRequestIsAccountedFor(events, id);
  }

  /** For every run that ends when the upstream is gone, and in which it answers each request at most
      once: the client gets no more
      answers with an id than it sent requests with it, those of lsp-det and of the upstream together. */
  lemma RequestsAreAnsweredAtMostOnce(events: seq<Event>, id: RequestId)
    requires AnswersOnce(events, id) && forall i | 0 <= i < |events| - 1 :: !events[i].UpstreamGone?
    ensures Replies(Written(START, events), id) <= Arrived(events, id)
  {
    RepliesExactly(events, id);
    BalancedUpTo(events, |events|, id);
    assert events[..|events|] == events;
  }

  /** An answer that the upstream repeats is passed on again: nothing is remembered of requests that
      were passed on, except of `initialize`, and of it only until its answer. */
  lemma RepeatedAnswerIsPassedOn(r: Relay, msg: Message, env: Environment)
    requires msg.Response? && !AnswersInitialize(r, msg) && !(r.identity && msg.id == SELF_STATE_REQUEST_ID)
    ensures Replies(OnUpstream(r, msg, env).1, msg.id) >= 1
  {
    UpstreamPassesOn(r, msg, env);
    RepliesAre(OnUpstream(r, msg, env).1, msg.id);
    RepliesInOne(msg, msg.id);
  }
}
