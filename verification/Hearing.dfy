/** What the tracker makes of a mapping's answers (src/tracker.rs): the state lsp-det goes by is the one
    the mapping answered last. */
module Hearing {
  import opened Wrappers
  import opened ServerStates
  import opened Histories
  import opened Tracking

  /** The tracker after a mapping's answers, one for each message it was shown. */
  function Hears(t: Tracked, answers: seq<Option<ServerState>>): Tracked {
    if answers == [] then t else ObserveClient(Hears(t, answers[..|answers| - 1]), answers[|answers| - 1]).0
  }

  lemma HearsOneMore(t: Tracked, answers: seq<Option<ServerState>>, answer: Option<ServerState>)
    ensures Hears(t, answers + [answer]) == ObserveClient(Hears(t, answers), answer).0
  {
    assert (answers + [answer])[..|answers|] == answers;
  }

  function Itself(before: seq<Option<ServerState>>, answer: Option<ServerState>): Option<ServerState> { answer }

  /** Under a mapping, the state held is the last one answered, or the one it was selected with. */
  lemma {:induction false} HeardIsLastAnswer(t: Tracked, answers: seq<Option<ServerState>>)
    requires t.mapped
    ensures IsLast(answers, Itself, t.state, Hears(t, answers).state)
    ensures Hears(t, answers).mapped
  {
    if answers != [] {
      var before, answer := answers[..|answers| - 1], answers[|answers| - 1];
      HeardIsLastAnswer(t, before);
      SplitLast(answers);
      IsLastStep(before, answer, Itself, t.state, Hears(t, before).state);
    }
  }

  /** Under a mapping, an answer is heard alike from either side: it becomes the state, and is to be
      notified iff it differs on an axis. */
  lemma AnswerIsHeard(t: Tracked, who: Option<Announcement>, answer: Option<ServerState>)
    requires t.mapped
    ensures var (t', notified) := ObserveClient(t, answer);
      && (t', notified) == ObserveUpstream(t, who, answer)
      && t'.state == answer.GetOr(t.state) && t'.mapped
      && notified == if answer.Some? && !SameAxes(answer.value, t.state) then answer else None
  {}
}
