/** The gopls mapping (src/adapter/gopls.rs): loading of the workspace folders, failures of a
    load round, and the failure progress. */
module Gopls {
  import opened Wrappers
  import opened ServerStates
  import opened Histories
  import opened Tracking
  import opened Hearing
  import opened Jsons
  import opened Progresses
  import opened Openings

  const WORKSPACE_SETUP_TITLE := "Setting up workspace"
  const WORKSPACE_LOAD_FAILURE_TITLE := "Error loading workspace"
  const FAILED_LOAD_PREFIX := "Error loading packages"

  datatype Fields = Fields(
    state: ServerState,
    loading: seq<Token>,
    failedInRound: Option<string>,
    failure: Option<Token>)

  const INITIAL := Fields(INITIALIZING, [], None, None)

  predicate Failed(message: Option<string>) {
    message.Some? && FAILED_LOAD_PREFIX <= message.value
  }

  predicate BeginsSetup(p: Progress) {
    p.kind == Begin && p.title == Some(WORKSPACE_SETUP_TITLE)
  }

  predicate BeginsFailure(p: Progress) {
    p.kind == Begin && p.title == Some(WORKSPACE_LOAD_FAILURE_TITLE)
  }

  /** The health once no folder is loading any more. */
  function RoundResult(f: Fields): ServerState {
    if f.failedInRound.Some? then ServerState(Health.Error, Ready, f.failedInRound)
    else if f.failure.None? then ServerState(Health.Ok, Ready, None)
    else f.state.(readiness := Ready)
  }

  function OnEnd(f: Fields, p: Progress): (Fields, Option<ServerState>) {
    if f.failure == Some(p.token) then
      var state := f.state.(health := Health.Ok, message := None);
      (f.(failure := None, state := state), Some(state))
    else if p.token !in f.loading then (f, None)
    else
      var f := f.(loading := Ended(f.loading, p.token),
                  failedInRound := if Failed(p.message) then p.message else f.failedInRound);
      var f := if f.loading == [] then f.(state := RoundResult(f)) else f;
      (f, Some(f.state))
  }

  function OnProgress(f: Fields, p: Progress): (Fields, Option<ServerState>) {
    match p.kind
    case Begin =>
      if BeginsSetup(p) then
        var state := f.state.(readiness := Indexing);
        (f.(failedInRound := if f.loading == [] then None else f.failedInRound,
            loading := f.loading + [p.token], state := state), Some(state))
      else if BeginsFailure(p) then
        var state := f.state.(health := Health.Error, message := p.message);
        (f.(failure := Some(p.token), state := state), Some(state))
      else (f, None)
    case Report =>
      if f.failure != Some(p.token) then (f, None)
      else
        var state := if p.message.Some? then f.state.(message := p.message) else f.state;
        (f.(state := state), Some(state))
    case End => OnEnd(f, p)
    case OtherKind => (f, None)
  }

  class GoplsAdapter {
    var state: ServerState
    var loading: seq<Token>
    var failedInRound: Option<string>
    var failure: Option<Token>

    function Contents(): Fields
      reads this
    {
      Fields(state, loading, failedInRound, failure)
    }

    constructor ()
      ensures Contents() == INITIAL
    {
      state, loading, failedInRound, failure := INITIALIZING, [], None, None;
    }

    method Observe(p: Progress) returns (answer: Option<ServerState>)
      modifies this
      ensures (Contents(), answer) == OnProgress(old(Contents()), p)
    {
      match p.kind {
        case Begin =>
          if p.title == Some(WORKSPACE_SETUP_TITLE) {
            if loading == [] {
              failedInRound := None;
            }
            loading := loading + [p.token];
            state := state.(readiness := Indexing);
          } else if p.title == Some(WORKSPACE_LOAD_FAILURE_TITLE) {
            failure := Some(p.token);
            state := state.(health := Health.Error, message := p.message);
          } else {
            return None;
          }
        case Report =>
          if failure != Some(p.token) {
            return None;
          }
          if p.message.Some? {
            state := state.(message := p.message);
          }
        case End =>
          if failure == Some(p.token) {
            failure := None;
            state := state.(health := Health.Ok, message := None);
          } else {
            var index := Position(loading, p.token);
            if index == |loading| {
              return None;
            }
            loading := Without(loading, index);
            if Failed(p.message) {
              failedInRound := p.message;
            }
            if loading == [] {
              state := state.(readiness := Ready);
              if failedInRound.Some? {
                state := state.(health := Health.Error, message := failedInRound);
              } else if failure.None? {
                state := state.(health := Health.Ok, message := None);
              }
            }
          }
        case OtherKind =>
          return None;
      }
      answer := Some(state);
    }
  }

  // --- The fields as functions of the history -------------------------------------------

  function After(h: seq<Progress>): Fields {
    if h == [] then INITIAL else OnProgress(After(h[..|h| - 1]), h[|h| - 1]).0
  }

  // --- What the history says ---------------------------------------------------------------

  function FailureBegins(t: Token): (seq<Progress>, Progress) -> bool {
    (before, p) => BeginsFailure(p) && p.token == t
  }

  function FailureReplaced(t: Token): (seq<Progress>, Progress) -> bool {
    (before, p) => BeginsFailure(p) || (p.kind == End && p.token == t)
  }

  /** The failure progress with the token was begun last, and not ended. */
  ghost predicate FailureOpen(h: seq<Progress>, t: Token) { Since(h, FailureBegins(t), FailureReplaced(t)) }

  /** What an event means to the open loads: an end is of a load unless it is that of the open
      failure progress. */
  ghost function MarkOf(before: seq<Progress>, p: Progress): Mark<()> {
    if BeginsSetup(p) then Begins(p.token, ())
    else if p.kind == End && !FailureOpen(before, p.token) then Ends(p.token)
    else Neither
  }

  ghost function Marks(h: seq<Progress>): (marks: seq<Mark<()>>)
    ensures |marks| == |h|
  {
    if h == [] then [] else Marks(h[..|h| - 1]) + [MarkOf(h[..|h| - 1], h[|h| - 1])]
  }

  predicate SetupBegins(before: seq<Progress>, p: Progress) { BeginsSetup(p) }

  predicate Never(before: seq<Progress>, p: Progress) { false }

  /** A setup begins while nothing is loading. */
  ghost predicate RoundBegins(before: seq<Progress>, p: Progress) {
    BeginsSetup(p) && NoneOpen(Marks(before))
  }

  ghost predicate LoadEnds(before: seq<Progress>, p: Progress) {
    MarkOf(before, p).Ends? && Open(Marks(before), p.token) > 0
  }

  /** A load ends, saying that it failed. */
  ghost predicate FolderFails(before: seq<Progress>, p: Progress) { LoadEnds(before, p) && Failed(p.message) }

  /** A folder has failed in the round that began last. */
  ghost predicate FailedRound(h: seq<Progress>) { Since(h, FolderFails, RoundBegins) }

  /** The last load of a round ends. */
  ghost predicate RoundEnds(before: seq<Progress>, p: Progress) {
    LoadEnds(before, p) && NoneOpen(Marks(before + [p]))
  }

  ghost predicate EndsFailure(before: seq<Progress>, p: Progress) { p.kind == End && FailureOpen(before, p.token) }

  ghost predicate TurnsError(before: seq<Progress>, p: Progress) {
    BeginsFailure(p) || (RoundEnds(before, p) && FailedRound(before + [p]))
  }

  ghost predicate TurnsOk(before: seq<Progress>, p: Progress) {
    || EndsFailure(before, p)
    || (RoundEnds(before, p) && !FailedRound(before + [p]) && !exists t :: FailureOpen(before + [p], t))
  }

  // --- The fields --------------------------------------------------------------------------

  lemma FailureStep(f: Fields, p: Progress)
    requires f.failure.Some? ==> f.state.health == Health.Error
    ensures var f' := OnProgress(f, p).0;
      && f'.failure == (if BeginsFailure(p) then Some(p.token)
                        else if p.kind == End && f.failure == Some(p.token) then None
                        else f.failure)
      && (f'.failure.Some? ==> f'.state.health == Health.Error)
  {}

  /** The failure progress is the last one begun, not ended since. */
  lemma {:induction false} FailureIsLastBegun(h: seq<Progress>, t: Token)
    ensures After(h).failure == Some(t) <==> FailureOpen(h, t)
    ensures After(h).failure.Some? ==> After(h).state.health == Health.Error
  {
    if h != [] {
      var before, p := h[..|h| - 1], h[|h| - 1];
      FailureIsLastBegun(before, t);
      SplitLast(h);
      SinceStep(before, p, FailureBegins(t), FailureReplaced(t));
      FailureStep(After(before), p);
    }
  }

  lemma NoFailureIsOpen(h: seq<Progress>)
    ensures After(h).failure.None? <==> !exists t :: FailureOpen(h, t)
  {
    forall t {
      FailureIsLastBegun(h, t);
    }
    if After(h).failure.Some? {
      assert FailureOpen(h, After(h).failure.value);
    }
  }

  lemma LoadingStep(f: Fields, p: Progress)
    ensures OnProgress(f, p).0.loading ==
            if BeginsSetup(p) then f.loading + [p.token]
            else if p.kind == End && f.failure != Some(p.token) then Ended(f.loading, p.token)
            else f.loading
  {}

  lemma {:induction false} LoadingIsMarked(h: seq<Progress>)
    ensures After(h).loading == OpenTokens(Marks(h))
  {
    if h != [] {
      var before, p := h[..|h| - 1], h[|h| - 1];
      LoadingIsMarked(before);
      FailureIsLastBegun(before, p.token);
      LoadingStep(After(before), p);
      assert Marks(h)[..|h| - 1] == Marks(before);
      OpenTokensStep(Marks(h));
    }
  }

  /** The tokens in the list are those of loads begun and not ended. */
  lemma LoadingIsBegunNotEnded(h: seq<Progress>, t: Token)
    ensures Count(After(h).loading, t) == Open(Marks(h), t)
    ensures After(h).loading == [] <==> NoneOpen(Marks(h))
  {
    LoadingIsMarked(h);
    TokensAreOpen(Marks(h), t);
  }

  lemma ReadinessStep(f: Fields, p: Progress, begun: bool)
    requires f.state.readiness == (if f.loading != [] then Indexing else if begun then Ready else Initializing)
    requires f.loading != [] ==> begun
    ensures var f', begun' := OnProgress(f, p).0, begun || BeginsSetup(p);
      && f'.state.readiness == (if f'.loading != [] then Indexing else if begun' then Ready else Initializing)
      && (f'.loading != [] ==> begun')
  {}

  lemma {:induction false} ReadinessByTheList(h: seq<Progress>)
    ensures After(h).state.readiness ==
            if After(h).loading != [] then Indexing
            else if Since(h, SetupBegins, Never) then Ready else Initializing
    ensures After(h).loading != [] ==> Since(h, SetupBegins, Never)
  {
    if h != [] {
      var before, p := h[..|h| - 1], h[|h| - 1];
      ReadinessByTheList(before);
      SplitLast(h);
      SinceStep(before, p, SetupBegins, Never);
      ReadinessStep(After(before), p, Since(before, SetupBegins, Never));
    }
  }

  /** Indexing while a load is open; ready once one has begun and none is open. */
  lemma ReadinessFollowsLoads(h: seq<Progress>)
    ensures After(h).state.readiness ==
            if !NoneOpen(Marks(h)) then Indexing
            else if Since(h, SetupBegins, Never) then Ready else Initializing
  {
    ReadinessByTheList(h);
    LoadingIsBegunNotEnded(h, Null);
  }

  /** A load ends, by the fields. */
  predicate EndsLoadOf(f: Fields, p: Progress) { p.kind == End && f.failure != Some(p.token) && p.token in f.loading }

  lemma LoadEndsByTheFields(before: seq<Progress>, p: Progress)
    ensures LoadEnds(before, p) <==> EndsLoadOf(After(before), p)
    ensures EndsFailure(before, p) <==> p.kind == End && After(before).failure == Some(p.token)
    ensures RoundBegins(before, p) <==> BeginsSetup(p) && After(before).loading == []
    ensures RoundEnds(before, p) <==> EndsLoadOf(After(before), p) && OnProgress(After(before), p).0.loading == []
  {
    LoadingIsBegunNotEnded(before, p.token);
    LoadingIsBegunNotEnded(before + [p], p.token);
    assert (before + [p])[..|before|] == before;
    FailureIsLastBegun(before, p.token);
    assert Count(After(before).loading, p.token) > 0 <==> p.token in After(before).loading;
  }

  lemma FailedStep(f: Fields, p: Progress)
    ensures OnProgress(f, p).0.failedInRound.Some? <==>
      || (EndsLoadOf(f, p) && Failed(p.message))
      || (f.failedInRound.Some? && !(BeginsSetup(p) && f.loading == []))
  {}

  /** A failure is remembered exactly for the round in which a folder failed. */
  lemma {:induction false} FailureIsOfTheRound(h: seq<Progress>)
    ensures After(h).failedInRound.Some? <==> FailedRound(h)
  {
    if h != [] {
      var before, p := h[..|h| - 1], h[|h| - 1];
      FailureIsOfTheRound(before);
      SplitLast(h);
      SinceStep(before, p, FolderFails, RoundBegins);
      LoadEndsByTheFields(before, p);
      FailedStep(After(before), p);
    }
  }

  lemma HealthStep(f: Fields, p: Progress)
    ensures var f' := OnProgress(f, p).0;
      f'.state.health ==
        if BeginsFailure(p) then Health.Error
        else if p.kind == End && f.failure == Some(p.token) then Health.Ok
        else if EndsLoadOf(f, p) && f'.loading == [] && f'.failedInRound.Some? then Health.Error
        else if EndsLoadOf(f, p) && f'.loading == [] && f'.failure.None? then Health.Ok
        else f.state.health
  {}

  lemma TurnsByTheFields(before: seq<Progress>, p: Progress)
    ensures var f, f' := After(before), After(before + [p]);
      && f' == OnProgress(f, p).0
      && (TurnsError(before, p) <==> BeginsFailure(p) || (EndsLoadOf(f, p) && f'.loading == [] && f'.failedInRound.Some?))
      && (TurnsOk(before, p) <==>
            (p.kind == End && f.failure == Some(p.token))
            || (EndsLoadOf(f, p) && f'.loading == [] && f'.failedInRound.None? && f'.failure.None?))
  {
    assert (before + [p])[..|before|] == before;
    LoadEndsByTheFields(before, p);
    FailureIsOfTheRound(before + [p]);
    NoFailureIsOpen(before + [p]);
  }

  /** Health at every moment: error from a failure progress, or a round in which a folder failed, until
      that progress ends or a round ends well with none open; ok from then; unknown before either. */
  lemma {:induction false} HealthExactly(h: seq<Progress>)
    ensures After(h).state.health ==
            if Since(h, TurnsError, TurnsOk) then Health.Error
            else if Since(h, TurnsOk, TurnsError) then Health.Ok
            else Health.Unknown
  {
    if h != [] {
      var before, p := h[..|h| - 1], h[|h| - 1];
      HealthExactly(before);
      SplitLast(h);
      SinceStep(before, p, TurnsError, TurnsOk);
      SinceStep(before, p, TurnsOk, TurnsError);
      TurnsByTheFields(before, p);
      HealthStep(After(before), p);
    }
  }

  /** At the end of a round health is error exactly when a folder failed in the round or a
      failure progress is open, and ok otherwise. */
  lemma HealthAtRoundEnd(before: seq<Progress>, p: Progress)
    requires RoundEnds(before, p)
    ensures var h := before + [p];
      After(h).state.health == if FailedRound(h) || (exists t :: FailureOpen(h, t)) then Health.Error else Health.Ok
  {
    FailureIsLastBegun(before, p.token);
    FailureIsOfTheRound(before + [p]);
    NoFailureIsOpen(before + [p]);
    TurnsByTheFields(before, p);
    LoadEndsByTheFields(before, p);
    HealthStep(After(before), p);
  }

  // --- The message --------------------------------------------------------------------------

  /** The message of the folder that failed last in the round. */
  ghost function ToldFailure(before: seq<Progress>, p: Progress): Option<Option<string>> {
    if FolderFails(before, p) then Some(p.message) else if RoundBegins(before, p) then Some(None) else None
  }

  lemma FailureMessageStep(f: Fields, p: Progress)
    ensures OnProgress(f, p).0.failedInRound ==
      if EndsLoadOf(f, p) && Failed(p.message) then p.message
      else if BeginsSetup(p) && f.loading == [] then None else f.failedInRound
  {}

  lemma {:induction false} FailureMessageIsLastTold(h: seq<Progress>)
    ensures IsLast(h, ToldFailure, None, After(h).failedInRound)
  {
    if h != [] {
      var before, p := h[..|h| - 1], h[|h| - 1];
      FailureMessageIsLastTold(before);
      SplitLast(h);
      IsLastStep(before, p, ToldFailure, None, After(before).failedInRound);
      LoadEndsByTheFields(before, p);
      LoadingIsBegunNotEnded(before, p.token);
      FailureMessageStep(After(before), p);
    }
  }

  /** The message of the open failure progress as it was begun and reported; at the end of a round that
      of the folder that failed last, and none when all is well. */
  ghost function ToldMessage(before: seq<Progress>, p: Progress): Option<Option<string>> {
    if BeginsFailure(p) then Some(p.message)
    else if p.kind == Report && FailureOpen(before, p.token) && p.message.Some? then Some(p.message)
    else if EndsFailure(before, p) then Some(None)
    else if !RoundEnds(before, p) then None
    else if FailedRound(before + [p]) then Some(After(before + [p]).failedInRound)
    else if exists t :: FailureOpen(before + [p], t) then None
    else Some(None)
  }

  lemma MessageStep(f: Fields, p: Progress)
    ensures var f' := OnProgress(f, p).0; var ends := EndsLoadOf(f, p) && f'.loading == [];
      f'.state.message ==
        if BeginsFailure(p) then p.message
        else if p.kind == Report && f.failure == Some(p.token) && p.message.Some? then p.message
        else if p.kind == End && f.failure == Some(p.token) then None
        else if ends && f'.failedInRound.Some? then f'.failedInRound
        else if ends && f'.failure.None? then None
        else f.state.message
  {}

  lemma {:induction false} MessageIsLastTold(h: seq<Progress>)
    ensures IsLast(h, ToldMessage, None, After(h).state.message)
  {
    if h != [] {
      var before, p := h[..|h| - 1], h[|h| - 1];
      MessageIsLastTold(before);
      SplitLast(h);
      IsLastStep(before, p, ToldMessage, None, After(before).state.message);
      MessageToldStep(before, p);
    }
  }

  lemma MessageToldStep(before: seq<Progress>, p: Progress)
    ensures After(before + [p]).state.message == ToldMessage(before, p).GetOr(After(before).state.message)
  {
    assert (before + [p])[..|before|] == before;
    LoadEndsByTheFields(before, p);
    FailureIsOfTheRound(before + [p]);
    NoFailureIsOpen(before + [p]);
    FailureIsLastBegun(before, p.token);
    MessageStep(After(before), p);
  }

  // --- What lsp-det is told -----------------------------------------------------------------

  /** What the mapping answers, event by event. */
  function Answers(h: seq<Progress>): (answers: seq<Option<ServerState>>)
    ensures |answers| == |h|
  {
    if h == [] then [] else Answers(h[..|h| - 1]) + [OnProgress(After(h[..|h| - 1]), h[|h| - 1]).1]
  }

  lemma AnswerStep(f: Fields, p: Progress)
    ensures OnProgress(f, p).0.state == OnProgress(f, p).1.GetOr(f.state)
  {}

  lemma AnswersOneMore(h: seq<Progress>)
    requires h != []
    ensures Answers(h)[|h| - 1] == OnProgress(After(h[..|h| - 1]), h[|h| - 1]).1
  {}

  lemma AfterOneMore(h: seq<Progress>)
    requires h != []
    ensures After(h).state == OnProgress(After(h[..|h| - 1]), h[|h| - 1]).0.state
  {}

  /** An answer is the state after the event, and where there is none the state is as before. */
  lemma {:induction false} AnswerIsState(h: seq<Progress>, i: nat)
    requires i < |h|
    ensures After(h[..i + 1]).state == Answers(h)[i].GetOr(After(h[..i]).state)
  {
    var before := h[..|h| - 1];
    if i < |before| {
      AnswerIsState(before, i);
      assert h[..i + 1] == before[..i + 1] && h[..i] == before[..i] && Answers(h)[i] == Answers(before)[i];
    } else {
      assert h[..i + 1] == h;
      AnswersOneMore(h);
      AfterOneMore(h);
      AnswerStep(After(before), h[|h| - 1]);
    }
  }

  /** After every history, what the tracker holds is the mapping's state. */
  lemma {:induction false} HeardIsState(h: seq<Progress>, t: Tracked)
    requires t.mapped && t.state == INITIALIZING
    ensures Hears(t, Answers(h)).state == After(h).state && Hears(t, Answers(h)).mapped
  {
    if h != [] {
      var before, p := h[..|h| - 1], h[|h| - 1];
      HeardIsState(before, t);
      HearsOneMore(t, Answers(before), OnProgress(After(before), p).1);
      AnswerStep(After(before), p);
    }
  }

  /** What the tracker goes by after every history, told by the history alone. */
  lemma HeardExactly(h: seq<Progress>, t: Tracked)
    requires t.mapped && t.state == INITIALIZING
    ensures var s := Hears(t, Answers(h)).state;
      && s.readiness == (if !NoneOpen(Marks(h)) then Indexing else if Since(h, SetupBegins, Never) then Ready else Initializing)
      && s.health == (if Since(h, TurnsError, TurnsOk) then Health.Error
                      else if Since(h, TurnsOk, TurnsError) then Health.Ok else Health.Unknown)
      && IsLast(h, ToldMessage, None, s.message)
  {
    HeardIsState(h, t);
    ReadinessFollowsLoads(h);
    HealthExactly(h);
    MessageIsLastTold(h);
  }
}
