/** The haxe-language-server mapping (src/adapter/haxe_language_server.rs): open startup tokens,
    and health from logs and messages. */
module Haxe {
  import opened Wrappers
  import opened ServerStates
  import opened Jsons
  import opened Histories
  import opened Tracking
  import opened Hearing
  import opened Progresses
  import opened Openings

  const STARTUP_TITLES: set<string> := {
    "Haxe: Building Cache...", "Haxe: Parsing Classpaths...", "Haxe: Building Refactoring Cache\U{2026}..."}
  const CONNECTED_LOG := "Haxe connected!"
  const SHOW_MESSAGE_ERROR := 1
  const VERSION_CHECK_FAILED_PREFIX := "Haxe version check failed"
  const INVALID_ARGUMENT_PREFIX := "Invalid compiler argument"
  const KEEPS_CRASHING_MESSAGE := "Haxe keeps crashing"

  datatype Event = Progressed(p: Progress) | Logged(message: string) | Shown(level: nat, message: string) | KeepsCrashing

  datatype Fields = Fields(state: ServerState, open: seq<Token>)

  const INITIAL := Fields(INITIALIZING, [])

  predicate IsStartup(p: Progress) {
    p.title.Some? && p.title.value in STARTUP_TITLES
  }

  function OnProgress(f: Fields, p: Progress): (Fields, Option<ServerState>) {
    if p.kind == Begin && IsStartup(p) then
      var next := if f.state.readiness == Ready then f.state.(readiness := Indexing) else f.state;
      (Fields(next, f.open + [p.token]), if f.state.readiness == Ready then Some(next) else None)
    else if p.kind == End && p.token in f.open then
      var open := Ended(f.open, p.token);
      var next := if open == [] then f.state.(readiness := Ready) else f.state;
      (Fields(next, open), if open == [] && f.state.readiness != Ready then Some(next) else None)
    else (f, None)
  }

  function SetHealth(f: Fields, health: Health, message: Option<string>): (Fields, Option<ServerState>) {
    var next := ServerState(health, f.state.readiness, message);
    (f.(state := next), if next == f.state then None else Some(next))
  }

  /** The health an event reports, with the message that goes with it. */
  function Reports(e: Event): Option<(Health, Option<string>)> {
    match e
    case Progressed(_) => None
    case Logged(message) => if message == CONNECTED_LOG then Some((Health.Ok, None)) else None
    case Shown(level, message) =>
      if level == SHOW_MESSAGE_ERROR && (VERSION_CHECK_FAILED_PREFIX <= message || INVALID_ARGUMENT_PREFIX <= message)
      then Some((Health.Error, Some(message))) else None
    case KeepsCrashing => Some((Health.Error, Some(KEEPS_CRASHING_MESSAGE)))
  }

  function OnEvent(f: Fields, e: Event): (Fields, Option<ServerState>) {
    if e.Progressed? then OnProgress(f, e.p)
    else match Reports(e)
      case None => (f, None)
      case Some((health, message)) => SetHealth(f, health, message)
  }

  class HaxeLanguageServerAdapter {
    var state: ServerState
    var open: seq<Token>

    function Contents(): Fields
      reads this
    {
      Fields(state, open)
    }

    constructor ()
      ensures Contents() == INITIAL
    {
      state, open := INITIALIZING, [];
    }

    method ObserveProgress(p: Progress) returns (answer: Option<ServerState>)
      modifies this
      ensures (Contents(), answer) == OnProgress(old(Contents()), p)
    {
      answer := None;
      match p.kind {
        case Begin =>
          if !IsStartup(p) {
            return;
          }
          open := open + [p.token];
          if state.readiness != Ready {
            return;
          }
          state := state.(readiness := Indexing);
          answer := Some(state);
        case End =>
          var index := Position(open, p.token);
          if index == |open| {
            return;
          }
          open := Without(open, index);
          if open != [] || state.readiness == Ready {
            return;
          }
          state := state.(readiness := Ready);
          answer := Some(state);
        case Report =>
        case OtherKind =>
      }
    }

    method ObserveHealth(e: Event) returns (answer: Option<ServerState>)
      requires !e.Progressed?
      modifies this
      ensures (Contents(), answer) == OnEvent(old(Contents()), e)
    {
      var reported := Reports(e);
      if reported.None? {
        return None;
      }
      var next := state.(health := reported.value.0, message := reported.value.1);
      if next == state {
        return None;
      }
      state := next;
      answer := Some(state);
    }
  }

  function After(h: seq<Event>): Fields {
    if h == [] then INITIAL else OnEvent(After(h[..|h| - 1]), h[|h| - 1]).0
  }

  /** What an event means to the open tokens. */
  function MarkOf(e: Event): Mark<()> {
    if !e.Progressed? then Neither
    else if e.p.kind == Begin && IsStartup(e.p) then Mark.Begins(e.p.token, ())
    else if e.p.kind == End then Mark.Ends(e.p.token)
    else Neither
  }

  function Marks(h: seq<Event>): seq<Mark<()>> {
    seq(|h|, i requires 0 <= i < |h| => MarkOf(h[i]))
  }

  predicate Begins(before: seq<Event>, e: Event) { e.Progressed? && e.p.kind == Begin && IsStartup(e.p) }

  predicate Never(before: seq<Event>, e: Event) { false }

  predicate Connects(before: seq<Event>, e: Event) { e == Logged(CONNECTED_LOG) }

  predicate Fails(before: seq<Event>, e: Event) { Reports(e).Some? && Reports(e).value.0 == Health.Error }

  lemma {:induction false} OpenIsMarked(h: seq<Event>)
    ensures After(h).open == OpenTokens(Marks(h))
  {
    if h != [] {
      var before, e := h[..|h| - 1], h[|h| - 1];
      OpenIsMarked(before);
      assert Marks(h)[..|h| - 1] == Marks(before);
      OpenTokensStep(Marks(h));
      OpenAfter(After(before), e);
    }
  }

  lemma OpenAfter(f: Fields, e: Event)
    ensures OnEvent(f, e).0.open == TokensMarked(f.open, MarkOf(e))
  {}

  /** The open tokens are the startup ones begun and not ended. */
  lemma OpenIsBegunNotEnded(h: seq<Event>, t: Token)
    ensures Count(After(h).open, t) == Open(Marks(h), t)
  {
    OpenIsMarked(h);
    TokensAreOpen(Marks(h), t);
  }

  lemma {:induction false} ReadyByTheList(h: seq<Event>)
    ensures After(h).state.readiness == Ready <==> Since(h, Begins, Never) && After(h).open == []
    ensures After(h).open != [] ==> Since(h, Begins, Never)
  {
    if h != [] {
      var before, e := h[..|h| - 1], h[|h| - 1];
      ReadyByTheList(before);
      SplitLast(h);
      SinceStep(before, e, Begins, Never);
      ReadyStep(After(before), e, Since(before, Begins, Never));
    }
  }

  /** Ready exactly when a startup token has begun and none is open. */
  lemma ReadyExactly(h: seq<Event>)
    ensures After(h).state.readiness == Ready <==> Since(h, Begins, Never) && NoneOpen(Marks(h))
  {
    ReadyByTheList(h);
    OpenIsMarked(h);
    ListIsEmptyExactly(Marks(h));
    TokensAreOpen(Marks(h), Null);
  }

  /** One event: `begun` says whether a startup token had begun before it. */
  lemma ReadyStep(f: Fields, e: Event, begun: bool)
    requires f.state.readiness == Ready <==> begun && f.open == []
    requires f.open != [] ==> begun
    ensures var f', begun' := OnEvent(f, e).0, begun || (e.Progressed? && e.p.kind == Begin && IsStartup(e.p));
      && (f'.state.readiness == Ready <==> begun' && f'.open == [])
      && (f'.open != [] ==> begun')
  {}

  /** Health is what was reported last, whatever the progress does. */
  lemma {:induction false} HealthIsLastReported(h: seq<Event>)
    ensures After(h).state.health ==
            if Since(h, Fails, Connects) then Health.Error else if Since(h, Connects, Fails) then Health.Ok else Health.Unknown
  {
    if h != [] {
      var before, e := h[..|h| - 1], h[|h| - 1];
      HealthIsLastReported(before);
      SplitLast(h);
      SinceStep(before, e, Fails, Connects);
      SinceStep(before, e, Connects, Fails);
      HealthStep(After(before), e);
    }
  }

  lemma HealthStep(f: Fields, e: Event)
    ensures OnEvent(f, e).0.state.health == if Reports(e).Some? then Reports(e).value.0 else f.state.health
    ensures Reports(e).Some? && Reports(e).value.0 != Health.Error <==> e == Logged(CONNECTED_LOG)
    ensures Reports(e).Some? ==> Reports(e).value.0 in {Health.Ok, Health.Error}
  {}

  // --- Readiness otherwise, and the message -------------------------------------------------

  /** The event leaves a startup token begun and none open. */
  ghost predicate LeavesReady(before: seq<Event>, e: Event) {
    Since(before + [e], Begins, Never) && NoneOpen(Marks(before + [e]))
  }

  lemma NotReadyStep(f: Fields, e: Event, wasReady: bool)
    requires f.state.readiness == if f.state.readiness == Ready then Ready else if wasReady then Indexing else Initializing
    requires f.state.readiness == Ready ==> wasReady
    ensures var f' := OnEvent(f, e).0;
      f'.state.readiness != Ready ==> f'.state.readiness == if wasReady then Indexing else Initializing
  {}

  lemma {:induction false} NotReadyExactly(h: seq<Event>)
    ensures var readiness := After(h).state.readiness;
      readiness == if readiness == Ready then Ready else if Since(h, LeavesReady, Never) then Indexing else Initializing
    ensures After(h).state.readiness == Ready ==> Since(h, LeavesReady, Never)
  {
    if h != [] {
      var before, e := h[..|h| - 1], h[|h| - 1];
      NotReadyExactly(before);
      SplitLast(h);
      SinceStep(before, e, LeavesReady, Never);
      ReadyExactly(h);
      NotReadyStep(After(before), e, Since(before, LeavesReady, Never));
    }
  }

  /** Not ready is initializing in the first round, and indexing in the later ones. */
  lemma ReadinessExactly(h: seq<Event>)
    ensures After(h).state.readiness ==
            if Since(h, Begins, Never) && NoneOpen(Marks(h)) then Ready
            else if Since(h, LeavesReady, Never) then Indexing else Initializing
  {
    ReadyExactly(h);
    NotReadyExactly(h);
  }

  /** The message that goes with a report of health. */
  function ToldMessage(before: seq<Event>, e: Event): Option<Option<string>> {
    if e.Shown? && e.level == SHOW_MESSAGE_ERROR && (VERSION_CHECK_FAILED_PREFIX <= e.message || INVALID_ARGUMENT_PREFIX <= e.message)
    then Some(Some(e.message))
    else if e == Logged(CONNECTED_LOG) then Some(None)
    else if e.KeepsCrashing? then Some(Some("Haxe keeps crashing"))
    else None
  }

  lemma {:induction false} MessageIsLastTold(h: seq<Event>)
    ensures IsLast(h, ToldMessage, None, After(h).state.message)
  {
    if h != [] {
      var before, e := h[..|h| - 1], h[|h| - 1];
      MessageIsLastTold(before);
      SplitLast(h);
      IsLastStep(before, e, ToldMessage, None, After(before).state.message);
      MessageStep(After(before), e);
    }
  }

  lemma MessageStep(f: Fields, e: Event)
    ensures OnEvent(f, e).0.state.message == ToldMessage([], e).GetOr(f.state.message)
  {}

  // --- What lsp-det is told -----------------------------------------------------------------

  /** What the mapping answers, event by event. */
  function Answers(h: seq<Event>): (answers: seq<Option<ServerState>>)
    ensures |answers| == |h|
  {
    if h == [] then [] else Answers(h[..|h| - 1]) + [OnEvent(After(h[..|h| - 1]), h[|h| - 1]).1]
  }

  lemma AnswerStep(f: Fields, e: Event)
    ensures OnEvent(f, e).0.state == OnEvent(f, e).1.GetOr(f.state)
  {}

  lemma AnswersOneMore(h: seq<Event>)
    requires h != []
    ensures Answers(h)[|h| - 1] == OnEvent(After(h[..|h| - 1]), h[|h| - 1]).1
  {}

  lemma AfterOneMore(h: seq<Event>)
    requires h != []
    ensures After(h).state == OnEvent(After(h[..|h| - 1]), h[|h| - 1]).0.state
  {}

  /** An answer is the state after the event, and where there is none the state is as before. */
  lemma {:induction false} AnswerIsState(h: seq<Event>, i: nat)
    requires i < |h|
    ensures After(h[..i + 1]).state == Answers(h)[i].GetOr(After(h[..i]).state)
  {
    var before := h[..|h| - 1];
    if i < |before| {
      AnswerIsState(before, i);
      assert h[..i + 1] == before[..i + 1] && h[..i] == before[..i] && Answers(h)[i] == Answers(before)[i];
    } else {
      assert h[..i + 1] == h;
      AnswersOneMore(h);
      AfterOneMore(h);
      AnswerStep(After(before), h[|h| - 1]);
    }
  }

  /** After every history, what the tracker holds is the mapping's state. */
  lemma {:induction false} HeardIsState(h: seq<Event>, t: Tracked)
    requires t.mapped && t.state == INITIALIZING
    ensures Hears(t, Answers(h)).state == After(h).state && Hears(t, Answers(h)).mapped
  {
    if h != [] {
      var before, e := h[..|h| - 1], h[|h| - 1];
      HeardIsState(before, t);
      HearsOneMore(t, Answers(before), OnEvent(After(before), e).1);
      AnswerStep(After(before), e);
    }
  }

  /** What the tracker goes by after every history, told by the history alone. */
  lemma HeardExactly(h: seq<Event>, t: Tracked)
    requires t.mapped && t.state == INITIALIZING
    ensures var s := Hears(t, Answers(h)).state;
      && s.readiness == (if Since(h, Begins, Never) && NoneOpen(Marks(h)) then Ready
                         else if Since(h, LeavesReady, Never) then Indexing else Initializing)
      && s.health == (if Since(h, Fails, Connects) then Health.Error
                      else if Since(h, Connects, Fails) then Health.Ok else Health.Unknown)
      && IsLast(h, ToldMessage, None, s.message)
  {
    HeardIsState(h, t);
    ReadinessExactly(h);
    HealthIsLastReported(h);
    MessageIsLastTold(h);
  }
}
