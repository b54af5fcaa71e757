/** The nil mapping (src/adapter/nil.rs): three known tokens, messages shown to the user, and
    whether a workspace folder has a `nixpkgs` flake.lock. */
module Nil {
  import opened Wrappers
  import opened ServerStates
  import opened Jsons
  import opened Histories
  import opened Tracking
  import opened Hearing
  import opened Progresses
  import opened Openings

  const KNOWN_TOKENS: set<Token> := {
    Str("nil/loadNixosOptionsProgress"), Str("nil/loadInputFlakeProgress"), Str("nil/flakeArchiveProgress")}

  const SHOW_MESSAGE_ERROR := 1
  const SHOW_MESSAGE_WARNING := 2

  datatype Event =
    | Progressed(token: Token, kind: Kind)
    | Shown(level: nat, message: string)
    /** The client's workspace folders; `nixpkgs` says whether some flake.lock names the input. */
    | Folders(nixpkgs: bool)

  datatype Fields = Fields(state: ServerState, open: seq<Token>, hasBegun: bool)

  const INITIAL := Fields(INITIALIZING, [], false)

  /** The state is answered only if it differs from the one before. */
  function Moved(before: ServerState, after: ServerState): Option<ServerState> {
    if before == after then None else Some(after)
  }

  function OnProgress(f: Fields, token: Token, kind: Kind): (Fields, Option<ServerState>) {
    match kind
    case Begin =>
      if token !in KNOWN_TOKENS then (f, None)
      else
        var next := ServerState(Health.Ok, Indexing, None);
        (Fields(next, f.open + [token], true), Moved(f.state, next))
    case End =>
      if token !in f.open then (f, None)
      else if Ended(f.open, token) != [] then (f.(open := Ended(f.open, token)), None)
      else
        var next := f.state.(readiness := Ready);
        (f.(open := [], state := next), Some(next))
    case Report => (f, None)
    case OtherKind => (f, None)
  }

  function OnShown(f: Fields, level: nat, message: string): (Fields, Option<ServerState>) {
    if level != SHOW_MESSAGE_ERROR && level != SHOW_MESSAGE_WARNING then (f, None)
    else
      var next := ServerState(
        if level == SHOW_MESSAGE_ERROR then Health.Error else Warning,
        if level == SHOW_MESSAGE_WARNING && !f.hasBegun then Readiness.Unknown else f.state.readiness,
        Some(message));
      (f.(state := next), Moved(f.state, next))
  }

  function OnEvent(f: Fields, e: Event): (Fields, Option<ServerState>) {
    match e
    case Progressed(token, kind) => OnProgress(f, token, kind)
    case Shown(level, message) => OnShown(f, level, message)
    case Folders(nixpkgs) => (if nixpkgs then f else f.(state := f.state.(readiness := Readiness.Unknown)), None)
  }

  class NilAdapter {
    var state: ServerState
    var open: seq<Token>
    var hasBegun: bool

    function Contents(): Fields
      reads this
    {
      Fields(state, open, hasBegun)
    }

    constructor ()
      ensures Contents() == INITIAL
    {
      state, open, hasBegun := INITIALIZING, [], false;
    }

    method ObserveProgress(token: Token, kind: Kind) returns (answer: Option<ServerState>)
      modifies this
      ensures (Contents(), answer) == OnProgress(old(Contents()), token, kind)
    {
      answer := None;
      match kind {
        case Begin =>
          if token !in KNOWN_TOKENS {
            return;
          }
          hasBegun := true;
          open := open + [token];
          var next := ServerState(Health.Ok, Indexing, None);
          if next == state {
            return;
          }
          state := next;
          answer := Some(state);
        case End =>
          var index := Position(open, token);
          if index == |open| {
            return;
          }
          open := Without(open, index);
          if open != [] {
            return;
          }
          state := state.(readiness := Ready);
          answer := Some(state);
        case Report =>
        case OtherKind =>
      }
    }

    method ObserveShown(level: nat, message: string) returns (answer: Option<ServerState>)
      modifies this
      ensures (Contents(), answer) == OnShown(old(Contents()), level, message)
    {
      if level != SHOW_MESSAGE_ERROR && level != SHOW_MESSAGE_WARNING {
        return None;
      }
      var next := state.(health := if level == SHOW_MESSAGE_ERROR then Health.Error else Warning, message := Some(message));
      if level == SHOW_MESSAGE_WARNING && !hasBegun {
        next := next.(readiness := Readiness.Unknown);
      }
      if next == state {
        return None;
      }
      state := next;
      answer := Some(state);
    }

    method LearnWorkspaceFolders(nixpkgs: bool)
      modifies this
      ensures Contents() == OnEvent(old(Contents()), Folders(nixpkgs)).0
    {
      if !nixpkgs {
        state := state.(readiness := Readiness.Unknown);
      }
    }
  }

  function After(h: seq<Event>): Fields {
    if h == [] then INITIAL else OnEvent(After(h[..|h| - 1]), h[|h| - 1]).0
  }

  /** What an event means to the open tokens. */
  function MarkOf(e: Event): Mark<()> {
    if !e.Progressed? then Neither
    else if e.kind == Begin && e.token in KNOWN_TOKENS then Mark.Begins(e.token, ())
    else if e.kind == End then Mark.Ends(e.token)
    else Neither
  }

  function Marks(h: seq<Event>): seq<Mark<()>> {
    seq(|h|, i requires 0 <= i < |h| => MarkOf(h[i]))
  }

  predicate Begins(before: seq<Event>, e: Event) { e.Progressed? && e.kind == Begin && e.token in KNOWN_TOKENS }

  /** The last open token ends. */
  ghost predicate RoundEnds(before: seq<Event>, e: Event) {
    MarkOf(e).Ends? && Open(Marks(before), MarkOf(e).token) > 0 && NoneOpen(Marks(before + [e]))
  }

  ghost predicate Settles(before: seq<Event>, e: Event) { Begins(before, e) || RoundEnds(before, e) }

  predicate NoLock(before: seq<Event>, e: Event) { e == Folders(false) }

  /** Nothing will be indexed, or nobody can tell. */
  predicate Doubts(before: seq<Event>, e: Event) { e == Folders(false) || (e.Shown? && e.level == SHOW_MESSAGE_WARNING) }

  predicate Never(before: seq<Event>, e: Event) { false }

  predicate ShowsError(before: seq<Event>, e: Event) { e.Shown? && e.level == SHOW_MESSAGE_ERROR }

  predicate ShowsWarning(before: seq<Event>, e: Event) { e.Shown? && e.level == SHOW_MESSAGE_WARNING }

  predicate TellsHealth(before: seq<Event>, e: Event) {
    Begins(before, e) || ShowsError(before, e) || ShowsWarning(before, e)
  }

  lemma {:induction false} OpenIsMarked(h: seq<Event>)
    ensures After(h).open == OpenTokens(Marks(h))
  {
    if h != [] {
      var before, e := h[..|h| - 1], h[|h| - 1];
      OpenIsMarked(before);
      assert Marks(h)[..|h| - 1] == Marks(before);
      OpenTokensStep(Marks(h));
      OpenAfter(After(before), e);
    }
  }

  lemma OpenAfter(f: Fields, e: Event)
    ensures OnEvent(f, e).0.open == TokensMarked(f.open, MarkOf(e))
  {}

  /** The open tokens are the known ones begun and not ended. */
  lemma OpenIsBegunNotEnded(h: seq<Event>, t: Token)
    ensures Count(After(h).open, t) == Open(Marks(h), t)
  {
    OpenIsMarked(h);
    TokensAreOpen(Marks(h), t);
  }

  lemma BegunStep(f: Fields, e: Event)
    ensures OnEvent(f, e).0.hasBegun <==> f.hasBegun || Begins([], e)
  {}

  lemma {:induction false} BegunIsRemembered(h: seq<Event>)
    ensures After(h).hasBegun <==> Since(h, Begins, Never)
  {
    if h != [] {
      var before, e := h[..|h| - 1], h[|h| - 1];
      BegunIsRemembered(before);
      SplitLast(h);
      SinceStep(before, e, Begins, Never);
      BegunStep(After(before), e);
    }
  }

  /** The round ends, by the list. */
  predicate EmptiesList(f: Fields, e: Event) {
    e.Progressed? && e.kind == End && e.token in f.open && Ended(f.open, e.token) == []
  }

  lemma RoundEndsByTheList(before: seq<Event>, e: Event)
    ensures RoundEnds(before, e) <==> EmptiesList(After(before), e)
  {
    var h := before + [e];
    OpenIsMarked(before);
    OpenIsMarked(h);
    assert h[..|h| - 1] == before;
    OpenAfter(After(before), e);
    if MarkOf(e).Ends? {
      TokensAreOpen(Marks(before), MarkOf(e).token);
      TokensAreOpen(Marks(h), MarkOf(e).token);
      assert Count(After(before).open, e.token) > 0 <==> e.token in After(before).open;
    }
  }

  function Reading(open: bool, begun: bool, doubted: bool, lockless: bool): Readiness {
    if !begun then (if doubted then Readiness.Unknown else Initializing)
    else if lockless then Readiness.Unknown
    else if open then Indexing else Ready
  }

  lemma ReadinessStep(f: Fields, e: Event, doubted: bool, lockless: bool)
    requires f.state.readiness == Reading(f.open != [], f.hasBegun, doubted, lockless)
    requires f.open != [] ==> f.hasBegun
    ensures var f' := OnEvent(f, e).0;
      var doubted' := doubted || e == Folders(false) || (e.Shown? && e.level == SHOW_MESSAGE_WARNING);
      var settles := (e.Progressed? && e.kind == Begin && e.token in KNOWN_TOKENS) || EmptiesList(f, e);
      f'.state.readiness == Reading(f'.open != [], f'.hasBegun, doubted', e == Folders(false) || (lockless && !settles))
  {}

  lemma {:induction false} ReadinessByTheList(h: seq<Event>)
    ensures After(h).state.readiness ==
      Reading(After(h).open != [], After(h).hasBegun, Since(h, Doubts, Never), Since(h, NoLock, Settles))
  {
    if h != [] {
      var before, e := h[..|h| - 1], h[|h| - 1];
      ReadinessByTheList(before);
      NothingOpenBeforeBegin(before);
      SplitLast(h);
      SinceStep(before, e, Doubts, Never);
      SinceStep(before, e, NoLock, Settles);
      RoundEndsByTheList(before, e);
      ReadinessStep(After(before), e, Since(before, Doubts, Never), Since(before, NoLock, Settles));
    }
  }

  /** Once a known token has begun, readiness is indexing while some are open and ready when none
      is, unless the folders were learned again without the lock since; before, it is unknown
      after a reason to doubt and initializing without one. */
  lemma ReadinessExactly(h: seq<Event>)
    ensures After(h).state.readiness ==
            if !Since(h, Begins, Never) then (if Since(h, Doubts, Never) then Readiness.Unknown else Initializing)
            else if Since(h, NoLock, Settles) then Readiness.Unknown
            else if NoneOpen(Marks(h)) then Ready else Indexing
  {
    ReadinessByTheList(h);
    BegunIsRemembered(h);
    OpenIsMarked(h);
    TokensAreOpen(Marks(h), Null);
  }

  /** Health is what the last begin, error or warning told. */
  lemma {:induction false} HealthIsLastTold(h: seq<Event>)
    ensures After(h).state.health ==
            if Since(h, ShowsError, TellsHealth) then Health.Error
            else if Since(h, ShowsWarning, TellsHealth) then Warning
            else if Since(h, Begins, TellsHealth) then Health.Ok
            else Health.Unknown
  {
    if h != [] {
      var before, e := h[..|h| - 1], h[|h| - 1];
      HealthIsLastTold(before);
      SplitLast(h);
      SinceStep(before, e, ShowsError, TellsHealth);
      SinceStep(before, e, ShowsWarning, TellsHealth);
      SinceStep(before, e, Begins, TellsHealth);
      HealthStep(After(before), e);
    }
  }

  lemma HealthStep(f: Fields, e: Event)
    ensures OnEvent(f, e).0.state.health ==
      if e.Shown? && e.level == SHOW_MESSAGE_ERROR then Health.Error
      else if e.Shown? && e.level == SHOW_MESSAGE_WARNING then Warning
      else if e.Progressed? && e.kind == Begin && e.token in KNOWN_TOKENS then Health.Ok
      else f.state.health
  {}

  lemma {:induction false} NothingOpenBeforeBegin(h: seq<Event>)
    ensures After(h).open != [] ==> After(h).hasBegun
  {
    if h != [] {
      NothingOpenBeforeBegin(h[..|h| - 1]);
    }
  }

  /** The doubt can hit an open load: a second `initialize` without the lock in its folders, while a
      token is open, makes readiness unknown. */
  lemma UnknownWhileLoading(t: Token)
    requires t in KNOWN_TOKENS
    ensures var h := [Progressed(t, Begin), Folders(false)];
      Open(Marks(h), t) == 1 && After(h).state.readiness == Readiness.Unknown
  {
    var h1 := [Progressed(t, Begin)];
    var h2 := [Progressed(t, Begin), Folders(false)];
    assert h1[..0] == [] && h2[..1] == h1;
    assert After(h1) == OnProgress(INITIAL, t, Begin).0;
    assert After(h2) == OnEvent(After(h1), Folders(false)).0;
    OpenIsBegunNotEnded(h2, t);
  }

  // --- What lsp-det is told -----------------------------------------------------------------

  /** The message of the last begin, error or warning. */
  function ToldMessage(before: seq<Event>, e: Event): Option<Option<string>> {
    if Begins(before, e) then Some(None)
    else if ShowsError(before, e) || ShowsWarning(before, e) then Some(Some(e.message))
    else None
  }

  lemma MessageStep(f: Fields, e: Event)
    ensures OnEvent(f, e).0.state.message == ToldMessage([], e).GetOr(f.state.message)
  {}

  lemma {:induction false} MessageIsLastTold(h: seq<Event>)
    ensures IsLast(h, ToldMessage, None, After(h).state.message)
  {
    if h != [] {
      var before, e := h[..|h| - 1], h[|h| - 1];
      MessageIsLastTold(before);
      SplitLast(h);
      IsLastStep(before, e, ToldMessage, None, After(before).state.message);
      MessageStep(After(before), e);
    }
  }

  /** What the mapping answers, event by event. Learning the folders answers nothing. */
  function Answers(h: seq<Event>): (answers: seq<Option<ServerState>>)
    ensures |answers| == |h|
  {
    if h == [] then [] else Answers(h[..|h| - 1]) + [OnEvent(After(h[..|h| - 1]), h[|h| - 1]).1]
  }

  lemma AnswerStep(f: Fields, e: Event)
    ensures OnEvent(f, e).1.Some? ==> OnEvent(f, e).1.value == OnEvent(f, e).0.state
    ensures OnEvent(f, e).1.None? ==>
      OnEvent(f, e).0.state == if e == Folders(false) then f.state.(readiness := Readiness.Unknown) else f.state
  {}

  /** An answer is the state after the event, and where there is none the state is as before, unless the
      folders were learned without the lock. */
  lemma {:induction false} AnswerIsState(h: seq<Event>, i: nat)
    requires i < |h|
    ensures After(h[..i + 1]).state ==
      if h[i] == Folders(false) then After(h[..i]).state.(readiness := Readiness.Unknown)
      else Answers(h)[i].GetOr(After(h[..i]).state)
  {
    var before, e := h[..|h| - 1], h[|h| - 1];
    if i < |before| {
      AnswerIsState(before, i);
      assert h[..i + 1] == before[..i + 1] && h[..i] == before[..i];
    } else {
      assert h[..i + 1] == h;
      AnswerStep(After(before), e);
    }
  }

  /** After the selection, which is the first event, the folders are learned again without the lock,
      and readiness was not yet unknown. */
  predicate DoubtsUntold(before: seq<Event>, e: Event) {
    before != [] && e == Folders(false) && After(before).state.readiness != Readiness.Unknown
  }

  predicate IsAnswered(before: seq<Event>, e: Event) { OnEvent(After(before), e).1.Some? }

  /** nil is selected with the workspace folders, and the tracker starts in the state that leaves. */
  predicate SelectedWith(t: Tracked, h: seq<Event>) {
    t.mapped && h != [] && h[0].Folders? &&
    t.state == ServerState(Health.Unknown, if h[0].nixpkgs then Initializing else Readiness.Unknown, None)
  }

  lemma AfterFirst(h: seq<Event>)
    requires |h| == 1 && h[0].Folders?
    ensures After(h) == OnEvent(INITIAL, h[0]).0 && Answers(h) == [None]
  {
    assert h[..0] == [] && After([]) == INITIAL && Answers([]) == [];
  }

  lemma FirstIsSelection(h: seq<Event>, t: Tracked)
    requires |h| == 1 && SelectedWith(t, h)
    ensures Hears(t, Answers(h)).state == After(h).state == t.state && Hears(t, Answers(h)).mapped
    ensures !Since(h, DoubtsUntold, IsAnswered)
  {
    AfterFirst(h);
    HearsOneMore(t, [], None);
    assert [] + Answers(h) == Answers(h);
    assert h[..0] == [];
  }

  /** After every history the tracker holds nil's health and message; and its readiness, exactly when
      nothing untold has come since the last answer. */
  lemma {:induction false} HeardExactly(h: seq<Event>, t: Tracked)
    requires SelectedWith(t, h)
    ensures var s := Hears(t, Answers(h)).state;
      && s.health == After(h).state.health && s.message == After(h).state.message
      && (s.readiness == After(h).state.readiness <==> !Since(h, DoubtsUntold, IsAnswered))
    ensures Since(h, DoubtsUntold, IsAnswered) ==> After(h).state.readiness == Readiness.Unknown
    ensures Hears(t, Answers(h)).mapped
  {
    if |h| == 1 {
      FirstIsSelection(h, t);
    } else {
      var before, e := h[..|h| - 1], h[|h| - 1];
      HeardExactly(before, t);
      HearsOneMore(t, Answers(before), OnEvent(After(before), e).1);
      SplitLast(h);
      SinceStep(before, e, DoubtsUntold, IsAnswered);
      AnswerStep(After(before), e);
    }
  }

  /** A run in which lsp-det is not told: a second `initialize` without the lock while a known token is
      open. The tracker stays at indexing, and nil's readiness is unknown. */
  lemma TheDoubtIsNotTold(t: Token, tracked: Tracked)
    requires t in KNOWN_TOKENS && tracked.mapped && tracked.state == INITIALIZING
    ensures var h := [Folders(true), Progressed(t, Begin), Folders(false)];
      Hears(tracked, Answers(h)).state.readiness == Indexing && After(h).state.readiness == Readiness.Unknown
  {
    var h1, h2 := [Folders(true)], [Folders(true), Progressed(t, Begin)];
    var h3 := [Folders(true), Progressed(t, Begin), Folders(false)];
    assert h1[..0] == [] && h2[..1] == h1 && h3[..2] == h2;
    FirstIsSelection(h1, tracked);
    assert After(h2) == OnProgress(After(h1), t, Begin).0 && After(h2).state.readiness == Indexing;
    HearsOneMore(tracked, Answers(h1), OnProgress(After(h1), t, Begin).1);
    HearsOneMore(tracked, Answers(h2), None);
  }
}
