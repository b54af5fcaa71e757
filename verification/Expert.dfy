/** The Expert mapping (src/adapter/expert.rs): open startup tokens and the phase that ended
    last. */
module Expert {
  import opened Wrappers
  import opened ServerStates
  import opened Histories
  import opened Tracking
  import opened Hearing
  import opened Progresses
  import opened Openings

  datatype Phase = Engine | Building | Indexing

  const ENGINE_NODE_SUFFIX := "Starting engine node"
  const ENGINE_PREPARE_SUFFIX := "Preparing engine"
  const BUILDING_PREFIX := "Building "
  const INDEXING_TITLE := "Indexing source code"
  const LOADING_INDEX_TITLE := "Loading search index"

  function PhaseOf(title: string): Option<Phase> {
    if title == INDEXING_TITLE || title == LOADING_INDEX_TITLE then Some(Phase.Indexing)
    else if BUILDING_PREFIX <= title then Some(Building)
    else if EndsWith(title, ENGINE_NODE_SUFFIX) || EndsWith(title, ENGINE_PREPARE_SUFFIX) then Some(Engine)
    else None
  }

  /** The phase that a begin announces. */
  function Announced(p: Progress): Option<Phase> {
    if p.title.None? then None else PhaseOf(p.title.value)
  }

  datatype Fields = Fields(state: ServerState, open: seq<Phased<Phase>>, lastEndedIndexing: bool)

  const INITIAL := Fields(INITIALIZING, [], false)

  function OnProgress(f: Fields, e: Progress): (Fields, Option<ServerState>) {
    match e.kind
    case Begin =>
      if Announced(e).None? then (f, None)
      else
        var state := f.state.(readiness := Readiness.Indexing);
        (f.(open := f.open + [Phased(e.token, Announced(e).value)], state := state), Some(state))
    case End =>
      var i := IndexOf(TokensOf(f.open), e.token);
      if i == |f.open| then (f, None)
      else
        var open, indexing := Without(f.open, i), f.open[i].phase == Phase.Indexing;
        var state := if open == [] && indexing then f.state.(readiness := Ready) else f.state;
        (Fields(state, open, indexing), Some(state))
    case Report => (f, None)
    case OtherKind => (f, None)
  }

  class ExpertAdapter {
    var state: ServerState
    var open: seq<Phased<Phase>>
    var lastEndedIndexing: bool

    function Contents(): Fields
      reads this
    {
      Fields(state, open, lastEndedIndexing)
    }

    constructor ()
      ensures Contents() == INITIAL
    {
      state, open, lastEndedIndexing := INITIALIZING, [], false;
    }

    method Observe(e: Progress) returns (answer: Option<ServerState>)
      modifies this
      ensures (Contents(), answer) == OnProgress(old(Contents()), e)
    {
      match e.kind {
        case Begin =>
          if Announced(e).None? {
            return None;
          }
          open := open + [Phased(e.token, Announced(e).value)];
          state := state.(readiness := Readiness.Indexing);
        case End =>
          var index := Position(TokensOf(open), e.token);
          if index == |open| {
            return None;
          }
          lastEndedIndexing := open[index].phase == Phase.Indexing;
          open := Without(open, index);
          if open == [] && lastEndedIndexing {
            state := state.(readiness := Ready);
          }
        case Report => return None;
        case OtherKind => return None;
      }
      answer := Some(state);
    }
  }

  function After(h: seq<Progress>): Fields {
    if h == [] then INITIAL else OnProgress(After(h[..|h| - 1]), h[|h| - 1]).0
  }

  /** What an event means to the open phases. */
  function MarkOf(e: Progress): Mark<Phase> {
    if e.kind == Begin && Announced(e).Some? then Begins(e.token, Announced(e).value)
    else if e.kind == End then Ends(e.token)
    else Neither
  }

  function Marks(h: seq<Progress>): seq<Mark<Phase>> {
    seq(|h|, i requires 0 <= i < |h| => MarkOf(h[i]))
  }

  /** The phase that an event ends, as the begin it belongs to announced it. */
  function PhaseEnded(before: seq<Progress>, e: Progress): Option<Phase> { EndedPhase(Marks(before), MarkOf(e)) }

  predicate IndexEnds(before: seq<Progress>, e: Progress) { PhaseEnded(before, e) == Some(Phase.Indexing) }

  predicate OtherPhaseEnds(before: seq<Progress>, e: Progress) {
    PhaseEnded(before, e).Some? && PhaseEnded(before, e) != Some(Phase.Indexing)
  }

  lemma {:induction false} OpenIsMarked(h: seq<Progress>)
    ensures After(h).open == OpenList(Marks(h))
  {
    if h != [] {
      var before, e := h[..|h| - 1], h[|h| - 1];
      OpenIsMarked(before);
      assert Marks(h)[..|h| - 1] == Marks(before);
      OpenAfter(After(before), e);
    }
  }

  lemma OpenAfter(f: Fields, e: Progress)
    ensures OnProgress(f, e).0.open == Marked(f.open, MarkOf(e))
  {}

  /** The entries of each token are its last begins, as many as the ends leave open, with the phases
      they announced. */
  lemma OpenIsBegunNotEnded(h: seq<Progress>, t: Token)
    ensures PhasesOf(After(h).open, t) == StillBegun(Marks(h), t)
  {
    OpenIsMarked(h);
    ListIsStillBegun(Marks(h), t);
  }

  /** What an event ends by the list: the oldest entry with its token. */
  function EndedIn(f: Fields, e: Progress): Option<Phase> {
    var i := IndexOf(TokensOf(f.open), e.token);
    if e.kind == End && i < |f.open| then Some(f.open[i].phase) else None
  }

  lemma EndedInIsPhaseEnded(before: seq<Progress>, e: Progress)
    ensures EndedIn(After(before), e) == PhaseEnded(before, e)
  {
    OpenIsMarked(before);
    if MarkOf(e).Ends? {
      EndedIsOldest(Marks(before), MarkOf(e));
    }
  }

  /** One event: `last` says whether the phase that ended last before it was an index phase. */
  lemma ReadyStep(f: Fields, e: Progress, last: bool)
    requires f.lastEndedIndexing == last
    requires f.state.readiness == Ready <==> f.open == [] && last
    ensures var f' := OnProgress(f, e).0;
      var last' := EndedIn(f, e) == Some(Phase.Indexing) || (last && EndedIn(f, e).None?);
      f'.lastEndedIndexing == last' && (f'.state.readiness == Ready <==> f'.open == [] && last')
  {}

  lemma {:induction false} ReadyByTheList(h: seq<Progress>)
    ensures After(h).state.readiness == Ready <==> After(h).open == [] && Since(h, IndexEnds, OtherPhaseEnds)
    ensures After(h).lastEndedIndexing <==> Since(h, IndexEnds, OtherPhaseEnds)
  {
    if h != [] {
      var before, e := h[..|h| - 1], h[|h| - 1];
      ReadyByTheList(before);
      SplitLast(h);
      SinceStep(before, e, IndexEnds, OtherPhaseEnds);
      EndedInIsPhaseEnded(before, e);
      ReadyStep(After(before), e, Since(before, IndexEnds, OtherPhaseEnds));
    }
  }

  /** Ready exactly when no phase is open and the one that ended last was announced as an index
      phase. */
  lemma ReadyAfterIndexing(h: seq<Progress>)
    ensures After(h).state.readiness == Ready <==> NoneOpen(Marks(h)) && Since(h, IndexEnds, OtherPhaseEnds)
  {
    ReadyByTheList(h);
    OpenIsMarked(h);
    ListIsEmptyExactly(Marks(h));
  }

  // --- Readiness otherwise ------------------------------------------------------------------

  predicate PhaseBegins(before: seq<Progress>, e: Progress) { e.kind == Begin && Announced(e).Some? }

  predicate Never(before: seq<Progress>, e: Progress) { false }

  lemma BegunStep(f: Fields, e: Progress)
    requires f.state.readiness in {Initializing, Readiness.Indexing, Ready}
    requires f.open != [] ==> f.state.readiness != Initializing
    ensures var f' := OnProgress(f, e).0;
      && f'.state.readiness in {Initializing, Readiness.Indexing, Ready}
      && (f'.open != [] ==> f'.state.readiness != Initializing)
      && (f'.state.readiness == Initializing <==> f.state.readiness == Initializing && !PhaseBegins([], e))
      && f'.state.health == f.state.health && f'.state.message == f.state.message
  {}

  lemma {:induction false} InitializingUntilBegun(h: seq<Progress>)
    ensures After(h).state.readiness in {Initializing, Readiness.Indexing, Ready}
    ensures After(h).open != [] ==> After(h).state.readiness != Initializing
    ensures After(h).state.readiness == Initializing <==> !Since(h, PhaseBegins, Never)
    ensures After(h).state.health == Health.Unknown && After(h).state.message == None
  {
    if h != [] {
      var before, e := h[..|h| - 1], h[|h| - 1];
      InitializingUntilBegun(before);
      SplitLast(h);
      SinceStep(before, e, PhaseBegins, Never);
      BegunStep(After(before), e);
    }
  }

  /** Not ready is initializing until a phase begins, and indexing from then on; of health nothing is
      claimed. */
  lemma ReadinessExactly(h: seq<Progress>)
    ensures After(h).state.readiness ==
            if NoneOpen(Marks(h)) && Since(h, IndexEnds, OtherPhaseEnds) then Ready
            else if Since(h, PhaseBegins, Never) then Readiness.Indexing else Initializing
    ensures After(h).state.health == Health.Unknown && After(h).state.message == None
  {
    ReadyAfterIndexing(h);
    InitializingUntilBegun(h);
  }

  // --- What lsp-det is told -----------------------------------------------------------------

  /** What the mapping answers, event by event. */
  function Answers(h: seq<Progress>): (answers: seq<Option<ServerState>>)
    ensures |answers| == |h|
  {
    if h == [] then [] else Answers(h[..|h| - 1]) + [OnProgress(After(h[..|h| - 1]), h[|h| - 1]).1]
  }

  lemma AnswerStep(f: Fields, e: Progress)
    ensures OnProgress(f, e).0.state == OnProgress(f, e).1.GetOr(f.state)
  {}

  lemma AnswersOneMore(h: seq<Progress>)
    requires h != []
    ensures Answers(h)[|h| - 1] == OnProgress(After(h[..|h| - 1]), h[|h| - 1]).1
  {}

  lemma AfterOneMore(h: seq<Progress>)
    requires h != []
    ensures After(h).state == OnProgress(After(h[..|h| - 1]), h[|h| - 1]).0.state
  {}

  /** An answer is the state after the event, and where there is none the state is as before. */
  lemma {:induction false} AnswerIsState(h: seq<Progress>, i: nat)
    requires i < |h|
    ensures After(h[..i + 1]).state == Answers(h)[i].GetOr(After(h[..i]).state)
  {
    var before := h[..|h| - 1];
    if i < |before| {
      AnswerIsState(before, i);
      assert h[..i + 1] == before[..i + 1] && h[..i] == before[..i] && Answers(h)[i] == Answers(before)[i];
    } else {
      assert h[..i + 1] == h;
      AnswersOneMore(h);
      AfterOneMore(h);
      AnswerStep(After(before), h[|h| - 1]);
    }
  }

  /** After every history, what the tracker holds is the mapping's state. */
  lemma {:induction false} HeardIsState(h: seq<Progress>, t: Tracked)
    requires t.mapped && t.state == INITIALIZING
    ensures Hears(t, Answers(h)).state == After(h).state && Hears(t, Answers(h)).mapped
  {
    if h != [] {
      var before, e := h[..|h| - 1], h[|h| - 1];
      HeardIsState(before, t);
      HearsOneMore(t, Answers(before), OnProgress(After(before), e).1);
      AnswerStep(After(before), e);
    }
  }

  /** What the tracker goes by after every history, told by the history alone. */
  lemma HeardExactly(h: seq<Progress>, t: Tracked)
    requires t.mapped && t.state == INITIALIZING
    ensures Hears(t, Answers(h)).state == ServerState(Health.Unknown,
              if NoneOpen(Marks(h)) && Since(h, IndexEnds, OtherPhaseEnds) then Ready
              else if Since(h, PhaseBegins, Never) then Readiness.Indexing else Initializing, None)
  {
    HeardIsState(h, t);
    ReadinessExactly(h);
  }
}
