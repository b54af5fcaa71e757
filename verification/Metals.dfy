/** The Metals mapping (src/adapter/metals.rs): phases of the build import, and the prediction
    from watched-file changes. */
module Metals {
  import opened Wrappers
  import opened ServerStates
  import opened Histories
  import opened Tracking
  import opened Hearing
  import opened Progresses
  import opened Openings

  datatype Phase = BspConfig | Importing | Indexing | Compiling

  const INDEXING_TITLE := "Indexing"
  const IMPORTING_TITLE := "Importing build"
  const COMPILING_PREFIX := "Compiling "
  const BSP_CONFIG_SUFFIX := " bspConfig"

  function PhaseOf(title: string): Option<Phase> {
    if title == INDEXING_TITLE then Some(Phase.Indexing)
    else if title == IMPORTING_TITLE then Some(Importing)
    else if COMPILING_PREFIX <= title then Some(Compiling)
    else if EndsWith(title, BSP_CONFIG_SUFFIX) then Some(BspConfig)
    else None
  }

  function Announced(p: Progress): Option<Phase> {
    if p.title.None? then None else PhaseOf(p.title.value)
  }

  /** The last component of a file URI, separated by either slash. */
  function FileName(uri: string): string {
    if uri == [] then []
    else if uri[|uri| - 1] == '/' || uri[|uri| - 1] == '\\' then []
    else FileName(uri[..|uri| - 1]) + [uri[|uri| - 1]]
  }

  predicate IsBuildFile(uri: string) {
    EndsWith(FileName(uri), ".sbt") || FileName(uri) in {"project.scala", "build.mill", "build.sc"}
  }

  predicate IsSourceFile(uri: string) {
    (EndsWith(FileName(uri), ".scala") || EndsWith(FileName(uri), ".sc")) && !IsBuildFile(uri)
  }

  datatype Change = Change(uri: string, kind: nat)

  const CHANGED := 2

  /** A build file, or a source created or deleted, changes the build. */
  predicate ChangesBuild(c: Change) {
    IsBuildFile(c.uri) || (IsSourceFile(c.uri) && c.kind != CHANGED)
  }

  /** A source changed in place is only recompiled. */
  predicate ChangesSource(c: Change) {
    IsSourceFile(c.uri) && c.kind == CHANGED
  }

  predicate BuildChanged(changes: seq<Change>) { exists c | c in changes :: ChangesBuild(c) }

  predicate SourceChanged(changes: seq<Change>) { exists c | c in changes :: ChangesSource(c) }

  datatype Level = LevelError | LevelWarn | LevelOther

  datatype Event =
    | Progressed(progress: Progress)
    /** `metals/status` of the type "module", with the message its tooltip or text gives. */
    | ModuleStatus(level: Level, detail: Option<string>)
    | Watched(changes: seq<Change>)

  datatype Fields = Fields(state: ServerState, open: seq<Phased<Phase>>, imported: bool, pendingImport: bool)

  const INITIAL := Fields(INITIALIZING, [], false, false)

  function OnProgress(f: Fields, p: Progress): (Fields, Option<ServerState>) {
    match p.kind
    case Begin =>
      if Announced(p).None? then (f, None)
      else
        var state := f.state.(readiness := Readiness.Indexing);
        (f.(open := f.open + [Phased(p.token, Announced(p).value)], state := state), Some(state))
    case End =>
      var i := IndexOf(TokensOf(f.open), p.token);
      if i == |f.open| then (f, None)
      else
        var open, indexed := Without(f.open, i), f.open[i].phase == Phase.Indexing;
        var completes := indexed || (f.open[i].phase == Compiling && f.imported && !f.pendingImport);
        var state := if open == [] && completes then f.state.(readiness := Ready) else f.state;
        (Fields(state, open, f.imported || indexed, f.pendingImport && !indexed), Some(state))
    case Report => (f, None)
    case OtherKind => (f, None)
  }

  function OnStatus(f: Fields, level: Level, detail: Option<string>): (Fields, Option<ServerState>) {
    var state := match level
      case LevelError => f.state.(health := Health.Error, message := detail)
      case LevelWarn => f.state.(health := Health.Warning, message := detail)
      case LevelOther => f.state.(health := Health.Ok, message := None);
    (f.(state := state), Some(state))
  }

  function OnWatched(f: Fields, changes: seq<Change>): (Fields, Option<ServerState>) {
    if !BuildChanged(changes) && !SourceChanged(changes) then (f, None)
    else
      var f := f.(pendingImport := f.pendingImport || BuildChanged(changes));
      if f.state.readiness != Ready then (f, None)
      else
        var state := f.state.(readiness := Readiness.Indexing);
        (f.(state := state), Some(state))
  }

  function OnEvent(f: Fields, e: Event): (Fields, Option<ServerState>) {
    match e
    case Progressed(p) => OnProgress(f, p)
    case ModuleStatus(level, detail) => OnStatus(f, level, detail)
    case Watched(changes) => OnWatched(f, changes)
  }

  class MetalsAdapter {
    var state: ServerState
    var open: seq<Phased<Phase>>
    var imported: bool
    var pendingImport: bool

    function Contents(): Fields
      reads this
    {
      Fields(state, open, imported, pendingImport)
    }

    constructor ()
      ensures Contents() == INITIAL
    {
      state, open, imported, pendingImport := INITIALIZING, [], false, false;
    }

    method ObserveProgress(p: Progress) returns (answer: Option<ServerState>)
      modifies this
      ensures (Contents(), answer) == OnProgress(old(Contents()), p)
    {
      match p.kind {
        case Begin =>
          if Announced(p).None? {
            return None;
          }
          open := open + [Phased(p.token, Announced(p).value)];
          state := state.(readiness := Readiness.Indexing);
        case End =>
          var index := Position(TokensOf(open), p.token);
          if index == |open| {
            return None;
          }
          var ended := open[index].phase;
          open := Without(open, index);
          if ended == Phase.Indexing {
            imported := true;
            pendingImport := false;
          }
          var completes := match ended
            case Indexing => true
            case Compiling => imported && !pendingImport
            case Importing => false
            case BspConfig => false;
          if open == [] && completes {
            state := state.(readiness := Ready);
          }
        case Report => return None;
        case OtherKind => return None;
      }
      answer := Some(state);
    }

    method ObserveStatus(level: Level, detail: Option<string>) returns (answer: Option<ServerState>)
      modifies this
      ensures (Contents(), answer) == OnStatus(old(Contents()), level, detail)
    {
      var health := match level
        case LevelError => Health.Error
        case LevelWarn => Health.Warning
        case LevelOther => Health.Ok;
      state := state.(health := health, message := if health == Health.Ok then None else detail);
      answer := Some(state);
    }

    method ObserveWatched(changes: seq<Change>) returns (answer: Option<ServerState>)
      modifies this
      ensures (Contents(), answer) == OnWatched(old(Contents()), changes)
    {
      var sourceChanged, buildChanged := Classify(changes);
      if !sourceChanged && !buildChanged {
        return None;
      }
      if buildChanged {
        pendingImport := true;
      }
      if state.readiness != Ready {
        return None;
      }
      state := state.(readiness := Readiness.Indexing);
      answer := Some(state);
    }
  }

  /** Whether some change is of a source in place, and whether some changes the build. */
  method Classify(changes: seq<Change>) returns (sourceChanged: bool, buildChanged: bool)
    ensures sourceChanged <==> SourceChanged(changes)
    ensures buildChanged <==> BuildChanged(changes)
  {
    sourceChanged, buildChanged := false, false;
    for i := 0 to |changes|
      invariant buildChanged <==> BuildChanged(changes[..i])
      invariant sourceChanged <==> SourceChanged(changes[..i])
    {
      OneMoreChange(changes, i);
      if IsBuildFile(changes[i].uri) {
        buildChanged := true;
      } else if IsSourceFile(changes[i].uri) {
        if changes[i].kind == CHANGED {
          sourceChanged := true;
        } else {
          buildChanged := true;
        }
      }
    }
    assert changes[..|changes|] == changes;
  }

  lemma OneMoreChange(changes: seq<Change>, i: nat)
    requires i < |changes|
    ensures BuildChanged(changes[..i + 1]) <==> BuildChanged(changes[..i]) || ChangesBuild(changes[i])
    ensures SourceChanged(changes[..i + 1]) <==> SourceChanged(changes[..i]) || ChangesSource(changes[i])
  {
    assert changes[..i + 1] == changes[..i] + [changes[i]];
  }

  // --- Which changes count ------------------------------------------------------------------

  predicate IsPlain(name: string) { '/' !in name && '\\' !in name }

  lemma {:induction false} FileNameOfPlain(before: string, separator: char, name: string)
    requires IsPlain(name) && (separator == '/' || separator == '\\')
    ensures FileName(before + [separator] + name) == name
  {
    var uri := before + [separator] + name;
    if name != [] {
      var n := |name| - 1;
      FileNameOfPlain(before, separator, name[..n]);
      assert uri[..|uri| - 1] == before + [separator] + name[..n] && name[n] in name;
      assert uri[|uri| - 1] == name[n];
    }
  }

  /** By the name of the file: a build file is one of sbt, or of the three names; a source is any other Scala
      file or script. A source that is created or deleted changes the build, one changed in place is
      only compiled again. */
  lemma ClassifiedExactly(dir: string, name: string, kind: nat)
    requires IsPlain(name)
    ensures var c := Change(dir + "/" + name, kind);
      var build := EndsWith(name, ".sbt") || name == "project.scala" || name == "build.mill" || name == "build.sc";
      var scala := EndsWith(name, ".scala") || EndsWith(name, ".sc");
      && (ChangesBuild(c) <==> build || (scala && kind != 2))
      && (ChangesSource(c) <==> !build && scala && kind == 2)
  {
    assert dir + "/" + name == dir + ['/'] + name;
    FileNameOfPlain(dir, '/', name);
  }

  // --- Ready as a function of the history -----------------------------------------------

  function After(h: seq<Event>): Fields {
    if h == [] then INITIAL else OnEvent(After(h[..|h| - 1]), h[|h| - 1]).0
  }

  /** What an event means to the open phases. */
  function MarkOf(e: Event): Mark<Phase> {
    if !e.Progressed? then Neither
    else if e.progress.kind == Begin && Announced(e.progress).Some? then Begins(e.progress.token, Announced(e.progress).value)
    else if e.progress.kind == End then Ends(e.progress.token)
    else Neither
  }

  function Marks(h: seq<Event>): seq<Mark<Phase>> {
    seq(|h|, i requires 0 <= i < |h| => MarkOf(h[i]))
  }

  /** The phase that an event ends, as the begin it belongs to announced it. */
  function PhaseEnded(before: seq<Event>, e: Event): Option<Phase> { EndedPhase(Marks(before), MarkOf(e)) }

  predicate IndexingEnds(before: seq<Event>, e: Event) { PhaseEnded(before, e) == Some(Phase.Indexing) }

  predicate BuildChanges(before: seq<Event>, e: Event) { e.Watched? && BuildChanged(e.changes) }

  predicate ToldChange(e: Event) { e.Watched? && (BuildChanged(e.changes) || SourceChanged(e.changes)) }

  /** Some Indexing has ended, and no change of the build was told since the last one. */
  ghost predicate Imported(h: seq<Event>) { Since(h, IndexingEnds, BuildChanges) }

  /** The phase that makes the workspace complete ends: Indexing, or Compiling of an imported
      build. */
  ghost predicate Completes(before: seq<Event>, e: Event) {
    IndexingEnds(before, e) || (PhaseEnded(before, e) == Some(Compiling) && Imported(before))
  }

  /** Another phase ends, or a change is told. */
  ghost predicate Undoes(before: seq<Event>, e: Event) {
    (PhaseEnded(before, e).Some? && !Completes(before, e)) || ToldChange(e)
  }

  lemma {:induction false} OpenIsMarked(h: seq<Event>)
    ensures After(h).open == OpenList(Marks(h))
  {
    if h != [] {
      var before, e := h[..|h| - 1], h[|h| - 1];
      OpenIsMarked(before);
      assert Marks(h)[..|h| - 1] == Marks(before);
      OpenAfter(After(before), e);
    }
  }

  lemma OpenAfter(f: Fields, e: Event)
    ensures OnEvent(f, e).0.open == Marked(f.open, MarkOf(e))
  {}

  /** The entries of each token are its last begins, as many as the ends leave open, with the phases
      they announced. */
  lemma OpenIsBegunNotEnded(h: seq<Event>, t: Token)
    ensures PhasesOf(After(h).open, t) == StillBegun(Marks(h), t)
  {
    OpenIsMarked(h);
    ListIsStillBegun(Marks(h), t);
  }

  /** What an event ends by the list: the oldest entry with its token. */
  function EndedIn(f: Fields, e: Event): Option<Phase> {
    if !e.Progressed? || e.progress.kind != End then None
    else
      var i := IndexOf(TokensOf(f.open), e.progress.token);
      if i < |f.open| then Some(f.open[i].phase) else None
  }

  lemma EndedInIsPhaseEnded(before: seq<Event>, e: Event)
    ensures EndedIn(After(before), e) == PhaseEnded(before, e)
  {
    OpenIsMarked(before);
    if MarkOf(e).Ends? {
      EndedIsOldest(Marks(before), MarkOf(e));
    }
  }

  lemma {:induction false} ImportIsRemembered(h: seq<Event>)
    ensures After(h).imported && !After(h).pendingImport <==> Imported(h)
  {
    if h != [] {
      var before, e := h[..|h| - 1], h[|h| - 1];
      ImportIsRemembered(before);
      SplitLast(h);
      SinceStep(before, e, IndexingEnds, BuildChanges);
      EndedInIsPhaseEnded(before, e);
      ImportStep(After(before), e);
    }
  }

  lemma ImportStep(f: Fields, e: Event)
    ensures var f' := OnEvent(f, e).0;
      f'.imported && !f'.pendingImport <==>
        EndedIn(f, e) == Some(Phase.Indexing)
        || (f.imported && !f.pendingImport && !(e.Watched? && BuildChanged(e.changes)))
  {}

  /** One event: `complete` says whether the import was complete before it, `completes` whether
      the event completes it. */
  lemma ReadyStep(f: Fields, e: Event, complete: bool, completes: bool)
    requires f.state.readiness == Ready <==> f.open == [] && complete
    requires completes <==> EndedIn(f, e) == Some(Phase.Indexing) || (EndedIn(f, e) == Some(Compiling) && f.imported && !f.pendingImport)
    ensures var f' := OnEvent(f, e).0;
      f'.state.readiness == Ready <==> f'.open == [] && (completes || (complete && EndedIn(f, e).None? && !ToldChange(e)))
  {
    match e
    case ModuleStatus(_, _) =>
    case Watched(changes) => ReadyAfterChanges(f, changes);
    case Progressed(p) =>
      if p.kind == End {
        ReadyAfterEnd(f, p);
      }
  }

  lemma ReadyAfterChanges(f: Fields, changes: seq<Change>)
    ensures var f' := OnWatched(f, changes).0;
      && f'.open == f.open
      && (f'.state.readiness == Ready <==> f.state.readiness == Ready && !ToldChange(Watched(changes)))
  {}

  lemma ReadyAfterEnd(f: Fields, p: Progress)
    requires p.kind == End
    ensures var f', ended := OnProgress(f, p).0, EndedIn(f, Progressed(p));
      if ended.None? then f' == f
      else
        var completes := ended == Some(Phase.Indexing) || (ended == Some(Compiling) && f.imported && !f.pendingImport);
        f'.state.readiness == if f'.open == [] && completes then Ready else f.state.readiness
    ensures EndedIn(f, Progressed(p)).Some? ==> f.open != []
  {}

  lemma {:induction false} ReadyByTheList(h: seq<Event>)
    ensures After(h).state.readiness == Ready <==> After(h).open == [] && Since(h, Completes, Undoes)
  {
    if h != [] {
      var before, e := h[..|h| - 1], h[|h| - 1];
      ReadyByTheList(before);
      ImportIsRemembered(before);
      SplitLast(h);
      SinceStep(before, e, Completes, Undoes);
      EndedInIsPhaseEnded(before, e);
      ReadyStep(After(before), e, Since(before, Completes, Undoes), Completes(before, e));
    }
  }

  /** Metals is ready after a history exactly when no phase is open, the one that ended last was
      announced as Indexing, or as Compiling of a build imported and not changed since, and no
      change of a source or of the build was told after that end. */
  lemma ReadyExactly(h: seq<Event>)
    ensures After(h).state.readiness == Ready <==> NoneOpen(Marks(h)) && Since(h, Completes, Undoes)
  {
    ReadyByTheList(h);
    OpenIsMarked(h);
    ListIsEmptyExactly(Marks(h));
  }

  predicate Tells(level: Level, e: Event) { e.ModuleStatus? && e.level == level }

  predicate TellsError(before: seq<Event>, e: Event) { Tells(LevelError, e) }

  predicate TellsWarning(before: seq<Event>, e: Event) { Tells(LevelWarn, e) }

  predicate TellsOther(before: seq<Event>, e: Event) { Tells(LevelOther, e) }

  predicate TellsStatus(before: seq<Event>, e: Event) { e.ModuleStatus? }

  lemma HealthStep(f: Fields, e: Event)
    ensures OnEvent(f, e).0.state.health ==
      if Tells(LevelError, e) then Health.Error
      else if Tells(LevelWarn, e) then Health.Warning
      else if Tells(LevelOther, e) then Health.Ok
      else f.state.health
  {}

  /** Health is what the last status told. */
  lemma {:induction false} HealthIsLastTold(h: seq<Event>)
    ensures After(h).state.health ==
            if Since(h, TellsError, TellsStatus) then Health.Error
            else if Since(h, TellsWarning, TellsStatus) then Health.Warning
            else if Since(h, TellsOther, TellsStatus) then Health.Ok
            else Health.Unknown
  {
    if h != [] {
      var before, e := h[..|h| - 1], h[|h| - 1];
      HealthIsLastTold(before);
      SplitLast(h);
      SinceStep(before, e, TellsError, TellsStatus);
      SinceStep(before, e, TellsWarning, TellsStatus);
      SinceStep(before, e, TellsOther, TellsStatus);
      HealthStep(After(before), e);
    }
  }

  // --- Readiness otherwise, and the message -------------------------------------------------

  predicate PhaseBegins(before: seq<Event>, e: Event) {
    e.Progressed? && e.progress.kind == Begin && Announced(e.progress).Some?
  }

  predicate Never(before: seq<Event>, e: Event) { false }

  lemma BegunStep(f: Fields, e: Event)
    requires f.state.readiness in {Initializing, Readiness.Indexing, Ready}
    requires f.open != [] ==> f.state.readiness != Initializing
    ensures var f' := OnEvent(f, e).0;
      && f'.state.readiness in {Initializing, Readiness.Indexing, Ready}
      && (f'.open != [] ==> f'.state.readiness != Initializing)
      && (f'.state.readiness == Initializing <==> f.state.readiness == Initializing && !PhaseBegins([], e))
  {}

  lemma {:induction false} InitializingUntilBegun(h: seq<Event>)
    ensures After(h).state.readiness in {Initializing, Readiness.Indexing, Ready}
    ensures After(h).open != [] ==> After(h).state.readiness != Initializing
    ensures After(h).state.readiness == Initializing <==> !Since(h, PhaseBegins, Never)
  {
    if h != [] {
      var before, e := h[..|h| - 1], h[|h| - 1];
      InitializingUntilBegun(before);
      SplitLast(h);
      SinceStep(before, e, PhaseBegins, Never);
      BegunStep(After(before), e);
    }
  }

  /** Not ready is initializing until a phase begins, and indexing from then on. */
  lemma ReadinessExactly(h: seq<Event>)
    ensures After(h).state.readiness ==
            if NoneOpen(Marks(h)) && Since(h, Completes, Undoes) then Ready
            else if Since(h, PhaseBegins, Never) then Readiness.Indexing else Initializing
  {
    ReadyExactly(h);
    InitializingUntilBegun(h);
  }

  /** The message that a status tells: what goes with an error or a warning. */
  function ToldMessage(before: seq<Event>, e: Event): Option<Option<string>> {
    if !e.ModuleStatus? then None else Some(if e.level == LevelOther then None else e.detail)
  }

  lemma {:induction false} MessageIsLastTold(h: seq<Event>)
    ensures IsLast(h, ToldMessage, None, After(h).state.message)
  {
    if h != [] {
      var before, e := h[..|h| - 1], h[|h| - 1];
      MessageIsLastTold(before);
      SplitLast(h);
      IsLastStep(before, e, ToldMessage, None, After(before).state.message);
      MessageStep(After(before), e);
    }
  }

  lemma MessageStep(f: Fields, e: Event)
    ensures OnEvent(f, e).0.state.message == ToldMessage([], e).GetOr(f.state.message)
  {}

  // --- What lsp-det is told -----------------------------------------------------------------

  /** What the mapping answers, event by event. */
  function Answers(h: seq<Event>): (answers: seq<Option<ServerState>>)
    ensures |answers| == |h|
  {
    if h == [] then [] else Answers(h[..|h| - 1]) + [OnEvent(After(h[..|h| - 1]), h[|h| - 1]).1]
  }

  lemma AnswerStep(f: Fields, e: Event)
    ensures OnEvent(f, e).0.state == OnEvent(f, e).1.GetOr(f.state)
  {}

  lemma AnswersOneMore(h: seq<Event>)
    requires h != []
    ensures Answers(h)[|h| - 1] == OnEvent(After(h[..|h| - 1]), h[|h| - 1]).1
  {}

  lemma AfterOneMore(h: seq<Event>)
    requires h != []
    ensures After(h).state == OnEvent(After(h[..|h| - 1]), h[|h| - 1]).0.state
  {}

  /** An answer is the state after the event, and where there is none the state is as before. */
  lemma {:induction false} AnswerIsState(h: seq<Event>, i: nat)
    requires i < |h|
    ensures After(h[..i + 1]).state == Answers(h)[i].GetOr(After(h[..i]).state)
  {
    var before := h[..|h| - 1];
    if i < |before| {
      AnswerIsState(before, i);
      assert h[..i + 1] == before[..i + 1] && h[..i] == before[..i] && Answers(h)[i] == Answers(before)[i];
    } else {
      assert h[..i + 1] == h;
      AnswersOneMore(h);
      AfterOneMore(h);
      AnswerStep(After(before), h[|h| - 1]);
    }
  }

  /** After every history, what the tracker holds is the mapping's state. */
  lemma {:induction false} HeardIsState(h: seq<Event>, t: Tracked)
    requires t.mapped && t.state == INITIALIZING
    ensures Hears(t, Answers(h)).state == After(h).state && Hears(t, Answers(h)).mapped
  {
    if h != [] {
      var before, e := h[..|h| - 1], h[|h| - 1];
      HeardIsState(before, t);
      HearsOneMore(t, Answers(before), OnEvent(After(before), e).1);
      AnswerStep(After(before), e);
    }
  }

  /** What the tracker goes by after every history, told by the history alone. */
  lemma HeardExactly(h: seq<Event>, t: Tracked)
    requires t.mapped && t.state == INITIALIZING
    ensures var s := Hears(t, Answers(h)).state;
      && s.readiness == (if NoneOpen(Marks(h)) && Since(h, Completes, Undoes) then Ready
                         else if Since(h, PhaseBegins, Never) then Readiness.Indexing else Initializing)
      && s.health == (if Since(h, TellsError, TellsStatus) then Health.Error
                      else if Since(h, TellsWarning, TellsStatus) then Health.Warning
                      else if Since(h, TellsOther, TellsStatus) then Health.Ok
                      else Health.Unknown)
      && IsLast(h, ToldMessage, None, s.message)
  {
    HeardIsState(h, t);
    ReadinessExactly(h);
    HealthIsLastTold(h);
    MessageIsLastTold(h);
  }
}
