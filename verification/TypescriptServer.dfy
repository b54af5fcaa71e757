/** The typescript-language-server mapping (src/adapter/typescript_language_server.rs): loads of
    projects, and the layout that the declared coverage rests on. */
module TypescriptServers {
  import opened Wrappers
  import opened ServerStates
  import opened Histories
  import opened Tracking
  import opened Hearing
  import opened Jsons
  import opened Progresses
  import opened Openings
  import opened FileTrees
  import opened Layouts

  const PROJECT_LOAD_TITLE := "Initializing JS/TS language features\U{2026}"
  const TSSERVER_EXITED := "[tsserver] Exited. Code:"
  const TESTED_VERSIONS := {"5.9.3"}

  /** A change of a watched file whose URI is a path. */
  datatype Change = Change(path: Path, created: bool)

  /** Each folder with what it leads to; one that is not on the disk cannot be listed. */
  type Disk = map<Path, Node>

  function FolderOn(disk: Disk, root: Path): Node {
    if root in disk then disk[root] else Locked
  }

  datatype Event =
    | Roots(roots: seq<Path>, disk: Disk)
    /** `$/typescriptVersion` with a version. */
    | Announced(version: string)
    | Progressed(progress: Progress)
    | Logged(message: string)
    /** The client tells of watched files, with the disk as it is then. */
    | Watched(changes: seq<Change>, disk: Disk)
    /** The client tells of workspace folders: whether some were added. */
    | FoldersChanged(added: bool)

  datatype Fields = Fields(
    versionIsTested: bool,
    state: ServerState,
    loading: seq<Token>,
    layouts: seq<FolderLayout>,
    layoutChanged: bool)
  {
    predicate DeclaresCoverage() { versionIsTested && WorkspaceComplete(layouts) }
  }

  predicate WorkspaceComplete(layouts: seq<FolderLayout>) { |layouts| == 1 && layouts[0].complete }

  function Initial(tested: bool): Fields { Fields(tested, INITIALIZING, [], [], false) }

  predicate BeginsLoad(p: Progress) { p.kind == Begin && p.title == Some(PROJECT_LOAD_TITLE) }

  predicate Contains(text: string, part: string) {
    exists i | 0 <= i <= |text| :: part <= text[i..]
  }

  function OnProgress(f: Fields, p: Progress): (Fields, Option<ServerState>) {
    if BeginsLoad(p) then
      var state := if f.layoutChanged then f.state else f.state.(readiness := Indexing);
      (f.(loading := f.loading + [p.token], state := state), Some(state))
    else if p.kind != End || p.token !in f.loading then (f, None)
    else if Ended(f.loading, p.token) != [] then (f.(loading := Ended(f.loading, p.token)), None)
    else
      var state := f.state.(
        readiness := if f.layoutChanged then f.state.readiness else Ready,
        health := if f.state.health == Health.Error then Health.Error else Health.Ok);
      (f.(loading := [], state := state), Some(state))
  }

  function OnLog(f: Fields, message: string): (Fields, Option<ServerState>) {
    if !Contains(message, TSSERVER_EXITED) then (f, None)
    else
      var state := f.state.(health := Health.Error, message := Some(message));
      (f.(state := state), Some(state))
  }

  predicate ChangesConfig(layout: FolderLayout, changes: seq<Change>) {
    exists c | c in changes :: IsConfigChange(layout, c.path)
  }

  function Reread(layouts: seq<FolderLayout>, changes: seq<Change>, disk: Disk, parse: Parser): seq<FolderLayout> {
    seq(|layouts|, i requires 0 <= i < |layouts| => RereadOne(layouts[i], changes, disk, parse))
  }

  function RereadOne(layout: FolderLayout, changes: seq<Change>, disk: Disk, parse: Parser): FolderLayout {
    if ChangesConfig(layout, changes) then AssessFolder(layout.root, FolderOn(disk, layout.root), parse) else layout
  }

  /** A source told as created that a layout's project does not take in. */
  predicate CreatesOutside(layouts: seq<FolderLayout>, changes: seq<Change>) {
    exists c | c in changes && c.created :: exists layout | layout in layouts :: NewSourceOutside(layout, c.path)
  }

  function Withdrawn(f: Fields): (Fields, Option<ServerState>) {
    var state := f.state.(readiness := Readiness.Unknown);
    (f.(layoutChanged := true, state := state), Some(state))
  }

  function OnWatched(f: Fields, changes: seq<Change>, disk: Disk, parse: Parser): (Fields, Option<ServerState>) {
    if f.layoutChanged || !f.DeclaresCoverage() then (f, None)
    else
      var f := f.(layouts := Reread(f.layouts, changes, disk, parse));
      if !WorkspaceComplete(f.layouts) || CreatesOutside(f.layouts, changes) then Withdrawn(f) else (f, None)
  }

  function AssessAll(roots: seq<Path>, disk: Disk, parse: Parser): seq<FolderLayout> {
    seq(|roots|, i requires 0 <= i < |roots| => AssessFolder(roots[i], FolderOn(disk, roots[i]), parse))
  }

  function OnEvent(f: Fields, e: Event, parse: Parser): (Fields, Option<ServerState>) {
    match e
    case Roots(roots, disk) =>
      (f.(layouts := AssessAll(roots, disk, parse)), None)
    case Announced(version) => (f.(versionIsTested := version in TESTED_VERSIONS), None)
    case Progressed(p) => OnProgress(f, p)
    case Logged(message) => OnLog(f, message)
    case Watched(changes, disk) => OnWatched(f, changes, disk, parse)
    case FoldersChanged(added) =>
      if f.layoutChanged || !f.DeclaresCoverage() || !added then (f, None) else Withdrawn(f)
  }

  class TypescriptAdapter {
    const parse: Parser
    var versionIsTested: bool
    var state: ServerState
    var loading: seq<Token>
    var layouts: seq<FolderLayout>
    var layoutChanged: bool

    function Contents(): Fields
      reads this
    {
      Fields(versionIsTested, state, loading, layouts, layoutChanged)
    }

    constructor (version: Option<string>, parse: Parser)
      ensures this.parse == parse
      ensures Contents() == Initial(version.Some? && version.value in TESTED_VERSIONS)
    {
      this.parse := parse;
      versionIsTested := version.Some? && version.value in TESTED_VERSIONS;
      state, loading, layouts, layoutChanged := INITIALIZING, [], [], false;
    }

    method LearnRoots(roots: seq<Path>, disk: Disk)
      modifies this
      ensures (Contents(), None) == OnEvent(old(Contents()), Roots(roots, disk), parse)
    {
      var read: seq<FolderLayout> := [];
      for i := 0 to |roots|
        invariant Contents() == old(Contents()) && |read| == i
        invariant forall j | 0 <= j < i :: read[j] == AssessFolder(roots[j], FolderOn(disk, roots[j]), parse)
      {
        var layout := ReadFolder(roots[i], FolderOn(disk, roots[i]), parse);
        read := read + [layout];
      }
      layouts := read;
      assert layouts == AssessAll(roots, disk, parse);
    }

    method LearnVersion(version: string)
      modifies this
      ensures (Contents(), None) == OnEvent(old(Contents()), Announced(version), parse)
    {
      versionIsTested := version in TESTED_VERSIONS;
    }

    /** Whether the changes leave the layout no longer complete. */
    method LayoutBrokenBy(changes: seq<Change>, disk: Disk) returns (broken: bool)
      modifies this`layouts
      ensures layouts == Reread(old(layouts), changes, disk, parse)
      ensures broken == (!WorkspaceComplete(layouts) || CreatesOutside(layouts, changes))
    {
      for i := 0 to |layouts|
        invariant |layouts| == |old(layouts)|
        invariant forall j | 0 <= j < i :: layouts[j] == RereadOne(old(layouts)[j], changes, disk, parse)
        invariant forall j | i <= j < |layouts| :: layouts[j] == old(layouts)[j]
      {
        if exists c | c in changes :: IsConfigChange(layouts[i], c.path) {
          var layout := ReadFolder(layouts[i].root, FolderOn(disk, layouts[i].root), parse);
          layouts := layouts[i := layout];
        }
      }
      broken := !WorkspaceComplete(layouts) || CreatesOutside(layouts, changes);
    }

    method ObserveWatched(changes: seq<Change>, disk: Disk) returns (answer: Option<ServerState>)
      modifies this
      ensures (Contents(), answer) == OnEvent(old(Contents()), Watched(changes, disk), parse)
    {
      if layoutChanged || !Contents().DeclaresCoverage() {
        return None;
      }
      var broken := LayoutBrokenBy(changes, disk);
      if !broken {
        return None;
      }
      layoutChanged := true;
      state := state.(readiness := Readiness.Unknown);
      answer := Some(state);
    }

    method ObserveFolders(added: bool) returns (answer: Option<ServerState>)
      modifies this
      ensures (Contents(), answer) == OnEvent(old(Contents()), FoldersChanged(added), parse)
    {
      if layoutChanged || !Contents().DeclaresCoverage() || !added {
        return None;
      }
      layoutChanged := true;
      state := state.(readiness := Readiness.Unknown);
      answer := Some(state);
    }

    method ObserveProgress(p: Progress) returns (answer: Option<ServerState>)
      modifies this
      ensures (Contents(), answer) == OnEvent(old(Contents()), Progressed(p), parse)
    {
      if p.kind == Begin && p.title == Some(PROJECT_LOAD_TITLE) {
        loading := loading + [p.token];
        if !layoutChanged {
          state := state.(readiness := Indexing);
        }
      } else if p.kind == End {
        var index := Position(loading, p.token);
        if index == |loading| {
          return None;
        }
        loading := Without(loading, index);
        if loading != [] {
          return None;
        }
        if !layoutChanged {
          state := state.(readiness := Ready);
        }
        if state.health != Health.Error {
          state := state.(health := Health.Ok);
        }
      } else {
        return None;
      }
      answer := Some(state);
    }

    method ObserveLog(message: string) returns (answer: Option<ServerState>)
      modifies this
      ensures (Contents(), answer) == OnEvent(old(Contents()), Logged(message), parse)
    {
      if !Contains(message, TSSERVER_EXITED) {
        return None;
      }
      state := state.(health := Health.Error, message := Some(message));
      answer := Some(state);
    }
  }

  // --- Readiness and health over a history --------------------------------------------------

  function After(tested: bool, h: seq<Event>, parse: Parser): Fields {
    if h == [] then Initial(tested) else OnEvent(After(tested, h[..|h| - 1], parse), h[|h| - 1], parse).0
  }

  /** What an event means to the open loads. */
  function MarkOf(e: Event): Mark<()> {
    if !e.Progressed? then Neither
    else if BeginsLoad(e.progress) then Begins(e.progress.token, ())
    else if e.progress.kind == End then Ends(e.progress.token)
    else Neither
  }

  function Marks(h: seq<Event>): seq<Mark<()>> {
    seq(|h|, i requires 0 <= i < |h| => MarkOf(h[i]))
  }

  predicate LoadBegins(before: seq<Event>, e: Event) { e.Progressed? && BeginsLoad(e.progress) }

  predicate Exits(before: seq<Event>, e: Event) { e.Logged? && Contains(e.message, TSSERVER_EXITED) }

  predicate Never(before: seq<Event>, e: Event) { false }

  lemma LoadingStep(f: Fields, e: Event, parse: Parser)
    ensures OnEvent(f, e, parse).0.loading == TokensMarked(f.loading, MarkOf(e))
  {}

  lemma {:induction false} LoadingIsMarked(tested: bool, h: seq<Event>, parse: Parser)
    ensures After(tested, h, parse).loading == OpenTokens(Marks(h))
  {
    if h != [] {
      var before, e := h[..|h| - 1], h[|h| - 1];
      LoadingIsMarked(tested, before, parse);
      assert Marks(h)[..|h| - 1] == Marks(before);
      OpenTokensStep(Marks(h));
      LoadingStep(After(tested, before, parse), e, parse);
    }
  }

  /** The tokens in the list are those of project loads begun and not ended. */
  lemma LoadingIsBegunNotEnded(tested: bool, h: seq<Event>, t: Token, parse: Parser)
    ensures Count(After(tested, h, parse).loading, t) == Open(Marks(h), t)
    ensures After(tested, h, parse).loading == [] <==> NoneOpen(Marks(h))
  {
    LoadingIsMarked(tested, h, parse);
    TokensAreOpen(Marks(h), t);
  }

  function ReadinessOf(withdrawn: bool, loading: bool, begun: bool): Readiness {
    if withdrawn then Readiness.Unknown
    else if loading then Indexing
    else if begun then Ready else Initializing
  }

  lemma ReadinessStep(f: Fields, e: Event, begun: bool, parse: Parser)
    requires f.state.readiness == ReadinessOf(f.layoutChanged, f.loading != [], begun) && (f.loading != [] ==> begun)
    ensures var f', begun' := OnEvent(f, e, parse).0, begun || (e.Progressed? && BeginsLoad(e.progress));
      f'.state.readiness == ReadinessOf(f'.layoutChanged, f'.loading != [], begun') && (f'.loading != [] ==> begun')
  {}

  lemma {:induction false} ReadinessByTheList(tested: bool, h: seq<Event>, parse: Parser)
    ensures var f := After(tested, h, parse);
      && f.state.readiness == ReadinessOf(f.layoutChanged, f.loading != [], Since(h, LoadBegins, Never))
      && (f.loading != [] ==> Since(h, LoadBegins, Never))
  {
    if h != [] {
      var before, e := h[..|h| - 1], h[|h| - 1];
      ReadinessByTheList(tested, before, parse);
      SplitLast(h);
      SinceStep(before, e, LoadBegins, Never);
      ReadinessStep(After(tested, before, parse), e, Since(before, LoadBegins, Never), parse);
    }
  }

  /** Unknown once the promise is withdrawn; else indexing while a load is open, and ready once one
      has begun and none is open. */
  lemma ReadinessExactly(tested: bool, h: seq<Event>, parse: Parser)
    ensures var f := After(tested, h, parse);
      f.state.readiness == if f.layoutChanged then Readiness.Unknown
                           else if !NoneOpen(Marks(h)) then Indexing
                           else if Since(h, LoadBegins, Never) then Ready else Initializing
  {
    ReadinessByTheList(tested, h, parse);
    LoadingIsBegunNotEnded(tested, h, Null, parse);
  }

  lemma ErrorStep(f: Fields, e: Event, parse: Parser)
    ensures OnEvent(f, e, parse).0.state.health == Health.Error
      <==> f.state.health == Health.Error || (e.Logged? && Contains(e.message, TSSERVER_EXITED))
  {}

  /** Health is error from the first exit of tsserver on, whatever loads end after it. */
  lemma {:induction false} ErrorOnceExited(tested: bool, h: seq<Event>, parse: Parser)
    ensures After(tested, h, parse).state.health == Health.Error <==> Since(h, Exits, Never)
  {
    if h != [] {
      var before, e := h[..|h| - 1], h[|h| - 1];
      ErrorOnceExited(tested, before, parse);
      SplitLast(h);
      SinceStep(before, e, Exits, Never);
      ErrorStep(After(tested, before, parse), e, parse);
    }
  }

  // --- Health otherwise, and the message ----------------------------------------------------

  /** The last open load ends. */
  ghost predicate RoundEnds(before: seq<Event>, e: Event) {
    MarkOf(e).Ends? && Open(Marks(before), MarkOf(e).token) > 0 && NoneOpen(Marks(before + [e]))
  }

  predicate EmptiesList(f: Fields, e: Event) {
    e.Progressed? && e.progress.kind == End && e.progress.token in f.loading && Ended(f.loading, e.progress.token) == []
  }

  lemma RoundEndsByTheList(tested: bool, before: seq<Event>, e: Event, parse: Parser)
    ensures RoundEnds(before, e) <==> EmptiesList(After(tested, before, parse), e)
  {
    var h := before + [e];
    LoadingIsMarked(tested, before, parse);
    LoadingIsMarked(tested, h, parse);
    assert h[..|h| - 1] == before;
    LoadingStep(After(tested, before, parse), e, parse);
    if MarkOf(e).Ends? {
      TokensAreOpen(Marks(before), MarkOf(e).token);
      TokensAreOpen(Marks(h), MarkOf(e).token);
      var loading := After(tested, before, parse).loading;
      assert Count(loading, e.progress.token) > 0 <==> e.progress.token in loading;
    }
  }

  lemma HealthStep(f: Fields, e: Event, parse: Parser)
    ensures var health := OnEvent(f, e, parse).0.state.health;
      health == if e.Logged? && Contains(e.message, TSSERVER_EXITED) then Health.Error
                else if EmptiesList(f, e) && f.state.health != Health.Error then Health.Ok else f.state.health
  {}

  /** Health is error from the first exit of tsserver on; before, ok once a round of loads has ended. */
  lemma {:induction false} HealthExactly(tested: bool, h: seq<Event>, parse: Parser)
    ensures After(tested, h, parse).state.health ==
            if Since(h, Exits, Never) then Health.Error else if Since(h, RoundEnds, Never) then Health.Ok else Health.Unknown
  {
    if h != [] {
      var before, e := h[..|h| - 1], h[|h| - 1];
      HealthExactly(tested, before, parse);
      SplitLast(h);
      SinceStep(before, e, Exits, Never);
      SinceStep(before, e, RoundEnds, Never);
      RoundEndsByTheList(tested, before, e, parse);
      HealthStep(After(tested, before, parse), e, parse);
    }
  }

  /** The log of an exit. */
  function ToldMessage(before: seq<Event>, e: Event): Option<Option<string>> {
    if e.Logged? && Contains(e.message, TSSERVER_EXITED) then Some(Some(e.message)) else None
  }

  lemma MessageStep(f: Fields, e: Event, parse: Parser)
    ensures OnEvent(f, e, parse).0.state.message == ToldMessage([], e).GetOr(f.state.message)
  {}

  lemma {:induction false} MessageIsLastTold(tested: bool, h: seq<Event>, parse: Parser)
    ensures IsLast(h, ToldMessage, None, After(tested, h, parse).state.message)
  {
    if h != [] {
      var before, e := h[..|h| - 1], h[|h| - 1];
      MessageIsLastTold(tested, before, parse);
      SplitLast(h);
      IsLastStep(before, e, ToldMessage, None, After(tested, before, parse).state.message);
      MessageStep(After(tested, before, parse), e, parse);
    }
  }

  // --- What lsp-det is told -----------------------------------------------------------------

  /** What the mapping answers, event by event. */
  function Answers(tested: bool, h: seq<Event>, parse: Parser): (answers: seq<Option<ServerState>>)
    ensures |answers| == |h|
  {
    if h == [] then [] else Answers(tested, h[..|h| - 1], parse) + [OnEvent(After(tested, h[..|h| - 1], parse), h[|h| - 1], parse).1]
  }

  lemma AnswerStep(f: Fields, e: Event, parse: Parser)
    ensures OnEvent(f, e, parse).0.state == OnEvent(f, e, parse).1.GetOr(f.state)
  {}

  lemma AnswersOneMore(tested: bool, h: seq<Event>, parse: Parser)
    requires h != []
    ensures Answers(tested, h, parse)[|h| - 1] == OnEvent(After(tested, h[..|h| - 1], parse), h[|h| - 1], parse).1
  {}

  lemma AfterOneMore(tested: bool, h: seq<Event>, parse: Parser)
    requires h != []
    ensures After(tested, h, parse).state == OnEvent(After(tested, h[..|h| - 1], parse), h[|h| - 1], parse).0.state
  {}

  /** An answer is the state after the event, and where there is none the state is as before. */
  lemma {:induction false} AnswerIsState(tested: bool, h: seq<Event>, i: nat, parse: Parser)
    requires i < |h|
    ensures After(tested, h[..i + 1], parse).state == Answers(tested, h, parse)[i].GetOr(After(tested, h[..i], parse).state)
  {
    var before := h[..|h| - 1];
    if i < |before| {
      AnswerIsState(tested, before, i, parse);
      assert h[..i + 1] == before[..i + 1] && h[..i] == before[..i];
      assert Answers(tested, h, parse)[i] == Answers(tested, before, parse)[i];
    } else {
      assert h[..i + 1] == h;
      AnswersOneMore(tested, h, parse);
      AfterOneMore(tested, h, parse);
      AnswerStep(After(tested, before, parse), h[|h| - 1], parse);
    }
  }

  /** After every history, what the tracker holds is the mapping's state. */
  lemma {:induction false} HeardIsState(tested: bool, h: seq<Event>, t: Tracked, parse: Parser)
    requires t.mapped && t.state == INITIALIZING
    ensures Hears(t, Answers(tested, h, parse)).state == After(tested, h, parse).state && Hears(t, Answers(tested, h, parse)).mapped
  {
    if h != [] {
      var before, e := h[..|h| - 1], h[|h| - 1];
      HeardIsState(tested, before, t, parse);
      HearsOneMore(t, Answers(tested, before, parse), OnEvent(After(tested, before, parse), e, parse).1);
      AnswerStep(After(tested, before, parse), e, parse);
    }
  }

  /** What the tracker goes by after every history. */
  lemma HeardExactly(tested: bool, h: seq<Event>, t: Tracked, parse: Parser)
    requires t.mapped && t.state == INITIALIZING
    ensures var s := Hears(t, Answers(tested, h, parse)).state;
      && s.readiness == (if After(tested, h, parse).layoutChanged then Readiness.Unknown
                         else if !NoneOpen(Marks(h)) then Indexing
                         else if Since(h, LoadBegins, Never) then Ready else Initializing)
      && s.health == (if Since(h, Exits, Never) then Health.Error
                      else if Since(h, RoundEnds, Never) then Health.Ok else Health.Unknown)
      && IsLast(h, ToldMessage, None, s.message)
  {
    HeardIsState(tested, h, t, parse);
    ReadinessExactly(tested, h, parse);
    HealthExactly(tested, h, parse);
    MessageIsLastTold(tested, h, parse);
  }
}
