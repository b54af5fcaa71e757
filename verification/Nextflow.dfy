/** The Nextflow mapping (src/adapter/nextflow.rs): a walk for the scripts, and two sets of
    paths that wait for diagnostics. */
module Nextflow {
  import opened Wrappers
  import opened ServerStates
  import opened Histories
  import opened Tracking
  import opened Hearing
  import opened Progresses
  import opened FileTrees

  const INITIALIZING_TITLE := "Initializing"
  const SCRIPT_SUFFIX := ".nf"
  const DELETED := 3

  // --- The walk ---------------------------------------------------------------------------

  predicate Excluded(path: string, patterns: seq<string>) {
    exists pattern | pattern in patterns :: path == pattern || EndsWith(path, "/" + pattern)
  }

  predicate EndsWithNames(path: seq<string>, names: seq<string>) {
    |names| <= |path| && path[|path| - |names|..] == names
  }

  /** A path is excluded iff its last names are those of a pattern. */
  lemma ExcludedExactly(path: string, patterns: seq<string>)
    ensures Excluded(path, patterns) <==> exists pattern | pattern in patterns :: EndsWithNames(Split(path), Split(pattern))
  {
    forall pattern ensures path == pattern || EndsWith(path, "/" + pattern) <==> EndsWithNames(Split(path), Split(pattern)) {
      SuffixExactly(path, pattern);
    }
  }

  lemma SuffixExactly(path: string, pattern: string)
    ensures path == pattern || EndsWith(path, "/" + pattern) <==> EndsWithNames(Split(path), Split(pattern))
  {
    if EndsWith(path, "/" + pattern) {
      var before := path[..|path| - |pattern| - 1];
      assert path == before + "/" + pattern;
      SplitAround(before, pattern);
    }
    if EndsWithNames(Split(path), Split(pattern)) {
      EndsInText(path, pattern);
    }
  }

  lemma EndsInText(path: string, pattern: string)
    requires EndsWithNames(Split(path), Split(pattern))
    ensures path == pattern || EndsWith(path, "/" + pattern)
  {
    SlashedSplit(path);
    SlashedSplit(pattern);
    LastNames(Split(path), Split(pattern), path, pattern);
  }

  lemma LastNames(all: seq<string>, names: seq<string>, path: string, pattern: string)
    requires names != [] && EndsWithNames(all, names) && path == Slashed(all) && pattern == Slashed(names)
    ensures path == pattern || EndsWith(path, "/" + pattern)
  {
    var first := all[..|all| - |names|];
    assert all == first + names;
    if first == [] {
      assert all == names;
    } else {
      SlashedConcat(first, names);
      EndsInSecond(Slashed(first), "/" + pattern, path);
    }
  }

  lemma EndsInSecond(a: string, b: string, text: string)
    requires text == a + b
    ensures EndsWith(text, b)
  {}

  predicate IsScript(path: string, node: Node) {
    !node.Dir? && !node.Locked? && !node.Unseen? && EndsWith(path, SCRIPT_SUFFIX)
  }

  /** The scripts a walk of `dir` finds. */
  function Scripts(dir: string, node: Node, exclude: seq<string>): set<Path>
    decreases node, 0
  {
    if Excluded(dir, exclude) || !node.Dir? then {} else ScriptsAmong(dir, node.entries, exclude)
  }

  function ScriptsAmong(dir: string, entries: seq<Entry>, exclude: seq<string>): set<Path>
    decreases entries, 1
  {
    if entries == [] then {}
    else
      var n := |entries| - 1;
      ScriptsAmong(dir, entries[..n], exclude) + ScriptsAt(Join(dir, entries[n].name), entries[n].node, exclude)
  }

  function ScriptsAt(path: string, node: Node, exclude: seq<string>): set<Path>
    decreases node, 1
  {
    if node.Dir? || node.Locked? then Scripts(path, node, exclude)
    else if !Excluded(path, exclude) && IsScript(path, node) then {PathOf(path)}
    else {}
  }

  method Visit(dir: string, node: Node, exclude: seq<string>, found: set<Path>) returns (scripts: set<Path>)
    ensures scripts == found + Scripts(dir, node, exclude)
    decreases node, 0
  {
    scripts := found;
    if Excluded(dir, exclude) || !node.Dir? {
      return;
    }
    for i := 0 to |node.entries|
      invariant scripts == found + ScriptsAmong(dir, node.entries[..i], exclude)
    {
      assert node.entries[..i + 1][..i] == node.entries[..i];
      scripts := VisitEntry(Join(dir, node.entries[i].name), node.entries[i].node, exclude, scripts);
    }
    assert node.entries[..|node.entries|] == node.entries;
  }

  method VisitEntry(path: string, node: Node, exclude: seq<string>, found: set<Path>) returns (scripts: set<Path>)
    ensures scripts == found + ScriptsAt(path, node, exclude)
    decreases node, 1
  {
    scripts := found;
    if node.Dir? || node.Locked? {
      scripts := Visit(path, node, exclude, scripts);
    } else if !node.Unseen? && !Excluded(path, exclude) && EndsWith(path, SCRIPT_SUFFIX) {
      scripts := scripts + {PathOf(path)};
    }
  }

  /** Each folder with what it leads to; one that is not on the disk cannot be listed. */
  type Disk = map<string, Node>

  function DirAt(disk: Disk, folder: string): Node {
    if folder in disk then disk[folder] else Locked
  }

  function WorkspaceScripts(folders: seq<string>, exclude: seq<string>, disk: Disk): set<Path> {
    if folders == [] then {}
    else
      var n := |folders| - 1;
      WorkspaceScripts(folders[..n], exclude, disk) + Scripts(folders[n], DirAt(disk, folders[n]), exclude)
  }

  method VisitFolders(folders: seq<string>, exclude: seq<string>, disk: Disk) returns (scripts: set<Path>)
    ensures scripts == WorkspaceScripts(folders, exclude, disk)
  {
    scripts := {};
    for i := 0 to |folders|
      invariant scripts == WorkspaceScripts(folders[..i], exclude, disk)
    {
      assert folders[..i + 1][..i] == folders[..i];
      scripts := Visit(folders[i], DirAt(disk, folders[i]), exclude, scripts);
    }
    assert folders[..|folders|] == folders;
  }

  /** Nothing is excluded on the way: the directory itself, those below it, the last entry. */
  predicate Unexcluded(dir: string, route: Route, exclude: seq<string>)
    decreases |route|
  {
    !Excluded(dir, exclude) && (route == [] || Unexcluded(Join(dir, route[0]), route[1..], exclude))
  }

  /** A script below `dir`, with nothing excluded between them. */
  ghost predicate IsScriptBelow(dir: string, node: Node, exclude: seq<string>, p: Path) {
    exists route, leaf | route != [] && Leads(node, route, leaf) ::
      IsScript(Follow(dir, route), leaf) && Unexcluded(dir, route, exclude) && PathOf(Follow(dir, route)) == p
  }

  lemma FirstOfRoute(dir: string, node: Node, exclude: seq<string>, p: Path)
    requires node.Dir? && IsScriptBelow(dir, node, exclude, p)
    ensures exists e | e in node.entries :: IsScriptAt(Join(dir, e.name), e.node, exclude, p)
  {
    var route, leaf :| route != [] && Leads(node, route, leaf) && IsScript(Follow(dir, route), leaf)
      && Unexcluded(dir, route, exclude) && PathOf(Follow(dir, route)) == p;
    var e :| e in node.entries && e.name == route[0] && Leads(e.node, route[1..], leaf);
    assert IsScriptAt(Join(dir, e.name), e.node, exclude, p);
  }

  lemma RouteThrough(dir: string, node: Node, exclude: seq<string>, p: Path, e: Entry)
    requires node.Dir? && e in node.entries && IsScriptAt(Join(dir, e.name), e.node, exclude, p)
    requires !Excluded(dir, exclude)
    ensures IsScriptBelow(dir, node, exclude, p)
  {
    var path := Join(dir, e.name);
    var route, leaf :| Leads(e.node, route, leaf) && IsScript(Follow(path, route), leaf)
      && Unexcluded(path, route, exclude) && PathOf(Follow(path, route)) == p;
    var longer := [e.name] + route;
    assert longer[1..] == route && longer[0] == e.name;
    assert Leads(node, longer, leaf) && Follow(dir, longer) == Follow(path, route) && Unexcluded(dir, longer, exclude);
  }

  /** The walk finds exactly the scripts with no excluded path on the way. */
  lemma {:induction false} ScriptsAreUnexcluded(dir: string, node: Node, exclude: seq<string>, p: Path)
    ensures p in Scripts(dir, node, exclude) <==> IsScriptBelow(dir, node, exclude, p)
    decreases node, 0
  {
    if node.Dir? {
      AmongAreUnexcluded(dir, node.entries, exclude, p);
      if IsScriptBelow(dir, node, exclude, p) {
        FirstOfRoute(dir, node, exclude, p);
      }
      if p in Scripts(dir, node, exclude) {
        var e :| e in node.entries && IsScriptAt(Join(dir, e.name), e.node, exclude, p);
        RouteThrough(dir, node, exclude, p, e);
      }
    }
  }

  ghost predicate IsScriptAt(path: string, node: Node, exclude: seq<string>, p: Path) {
    exists route, leaf | Leads(node, route, leaf) ::
      IsScript(Follow(path, route), leaf) && Unexcluded(path, route, exclude) && PathOf(Follow(path, route)) == p
  }

  lemma {:induction false} AmongAreUnexcluded(dir: string, entries: seq<Entry>, exclude: seq<string>, p: Path)
    ensures p in ScriptsAmong(dir, entries, exclude)
      <==> exists e | e in entries :: IsScriptAt(Join(dir, e.name), e.node, exclude, p)
    decreases entries, 1
  {
    if entries != [] {
      var n := |entries| - 1;
      AmongAreUnexcluded(dir, entries[..n], exclude, p);
      AtIsUnexcluded(Join(dir, entries[n].name), entries[n].node, exclude, p);
      SplitLast(entries);
    }
  }

  lemma AtIsUnexcluded(path: string, node: Node, exclude: seq<string>, p: Path)
    ensures p in ScriptsAt(path, node, exclude) <==> IsScriptAt(path, node, exclude, p)
    decreases node, 1
  {
    ScriptsAreUnexcluded(path, node, exclude, p);
    if !node.Dir? && p in ScriptsAt(path, node, exclude) {
      assert Leads(node, [], node) && Follow(path, []) == path;
    }
  }

  /** The scripts of a workspace are those below one of its folders. */
  lemma {:induction false} WorkspaceScriptsAreUnexcluded(folders: seq<string>, exclude: seq<string>, disk: Disk, p: Path)
    ensures p in WorkspaceScripts(folders, exclude, disk)
      <==> exists folder | folder in folders :: IsScriptBelow(folder, DirAt(disk, folder), exclude, p)
  {
    if folders != [] {
      var n := |folders| - 1;
      WorkspaceScriptsAreUnexcluded(folders[..n], exclude, disk, p);
      ScriptsAreUnexcluded(folders[n], DirAt(disk, folders[n]), exclude, p);
      SplitLast(folders);
    }
  }

  // --- The mapping ------------------------------------------------------------------------

  /** A change of a watched file; the path of its URI, if it has one. */
  datatype Change = Change(path: Option<string>, kind: nat)

  datatype Event =
    /** With the disk as it is then. */
    | Progressed(progress: Progress, disk: Disk)
    | Diagnosed(path: Option<string>)
    /** A document is opened, changed or closed. */
    | Touched(path: Option<string>)
    | Watched(changes: seq<Change>)
    /** A configuration, with the exclude patterns if it carries them. */
    | Configured(patterns: Option<seq<string>>)
    | Folders(folders: seq<string>)

  datatype Fields = Fields(
    state: ServerState,
    folders: seq<string>,
    exclude: seq<string>,
    initializing: Option<Token>,
    initialized: bool,
    expected: set<Path>,
    pending: set<Path>)
  {
    function Readiness(): Readiness {
      if initializing.Some? || !initialized || expected != {} then Initializing
      else if pending != {} then Indexing
      else Ready
    }

    /** The fields with readiness brought up to date, and the state if that moved it. */
    function Moved(): (Fields, Option<ServerState>) {
      if Readiness() == state.readiness then (this, None)
      else
        var next := state.(readiness := Readiness());
        (this.(state := next), Some(next))
    }

    function Dropping(paths: set<Path>): Fields {
      this.(expected := expected - paths, pending := pending - paths)
    }
  }

  const INITIAL := Fields(INITIALIZING, [], [], None, false, {}, {})

  predicate Begins(p: Progress) { p.kind == Begin && p.title == Some(INITIALIZING_TITLE) }

  predicate UnderAFolder(folders: seq<string>, text: string) {
    exists folder | folder in folders :: PathOf(folder) <= PathOf(text)
  }

  function Deleted(changes: seq<Change>): set<Path> {
    set c | c in changes && c.kind == DELETED && c.path.Some? :: PathOf(c.path.value)
  }

  function OnEvent(f: Fields, e: Event): (Fields, Option<ServerState>) {
    match e
    case Progressed(p, disk) =>
      if Begins(p) then f.(initializing := Some(p.token)).Moved()
      else if p.kind == End && f.initializing == Some(p.token) then
        f.(initializing := None, initialized := true, expected := WorkspaceScripts(f.folders, f.exclude, disk)).Moved()
      else (f, None)
    case Diagnosed(path) =>
      if f.initializing.Some? || path.None? then (f, None) else f.Dropping({PathOf(path.value)}).Moved()
    case Touched(path) =>
      if path.None? || !UnderAFolder(f.folders, path.value) then (f, None)
      else f.(pending := f.pending + {PathOf(path.value)}).Moved()
    case Watched(changes) => f.Dropping(Deleted(changes)).Moved()
    case Configured(patterns) => (f.(exclude := patterns.GetOr(f.exclude)), None)
    case Folders(folders) => (f.(folders := folders), None)
  }

  class NextflowAdapter {
    var state: ServerState
    var folders: seq<string>
    var exclude: seq<string>
    var initializing: Option<Token>
    var initialized: bool
    var expected: set<Path>
    var pending: set<Path>

    function Contents(): Fields
      reads this
    {
      Fields(state, folders, exclude, initializing, initialized, expected, pending)
    }

    constructor ()
      ensures Contents() == INITIAL
    {
      state, folders, exclude := INITIALIZING, [], [];
      initializing, initialized, expected, pending := None, false, {}, {};
    }

    method Moved() returns (answer: Option<ServerState>)
      modifies this
      ensures (Contents(), answer) == old(Contents()).Moved()
    {
      var readiness := Contents().Readiness();
      if readiness == state.readiness {
        return None;
      }
      state := state.(readiness := readiness);
      answer := Some(state);
    }

    method ObserveProgress(p: Progress, disk: Disk) returns (answer: Option<ServerState>)
      modifies this
      ensures (Contents(), answer) == OnEvent(old(Contents()), Progressed(p, disk))
    {
      if p.kind == Begin && p.title == Some(INITIALIZING_TITLE) {
        initializing := Some(p.token);
      } else if p.kind == End && initializing == Some(p.token) {
        initializing := None;
        initialized := true;
        expected := VisitFolders(folders, exclude, disk);
      } else {
        return None;
      }
      answer := Moved();
    }

    method ObserveDiagnostics(path: Option<string>) returns (answer: Option<ServerState>)
      modifies this
      ensures (Contents(), answer) == OnEvent(old(Contents()), Diagnosed(path))
    {
      if initializing.Some? || path.None? {
        return None;
      }
      expected := expected - {PathOf(path.value)};
      pending := pending - {PathOf(path.value)};
      answer := Moved();
    }

    method ObserveDocument(path: Option<string>) returns (answer: Option<ServerState>)
      modifies this
      ensures (Contents(), answer) == OnEvent(old(Contents()), Touched(path))
    {
      if path.None? || !UnderAFolder(folders, path.value) {
        return None;
      }
      pending := pending + {PathOf(path.value)};
      answer := Moved();
    }

    method ObserveWatchedFiles(changes: seq<Change>) returns (answer: Option<ServerState>)
      modifies this
      ensures (Contents(), answer) == OnEvent(old(Contents()), Watched(changes))
    {
      for i := 0 to |changes|
        invariant Contents() == old(Contents()).Dropping(Deleted(changes[..i]))
      {
        if changes[i].kind == DELETED && changes[i].path.Some? {
          expected := expected - {PathOf(changes[i].path.value)};
          pending := pending - {PathOf(changes[i].path.value)};
        }
        DeletedOneMore(changes, i);
      }
      assert changes[..|changes|] == changes;
      answer := Moved();
    }

    method ObserveConfiguration(patterns: Option<seq<string>>)
      modifies this
      ensures (Contents(), None) == OnEvent(old(Contents()), Configured(patterns))
    {
      if patterns.Some? {
        exclude := patterns.value;
      }
    }

    method LearnWorkspaceFolders(folders: seq<string>)
      modifies this
      ensures (Contents(), None) == OnEvent(old(Contents()), Folders(folders))
    {
      this.folders := folders;
    }
  }

  lemma DeletedOneMore(changes: seq<Change>, i: nat)
    requires i < |changes|
    ensures Deleted(changes[..i + 1]) == Deleted(changes[..i]) +
      (if changes[i].kind == DELETED && changes[i].path.Some? then {PathOf(changes[i].path.value)} else {})
  {
    assert changes[..i + 1] == changes[..i] + [changes[i]];
  }

  // --- The two sets as functions of the history --------------------------------------------

  function After(h: seq<Event>): Fields {
    if h == [] then INITIAL else OnEvent(After(h[..|h| - 1]), h[|h| - 1]).0
  }

  function InitializingBegins(t: Token): (seq<Event>, Event) -> bool {
    (before: seq<Event>, e: Event) => e.Progressed? && Begins(e.progress) && e.progress.token == t
  }

  /** It ends, or another one begins. */
  function InitializingReplaced(t: Token): (seq<Event>, Event) -> bool {
    (before: seq<Event>, e: Event) => e.Progressed? && (Begins(e.progress) || (e.progress.kind == End && e.progress.token == t))
  }

  ghost predicate Open(h: seq<Event>, t: Token) { Since(h, InitializingBegins(t), InitializingReplaced(t)) }

  /** The "Initializing" that is open ends. */
  ghost predicate InitializingEnds(before: seq<Event>, e: Event) {
    e.Progressed? && e.progress.kind == End && Open(before, e.progress.token)
  }

  predicate Never(before: seq<Event>, e: Event) { false }

  function FoldersOf(h: seq<Event>): seq<string> {
    if h == [] then []
    else if h[|h| - 1].Folders? then h[|h| - 1].folders
    else FoldersOf(h[..|h| - 1])
  }

  function PatternsOf(h: seq<Event>): seq<string> {
    if h == [] then []
    else if h[|h| - 1].Configured? then h[|h| - 1].patterns.GetOr(PatternsOf(h[..|h| - 1]))
    else PatternsOf(h[..|h| - 1])
  }

  /** The walk at the end of an "Initializing" finds the script. */
  ghost predicate IsFoundBy(p: Path, before: seq<Event>, e: Event) {
    InitializingEnds(before, e) &&
    exists folder | folder in FoldersOf(before) :: IsScriptBelow(folder, DirAt(e.disk, folder), PatternsOf(before), p)
  }

  ghost function Found(p: Path): (seq<Event>, Event) -> bool {
    (before: seq<Event>, e: Event) => IsFoundBy(p, before, e)
  }

  /** A path is cleared by diagnostics outside the token, or by its deletion. */
  ghost predicate IsClearedBy(p: Path, before: seq<Event>, e: Event) {
    || (e.Diagnosed? && e.path.Some? && PathOf(e.path.value) == p && forall t :: !Open(before, t))
    || (e.Watched? && exists c | c in e.changes :: c.kind == 3 && c.path.Some? && PathOf(c.path.value) == p)
  }

  ghost function Clears(p: Path): (seq<Event>, Event) -> bool {
    (before: seq<Event>, e: Event) => IsClearedBy(p, before, e)
  }

  ghost function ClearsOrWalksAgain(p: Path): (seq<Event>, Event) -> bool {
    (before: seq<Event>, e: Event) => IsClearedBy(p, before, e) || InitializingEnds(before, e)
  }

  function Touches(p: Path): (seq<Event>, Event) -> bool {
    (before: seq<Event>, e: Event) => e.Touched? && e.path.Some? && PathOf(e.path.value) == p && UnderAFolder(FoldersOf(before), e.path.value)
  }

  lemma {:induction false} SettingsAreRemembered(h: seq<Event>)
    ensures After(h).folders == FoldersOf(h) && After(h).exclude == PatternsOf(h)
  {
    if h != [] {
      SettingsAreRemembered(h[..|h| - 1]);
    }
  }

  lemma {:induction false} TokenIsLastBegun(h: seq<Event>, t: Token)
    ensures After(h).initializing == Some(t) <==> Open(h, t)
  {
    if h != [] {
      var before, e := h[..|h| - 1], h[|h| - 1];
      TokenIsLastBegun(before, t);
      SplitLast(h);
      SinceStep(before, e, InitializingBegins(t), InitializingReplaced(t));
      TokenStep(After(before), e);
    }
  }

  lemma TokenStep(f: Fields, e: Event)
    ensures OnEvent(f, e).0.initializing ==
      if e.Progressed? && Begins(e.progress) then Some(e.progress.token)
      else if EndsIn(f, e) then None
      else f.initializing
  {}

  lemma NoTokenIsOpen(h: seq<Event>)
    ensures After(h).initializing.None? <==> forall t :: !Open(h, t)
  {
    forall t {
      TokenIsLastBegun(h, t);
    }
    if After(h).initializing.Some? {
      assert Open(h, After(h).initializing.value);
    }
  }

  lemma {:induction false} InitializedIsRemembered(h: seq<Event>)
    ensures After(h).initialized <==> Since(h, InitializingEnds, Never)
  {
    if h != [] {
      var before, e := h[..|h| - 1], h[|h| - 1];
      InitializedIsRemembered(before);
      SplitLast(h);
      SinceStep(before, e, InitializingEnds, Never);
      EndStep(before, e);
      InitializedStep(After(before), e);
    }
  }

  lemma EndStep(before: seq<Event>, e: Event)
    ensures InitializingEnds(before, e) <==> EndsIn(After(before), e)
  {
    if e.Progressed? {
      TokenIsLastBegun(before, e.progress.token);
    }
  }

  predicate EndsIn(f: Fields, e: Event) {
    e.Progressed? && e.progress.kind == End && f.initializing == Some(e.progress.token)
  }

  lemma InitializedStep(f: Fields, e: Event)
    ensures OnEvent(f, e).0.initialized <==> f.initialized || EndsIn(f, e)
  {}

  predicate ClearedIn(f: Fields, e: Event, p: Path) {
    || (e.Diagnosed? && e.path.Some? && PathOf(e.path.value) == p && f.initializing.None?)
    || (e.Watched? && p in Deleted(e.changes))
  }

  lemma PathsStep(f: Fields, e: Event, p: Path)
    ensures p in OnEvent(f, e).0.pending <==>
      || (e.Touched? && e.path.Some? && PathOf(e.path.value) == p && UnderAFolder(f.folders, e.path.value))
      || (p in f.pending && !ClearedIn(f, e, p))
    ensures p in OnEvent(f, e).0.expected <==>
      if EndsIn(f, e) then p in WorkspaceScripts(f.folders, f.exclude, e.disk) else p in f.expected && !ClearedIn(f, e, p)
  {}

  lemma WalkStep(before: seq<Event>, e: Event, p: Path)
    ensures InitializingEnds(before, e) <==> EndsIn(After(before), e)
    ensures IsFoundBy(p, before, e) <==>
      InitializingEnds(before, e) && p in WorkspaceScripts(After(before).folders, After(before).exclude, e.disk)
    ensures IsClearedBy(p, before, e) <==> ClearedIn(After(before), e, p)
  {
    NoTokenIsOpen(before);
    EndStep(before, e);
    if e.Progressed? {
      SettingsAreRemembered(before);
      WorkspaceScriptsAreUnexcluded(FoldersOf(before), PatternsOf(before), e.disk, p);
    }
  }

  /** The scripts still expected are those the last walk found that have not been cleared. */
  lemma {:induction false} ExpectedIsFoundNotCleared(h: seq<Event>, p: Path)
    ensures p in After(h).expected <==> Since(h, Found(p), ClearsOrWalksAgain(p))
  {
    if h != [] {
      var before, e := h[..|h| - 1], h[|h| - 1];
      ExpectedIsFoundNotCleared(before, p);
      PathsStep(After(before), e, p);
      SplitLast(h);
      SinceStep(before, e, Found(p), ClearsOrWalksAgain(p));
      WalkStep(before, e, p);
    }
  }

  /** The documents still pending are those touched below a folder and not cleared since. */
  lemma {:induction false} PendingIsTouchedNotCleared(h: seq<Event>, p: Path)
    ensures p in After(h).pending <==> Since(h, Touches(p), Clears(p))
  {
    if h != [] {
      var before, e := h[..|h| - 1], h[|h| - 1];
      PendingIsTouchedNotCleared(before, p);
      PathsStep(After(before), e, p);
      SplitLast(h);
      SinceStep(before, e, Touches(p), Clears(p));
      WalkStep(before, e, p);
      SettingsAreRemembered(before);
    }
  }

  lemma MovedIsUpToDate(f: Fields)
    ensures f.Moved().0.state.readiness == f.Readiness() == f.Moved().0.Readiness()
  {}

  lemma StaysUpToDate(f: Fields, e: Event)
    requires f.state.readiness == f.Readiness()
    ensures OnEvent(f, e).0.state.readiness == OnEvent(f, e).0.Readiness()
  {
    match e
    case Progressed(p, disk) =>
      MovedIsUpToDate(f.(initializing := Some(p.token)));
      MovedIsUpToDate(f.(initializing := None, initialized := true, expected := WorkspaceScripts(f.folders, f.exclude, disk)));
    case Diagnosed(path) =>
      if path.Some? {
        MovedIsUpToDate(f.Dropping({PathOf(path.value)}));
      }
    case Touched(path) =>
      if path.Some? {
        MovedIsUpToDate(f.(pending := f.pending + {PathOf(path.value)}));
      }
    case Watched(changes) => MovedIsUpToDate(f.Dropping(Deleted(changes)));
    case Configured(_) =>
    case Folders(_) =>
  }

  /** The stored readiness is at every moment the one the bookkeeping gives. */
  lemma {:induction false} ReadinessIsOfTheBookkeeping(h: seq<Event>)
    ensures After(h).state.readiness == After(h).Readiness()
  {
    if h != [] {
      ReadinessIsOfTheBookkeeping(h[..|h| - 1]);
      StaysUpToDate(After(h[..|h| - 1]), h[|h| - 1]);
    }
  }

  /** Ready exactly when no "Initializing" is open, one has ended, every script of the last walk
      has been cleared, and so has every touched document since it was last touched. */
  lemma ReadyExactly(h: seq<Event>)
    ensures After(h).state.readiness == Ready <==>
      && (forall t :: !Open(h, t))
      && Since(h, InitializingEnds, Never)
      && (forall p :: !Since(h, Found(p), ClearsOrWalksAgain(p)))
      && (forall p :: !Since(h, Touches(p), Clears(p)))
  {
    ReadinessIsOfTheBookkeeping(h);
    NoTokenIsOpen(h);
    InitializedIsRemembered(h);
    forall p ensures p in After(h).expected <==> Since(h, Found(p), ClearsOrWalksAgain(p)) {
      ExpectedIsFoundNotCleared(h, p);
    }
    forall p ensures p in After(h).pending <==> Since(h, Touches(p), Clears(p)) {
      PendingIsTouchedNotCleared(h, p);
    }
    assert After(h).expected == {} <==> forall p :: p !in After(h).expected;
    assert After(h).pending == {} <==> forall p :: p !in After(h).pending;
  }

  /** Not ready is initializing while a token is open, or none has ended, or something found is uncleared;
      and indexing while only something touched is. Of health nothing is claimed. */
  lemma ReadinessExactly(h: seq<Event>)
    ensures After(h).state.readiness ==
            if (exists t :: Open(h, t)) || !Since(h, InitializingEnds, Never)
               || (exists p :: Since(h, Found(p), ClearsOrWalksAgain(p)))
            then Initializing
            else if exists p :: Since(h, Touches(p), Clears(p)) then Indexing else Ready
    ensures After(h).state.health == Health.Unknown && After(h).state.message == None
  {
    ReadyExactly(h);
    ReadinessIsOfTheBookkeeping(h);
    NoTokenIsOpen(h);
    InitializedIsRemembered(h);
    forall p ensures p in After(h).expected <==> Since(h, Found(p), ClearsOrWalksAgain(p)) {
      ExpectedIsFoundNotCleared(h, p);
    }
    assert After(h).expected == {} <==> forall p :: p !in After(h).expected;
    HealthIsNotClaimed(h);
  }

  lemma HealthStep(f: Fields, e: Event)
    ensures OnEvent(f, e).0.state.health == f.state.health && OnEvent(f, e).0.state.message == f.state.message
  {}

  lemma {:induction false} HealthIsNotClaimed(h: seq<Event>)
    ensures After(h).state.health == Health.Unknown && After(h).state.message == None
  {
    if h != [] {
      HealthIsNotClaimed(h[..|h| - 1]);
      HealthStep(After(h[..|h| - 1]), h[|h| - 1]);
    }
  }

  // --- What lsp-det is told -----------------------------------------------------------------

  /** What the mapping answers, event by event. */
  function Answers(h: seq<Event>): (answers: seq<Option<ServerState>>)
    ensures |answers| == |h|
  {
    if h == [] then [] else Answers(h[..|h| - 1]) + [OnEvent(After(h[..|h| - 1]), h[|h| - 1]).1]
  }

  lemma AnswerStep(f: Fields, e: Event)
    ensures OnEvent(f, e).0.state == OnEvent(f, e).1.GetOr(f.state)
  {}

  lemma AnswersOneMore(h: seq<Event>)
    requires h != []
    ensures Answers(h)[|h| - 1] == OnEvent(After(h[..|h| - 1]), h[|h| - 1]).1
  {}

  lemma AfterOneMore(h: seq<Event>)
    requires h != []
    ensures After(h).state == OnEvent(After(h[..|h| - 1]), h[|h| - 1]).0.state
  {}

  /** An answer is the state after the event, and where there is none the state is as before. */
  lemma {:induction false} AnswerIsState(h: seq<Event>, i: nat)
    requires i < |h|
    ensures After(h[..i + 1]).state == Answers(h)[i].GetOr(After(h[..i]).state)
  {
    var before := h[..|h| - 1];
    if i < |before| {
      AnswerIsState(before, i);
      assert h[..i + 1] == before[..i + 1] && h[..i] == before[..i] && Answers(h)[i] == Answers(before)[i];
    } else {
      assert h[..i + 1] == h;
      AnswersOneMore(h);
      AfterOneMore(h);
      AnswerStep(After(before), h[|h| - 1]);
    }
  }

  /** After every history, what the tracker holds is the mapping's state. */
  lemma {:induction false} HeardIsState(h: seq<Event>, t: Tracked)
    requires t.mapped && t.state == INITIALIZING
    ensures Hears(t, Answers(h)).state == After(h).state && Hears(t, Answers(h)).mapped
  {
    if h != [] {
      var before, e := h[..|h| - 1], h[|h| - 1];
      HeardIsState(before, t);
      HearsOneMore(t, Answers(before), OnEvent(After(before), e).1);
      AnswerStep(After(before), e);
    }
  }

  /** What the tracker goes by after every history, told by the history alone. */
  lemma HeardExactly(h: seq<Event>, t: Tracked)
    requires t.mapped && t.state == INITIALIZING
    ensures Hears(t, Answers(h)).state == ServerState(Health.Unknown,
              if (exists t :: Open(h, t)) || !Since(h, InitializingEnds, Never)
                 || (exists p :: Since(h, Found(p), ClearsOrWalksAgain(p)))
              then Initializing
              else if exists p :: Since(h, Touches(p), Clears(p)) then Indexing else Ready, None)
  {
    HeardIsState(h, t);
    ReadinessExactly(h);
  }
}
