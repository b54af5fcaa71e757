/** What the coverage that the typescript-language-server mapping declares rests on, over whole runs
    (src/adapter/typescript_language_server.rs): the stored layout against the folder as it is. */
module TypescriptPromises {
  import opened Wrappers
  import opened ServerStates
  import opened FileTrees
  import opened Layouts
  import Jsoncs
  import opened TypescriptServers

  /** A step of the conversation: an event, and the folder as it is when the event is seen. */
  datatype Step = Step(event: Event, folder: Node)

  ghost predicate Names(changes: seq<Change>, path: Path) { exists c | c in changes :: c.path == path }

  ghost predicate NamesCreated(changes: seq<Change>, path: Path) { exists c | c in changes :: c.path == path && c.created }

  function ChangesOf(e: Event): seq<Change> { if e.Watched? then e.changes else [] }

  ghost predicate IsTold(run: seq<Step>, path: Path) { exists s | s in run :: Names(ChangesOf(s.event), path) }

  ghost predicate IsToldCreated(run: seq<Step>, path: Path) { exists s | s in run :: NamesCreated(ChangesOf(s.event), path) }

  ghost predicate ConfigDiffers(before: Node, now: Node, route: Route) {
    exists text :: IsConfigBelow(before, [], route, text) != IsConfigBelow(now, [], route, text)
  }

  /** Each configuration file that came, went or was edited is told in that step or a later one, and
      each source that came is told as created. */
  ghost predicate ToldByTheEnd(root: Path, before: Node, run: seq<Step>)
    decreases |run|
  {
    run != [] ==>
      && WellNamed(run[0].folder) && !run[0].event.Roots?
      && (run[0].event.Watched? ==> FolderOn(run[0].event.disk, root) == run[0].folder)
      && (forall route | ConfigDiffers(before, run[0].folder, route) :: IsTold(run, root + route))
      && (forall route | IsNewSource(before, run[0].folder, route) :: IsToldCreated(run, root + route))
      && ToldByTheEnd(root, run[0].folder, run[1..])
  }

  function AfterRun(f: Fields, run: seq<Step>, parse: Parser): Fields
    decreases |run|
  {
    if run == [] then f else AfterRun(OnEvent(f, run[0].event, parse).0, run[1..], parse)
  }

  function LastFolder(before: Node, run: seq<Step>): Node {
    if run == [] then before else run[|run| - 1].folder
  }

  /** The changes told while an untested version stood. */
  function Unheard(f: Fields, run: seq<Step>, parse: Parser): seq<Change>
    decreases |run|
  {
    if run == [] then []
    else
      UnheardOf(f, run[0].event) + Unheard(OnEvent(f, run[0].event, parse).0, run[1..], parse)
  }

  /** A change that still says something of the folder: not of a source that is gone again. */
  ghost predicate StillThere(root: Path, folder: Node, c: Change) {
    !c.created || IsConfigFile(c.path) || exists route :: c.path == root + route && IsSourceBelow(folder, [], route)
  }

  ghost function Remaining(root: Path, folder: Node, changes: seq<Change>): (remaining: seq<Change>)
    ensures forall c :: c in remaining <==> c in changes && StillThere(root, folder, c)
  {
    if changes == [] then []
    else
      var n := |changes| - 1;
      Remaining(root, folder, changes[..n]) + if StillThere(root, folder, changes[n]) then [changes[n]] else []
  }

  /** Telling the changes, with the folder as it is, would not withdraw the promise. */
  predicate Harmless(layouts: seq<FolderLayout>, root: Path, folder: Node, changes: seq<Change>, parse: Parser) {
    var reread := Reread(layouts, changes, map[root := folder], parse);
    WorkspaceComplete(reread) && !CreatesOutside(reread, changes)
  }

  // --- The stored layout --------------------------------------------------------------------

  /** The promise stands, and the stored layout is that of `base`, and complete. */
  predicate Stores(f: Fields, root: Path, base: Node, parse: Parser) {
    && !f.layoutChanged && f.layouts == [AssessFolder(root, base, parse)] && f.layouts[0].complete
  }

  lemma ConfigIsChange(layout: FolderLayout, route: Route)
    requires IsConfigFile(route) && Unskipped(route[..|route| - 1])
    ensures IsConfigChange(layout, layout.root + route)
  {
    var path, last := layout.root + route, route[|route| - 1];
    assert path[|layout.root|..] == route && layout.root <= path && path[|path| - 1] == last;
    assert route == route[..|route| - 1] + [last];
    assert last !in SKIPPED_DIRS;
  }

  lemma ToldConfigChanges(layout: FolderLayout, before: Node, now: Node, route: Route, changes: seq<Change>)
    requires ConfigDiffers(before, now, route) && Names(changes, layout.root + route)
    ensures ChangesConfig(layout, changes) && IsConfigFile(layout.root + route)
  {
    var text :| IsConfigBelow(before, [], route, text) != IsConfigBelow(now, [], route, text);
    assert route[0..] == route;
    ConfigIsChange(layout, route);
  }

  lemma RootIsKept(root: Path, folder: Node, parse: Parser)
    ensures AssessFolder(root, folder, parse).root == root
  {}

  lemma RereadOfOne(layout: FolderLayout, changes: seq<Change>, disk: Disk, parse: Parser)
    ensures Reread([layout], changes, disk, parse) ==
      [if ChangesConfig(layout, changes) then AssessFolder(layout.root, FolderOn(disk, layout.root), parse) else layout]
  {}

  lemma CompleteHasSources(root: Path, folder: Node, route: Route, parse: Parser)
    requires WellNamed(folder) && AssessFolder(root, folder, parse).complete && IsSourceBelow(folder, [], route)
    ensures !NewSourceOutside(AssessFolder(root, folder, parse), root + route)
  {
    CompleteExactly(root, folder, parse);
    var name, text :| IsProject(root, folder, Config([name], text), parse);
    AssessedProject(root, folder, name, text, parse);
    RootIsKept(root, folder, parse);
    OutsideIsNotHad(AssessFolder(root, folder, parse), folder, route);
  }

  /** No created change that is still there is outside a complete layout of the folder. */
  lemma NoneOutside(root: Path, folder: Node, changes: seq<Change>, parse: Parser)
    requires WellNamed(folder) && AssessFolder(root, folder, parse).complete
    ensures !CreatesOutside([AssessFolder(root, folder, parse)], Remaining(root, folder, changes))
  {
    var layout := AssessFolder(root, folder, parse);
    forall c | c in Remaining(root, folder, changes) && c.created ensures !NewSourceOutside(layout, c.path) {
      if !IsConfigFile(c.path) {
        var route :| c.path == root + route && IsSourceBelow(folder, [], route);
        CompleteHasSources(root, folder, route, parse);
      }
    }
  }

  // --- At the end of a run ------------------------------------------------------------------

  /** What is not told, or harmless to the layout, when `lost` are the changes not heard. */
  ghost predicate ToldOrLost(layout: FolderLayout, base: Node, now: Node, run: seq<Step>, lost: seq<Change>) {
    && (forall route | ConfigDiffers(base, now, route) ::
          IsTold(run, layout.root + route) || Names(lost, layout.root + route))
    && (forall route | IsNewSource(base, now, route) ::
          || !NewSourceOutside(layout, layout.root + route)
          || IsToldCreated(run, layout.root + route) || NamesCreated(lost, layout.root + route))
  }

  lemma SameUnlessLost(layout: FolderLayout, base: Node, now: Node, lost: seq<Change>)
    requires ToldOrLost(layout, base, now, [], lost) && !ChangesConfig(layout, Remaining(layout.root, now, lost))
    ensures SameConfigs(base, now)
  {
    forall route, text ensures IsConfigBelow(base, [], route, text) <==> IsConfigBelow(now, [], route, text) {
      if IsConfigBelow(base, [], route, text) != IsConfigBelow(now, [], route, text) {
        assert ConfigDiffers(base, now, route);
        var c :| c in lost && c.path == layout.root + route;
        assert Names(lost, layout.root + route);
        ToldConfigChanges(layout, base, now, route, lost);
        ConfigIsChange(layout, route);
      }
    }
  }

  lemma OnlySourcesLost(layout: FolderLayout, base: Node, now: Node, lost: seq<Change>, parse: Parser)
    requires layout == AssessFolder(layout.root, base, parse) && layout.complete
    requires WellNamed(base) && WellNamed(now) && Walk(now, []).Some? && SameConfigs(base, now)
    requires ToldOrLost(layout, base, now, [], lost)
    ensures AssessFolder(layout.root, now, parse).complete <==> !CreatesOutside([layout], Remaining(layout.root, now, lost))
    ensures AssessFolder(layout.root, now, parse).complete ==> AssessFolder(layout.root, now, parse) == layout
  {
    var root := layout.root;
    ReassessedAfterSources(root, base, now, parse);
    if AssessFolder(root, now, parse).complete {
      NoneOutside(root, now, lost, parse);
    } else {
      var route :| IsNewSource(base, now, route) && NewSourceOutside(layout, root + route);
      var c :| c in lost && c.path == root + route && c.created;
      assert c in Remaining(root, now, lost);
      assert layout in [layout];
    }
  }

  lemma PromiseAtTheEnd(layout: FolderLayout, base: Node, now: Node, lost: seq<Change>, parse: Parser)
    requires layout == AssessFolder(layout.root, base, parse) && layout.complete
    requires WellNamed(base) && WellNamed(now) && Walk(now, []).Some?
    requires ToldOrLost(layout, base, now, [], lost)
    ensures AssessFolder(layout.root, now, parse).complete
      <==> Harmless([layout], layout.root, now, Remaining(layout.root, now, lost), parse)
    ensures lost == [] ==> AssessFolder(layout.root, now, parse) == layout
  {
    var root, remaining := layout.root, Remaining(layout.root, now, lost);
    RereadOfOne(layout, remaining, map[root := now], parse);
    if ChangesConfig(layout, remaining) {
      if AssessFolder(root, now, parse).complete {
        NoneOutside(root, now, lost, parse);
      }
    } else {
      SameUnlessLost(layout, base, now, lost);
      OnlySourcesLost(layout, base, now, lost, parse);
    }
  }

  // --- Step by step -------------------------------------------------------------------------

  lemma StaysWithdrawn(f: Fields, e: Event, parse: Parser)
    requires f.layoutChanged && f.state.readiness == Readiness.Unknown
    ensures var f' := OnEvent(f, e, parse).0; f'.layoutChanged && f'.state.readiness == Readiness.Unknown
  {}

  /** Once withdrawn, readiness is unknown for good. */
  lemma {:induction false} WithdrawnForever(f: Fields, run: seq<Step>, parse: Parser)
    requires f.layoutChanged && f.state.readiness == Readiness.Unknown
    ensures var f' := AfterRun(f, run, parse); f'.layoutChanged && f'.state.readiness == Readiness.Unknown
    decreases |run|
  {
    if run != [] {
      StaysWithdrawn(f, run[0].event, parse);
      WithdrawnForever(OnEvent(f, run[0].event, parse).0, run[1..], parse);
    }
  }

  /** What one event does to the stored layout: withdrawn, read again, or kept. */
  lemma StoredStep(f: Fields, e: Event, parse: Parser)
    requires !f.layoutChanged && !e.Roots? && WorkspaceComplete(f.layouts)
    ensures var f' := OnEvent(f, e, parse).0;
      if f'.layoutChanged then f'.state.readiness == Readiness.Unknown && f.versionIsTested
      else if f.versionIsTested && e.Watched? then
        && f'.layouts == Reread(f.layouts, e.changes, e.disk, parse)
        && WorkspaceComplete(f'.layouts) && !CreatesOutside(f'.layouts, e.changes)
      else f'.layouts == f.layouts
    ensures f.versionIsTested && e == FoldersChanged(true) ==> OnEvent(f, e, parse).0.layoutChanged
  {}

  /** A difference of two folders is one to or one from a folder between them. */
  lemma Between(layout: FolderLayout, base: Node, prev: Node, now: Node, route: Route)
    ensures ConfigDiffers(base, now, route) ==> ConfigDiffers(base, prev, route) || ConfigDiffers(prev, now, route)
    ensures IsNewSource(base, now, route) ==> IsNewSource(base, prev, route) || IsNewSource(prev, now, route)
  {
    if ConfigDiffers(base, now, route) {
      var text :| IsConfigBelow(base, [], route, text) != IsConfigBelow(now, [], route, text);
      assert IsConfigBelow(base, [], route, text) != IsConfigBelow(prev, [], route, text)
        || IsConfigBelow(prev, [], route, text) != IsConfigBelow(now, [], route, text);
    }
  }

  /** Told in a run is told by its first event or after it. */
  lemma ToldFirstOrLater(run: seq<Step>, path: Path)
    requires run != []
    ensures IsTold(run, path) ==> Names(ChangesOf(run[0].event), path) || IsTold(run[1..], path)
    ensures IsToldCreated(run, path) ==> NamesCreated(ChangesOf(run[0].event), path) || IsToldCreated(run[1..], path)
  {
    assert run == [run[0]] + run[1..];
  }

  lemma NamesMore(lost: seq<Change>, more: seq<Change>, path: Path)
    ensures Names(lost, path) || Names(more, path) ==> Names(lost + more, path)
    ensures NamesCreated(lost, path) || NamesCreated(more, path) ==> NamesCreated(lost + more, path)
  {
    assert forall c | c in lost || c in more :: c in lost + more;
  }

  /** One step that keeps the stored layout: what it tells is lost, or heard and harmless. */
  lemma Carried(layout: FolderLayout, base: Node, prev: Node, run: seq<Step>, lost: seq<Change>, more: seq<Change>)
    requires run != [] && ToldByTheEnd(layout.root, prev, run) && ToldOrLost(layout, base, prev, run, lost)
    requires var changes := ChangesOf(run[0].event);
      more == changes || (more == [] && !ChangesConfig(layout, changes) && !CreatesOutside([layout], changes))
    ensures ToldOrLost(layout, base, run[0].folder, run[1..], lost + more)
  {
    var changes, now := ChangesOf(run[0].event), run[0].folder;
    forall route | ConfigDiffers(base, now, route)
      ensures IsTold(run[1..], layout.root + route) || Names(lost + more, layout.root + route)
    {
      Between(layout, base, prev, now, route);
      ToldFirstOrLater(run, layout.root + route);
      NamesMore(lost, more, layout.root + route);
      if Names(changes, layout.root + route) && more != changes {
        ToldConfigChanges(layout, base, now, route, changes);
      }
    }
    forall route | IsNewSource(base, now, route)
      ensures !NewSourceOutside(layout, layout.root + route)
        || IsToldCreated(run[1..], layout.root + route) || NamesCreated(lost + more, layout.root + route)
    {
      Between(layout, base, prev, now, route);
      ToldFirstOrLater(run, layout.root + route);
      NamesMore(lost, more, layout.root + route);
      assert layout in [layout];
    }
  }

  lemma NothingDiffers(layout: FolderLayout, now: Node, run: seq<Step>, lost: seq<Change>)
    ensures ToldOrLost(layout, now, now, run, lost)
  {}

  /** The event is heard and reads the configuration again. */
  predicate Rereads(f: Fields, e: Event)
    requires f.layouts != []
  {
    f.versionIsTested && e.Watched? && ChangesConfig(f.layouts[0], e.changes)
  }

  function UnheardOf(f: Fields, e: Event): seq<Change> { if f.versionIsTested then [] else ChangesOf(e) }

  lemma StepStores(f: Fields, root: Path, base: Node, prev: Node, run: seq<Step>, lost: seq<Change>, parse: Parser)
    requires run != [] && Stores(f, root, base, parse)
    requires ToldByTheEnd(root, prev, run) && ToldOrLost(f.layouts[0], base, prev, run, lost)
    requires !OnEvent(f, run[0].event, parse).0.layoutChanged
    ensures var f', base' := OnEvent(f, run[0].event, parse).0, if Rereads(f, run[0].event) then run[0].folder else base;
      && Stores(f', root, base', parse)
      && ToldOrLost(f'.layouts[0], base', run[0].folder, run[1..], lost + UnheardOf(f, run[0].event))
  {
    var layout, e, now := f.layouts[0], run[0].event, run[0].folder;
    var f', more := OnEvent(f, e, parse).0, UnheardOf(f, e);
    RootIsKept(root, base, parse);
    StoredStep(f, e, parse);
    assert f.layouts == [layout];
    if f.versionIsTested && e.Watched? {
      RereadOfOne(layout, e.changes, e.disk, parse);
    }
    if Rereads(f, e) {
      NothingDiffers(f'.layouts[0], now, run[1..], lost + more);
    } else {
      Carried(layout, base, prev, run, lost, more);
    }
  }

  lemma UnheardFirst(f: Fields, run: seq<Step>, lost: seq<Change>, parse: Parser)
    requires run != []
    ensures lost + Unheard(f, run, parse)
      == lost + UnheardOf(f, run[0].event) + Unheard(OnEvent(f, run[0].event, parse).0, run[1..], parse)
  {
    var rest := Unheard(OnEvent(f, run[0].event, parse).0, run[1..], parse);
    assert lost + (UnheardOf(f, run[0].event) + rest) == lost + UnheardOf(f, run[0].event) + rest;
  }

  lemma {:induction false} PromiseFrom(f: Fields, root: Path, base: Node, prev: Node, run: seq<Step>, lost: seq<Change>, parse: Parser)
    requires Stores(f, root, base, parse) && WellNamed(base) && WellNamed(prev)
    requires ToldByTheEnd(root, prev, run) && ToldOrLost(f.layouts[0], base, prev, run, lost)
    requires Walk(LastFolder(prev, run), []).Some?
    ensures Promised(AfterRun(f, run, parse), root, LastFolder(prev, run), lost + Unheard(f, run, parse), parse)
    decreases |run|, 1
  {
    if run == [] {
      RootIsKept(root, base, parse);
      PromiseAtTheEnd(f.layouts[0], base, prev, lost, parse);
      assert lost + [] == lost && f.layouts == [f.layouts[0]];
    } else {
      PromiseFromStep(f, root, base, prev, run, lost, parse);
    }
  }

  lemma {:induction false} PromiseFromStep(f: Fields, root: Path, base: Node, prev: Node, run: seq<Step>, lost: seq<Change>, parse: Parser)
    requires run != [] && Stores(f, root, base, parse) && WellNamed(base)
    requires ToldByTheEnd(root, prev, run) && ToldOrLost(f.layouts[0], base, prev, run, lost)
    requires Walk(LastFolder(prev, run), []).Some?
    ensures Promised(AfterRun(f, run, parse), root, LastFolder(prev, run), lost + Unheard(f, run, parse), parse)
    decreases |run|, 0
  {
    var e, now, rest := run[0].event, run[0].folder, run[1..];
    var f' := OnEvent(f, e, parse).0;
    assert LastFolder(prev, run) == LastFolder(now, rest);
    if f'.layoutChanged {
      StoredStep(f, e, parse);
      WithdrawnForever(f', rest, parse);
    } else {
      StepStores(f, root, base, prev, run, lost, parse);
      UnheardFirst(f, run, lost, parse);
      PromiseFrom(f', root, if Rereads(f, e) then now else base, now, rest, lost + UnheardOf(f, e), parse);
    }
  }

  /** Withdrawn with readiness unknown; or the folder is complete exactly when the changes not heard
      are harmless, and the stored layout is the folder's if none was unheard. */
  ghost predicate Promised(f: Fields, root: Path, now: Node, unheard: seq<Change>, parse: Parser) {
    if f.layoutChanged then f.state.readiness == Readiness.Unknown
    else
      && (AssessFolder(root, now, parse).complete <==> Harmless(f.layouts, root, now, Remaining(root, now, unheard), parse))
      && (unheard == [] ==> f.layouts == [AssessFolder(root, now, parse)] && f.layouts[0].complete)
  }

  /** Coverage is declared, and rests on the folder as it is. */
  predicate RestsOn(f: Fields, root: Path, folder: Node, parse: Parser) {
    f.DeclaresCoverage() && Stores(f, root, folder, parse)
  }

  /** From a declared complete layout, over every run at whose end all changes of the folder have been
      told: if the promise is not withdrawn, a full re-read of the folder as it is now calls it
      complete exactly when telling again what was told while an untested version stood, as far as
      it is still there, would not withdraw it. */
  lemma PromiseExactly(f: Fields, root: Path, before: Node, run: seq<Step>, parse: Parser)
    requires RestsOn(f, root, before, parse) && WellNamed(before) && ToldByTheEnd(root, before, run)
    requires Walk(LastFolder(before, run), []).Some?
    ensures Promised(AfterRun(f, run, parse), root, LastFolder(before, run), Unheard(f, run, parse), parse)
  {
    NothingDiffers(f.layouts[0], before, run, []);
    PromiseFrom(f, root, before, before, run, [], parse);
    assert [] + Unheard(f, run, parse) == Unheard(f, run, parse);
  }

  ghost predicate KeepsBasis(run: seq<Step>) {
    forall s | s in run && s.event.Announced? :: s.event.version in TESTED_VERSIONS
  }

  lemma BasisIsKept(f: Fields, e: Event, parse: Parser)
    requires f.versionIsTested && (e.Announced? ==> e.version in TESTED_VERSIONS)
    ensures OnEvent(f, e, parse).0.versionIsTested
  {}

  lemma {:induction false} AllIsHeard(f: Fields, run: seq<Step>, parse: Parser)
    requires f.versionIsTested && KeepsBasis(run)
    ensures Unheard(f, run, parse) == [] && AfterRun(f, run, parse).versionIsTested
    decreases |run|
  {
    if run != [] {
      BasisIsKept(f, run[0].event, parse);
      AllIsHeard(OnEvent(f, run[0].event, parse).0, run[1..], parse);
    }
  }

  /** With the tested version kept: either the promise is withdrawn and readiness unknown, or a full
      re-read of the folder as it is now gives the stored layout, and calls it complete. */
  lemma PromiseHolds(f: Fields, root: Path, before: Node, run: seq<Step>, parse: Parser)
    requires RestsOn(f, root, before, parse) && WellNamed(before) && ToldByTheEnd(root, before, run)
    requires Walk(LastFolder(before, run), []).Some? && KeepsBasis(run)
    ensures var f' := AfterRun(f, run, parse);
      if f'.layoutChanged then f'.state.readiness == Readiness.Unknown
      else RestsOn(f', root, LastFolder(before, run), parse) && AssessFolder(root, LastFolder(before, run), parse).complete
  {
    PromiseExactly(f, root, before, run, parse);
    AllIsHeard(f, run, parse);
  }

  /** A folder told as added withdraws the promise, unless it is told while an untested version stands. */
  lemma {:induction false} AddedFolderIsHeard(f: Fields, run: seq<Step>, i: nat, parse: Parser)
    requires !f.layoutChanged && WorkspaceComplete(f.layouts) && (forall s | s in run :: !s.event.Roots?)
    requires i < |run| && run[i].event == FoldersChanged(true) && !AfterRun(f, run, parse).layoutChanged
    ensures !AfterRun(f, run[..i], parse).versionIsTested
    decreases |run|
  {
    var f' := OnEvent(f, run[0].event, parse).0;
    StoredStep(f, run[0].event, parse);
    if f'.layoutChanged {
      WithdrawnForever(f', run[1..], parse);
    } else if i > 0 {
      assert run[..i][1..] == run[1..][..i - 1];
      AddedFolderIsHeard(f', run[1..], i - 1, parse);
    }
  }

  /** A single new source, told as created, withdraws the promise exactly when a full re-read of
      the folder no longer calls it complete. */
  lemma NewSourceBreaksExactly(f: Fields, root: Path, before: Node, route: Route, disk: Disk, parse: Parser)
    requires RestsOn(f, root, before, parse) && WellNamed(before)
    requires var now := FolderOn(disk, root);
      && WellNamed(now) && Walk(now, []).Some? && SameConfigs(before, now)
      && forall other :: IsNewSource(before, now, other) <==> other == route
    ensures OnWatched(f, [Change(root + route, true)], disk, parse).0.layoutChanged
      <==> !AssessFolder(root, FolderOn(disk, root), parse).complete
  {
    var layout, change := f.layouts[0], Change(root + route, true);
    var now := FolderOn(disk, root);
    RootIsKept(root, before, parse);
    ReassessedAfterSources(root, before, now, parse);
    assert IsNewSource(before, now, route);
    assert (root + route)[|root + route| - 1] == route[|route| - 1];
    assert !IsConfigChange(layout, change.path);
    assert Reread(f.layouts, [change], disk, parse) == f.layouts;
    assert CreatesOutside(f.layouts, [change]) <==> NewSourceOutside(layout, root + route) by {
      assert change in [change] && layout in f.layouts;
    }
  }

  /** While an untested version stands, changes of the layout are not looked at: whatever is told,
      nothing is withdrawn, and a tested version declares coverage again on the old layout. */
  lemma UntestedVersionHidesChanges(f: Fields, untested: string, tested: string, changes: seq<Change>, disk: Disk, parse: Parser)
    requires f.DeclaresCoverage() && !f.layoutChanged
    requires untested !in TESTED_VERSIONS && tested in TESTED_VERSIONS
    ensures var told := OnEvent(OnEvent(f, Announced(untested), parse).0, Watched(changes, disk), parse).0;
      OnEvent(told, Announced(tested), parse).0 == f
  {}

  // --- A run after which the promise is empty -------------------------------------------------

  /** A folder that holds a `tsconfig.json` and `b.js`. */
  function FolderWithScript(text: string): Node {
    Dir([Entry("tsconfig.json", File(Some(text))), Entry("b.js", File(None))])
  }

  lemma FolderWithScriptIsWalked(text: string)
    ensures WellNamed(FolderWithScript(text))
    ensures Walk(FolderWithScript(text), []) == Some(Listing([Config(["tsconfig.json"], Some(text))], [["b.js"]]))
  {
    var entries := FolderWithScript(text).entries;
    ConfigFolderIsWalked(text);
    assert entries[..1] == ConfigFolder(text).entries;
    EntriesStep(entries, 1, []);
    assert entries[..2] == entries;
    ScriptIsSource();
    assert [] + ["b.js"] == ["b.js"];
    assert |"b.js"| != |".."| && |"b.js"| != |"tsconfig.json"|;
    assert WalkEntry("b.js", entries[1].node, []) == Some(Listing([], [["b.js"]]));
    var config := Config(["tsconfig.json"], Some(text));
    assert Listing([config], []).And(Listing([], [["b.js"]])) == Listing([config], [["b.js"]]);
    assert WellNamed(ConfigFolder(text)) && WellNamedEntries(ConfigFolder(text).entries) && WellNamed(entries[1].node);
  }

  lemma ScriptIsSource()
    ensures IsJavascript(["b.js"]) && !IsConfigFile(["b.js"])
  {
    assert "b.js"[..3] == "b.j" && "b.j"[..2] == "b." && "b."[..1] == "b";
    assert Extension("b.") == Some("");
    assert "" + "j" == "j" && "j" + "s" == "js";
    assert Extension("b.j") == Some("j");
    assert Extension("b.js") == Some("js");
    assert |"b.js"| != |"tsconfig.json"|;
  }

  /** What came between a folder with the configuration alone and one with the script too. */
  lemma OnlyTheScriptCame(text: string, route: Route)
    ensures !ConfigDiffers(ConfigFolder(text), FolderWithScript(text), route)
    ensures IsNewSource(ConfigFolder(text), FolderWithScript(text), route) ==> route == ["b.js"]
  {
    ConfigFolderIsWalked(text);
    FolderWithScriptIsWalked(text);
    forall other ensures IsConfigBelow(ConfigFolder(text), [], route, other) == IsConfigBelow(FolderWithScript(text), [], route, other) {
      WalkFinds(ConfigFolder(text), [], route, other);
      WalkFinds(FolderWithScript(text), [], route, other);
    }
    WalkFinds(FolderWithScript(text), [], route, None);
  }

  lemma ScriptIsOutside(root: Path, text: string, parse: Parser)
    requires Settings(Config(["tsconfig.json"], Some(text)), parse) == Some(EMPTY)
    ensures !AssessFolder(root, FolderWithScript(text), parse).complete
  {
    FolderWithScriptIsWalked(text);
    ScriptIsSource();
    EmptyScope();
    EmptyProject(root, Config(["tsconfig.json"], Some(text)), parse, EverythingBut(DEFAULT_EXCLUDE));
    HasNoScript(ReadProject(root, Config(["tsconfig.json"], Some(text)), parse));
    assert ["b.js"] in [["b.js"]];
  }

  lemma HasNoScript(project: FolderLayout)
    requires !project.allowJs
    ensures !project.Has(["b.js"])
  {
    ScriptIsSource();
  }

  lemma BracesAreStripped()
    ensures Jsoncs.Stripped("{}").Some?
  {
    assert "{}"[1..] == "}" && "}"[1..] == "" && "{}"[..1] == "{";
    assert Jsoncs.Pieces("}").Some?;
    assert Jsoncs.First("{}") == Some(Jsoncs.Piece(Jsoncs.Char, "{"));
  }

  lemma ThreeSteps(f: Fields, s0: Step, s1: Step, s2: Step, parse: Parser)
    ensures AfterRun(f, [s0, s1, s2], parse) ==
      OnEvent(OnEvent(OnEvent(f, s0.event, parse).0, s1.event, parse).0, s2.event, parse).0
  {
    assert [s0, s1, s2][1..] == [s1, s2] && [s1, s2][1..] == [s2] && [s2][1..] == [];
    var f1 := OnEvent(f, s0.event, parse).0;
    var f2 := OnEvent(f1, s1.event, parse).0;
    assert AfterRun(f2, [s2], parse) == AfterRun(OnEvent(f2, s2.event, parse).0, [], parse);
    assert AfterRun(f1, [s1, s2], parse) == AfterRun(f2, [s2], parse);
    assert AfterRun(f, [s0, s1, s2], parse) == AfterRun(f1, [s1, s2], parse);
  }

  lemma Versions()
    ensures "5.8.0" !in TESTED_VERSIONS && "5.9.3" in TESTED_VERSIONS
  {
    assert "5.8.0"[2] == '8' && "5.9.3"[2] == '9';
  }

  lemma HiddenRun(f: Fields, run: seq<Step>, parse: Parser)
    requires f.DeclaresCoverage() && !f.layoutChanged
    requires |run| == 3 && run[0].event == Announced("5.8.0") && run[2].event == Announced("5.9.3") && run[1].event.Watched?
    ensures AfterRun(f, run, parse) == f
  {
    ThreeSteps(f, run[0], run[1], run[2], parse);
    Versions();
    assert run == [run[0], run[1], run[2]];
    UntestedVersionHidesChanges(f, "5.8.0", "5.9.3", run[1].event.changes, run[1].event.disk, parse);
  }

  lemma ThreeTold(root: Path, text: string, s0: Step, s1: Step, s2: Step)
    requires s0.folder == ConfigFolder(text) && s0.event.Announced? && s2.event.Announced?
    requires s1.folder == s2.folder == FolderWithScript(text)
    requires s1.event == Watched([Change(root + ["b.js"], true)], map[root := FolderWithScript(text)])
    ensures ToldByTheEnd(root, ConfigFolder(text), [s0, s1, s2])
  {
    var r1, r2: seq<Step> := [s1, s2], [s2];
    assert [s0, s1, s2][1..] == r1 && r1[1..] == r2 && r2[1..] == [];
    ConfigFolderIsWalked(text);
    FolderWithScriptIsWalked(text);
    forall route ensures !ConfigDiffers(s0.folder, s1.folder, route) && (IsNewSource(s0.folder, s1.folder, route) ==> IsToldCreated(r1, root + route)) {
      OnlyTheScriptCame(text, route);
      var c := Change(root + ["b.js"], true);
      assert s1 in r1 && c in ChangesOf(s1.event);
      assert NamesCreated(ChangesOf(s1.event), root + ["b.js"]);
    }
    assert ToldByTheEnd(root, s1.folder, r2);
    assert ToldByTheEnd(root, s0.folder, r1);
  }

  /** The run: a folder with an empty `tsconfig.json`, coverage declared; an untested version is
      announced, `b.js` is told as created, the tested version is announced again. The fields are the
      same, coverage is declared, and a full re-read calls the folder incomplete. */
  lemma AnUntestedVersionHidesASource() returns (f: Fields, root: Path, before: Node, run: seq<Step>, parse: Parser)
    ensures RestsOn(f, root, before, parse) && ToldByTheEnd(root, before, run)
    ensures AfterRun(f, run, parse) == f && Walk(LastFolder(before, run), []).Some?
    ensures !AssessFolder(root, LastFolder(before, run), parse).complete
  {
    root, before, parse := ["/", "w"], ConfigFolder("{}"), (json: string) => Some(EMPTY);
    f := Fields(true, INITIALIZING, [], [AssessFolder(root, before, parse)], false);
    var now := FolderWithScript("{}");
    var s0 := Step(Announced("5.8.0"), before);
    var s1 := Step(Watched([Change(root + ["b.js"], true)], map[root := now]), now);
    var s2 := Step(Announced("5.9.3"), now);
    run := [s0, s1, s2];
    BracesAreStripped();
    ConfigFolderIsComplete(root, "{}", parse);
    ScriptIsOutside(root, "{}", parse);
    FolderWithScriptIsWalked("{}");
    ThreeTold(root, "{}", s0, s1, s2);
    HiddenRun(f, run, parse);
  }
}
