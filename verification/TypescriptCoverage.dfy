/** When the typescript-language-server mapping declares coverage, and when it withdraws it, told by what it
    was told (src/adapter/typescript_language_server.rs). */
module TypescriptCoverage {
  import opened Wrappers
  import opened ServerStates
  import opened Histories
  import opened FileTrees
  import opened Layouts
  import opened LayoutSettings
  import opened TypescriptServers

  /** Coverage is declared for the tested version and a single folder that its settings make complete. */
  lemma CoverageExactly(f: Fields, roots: seq<Path>, disk: Disk, parse: Parser)
    requires forall root | root in roots && root in disk :: WellNamed(disk[root])
    ensures OnEvent(f, Roots(roots, disk), parse).0.DeclaresCoverage() <==>
      && f.versionIsTested && |roots| == 1 && roots[0] in disk && !Stops(disk[roots[0]])
      && exists name, settings :: IsCompleteBy(disk[roots[0]], name, settings, parse)
  {
    if |roots| == 1 {
      if roots[0] in disk {
        CompleteBySettings(roots[0], disk[roots[0]], parse);
      } else {
        LockedIsIncomplete(roots[0], parse);
      }
    }
  }

  lemma LockedIsIncomplete(root: Path, parse: Parser)
    ensures !AssessFolder(root, Locked, parse).complete
  {}

  /** Whether a version is the tested one. */
  function ToldVersion(before: seq<Event>, e: Event): Option<bool> {
    if e.Announced? then Some(e.version == "5.9.3") else None
  }

  lemma {:induction false} VersionIsLastTold(tested: bool, h: seq<Event>, parse: Parser)
    ensures IsLast(h, ToldVersion, tested, After(tested, h, parse).versionIsTested)
  {
    if h != [] {
      var before, e := h[..|h| - 1], h[|h| - 1];
      VersionIsLastTold(tested, before, parse);
      SplitLast(h);
      IsLastStep(before, e, ToldVersion, tested, After(tested, before, parse).versionIsTested);
      VersionStep(After(tested, before, parse), e, parse);
    }
  }

  lemma VersionStep(f: Fields, e: Event, parse: Parser)
    ensures OnEvent(f, e, parse).0.versionIsTested == ToldVersion([], e).GetOr(f.versionIsTested)
  {}

  /** The layout as the changes leave it: read again if one of them is of a configuration file inside. */
  function LayoutAfter(layout: FolderLayout, changes: seq<Change>, disk: Disk, parse: Parser): FolderLayout {
    if exists c | c in changes :: IsInside(layout.root, c.path) && c.path != [] && IsConfigName(c.path[|c.path| - 1])
    then AssessFolder(layout.root, FolderOn(disk, layout.root), parse) else layout
  }

  /** With coverage declared: a folder is added; or the layout read again is no longer complete; or a
      source is created that it refuses. */
  predicate Breaks(f: Fields, e: Event, parse: Parser) {
    f.versionIsTested && |f.layouts| == 1 && f.layouts[0].complete &&
    match e
    case FoldersChanged(added) => added
    case Watched(changes, disk) =>
      var layout := LayoutAfter(f.layouts[0], changes, disk, parse);
      !layout.complete || exists c | c in changes && c.created :: NewSourceOutside(layout, c.path)
    case _ => false
  }

  function Withdraws(tested: bool, parse: Parser): (seq<Event>, Event) -> bool {
    (before: seq<Event>, e: Event) => Breaks(After(tested, before, parse), e, parse)
  }

  lemma LayoutIsReread(layout: FolderLayout, changes: seq<Change>, disk: Disk, parse: Parser)
    ensures Reread([layout], changes, disk, parse) == [LayoutAfter(layout, changes, disk, parse)]
  {
    forall c | c in changes
      ensures IsConfigChange(layout, c.path) <==>
        IsInside(layout.root, c.path) && c.path != [] && IsConfigName(c.path[|c.path| - 1])
    {
      ConfigChangeExactly(layout, c.path);
    }
  }

  lemma WithdrawnStep(f: Fields, e: Event, parse: Parser)
    ensures OnEvent(f, e, parse).0.layoutChanged <==> f.layoutChanged || Breaks(f, e, parse)
  {
    if e.Watched? && |f.layouts| == 1 {
      assert f.layouts == [f.layouts[0]];
      LayoutIsReread(f.layouts[0], e.changes, e.disk, parse);
      WatchedStep(f, e.changes, e.disk, LayoutAfter(f.layouts[0], e.changes, e.disk, parse), parse);
    }
  }

  lemma WatchedStep(f: Fields, changes: seq<Change>, disk: Disk, layout: FolderLayout, parse: Parser)
    requires |f.layouts| == 1 && Reread(f.layouts, changes, disk, parse) == [layout]
    ensures OnWatched(f, changes, disk, parse).0.layoutChanged <==>
      || f.layoutChanged
      || (f.versionIsTested && f.layouts[0].complete
          && (!layout.complete || exists c | c in changes && c.created :: NewSourceOutside(layout, c.path)))
  {
    assert [layout][0] == layout;
  }

  /** In every history: coverage is withdrawn for good iff some event broke it when it was declared. Readiness
      is unknown exactly from then on. */
  lemma {:induction false} WithdrawnExactly(tested: bool, h: seq<Event>, parse: Parser)
    ensures After(tested, h, parse).layoutChanged <==> Since(h, Withdraws(tested, parse), Never)
    ensures After(tested, h, parse).state.readiness == Readiness.Unknown <==> Since(h, Withdraws(tested, parse), Never)
  {
    ReadinessExactly(tested, h, parse);
    if h != [] {
      var before, e := h[..|h| - 1], h[|h| - 1];
      WithdrawnExactly(tested, before, parse);
      SplitLast(h);
      SinceStep(before, e, Withdraws(tested, parse), Never);
      WithdrawnStep(After(tested, before, parse), e, parse);
    }
  }
}
