/** Standing in for the client's `workspace/didChangeWatchedFiles` (src/watched_files.rs): the
    difference between one listing of the files and the next. */
module WatchedFiles {
  import opened Wrappers
  import opened Histories

  type Path = string
  type Time = int
  type Files = map<Path, Time>

  const CREATED := 1
  const CHANGED := 2
  const DELETED := 3

  datatype Change = Change(path: Path, kind: nat)

  /** A file that the listing of a root names, with its time if that can be read. */
  datatype Listed = Listed(path: Path, time: Option<Time>)

  // --- What a notification has to say -------------------------------------------------------

  /** The kind of change of a path between two listings. */
  function KindOf(before: Files, now: Files, path: Path): Option<nat> {
    if path in before && path in now then if before[path] == now[path] then None else Some(CHANGED)
    else if path in now then Some(CREATED)
    else if path in before then Some(DELETED)
    else None
  }

  /** Each path that changed is named once, with its kind, and no other path is. */
  predicate IsDifference(before: Files, now: Files, changes: seq<Change>) {
    && (forall i | 0 <= i < |changes| :: KindOf(before, now, changes[i].path) == Some(changes[i].kind))
    && (forall i, j | 0 <= i < j < |changes| :: changes[i].path != changes[j].path)
    && (forall path | path in before.Keys + now.Keys ::
          KindOf(before, now, path).Some? ==> Change(path, KindOf(before, now, path).value) in changes)
  }

  /** The changes of the paths looked at so far. */
  predicate IsDifferenceOn(before: Files, now: Files, paths: set<Path>, changes: seq<Change>) {
    && (forall i | 0 <= i < |changes| ::
          changes[i].path in paths && KindOf(before, now, changes[i].path) == Some(changes[i].kind))
    && (forall i, j | 0 <= i < j < |changes| :: changes[i].path != changes[j].path)
    && (forall path | path in paths ::
          KindOf(before, now, path).Some? ==> Change(path, KindOf(before, now, path).value) in changes)
  }

  // --- The stand-in -------------------------------------------------------------------------

  /** The listings of the roots, one after another. */
  function AllListed(roots: seq<Option<seq<Listed>>>): seq<Listed> {
    if roots == [] then []
    else
      var n := |roots| - 1;
      AllListed(roots[..n]) + roots[n].GetOr([])
  }

  /** The time of the last entry of the path that has one. */
  function LastTime(listed: seq<Listed>, path: Path): Option<Time> {
    if listed == [] then None
    else
      var last := listed[|listed| - 1];
      if last.path == path && last.time.Some? then last.time else LastTime(listed[..|listed| - 1], path)
  }

  lemma LastTimeOneMore(listed: seq<Listed>, l: Listed, path: Path)
    ensures LastTime(listed + [l], path) == if l.path == path && l.time.Some? then l.time else LastTime(listed, path)
  {
    assert (listed + [l])[..|listed|] == listed;
  }

  function TimeOf(path: Path): (seq<Listed>, Listed) -> Option<Option<Time>> {
    (before: seq<Listed>, l: Listed) => if l.path == path && l.time.Some? then Some(l.time) else None
  }

  lemma {:induction false} LastTimeExactly(listed: seq<Listed>, path: Path)
    ensures IsLast(listed, TimeOf(path), None, LastTime(listed, path))
  {
    if listed != [] {
      var n := |listed| - 1;
      LastTimeExactly(listed[..n], path);
      SplitLast(listed);
      IsLastStep(listed[..n], listed[n], TimeOf(path), None, LastTime(listed[..n], path));
    }
  }

  /** Exactly the paths with a time, each with the time of its last entry. */
  ghost predicate Holds(files: Files, listed: seq<Listed>) {
    forall path :: (path in files <==> LastTime(listed, path).Some?) && (path in files ==> Some(files[path]) == LastTime(listed, path))
  }

  lemma HoldsOneMore(files: Files, listed: seq<Listed>, l: Listed)
    requires Holds(files, listed)
    ensures Holds(if l.time.Some? then files[l.path := l.time.value] else files, listed + [l])
  {
    forall path {
      LastTimeOneMore(listed, l, path);
    }
  }

  /** The files of all roots that have a time; nothing if some root cannot be listed. */
  method Scan(roots: seq<Option<seq<Listed>>>) returns (files: Option<Files>)
    ensures files.None? <==> None in roots
    ensures files.Some? ==> Holds(files.value, AllListed(roots))
  {
    var found: Files := map[];
    for i := 0 to |roots|
      invariant None !in roots[..i]
      invariant Holds(found, AllListed(roots[..i]))
    {
      if roots[i].None? {
        return None;
      }
      var listed := roots[i].value;
      ghost var earlier := AllListed(roots[..i]);
      assert earlier + listed[..0] == earlier;
      for j := 0 to |listed|
        invariant Holds(found, earlier + listed[..j])
      {
        HoldsOneMore(found, earlier + listed[..j], listed[j]);
        assert earlier + listed[..j] + [listed[j]] == earlier + listed[..j + 1];
        if listed[j].time.Some? {
          found := found[listed[j].path := listed[j].time.value];
        }
      }
      assert earlier + listed[..|listed|] == earlier + listed;
      assert roots[..i + 1] == roots[..i] + [roots[i]] && roots[..i + 1][..i] == roots[..i];
    }
    assert roots[..|roots|] == roots;
    files := Some(found);
  }

  class StandIn {
    /** The previous listing. */
    var snapshot: Files

    constructor (first: Files)
      ensures snapshot == first
    {
      snapshot := first;
    }

    /** The notification for a scan: none if the scan failed or nothing changed. */
    method ChangesSinceLastScan(scan: Option<Files>) returns (sent: Option<seq<Change>>)
      modifies this
      ensures snapshot == scan.GetOr(old(snapshot))
      ensures sent.None? <==> snapshot == old(snapshot)
      ensures sent.Some? ==> sent.value != [] && IsDifference(old(snapshot), snapshot, sent.value)
    {
      if scan.None? {
        return None;
      }
      var current := scan.value;
      var changes := ChangedIn(snapshot, current);
      changes := DeletedFrom(snapshot, current, changes);
      ghost var before := snapshot;
      snapshot := current;
      if changes == [] {
        NoDifference(before, current);
        return None;
      }
      sent := Some(changes);
      assert KindOf(before, current, changes[0].path).Some?;
    }
  }

  method ChangedIn(before: Files, current: Files) returns (changes: seq<Change>)
    ensures IsDifferenceOn(before, current, current.Keys, changes)
  {
    changes := [];
    var left, done: set<Path> := current.Keys, {};
    while left != {}
      invariant left !! done && left + done == current.Keys
      invariant IsDifferenceOn(before, current, done, changes)
      decreases left
    {
      var path :| path in left;
      if path !in before {
        changes := changes + [Change(path, CREATED)];
      } else if before[path] != current[path] {
        changes := changes + [Change(path, CHANGED)];
      }
      left, done := left - {path}, done + {path};
    }
    assert done == current.Keys;
  }

  method DeletedFrom(before: Files, current: Files, changed: seq<Change>) returns (changes: seq<Change>)
    requires IsDifferenceOn(before, current, current.Keys, changed)
    ensures IsDifference(before, current, changes)
  {
    changes := changed;
    var left, done: set<Path> := before.Keys, {};
    while left != {}
      invariant left !! done && left + done == before.Keys
      invariant IsDifferenceOn(before, current, current.Keys + done, changes)
      decreases left
    {
      var path :| path in left;
      if path !in current {
        changes := changes + [Change(path, DELETED)];
      }
      left, done := left - {path}, done + {path};
    }
    assert done == before.Keys;
  }

  lemma NoDifference(before: Files, now: Files)
    ensures IsDifference(before, now, []) <==> before == now
  {
    if IsDifference(before, now, []) {
      forall path ensures path in before <==> path in now {
        assert path in before.Keys + now.Keys ==> KindOf(before, now, path).None?;
      }
      assert before.Keys == now.Keys;
      forall path | path in before ensures before[path] == now[path] {
        assert path in before.Keys + now.Keys && KindOf(before, now, path).None?;
      }
    }
  }

  /** What a notification says of a path: created (1), changed (2) or deleted (3), and nothing of one that
      is as it was. */
  lemma DifferenceExactly(before: Files, now: Files, changes: seq<Change>, path: Path)
    requires IsDifference(before, now, changes)
    ensures Change(path, 1) in changes <==> path !in before && path in now
    ensures Change(path, 2) in changes <==> path in before && path in now && before[path] != now[path]
    ensures Change(path, 3) in changes <==> path in before && path !in now
    ensures (exists c | c in changes :: c.path == path) <==>
      Change(path, 1) in changes || Change(path, 2) in changes || Change(path, 3) in changes
  {
    if path in before.Keys + now.Keys && KindOf(before, now, path).Some? {
      assert Change(path, KindOf(before, now, path).value) in changes;
    }
    forall c | c in changes && c.path == path ensures KindOf(before, now, path) == Some(c.kind) {
      var i :| 0 <= i < |changes| && changes[i] == c;
    }
  }

  // --- What the upstream makes of the notifications -----------------------------------------

  function Applied(paths: set<Path>, c: Change): set<Path> {
    if c.kind == CREATED then paths + {c.path} else if c.kind == DELETED then paths - {c.path} else paths
  }

  function Fold(paths: set<Path>, changes: seq<Change>): set<Path> {
    if changes == [] then paths else Applied(Fold(paths, changes[..|changes| - 1]), changes[|changes| - 1])
  }

  lemma {:induction false} FoldAt(before: Files, now: Files, changes: seq<Change>, path: Path)
    requires forall i | 0 <= i < |changes| :: KindOf(before, now, changes[i].path) == Some(changes[i].kind)
    ensures path in Fold(before.Keys, changes) <==>
      if exists c | c in changes :: c.path == path then path in now else path in before
  {
    if changes != [] {
      var n := |changes| - 1;
      FoldAt(before, now, changes[..n], path);
      assert changes == changes[..n] + [changes[n]];
    }
  }

  /** A notification turns the paths of one listing into those of the next. */
  lemma FoldIsNext(before: Files, now: Files, changes: seq<Change>)
    requires IsDifference(before, now, changes)
    ensures Fold(before.Keys, changes) == now.Keys
  {
    forall path ensures path in Fold(before.Keys, changes) <==> path in now.Keys {
      FoldAt(before, now, changes, path);
      if path in before.Keys + now.Keys && KindOf(before, now, path).Some? {
        assert Change(path, KindOf(before, now, path).value) in changes;
      }
    }
  }

  /** One turn: what the scan gave, and what was sent. */
  datatype Turn = Turn(scan: Option<Files>, sent: Option<seq<Change>>)

  function Last(first: Files, run: seq<Turn>): Files {
    if run == [] then first else run[|run| - 1].scan.GetOr(Last(first, run[..|run| - 1]))
  }

  /** Each turn does what `ChangesSinceLastScan` promises. */
  predicate IsRun(first: Files, run: seq<Turn>) {
    run != [] ==>
      var n := |run| - 1;
      && IsRun(first, run[..n])
      && var before, now, sent := Last(first, run[..n]), Last(first, run), run[n].sent;
         (sent.None? <==> now == before) && (sent.Some? ==> IsDifference(before, now, sent.value))
  }

  function AllSent(run: seq<Turn>): seq<Change> {
    if run == [] then [] else AllSent(run[..|run| - 1]) + run[|run| - 1].sent.GetOr([])
  }

  lemma {:induction false} FoldAppend(paths: set<Path>, a: seq<Change>, b: seq<Change>)
    ensures Fold(paths, a + b) == Fold(Fold(paths, a), b)
  {
    if b == [] {
      assert a + b == a;
    } else {
      FoldAppend(paths, a, b[..|b| - 1]);
      assert (a + b)[..|a + b| - 1] == a + b[..|b| - 1];
    }
  }

  /** All that was ever sent turns the paths of the first listing into those of the last scan that
      did not fail. */
  lemma {:induction false} AllSentIsLastListing(first: Files, run: seq<Turn>)
    requires IsRun(first, run)
    ensures Fold(first.Keys, AllSent(run)) == Last(first, run).Keys
  {
    if run != [] {
      var n := |run| - 1;
      var before, now, sent := Last(first, run[..n]), Last(first, run), run[n].sent;
      AllSentIsLastListing(first, run[..n]);
      FoldAppend(first.Keys, AllSent(run[..n]), sent.GetOr([]));
      if sent.Some? {
        FoldIsNext(before, now, sent.value);
      }
    }
  }
}
