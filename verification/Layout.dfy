/** Reading the layout of a TypeScript workspace folder (src/adapter/typescript_layout.rs): the
    walk, the configuration, and the cheap check of one new source. */
module Layouts {
  import opened Wrappers
  import opened Jsons
  import opened FileTrees
  import opened Patterns
  import Jsoncs

  const CONFIG_NAMES := {"tsconfig.json", "jsconfig.json"}
  const SKIPPED_DIRS := {"node_modules", ".git"}
  const TYPESCRIPT_EXTENSIONS := {"ts", "tsx", "mts", "cts"}
  const JAVASCRIPT_EXTENSIONS := {"js", "jsx", "mjs", "cjs"}
  const DEFAULT_EXCLUDE := ["node_modules", "bower_components", "jspm_packages"]

  /** What is after the last dot of a name, if anything is before it. */
  function Extension(name: string): Option<string> {
    if name == "" then None
    else if name[|name| - 1] == '.' then if |name| == 1 then None else Some("")
    else
      var shorter := Extension(name[..|name| - 1]);
      if shorter.None? then None else Some(shorter.value + [name[|name| - 1]])
  }

  predicate HasExtension(path: Path, extensions: set<string>) {
    path != [] && Extension(path[|path| - 1]).Some? && Extension(path[|path| - 1]).value in extensions
  }

  predicate IsJavascript(path: Path) { HasExtension(path, JAVASCRIPT_EXTENSIONS) }

  predicate IsSource(path: Path) { IsJavascript(path) || HasExtension(path, TYPESCRIPT_EXTENSIONS) }

  predicate IsConfigFile(path: Path) { path != [] && path[|path| - 1] in CONFIG_NAMES }

  // --- The walk ---------------------------------------------------------------------------

  datatype Config = Config(route: Route, text: Option<string>)

  /** The configuration files and the sources of a folder, by their routes from it. */
  datatype Listing = Listing(configs: seq<Config>, sources: seq<Route>) {
    function And(other: Listing): Listing {
      Listing(configs + other.configs, sources + other.sources)
    }
  }

  const NOTHING := Listing([], [])

  /** Nothing if a directory cannot be listed, or the kind of an entry cannot be read. */
  function Walk(node: Node, at: Route): Option<Listing>
    decreases node, 0
  {
    if !node.Dir? then None else WalkEntries(node.entries, at)
  }

  function WalkEntries(entries: seq<Entry>, at: Route): Option<Listing>
    decreases entries, 2
  {
    if entries == [] then Some(NOTHING)
    else
      var n := |entries| - 1;
      var before := WalkEntries(entries[..n], at);
      var last := WalkEntry(entries[n].name, entries[n].node, at);
      if before.None? || last.None? then None else Some(before.value.And(last.value))
  }

  function WalkEntry(name: string, node: Node, at: Route): Option<Listing>
    decreases node, 1
  {
    match node
    case Unseen => None
    case Special => Some(NOTHING)
    case Dir(_) => if name in SKIPPED_DIRS then Some(NOTHING) else Walk(node, at + [name])
    case Locked => if name in SKIPPED_DIRS then Some(NOTHING) else None
    case File(text) => Some(FileListing(at + [name], text))
  }

  function FileListing(route: Route, text: Option<string>): Listing {
    if IsConfigFile(route) then Listing([Config(route, text)], [])
    else if IsSource(route) then Listing([], [route])
    else NOTHING
  }

  method CollectFiles(node: Node, at: Route, found: Listing) returns (ok: bool, files: Listing)
    ensures ok == Walk(node, at).Some?
    ensures ok ==> files == found.And(Walk(node, at).value)
    decreases node, 0
  {
    files := found;
    if !node.Dir? {
      return false, files;
    }
    for i := 0 to |node.entries|
      invariant WalkEntries(node.entries[..i], at).Some?
      invariant files == found.And(WalkEntries(node.entries[..i], at).value)
    {
      EntriesStep(node.entries, i, at);
      AndTwice(found, WalkEntries(node.entries[..i], at).value, WalkEntry(node.entries[i].name, node.entries[i].node, at).GetOr(NOTHING));
      ok, files := CollectEntry(node.entries[i].name, node.entries[i].node, at, files);
      if !ok {
        return;
      }
    }
    assert node.entries[..|node.entries|] == node.entries;
    ok := true;
  }

  method CollectEntry(name: string, node: Node, at: Route, found: Listing) returns (ok: bool, files: Listing)
    ensures ok == WalkEntry(name, node, at).Some?
    ensures ok ==> files == found.And(WalkEntry(name, node, at).value)
    decreases node, 1
  {
    ok, files := !node.Unseen?, found;
    if node.Dir? || node.Locked? {
      if name !in SKIPPED_DIRS {
        ok, files := CollectFiles(node, at + [name], files);
      }
    } else if node.File? {
      if name in CONFIG_NAMES {
        files := files.(configs := files.configs + [Config(at + [name], node.text)]);
      } else if IsSource(at + [name]) {
        files := files.(sources := files.sources + [at + [name]]);
      }
    }
  }

  lemma AndTwice(a: Listing, b: Listing, c: Listing)
    ensures a.And(b).And(c) == a.And(b.And(c))
  {
    assert a.configs + b.configs + c.configs == a.configs + (b.configs + c.configs);
    assert a.sources + b.sources + c.sources == a.sources + (b.sources + c.sources);
  }

  lemma EntriesStep(entries: seq<Entry>, i: nat, at: Route)
    requires i < |entries|
    ensures var before := WalkEntries(entries[..i], at);
      var last := WalkEntry(entries[i].name, entries[i].node, at);
      && WalkEntries(entries[..i + 1], at) == (if before.None? || last.None? then None else Some(before.value.And(last.value)))
    ensures WalkEntries(entries[..i + 1], at).None? ==> WalkEntries(entries, at).None?
  {
    assert entries[..i + 1][..i] == entries[..i];
    if WalkEntries(entries[..i + 1], at).None? {
      NoneStays(entries, i + 1, at);
    }
  }

  lemma {:induction false} NoneStays(entries: seq<Entry>, i: nat, at: Route)
    requires i <= |entries| && WalkEntries(entries[..i], at).None?
    ensures WalkEntries(entries, at).None?
  {
    if i == |entries| {
      assert entries[..i] == entries;
    } else {
      var n := |entries| - 1;
      assert entries[..n][..i] == entries[..i];
      NoneStays(entries[..n], i, at);
    }
  }

  // --- What the walk finds ------------------------------------------------------------------

  predicate Unskipped(dirs: Route) { forall name | name in dirs :: name !in SKIPPED_DIRS }

  /** A file with the text, below directories none of which is skipped. */
  predicate HasFile(node: Node, route: Route, text: Option<string>) {
    route != [] && Unskipped(route[..|route| - 1]) && Leads(node, route, File(text))
  }

  ghost predicate HasSomeFile(node: Node, route: Route) {
    exists text :: HasFile(node, route, text)
  }

  /** The entry `name` of a directory at `at` is, or holds, the file. */
  predicate EntryHasFile(name: string, node: Node, at: Route, route: Route, text: Option<string>) {
    && at + [name] <= route
    && if |route| == |at| + 1 then node == File(text)
       else name !in SKIPPED_DIRS && node.Dir? && HasFile(node, route[|at| + 1..], text)
  }

  ghost predicate EntryHasSome(name: string, node: Node, at: Route, route: Route) {
    exists text :: EntryHasFile(name, node, at, route, text)
  }

  predicate EntriesHaveFile(entries: seq<Entry>, at: Route, route: Route, text: Option<string>) {
    exists e | e in entries :: EntryHasFile(e.name, e.node, at, route, text)
  }

  ghost predicate EntriesHaveSome(entries: seq<Entry>, at: Route, route: Route) {
    exists e | e in entries :: EntryHasSome(e.name, e.node, at, route)
  }

  /** Seen from the directory at `at`, `route` leads to a configuration file with the text. */
  predicate IsConfigBelow(node: Node, at: Route, route: Route, text: Option<string>) {
    IsConfigFile(route) && at <= route && HasFile(node, route[|at|..], text)
  }

  ghost predicate IsSourceBelow(node: Node, at: Route, route: Route) {
    !IsConfigFile(route) && IsSource(route) && at <= route && HasSomeFile(node, route[|at|..])
  }

  lemma DirHasFile(entries: seq<Entry>, at: Route, route: Route, text: Option<string>)
    ensures at <= route && HasFile(Dir(entries), route[|at|..], text) <==> EntriesHaveFile(entries, at, route, text)
  {
    if at < route {
      var r := route[|at|..];
      var name := r[0];
      assert at + [name] == route[..|at| + 1];
      assert r[1..] == route[|at| + 1..];
      assert |r| > 1 ==> r[..|r| - 1] == [name] + r[1..][..|r| - 2];
      forall e | e in entries
        ensures EntryHasFile(e.name, e.node, at, route, text)
          <==> e.name == name && Unskipped(r[..|r| - 1]) && Leads(e.node, r[1..], File(text))
      {
        assert at + [e.name] <= route <==> e.name == name;
      }
    }
  }

  lemma DirHasSome(entries: seq<Entry>, at: Route, route: Route)
    ensures at <= route && HasSomeFile(Dir(entries), route[|at|..]) <==> EntriesHaveSome(entries, at, route)
  {
    if at <= route && HasSomeFile(Dir(entries), route[|at|..]) {
      var text :| HasFile(Dir(entries), route[|at|..], text);
      DirHasFile(entries, at, route, text);
    }
    if EntriesHaveSome(entries, at, route) {
      var e :| e in entries && EntryHasSome(e.name, e.node, at, route);
      var text :| EntryHasFile(e.name, e.node, at, route, text);
      DirHasFile(entries, at, route, text);
    }
  }

  lemma BelowEntry(name: string, node: Node, at: Route, route: Route)
    requires node.Dir? && name !in SKIPPED_DIRS
    ensures EntryHasSome(name, node, at, route) <==> at + [name] <= route && HasSomeFile(node, route[|at| + 1..])
  {
    if at + [name] <= route && HasSomeFile(node, route[|at| + 1..]) {
      var text :| HasFile(node, route[|at| + 1..], text);
      assert EntryHasFile(name, node, at, route, text);
    }
    if EntryHasSome(name, node, at, route) {
      var text :| EntryHasFile(name, node, at, route, text);
      assert HasFile(node, route[|at| + 1..], text);
    }
  }

  /** The listing holds exactly the configuration files and the sources below the directory, with
      no skipped directory on the way. */
  lemma {:induction false} WalkFinds(node: Node, at: Route, route: Route, text: Option<string>)
    requires Walk(node, at).Some?
    ensures Config(route, text) in Walk(node, at).value.configs <==> IsConfigBelow(node, at, route, text)
    ensures route in Walk(node, at).value.sources <==> IsSourceBelow(node, at, route)
    decreases node, 0
  {
    EntriesFind(node.entries, at, route, text);
    DirHasFile(node.entries, at, route, text);
    DirHasSome(node.entries, at, route);
  }

  lemma {:induction false} EntriesFind(entries: seq<Entry>, at: Route, route: Route, text: Option<string>)
    requires WalkEntries(entries, at).Some?
    ensures var files := WalkEntries(entries, at).value;
      && (Config(route, text) in files.configs <==> IsConfigFile(route) && EntriesHaveFile(entries, at, route, text))
      && (route in files.sources <==> !IsConfigFile(route) && IsSource(route) && EntriesHaveSome(entries, at, route))
    decreases entries, 2
  {
    if entries != [] {
      var n := |entries| - 1;
      EntriesFind(entries[..n], at, route, text);
      EntryFinds(entries[n].name, entries[n].node, at, route, text);
      assert entries == entries[..n] + [entries[n]];
    }
  }

  lemma EntryFinds(name: string, node: Node, at: Route, route: Route, text: Option<string>)
    requires WalkEntry(name, node, at).Some?
    ensures var files := WalkEntry(name, node, at).value;
      && (Config(route, text) in files.configs <==> IsConfigFile(route) && EntryHasFile(name, node, at, route, text))
      && (route in files.sources <==> !IsConfigFile(route) && IsSource(route) && EntryHasSome(name, node, at, route))
    decreases node, 1
  {
    if node.Dir? && name !in SKIPPED_DIRS {
      WalkFinds(node, at + [name], route, text);
      BelowEntry(name, node, at, route);
    } else if node.File? && route == at + [name] {
      assert EntryHasFile(name, node, at, route, node.text);
    }
  }

  /** No directory has a name twice, and no entry is named "..". */
  predicate WellNamed(node: Node)
    decreases node, 0
  {
    node.Dir? ==> WellNamedEntries(node.entries)
  }

  predicate WellNamedEntries(entries: seq<Entry>)
    decreases entries, 2
  {
    entries != [] ==>
      var n := |entries| - 1;
      && entries[n].name != ".." && (forall e | e in entries[..n] :: e.name != entries[n].name)
      && WellNamed(entries[n].node) && WellNamedEntries(entries[..n])
  }

  lemma {:induction false} WellNamedBelow(entries: seq<Entry>, e: Entry)
    requires WellNamedEntries(entries) && e in entries
    ensures e.name != ".." && WellNamed(e.node)
  {
    var n := |entries| - 1;
    if e in entries[..n] {
      WellNamedBelow(entries[..n], e);
    }
  }

  lemma {:induction false} RoutesAreWellNamed(node: Node, route: Route, leaf: Node)
    requires WellNamed(node) && Leads(node, route, leaf)
    ensures ".." !in route
    decreases |route|
  {
    if route != [] {
      var e :| e in node.entries && e.name == route[0] && Leads(e.node, route[1..], leaf);
      WellNamedBelow(node.entries, e);
      RoutesAreWellNamed(e.node, route[1..], leaf);
    }
  }

  predicate DistinctRoutes(configs: seq<Config>) {
    forall i, j | 0 <= i < j < |configs| :: configs[i].route != configs[j].route
  }

  /** No configuration file is listed twice. */
  lemma {:induction false} ConfigsAreDistinct(node: Node, at: Route)
    requires Walk(node, at).Some? && WellNamed(node)
    ensures DistinctRoutes(Walk(node, at).value.configs)
    decreases node, 0
  {
    EntryConfigsAreDistinct(node.entries, at);
  }

  lemma {:induction false} EntryConfigsAreDistinct(entries: seq<Entry>, at: Route)
    requires WalkEntries(entries, at).Some? && WellNamedEntries(entries)
    ensures DistinctRoutes(WalkEntries(entries, at).value.configs)
    decreases entries, 2
  {
    if entries != [] {
      var n := |entries| - 1;
      var name, node := entries[n].name, entries[n].node;
      EntryConfigsAreDistinct(entries[..n], at);
      if node.Dir? && name !in SKIPPED_DIRS {
        ConfigsAreDistinct(node, at + [name]);
      }
      var before, last := WalkEntries(entries[..n], at).value.configs, WalkEntry(name, node, at).value.configs;
      forall c, d | c in before && d in last ensures c.route != d.route {
        EntriesFind(entries[..n], at, c.route, c.text);
        EntryFinds(name, node, at, d.route, d.text);
        assert Config(c.route, c.text) == c && Config(d.route, d.text) == d;
        var e :| e in entries[..n] && EntryHasFile(e.name, e.node, at, c.route, c.text);
        assert c.route[|at|] == e.name && d.route[|at|] == name;
      }
      var all := before + last;
      assert forall i | 0 <= i < |all| :: all[i] == if i < |before| then before[i] else last[i - |before|];
    }
  }

  /** Configurations listed in another order are the same if there is only one. */
  lemma OnlyConfig(before: seq<Config>, after: seq<Config>)
    requires |before| == 1 && DistinctRoutes(after)
    requires forall c :: c in before <==> c in after
    ensures after == before
  {
    assert before[0] in after;
    forall i | 0 <= i < |after| ensures after[i] == before[0] {
      assert after[i] in before;
    }
    assert |after| > 1 ==> after[0].route != after[1].route;
  }

  // --- The configuration --------------------------------------------------------------------

  datatype ProjectScope = ProjectScope(files: seq<string>, included: seq<Pattern>, excluded: seq<Pattern>) {
    /** Whether a source (relative to the folder, joined by slashes) belongs to the project. */
    predicate TakesIn(source: string) {
      && source != ""
      && (source in files
          || ((exists pattern | pattern in included :: Matches(pattern, Split(source)))
              && !exists pattern | pattern in excluded :: Excludes(pattern, Split(source))))
    }
  }

  /** A list of strings in the settings: nothing if it is malformed, `Some(None)` if it is absent. */
  function ListOf(settings: Json, key: string): Option<Option<seq<string>>>
    requires settings.Object?
  {
    if key !in settings.fields then Some(None)
    else
      var value := settings.fields[key];
      if value.Array? && forall item | item in value.items :: item.Str?
      then Some(Some(NormalizedAll(value.items)))
      else None
  }

  function NormalizedAll(items: seq<Json>): seq<string>
    requires forall item | item in items :: item.Str?
  {
    if items == [] then [] else [Normalized(items[0].s)] + NormalizedAll(items[1..])
  }

  /** An entry of `compilerOptions`: nothing if that is not an object, `Some(None)` if absent. */
  function CompilerOption(settings: Json, key: string): Option<Option<Json>>
    requires settings.Object?
  {
    if "compilerOptions" !in settings.fields then Some(None)
    else
      var options := settings.fields["compilerOptions"];
      if !options.Object? then None
      else if key in options.fields then Some(Some(options.fields[key])) else Some(None)
  }

  /** The `exclude` of a configuration that writes none. */
  function DefaultExclude(settings: Json): Option<seq<string>>
    requires settings.Object?
  {
    match CompilerOption(settings, "outDir")
    case Some(None) => Some(DEFAULT_EXCLUDE)
    case Some(Some(Str(dir))) => Some(DEFAULT_EXCLUDE + [Normalized(dir)])
    case _ => None
  }

  function ReadScope(settings: Json): Option<ProjectScope>
    requires settings.Object?
  {
    var files, included, excluded := ListOf(settings, "files"), ListOf(settings, "include"), ListOf(settings, "exclude");
    if files.None? || included.None? || excluded.None? then None
    else
      var excluded := if excluded.value.Some? then excluded.value else DefaultExclude(settings);
      if excluded.None? then None
      else
        var default := if files.value.Some? then [] else ["**/*"];
        var included, excluded := CompileAll(included.value.GetOr(default)), CompileAll(excluded.value);
        if included.None? || excluded.None? then None
        else Some(ProjectScope(files.value.GetOr([]), included.value, excluded.value))
  }

  /** Whether `allowJs` is effective; nothing if the reader cannot tell. */
  function ReadAllowJs(settings: Json, name: string): Option<bool>
    requires settings.Object?
  {
    match CompilerOption(settings, "allowJs")
    case Some(None) => Some(name == "jsconfig.json")
    case Some(Some(Bool(value))) => Some(value)
    case _ => None
  }

  // --- The assessment -----------------------------------------------------------------------

  /** The JSON parser, which is not part of this model. */
  type Parser = string -> Option<Json>

  datatype FolderLayout = FolderLayout(root: Path, complete: bool, allowJs: bool, scope: Option<ProjectScope>) {
    /** The project takes in the source at `route` below the folder. */
    predicate Has(route: Route) {
      (!IsJavascript(route) || allowJs) && scope.Some? && route != [] && scope.value.TakesIn(Slashed(route))
    }
  }

  function Incomplete(root: Path, allowJs: bool): FolderLayout { FolderLayout(root, false, allowJs, None) }

  /** The settings a configuration file gives. */
  function Settings(config: Config, parse: Parser): Option<Json> {
    if config.text.None? then None
    else
      var json := Jsoncs.Stripped(config.text.value);
      if json.None? then None
      else
        var settings := parse(json.value);
        if settings.Some? && settings.value.Object? then settings else None
  }

  /** The project of a configuration, as if it took in every source. */
  function ReadProject(root: Path, config: Config, parse: Parser): FolderLayout
    requires config.route != []
  {
    var settings := Settings(config, parse);
    if settings.None? then Incomplete(root, false)
    else
      var allowJs := ReadAllowJs(settings.value, config.route[0]);
      if allowJs.None? then Incomplete(root, false)
      else
        var scope := ReadScope(settings.value);
        if scope.None? then Incomplete(root, allowJs.value)
        else FolderLayout(root, "extends" !in settings.value.fields, allowJs.value, scope)
  }

  function Assess(root: Path, listing: Option<Listing>, parse: Parser): FolderLayout {
    if listing.None? || |listing.value.configs| != 1 || |listing.value.configs[0].route| != 1 then Incomplete(root, false)
    else
      var project := ReadProject(root, listing.value.configs[0], parse);
      project.(complete := project.complete && forall source | source in listing.value.sources :: project.Has(source))
  }

  function AssessFolder(root: Path, node: Node, parse: Parser): FolderLayout {
    Assess(root, Walk(node, []), parse)
  }

  method ReadSettings(config: Config, parse: Parser) returns (settings: Option<Json>)
    ensures settings == Settings(config, parse)
  {
    if config.text.None? {
      return None;
    }
    var json := Jsoncs.StripJsonc(config.text.value);
    if json.None? {
      return None;
    }
    settings := parse(json.value);
    if settings.Some? && !settings.value.Object? {
      settings := None;
    }
  }

  method ReadFolder(root: Path, node: Node, parse: Parser) returns (layout: FolderLayout)
    ensures layout == AssessFolder(root, node, parse)
  {
    layout := Incomplete(root, false);
    var ok, files := CollectFiles(node, [], NOTHING);
    if !ok {
      return;
    }
    NothingAnd(Walk(node, []).value);
    if |files.configs| != 1 || |files.configs[0].route| != 1 {
      return;
    }
    var settings := ReadSettings(files.configs[0], parse);
    if settings.None? {
      return;
    }
    var allowJs := ReadAllowJs(settings.value, files.configs[0].route[0]);
    if allowJs.None? {
      return;
    }
    var scope := ReadScope(settings.value);
    layout := Incomplete(root, allowJs.value);
    if scope.None? {
      return;
    }
    layout := FolderLayout(root, "extends" !in settings.value.fields, allowJs.value, scope);
    if exists source | source in files.sources :: !layout.Has(source) {
      layout := layout.(complete := false);
    }
  }

  lemma NothingAnd(listing: Listing)
    ensures NOTHING.And(listing) == listing
  {}

  // --- The checks of one path ---------------------------------------------------------------

  /** The route to a path from the folder, unless it is outside or below a skipped directory. */
  function Inside(layout: FolderLayout, path: Path): Option<Route> {
    if layout.root <= path && Unskipped(path[|layout.root|..]) then Some(path[|layout.root|..]) else None
  }

  predicate IsConfigChange(layout: FolderLayout, path: Path) {
    Inside(layout, path).Some? && IsConfigFile(path)
  }

  predicate NewSourceOutside(layout: FolderLayout, path: Path) {
    && Inside(layout, path).Some? && !IsConfigFile(path) && IsSource(path)
    && var route := Inside(layout, path).value;
       !((!IsJavascript(path) || layout.allowJs) && layout.scope.Some?
         && ".." !in route && route != [] && layout.scope.value.TakesIn(Slashed(route)))
  }

  // --- What the assessment decides ----------------------------------------------------------

  /** The only configuration file of the folder, at its root. */
  ghost predicate IsOnlyConfig(node: Node, name: string, text: Option<string>) {
    && IsConfigBelow(node, [], [name], text)
    && forall route, other | IsConfigBelow(node, [], route, other) :: route == [name] && other == text
  }

  ghost predicate AllTakenIn(node: Node, project: FolderLayout) {
    forall route | IsSourceBelow(node, [], route) :: project.Has(route)
  }

  /** It is the only configuration file, can be read, and takes in every source. */
  ghost predicate IsProject(root: Path, node: Node, config: Config, parse: Parser)
    requires |config.route| == 1
  {
    var project := ReadProject(root, config, parse);
    IsOnlyConfig(node, config.route[0], config.text) && project.complete && AllTakenIn(node, project)
  }

  lemma OnlyConfigIsListed(node: Node, name: string, text: Option<string>)
    requires Walk(node, []).Some? && WellNamed(node)
    ensures IsOnlyConfig(node, name, text) <==> Walk(node, []).value.configs == [Config([name], text)]
  {
    var configs := Walk(node, []).value.configs;
    ConfigsAreDistinct(node, []);
    forall route, other ensures Config(route, other) in configs <==> IsConfigBelow(node, [], route, other) {
      WalkFinds(node, [], route, other);
    }
    if IsOnlyConfig(node, name, text) {
      forall c | c in configs ensures c == Config([name], text) {
        assert Config(c.route, c.text) == c;
      }
      assert Config([name], text) in configs;
      OnlyConfig([Config([name], text)], configs);
    }
  }

  /** A folder is complete exactly when it can be walked, a single configuration file lies below
      it, that file is at its root and can be read without `extends`, and it takes in every source. */
  lemma CompleteExactly(root: Path, node: Node, parse: Parser)
    requires WellNamed(node)
    ensures AssessFolder(root, node, parse).complete <==>
      Walk(node, []).Some? && exists name, text :: IsProject(root, node, Config([name], text), parse)
  {
    if Walk(node, []).Some? {
      var listing := Walk(node, []).value;
      forall route ensures route in listing.sources <==> IsSourceBelow(node, [], route) {
        WalkFinds(node, [], route, None);
      }
      forall name, text ensures IsOnlyConfig(node, name, text) <==> listing.configs == [Config([name], text)] {
        OnlyConfigIsListed(node, name, text);
      }
      if |listing.configs| == 1 && |listing.configs[0].route| == 1 {
        var c := listing.configs[0];
        assert c == Config([c.route[0]], c.text);
        assert listing.configs == [Config([c.route[0]], c.text)];
      }
    }
  }

  // --- The cheap check against the full one -------------------------------------------------

  ghost predicate SameConfigs(before: Node, now: Node) {
    forall route, text :: IsConfigBelow(before, [], route, text) <==> IsConfigBelow(now, [], route, text)
  }

  ghost predicate IsNewSource(before: Node, now: Node, route: Route) {
    IsSourceBelow(now, [], route) && !IsSourceBelow(before, [], route)
  }

  /** The cheap check of a source in the folder says that the project does not have it. */
  lemma OutsideIsNotHad(layout: FolderLayout, node: Node, route: Route)
    requires WellNamed(node) && IsSourceBelow(node, [], route)
    ensures Inside(layout, layout.root + route) == Some(route)
    ensures NewSourceOutside(layout, layout.root + route) <==> !layout.Has(route)
  {
    var path, last := layout.root + route, route[|route| - 1];
    assert route[0..] == route && path[|layout.root|..] == route && layout.root <= path;
    assert path[|path| - 1] == last;
    var text :| HasFile(node, route, text);
    RoutesAreWellNamed(node, route, File(text));
    assert IsSource([last]) == IsSource(route);
    if last in SKIPPED_DIRS {
      SkippedIsNoSource(last);
    }
    assert route == route[..|route| - 1] + [last];
  }

  lemma SkippedIsNoSource(name: string)
    requires name in SKIPPED_DIRS
    ensures !IsSource([name])
  {
    if name == ".git" {
      LeadingDotIsNoExtension("git");
      assert "." + "git" == name;
    } else {
      NoDotIsNoExtension(name);
    }
  }

  lemma {:induction false} NoDotIsNoExtension(name: string)
    requires '.' !in name
    ensures Extension(name).None?
  {
    if name != "" {
      NoDotIsNoExtension(name[..|name| - 1]);
    }
  }

  lemma {:induction false} LeadingDotIsNoExtension(rest: string)
    requires '.' !in rest
    ensures Extension("." + rest).None?
  {
    if rest != "" {
      LeadingDotIsNoExtension(rest[..|rest| - 1]);
      assert ("." + rest)[..|rest|] == "." + rest[..|rest| - 1];
    }
  }

  /** The layout of a folder with a single configuration file at its root. */
  lemma AssessedProject(root: Path, node: Node, name: string, text: Option<string>, parse: Parser)
    requires WellNamed(node) && Walk(node, []).Some? && IsOnlyConfig(node, name, text)
    ensures var project := ReadProject(root, Config([name], text), parse);
      AssessFolder(root, node, parse) == project.(complete := project.complete && AllTakenIn(node, project))
  {
    OnlyConfigIsListed(node, name, text);
    forall route ensures route in Walk(node, []).value.sources <==> IsSourceBelow(node, [], route) {
      WalkFinds(node, [], route, None);
    }
  }

  /** After sources came and went, the full re-read of a complete folder gives the layout as
      before, complete unless the cheap check refuses one of the new sources. */
  lemma ReassessedAfterSources(root: Path, before: Node, now: Node, parse: Parser)
    requires WellNamed(before) && WellNamed(now) && Walk(now, []).Some? && SameConfigs(before, now)
    requires AssessFolder(root, before, parse).complete
    ensures var was, current := AssessFolder(root, before, parse), AssessFolder(root, now, parse);
      && current == was.(complete := current.complete)
      && (current.complete <==> forall route | IsNewSource(before, now, route) :: !NewSourceOutside(was, root + route))
  {
    CompleteExactly(root, before, parse);
    var name, text :| IsProject(root, before, Config([name], text), parse);
    AssessedProject(root, before, name, text, parse);
    AssessedProject(root, now, name, text, parse);
    var project := ReadProject(root, Config([name], text), parse);
    assert AssessFolder(root, before, parse) == project && project.root == root;
    NewSourcesTakenIn(project, before, now);
  }

  lemma NewSourcesTakenIn(project: FolderLayout, before: Node, now: Node)
    requires WellNamed(now) && AllTakenIn(before, project)
    ensures AllTakenIn(now, project) <==>
      forall route | IsNewSource(before, now, route) :: !NewSourceOutside(project, project.root + route)
  {
    forall route | IsSourceBelow(now, [], route)
      ensures NewSourceOutside(project, project.root + route) <==> !project.Has(route)
    {
      OutsideIsNotHad(project, now, route);
    }
  }

  // --- The empty configuration --------------------------------------------------------------

  function Below(dirs: seq<string>): (patterns: seq<Pattern>)
    ensures |patterns| == |dirs| && forall i | 0 <= i < |dirs| :: patterns[i] == [dirs[i]] + ["**", "*"]
  {
    if dirs == [] then [] else [[dirs[0]] + ["**", "*"]] + Below(dirs[1..])
  }

  lemma {:induction false} DirectoriesCompile(dirs: seq<string>)
    requires forall dir | dir in dirs :: Plain(dir) && NamesDirectory(dir)
    ensures CompileAll(dirs) == Some(Below(dirs))
  {
    if dirs != [] {
      DirectoriesCompile(dirs[1..]);
      assert Plain(dirs[0]) && NamesDirectory(dirs[0]);
      CompileSlashed([dirs[0]]);
    }
  }

  lemma EverythingCompiles()
    ensures CompileAll(["**/*"]) == Some([["**", "*"]])
  {
    var segments: Pattern := ["**", "*"];
    assert segments[1..] == ["*"];
    assert Slashed(segments) == "**/*";
    assert segments[1][0] == '*';
    CompileSlashed(segments);
    CompileOne("**/*");
  }

  lemma CompileOne(pattern: string)
    requires Compile(pattern).Some?
    ensures CompileAll([pattern]) == Some([Compile(pattern).value])
  {
    var patterns := [pattern];
    assert patterns[1..] == [] && CompileAll([]) == Some([]);
    assert [Compile(pattern).value] + [] == [Compile(pattern).value];
  }

  predicate Lettered(name: string) { name != "" && forall c | c in name :: 'a' <= c <= 'z' || c == '_' }

  lemma LetteredIsDirectory(name: string)
    requires Lettered(name)
    ensures Plain(name) && NamesDirectory(name)
  {
    assert '.' !in name;
    assert "."[0] == '.' && ".."[0] == '.';
  }

  lemma PackageDirectories(dir: string)
    requires dir in DEFAULT_EXCLUDE
    ensures Plain(dir) && NamesDirectory(dir)
  {
    assert Lettered("node_modules");
    assert Lettered("bower_components");
    assert Lettered("jspm_packages");
    LetteredIsDirectory(dir);
  }

  /** `{}` */
  const EMPTY := Object(map[])

  /** The scope of a configuration that writes no `files`, no `include` and these directories as
      its `exclude`. */
  function EverythingBut(dirs: seq<string>): ProjectScope { ProjectScope([], [["**", "*"]], Below(dirs)) }

  lemma DefaultsAreDirectories()
    ensures forall dir | dir in DEFAULT_EXCLUDE :: Plain(dir) && NamesDirectory(dir)
  {
    forall dir | dir in DEFAULT_EXCLUDE ensures Plain(dir) && NamesDirectory(dir) {
      PackageDirectories(dir);
    }
  }

  lemma ScopeOfEmpty(excluded: seq<Pattern>)
    requires CompileAll(DEFAULT_EXCLUDE) == Some(excluded)
    ensures ReadScope(EMPTY) == Some(ProjectScope([], [["**", "*"]], excluded))
  {
    EverythingCompiles();
    assert ListOf(EMPTY, "files") == Some(None) && ListOf(EMPTY, "include") == Some(None) && ListOf(EMPTY, "exclude") == Some(None);
    assert CompilerOption(EMPTY, "outDir") == Some(None);
  }

  /** The configuration `{}` takes in everything but the package directories. */
  lemma EmptyScope()
    ensures ReadScope(EMPTY) == Some(EverythingBut(DEFAULT_EXCLUDE))
  {
    DefaultsAreDirectories();
    DirectoriesCompile(DEFAULT_EXCLUDE);
    ScopeOfEmpty(Below(DEFAULT_EXCLUDE));
  }

  lemma ExcludedBelow(dirs: seq<string>, route: Route)
    requires forall dir | dir in dirs :: !HasWildcard(dir)
    requires route != [] && NoneDotted(route[..|route| - 1]) && Eligible(route[|route| - 1])
    ensures (exists pattern | pattern in Below(dirs) :: Excludes(pattern, route)) <==> |route| > 1 && route[0] in dirs
  {
    forall i | 0 <= i < |dirs|
      ensures Excludes(Below(dirs)[i], route) <==> |route| > 1 && route[0] == dirs[i]
    {
      DirectoryExcludesEligible([dirs[i]], route);
      assert |route| > 1 ==> NoneDotted(route[1..|route| - 1]);
    }
    if |route| > 1 && route[0] in dirs {
      var i :| 0 <= i < |dirs| && dirs[i] == route[0];
      assert Below(dirs)[i] in Below(dirs);
    }
  }

  /** It takes in a source exactly when no directory on the way is dotted, the name is neither
      dotted nor minified, and the source is not below one of the directories. */
  lemma EverythingButBelow(dirs: seq<string>, route: Route)
    requires route != [] && Names(route) && Slashed(route) != ""
    requires forall dir | dir in dirs :: Plain(dir) && NamesDirectory(dir)
    ensures EverythingBut(dirs).TakesIn(Slashed(route)) <==>
      && NoneDotted(route[..|route| - 1]) && Eligible(route[|route| - 1])
      && !(|route| > 1 && route[0] in dirs)
  {
    SplitSlashed(route);
    TakesInByOne(["**", "*"], Below(dirs), Slashed(route));
    EverythingBelow(route);
    if Matches(["**", "*"], route) {
      ExcludedBelow(dirs, route);
    }
  }

  lemma TakesInByOne(pattern: Pattern, excluded: seq<Pattern>, source: string)
    ensures ProjectScope([], [pattern], excluded).TakesIn(source) <==>
      && source != "" && Matches(pattern, Split(source))
      && !exists other | other in excluded :: Excludes(other, Split(source))
  {
    assert ProjectScope([], [pattern], excluded).included[0] == pattern;
  }

  // --- A complete folder --------------------------------------------------------------------

  /** A folder that holds nothing but a `tsconfig.json`. */
  function ConfigFolder(text: string): Node { Dir([Entry("tsconfig.json", File(Some(text)))]) }

  lemma ConfigFolderIsWalked(text: string)
    ensures WellNamed(ConfigFolder(text))
    ensures Walk(ConfigFolder(text), []) == Some(Listing([Config(["tsconfig.json"], Some(text))], []))
  {
    var entries := ConfigFolder(text).entries;
    assert entries[..0] == [];
    assert [] + ["tsconfig.json"] == ["tsconfig.json"];
    assert IsConfigFile(["tsconfig.json"]);
    var listing := FileListing(["tsconfig.json"], Some(text));
    assert WalkEntry("tsconfig.json", entries[0].node, []) == Some(listing);
    EntriesStep(entries, 0, []);
    NothingAnd(listing);
    assert entries[..1] == entries;
    assert |"tsconfig.json"| != |".."|;
    assert WellNamedEntries(entries[..0]) && WellNamed(entries[0].node);
  }

  lemma EmptyProject(root: Path, config: Config, parse: Parser, scope: ProjectScope)
    requires config.route != [] && Settings(config, parse) == Some(EMPTY) && ReadScope(EMPTY) == Some(scope)
    ensures ReadProject(root, config, parse) == FolderLayout(root, true, config.route[0] == "jsconfig.json", Some(scope))
  {
    assert CompilerOption(EMPTY, "allowJs") == Some(None);
  }

  /** It is complete whenever its text is stripped and parsed to `{}`. */
  lemma ConfigFolderIsComplete(root: Path, text: string, parse: Parser)
    requires Settings(Config(["tsconfig.json"], Some(text)), parse) == Some(EMPTY)
    ensures AssessFolder(root, ConfigFolder(text), parse).complete
  {
    ConfigFolderIsWalked(text);
    EmptyScope();
    EmptyProject(root, Config(["tsconfig.json"], Some(text)), parse, EverythingBut(DEFAULT_EXCLUDE));
  }
}
