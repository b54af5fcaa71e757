/** What a TypeScript configuration takes in, told by the entries of its JSON alone, and when a folder
    is complete, told by the configuration and the files (src/adapter/typescript_layout.rs). */
module LayoutSettings {
  import opened Wrappers
  import opened Jsons
  import opened Utf8s
  import opened FileTrees
  import opened Progresses
  import opened Patterns
  import opened Layouts
  import Jsoncs

  // --- An entry without its decoration ------------------------------------------------------

  predicate AllWhite(text: string) { forall c | c in text :: IsWhitespace(c) }

  /** "./" any number of times. */
  predicate IsDots(text: string) {
    |text| % 2 == 0 && forall i | 0 <= i < |text| :: text[i] == if i % 2 == 0 then '.' else '/'
  }

  predicate Tight(text: string) { text != "" ==> !IsWhitespace(text[0]) && !IsWhitespace(text[|text| - 1]) }

  predicate IsDecorated(entry: string, before: string, dots: string, name: string, after: string) {
    && entry == before + (dots + name) + after
    && AllWhite(before) && IsDots(dots) && !("./" <= name) && Tight(dots + name) && AllWhite(after)
  }

  /** `name` is what is left of the entry without white space around it and "./" before it. */
  ghost predicate Normalizes(entry: string, name: string) {
    exists before, dots, after :: IsDecorated(entry, before, dots, name, after)
  }

  lemma {:induction false} TrimStartSplits(text: string) returns (before: string)
    ensures text == before + TrimStart(text) && AllWhite(before)
    ensures TrimStart(text) != "" ==> !IsWhitespace(TrimStart(text)[0])
  {
    before := "";
    if text != "" && IsWhitespace(text[0]) {
      var rest := TrimStartSplits(text[1..]);
      before := [text[0]] + rest;
      assert before + TrimStart(text) == [text[0]] + text[1..];
    }
  }

  lemma {:induction false} TrimEndSplits(text: string) returns (after: string)
    ensures text == TrimEnd(text) + after && AllWhite(after)
    ensures TrimEnd(text) != "" ==> !IsWhitespace(TrimEnd(text)[|TrimEnd(text)| - 1])
  {
    after := "";
    if text != "" && IsWhitespace(text[|text| - 1]) {
      var rest := TrimEndSplits(text[..|text| - 1]);
      after := rest + [text[|text| - 1]];
      assert TrimEnd(text) + after == text[..|text| - 1] + [text[|text| - 1]];
    }
  }

  lemma {:induction false} DotsSplit(text: string) returns (dots: string)
    ensures text == dots + WithoutDots(text) && IsDots(dots) && !("./" <= WithoutDots(text))
  {
    dots := "";
    if "./" <= text {
      var rest := DotsSplit(text[2..]);
      dots := "./" + rest;
      assert forall i | 2 <= i < |dots| :: dots[i] == rest[i - 2];
      assert dots + WithoutDots(text) == text[..2] + text[2..];
    }
  }

  lemma {:induction false} TrimStartUndoes(before: string, rest: string)
    requires AllWhite(before) && (rest != "" ==> !IsWhitespace(rest[0]))
    ensures TrimStart(before + rest) == rest
  {
    if before == "" {
      assert before + rest == rest;
    } else {
      assert (before + rest)[1..] == before[1..] + rest;
      TrimStartUndoes(before[1..], rest);
    }
  }

  lemma {:induction false} TrimEndUndoes(rest: string, after: string)
    requires AllWhite(after) && (rest != "" ==> !IsWhitespace(rest[|rest| - 1]))
    ensures TrimEnd(rest + after) == rest
  {
    if after == "" {
      assert rest + after == rest;
    } else {
      assert (rest + after)[..|rest + after| - 1] == rest + after[..|after| - 1];
      TrimEndUndoes(rest, after[..|after| - 1]);
    }
  }

  lemma {:induction false} DotsUndone(dots: string, name: string)
    requires IsDots(dots) && !("./" <= name)
    ensures WithoutDots(dots + name) == name
  {
    if dots == "" {
      assert dots + name == name;
    } else {
      assert (dots + name)[2..] == dots[2..] + name;
      assert forall i | 0 <= i < |dots[2..]| :: dots[2..][i] == dots[i + 2];
      DotsUndone(dots[2..], name);
    }
  }

  lemma TrimSplits(entry: string) returns (before: string, after: string)
    ensures var core := TrimEnd(TrimStart(entry));
      entry == before + core + after && AllWhite(before) && Tight(core) && AllWhite(after)
  {
    before := TrimStartSplits(entry);
    after := TrimEndSplits(TrimStart(entry));
    SplitsAgree(before, TrimStart(entry), TrimEnd(TrimStart(entry)), after);
  }

  lemma SplitsAgree(before: string, start: string, core: string, after: string)
    requires start == core + after
    ensures before + start == before + core + after
    ensures core != "" ==> core[0] == start[0]
  {}

  lemma NormalizedIsLeft(entry: string)
    ensures Normalizes(entry, Normalized(entry))
  {
    var before, after := TrimSplits(entry);
    var dots := DotsSplit(TrimEnd(TrimStart(entry)));
    assert IsDecorated(entry, before, dots, Normalized(entry), after);
  }

  lemma LeftIsNormalized(entry: string, before: string, dots: string, name: string, after: string)
    requires IsDecorated(entry, before, dots, name, after)
    ensures Normalized(entry) == name
  {
    assert entry == before + ((dots + name) + after);
    DecorationIsTrimmed(before, dots + name, after);
    DotsUndone(dots, name);
  }

  /** The normalizer leaves exactly that. */
  lemma NormalizedExactly(entry: string, name: string)
    ensures Normalized(entry) == name <==> Normalizes(entry, name)
  {
    NormalizedIsLeft(entry);
    if Normalizes(entry, name) {
      var before, dots, after :| IsDecorated(entry, before, dots, name, after);
      LeftIsNormalized(entry, before, dots, name, after);
    }
  }

  lemma DecorationIsTrimmed(before: string, core: string, after: string)
    requires AllWhite(before) && Tight(core) && AllWhite(after)
    ensures TrimEnd(TrimStart(before + (core + after))) == core
  {
    if core == "" {
      assert before + (core + after) == (before + after) + "";
      TrimStartUndoes(before + after, "");
    } else {
      TrimStartUndoes(before, core + after);
      TrimEndUndoes(core, after);
    }
  }

  // --- The pattern of an entry --------------------------------------------------------------

  /** The pieces but empty ones and ".", in order. */
  function Kept(pieces: seq<string>): seq<string> {
    Flatten(seq(|pieces|, i requires 0 <= i < |pieces| => if pieces[i] == "" || pieces[i] == "." then [] else [pieces[i]]))
  }

  predicate IsPatternOf(pieces: seq<string>, pattern: Pattern) {
    var kept := Kept(pieces);
    && kept != [] && ".." !in kept
    && var last := kept[|kept| - 1];
       pattern == if '*' in last || '?' in last || '.' in last then kept else kept + ["**", "*"]
  }

  /** A relative path without backslashes and "..": the names between its slashes, and everything below
      when the last one has neither a wildcard nor an extension. */
  ghost predicate CompilesTo(name: string, pattern: Pattern) {
    && name != "" && name[0] != '/' && '\\' !in name
    && exists pieces :: pieces != [] && Names(pieces) && Slashed(pieces) == name && IsPatternOf(pieces, pattern)
  }

  lemma {:induction false} NamedIsKept(pieces: seq<string>)
    ensures Named(pieces) == Kept(pieces)
  {
    if pieces != [] {
      NamedIsKept(pieces[1..]);
      var all := seq(|pieces|, i requires 0 <= i < |pieces| => if pieces[i] == "" || pieces[i] == "." then [] else [pieces[i]]);
      var rest := pieces[1..];
      assert all[1..] == seq(|rest|, i requires 0 <= i < |rest| => if rest[i] == "" || rest[i] == "." then [] else [rest[i]]);
    }
  }

  lemma ExpandedExactly(segments: seq<string>)
    requires segments != []
    ensures var last := segments[|segments| - 1];
      Expanded(segments) == if '*' in last || '?' in last || '.' in last then segments else segments + ["**", "*"]
  {}

  lemma CompileOf(name: string, pieces: seq<string>, pattern: Pattern)
    requires name != "" && name[0] != '/' && '\\' !in name
    requires pieces != [] && Names(pieces) && Slashed(pieces) == name
    ensures Compile(name) == Some(pattern) <==> IsPatternOf(pieces, pattern)
  {
    SplitSlashed(pieces);
    NamedIsKept(pieces);
    assert Components(name) == Kept(pieces);
    if Kept(pieces) != [] {
      ExpandedExactly(Kept(pieces));
    }
  }

  /** The compiler computes exactly that pattern, and nothing for any other text. */
  lemma CompileExactly(name: string, pattern: Pattern)
    ensures Compile(name) == Some(pattern) <==> CompilesTo(name, pattern)
  {
    if name != "" && name[0] != '/' && '\\' !in name {
      SlashedSplit(name);
      CompileOf(name, Split(name), pattern);
      forall pieces | pieces != [] && Names(pieces) && Slashed(pieces) == name && IsPatternOf(pieces, pattern)
        ensures Compile(name) == Some(pattern)
      {
        CompileOf(name, pieces, pattern);
      }
    }
  }

  // --- What the settings say ----------------------------------------------------------------

  /** A list of the settings that is written has an entry. */
  predicate Lists(settings: Json, key: string, entry: string) {
    settings.Object? && key in settings.fields && settings.fields[key].Array? && Str(entry) in settings.fields[key].items
  }

  /** It is not written, or is an array of strings. */
  predicate ListIsReadable(settings: Json, key: string) {
    settings.Object? && (key in settings.fields ==>
      settings.fields[key].Array? && forall item | item in settings.fields[key].items :: item.Str?)
  }

  predicate Writes(settings: Json, key: string) { settings.Object? && key in settings.fields }

  predicate WritesOption(settings: Json, key: string) {
    && Writes(settings, "compilerOptions") && settings.fields["compilerOptions"].Object?
    && key in settings.fields["compilerOptions"].fields
  }

  function Option(settings: Json, key: string): Json
    requires WritesOption(settings, key)
  {
    settings.fields["compilerOptions"].fields[key]
  }

  predicate OptionsAreReadable(settings: Json) {
    Writes(settings, "compilerOptions") ==> settings.fields["compilerOptions"].Object?
  }

  /** What an entry stands for as a pattern. */
  ghost predicate StandsFor(entry: string, pattern: Pattern) {
    exists name :: Normalizes(entry, name) && CompilesTo(name, pattern)
  }

  ghost predicate Stands(entry: string) { exists pattern :: StandsFor(entry, pattern) }

  // --- Which sources the settings take in ---------------------------------------------------

  ghost predicate IsListed(settings: Json, source: string) {
    exists entry :: Lists(settings, "files", entry) && Normalizes(entry, source)
  }

  ghost predicate EntryCovers(settings: Json, key: string, entry: string, path: Path) {
    Lists(settings, key, entry) && exists pattern :: StandsFor(entry, pattern) && IsCovered(pattern, path)
  }

  /** By an `include` entry; without `include`, everything but what is dotted or minified, unless `files` is
      written. */
  ghost predicate IsIncluded(settings: Json, path: Path) {
    if Writes(settings, "include") then exists entry :: EntryCovers(settings, "include", entry, path)
    else !Writes(settings, "files") && path != [] && NoneDotted(path[..|path| - 1]) && Eligible(path[|path| - 1])
  }

  const PACKAGES := {"node_modules", "bower_components", "jspm_packages"}

  /** Below a package directory, from an undotted and unminified name on. */
  ghost predicate BelowPackages(path: Path) {
    path != [] && path[0] in PACKAGES && exists k | 1 <= k < |path| :: NoneDotted(path[1..k]) && Eligible(path[k])
  }

  ghost predicate OutDirCovers(settings: Json, path: Path) {
    && WritesOption(settings, "outDir") && Option(settings, "outDir").Str?
    && exists pattern :: StandsFor(Option(settings, "outDir").s, pattern) && IsCovered(pattern, path)
  }

  /** By an `exclude` entry that covers it or a directory on the way; without `exclude`, by a package
      directory or the `outDir`. */
  ghost predicate IsExcluded(settings: Json, path: Path) {
    if Writes(settings, "exclude") then
      exists entry, end | 1 <= end <= |path| :: EntryCovers(settings, "exclude", entry, path[..end])
    else BelowPackages(path) || exists end | 1 <= end <= |path| :: OutDirCovers(settings, path[..end])
  }

  ghost predicate ConfigTakes(settings: Json, source: string) {
    source != "" && (IsListed(settings, source) || (IsIncluded(settings, Split(source)) && !IsExcluded(settings, Split(source))))
  }

  /** All that decides can be read: the three lists, each pattern, and the `outDir` where it counts. */
  ghost predicate ScopeIsReadable(settings: Json) {
    && ListIsReadable(settings, "files") && ListIsReadable(settings, "include") && ListIsReadable(settings, "exclude")
    && (forall entry | Lists(settings, "include", entry) :: Stands(entry))
    && (forall entry | Lists(settings, "exclude", entry) :: Stands(entry))
    && (!Writes(settings, "exclude") ==> DefaultIsReadable(settings))
  }

  ghost predicate DefaultIsReadable(settings: Json) {
    && OptionsAreReadable(settings)
    && (WritesOption(settings, "outDir") ==> Option(settings, "outDir").Str? && Stands(Option(settings, "outDir").s))
  }

  lemma {:induction false} NormalizedEach(items: seq<Json>)
    requires forall item | item in items :: item.Str?
    ensures |NormalizedAll(items)| == |items|
    ensures forall i | 0 <= i < |items| :: NormalizedAll(items)[i] == Normalized(items[i].s)
  {
    if items != [] {
      NormalizedEach(items[1..]);
    }
  }

  lemma {:induction false} CompiledAt(names: seq<string>, i: nat)
    requires CompileAll(names).Some? && i < |names|
    ensures |CompileAll(names).value| == |names| && Compile(names[i]) == Some(CompileAll(names).value[i])
  {
    if i > 0 {
      CompiledAt(names[1..], i - 1);
    } else if |names| > 1 {
      CompiledAt(names[1..], 0);
    }
  }

  lemma CompiledLength(names: seq<string>)
    requires CompileAll(names).Some?
    ensures |CompileAll(names).value| == |names|
  {
    if names != [] {
      CompiledAt(names, 0);
    }
  }

  lemma {:induction false} NotCompiledAt(names: seq<string>) returns (i: nat)
    requires CompileAll(names).None?
    ensures i < |names| && Compile(names[i]).None?
  {
    if Compile(names[0]).None? {
      i := 0;
    } else {
      var j := NotCompiledAt(names[1..]);
      i := j + 1;
    }
  }

  lemma StandsForExactly(entry: string, pattern: Pattern)
    ensures StandsFor(entry, pattern) <==> Compile(Normalized(entry)) == Some(pattern)
  {
    NormalizedExactly(entry, Normalized(entry));
    CompileExactly(Normalized(entry), pattern);
    forall name | Normalizes(entry, name) ensures name == Normalized(entry) {
      NormalizedExactly(entry, name);
    }
  }

  lemma StandsExactly(entry: string)
    ensures Stands(entry) <==> Compile(Normalized(entry)).Some?
  {
    forall pattern ensures StandsFor(entry, pattern) <==> Compile(Normalized(entry)) == Some(pattern) {
      StandsForExactly(entry, pattern);
    }
    if Compile(Normalized(entry)).Some? {
      assert StandsFor(entry, Compile(Normalized(entry)).value);
    }
  }

  lemma ListOfExactly(settings: Json, key: string)
    requires settings.Object?
    ensures ListOf(settings, key).Some? <==> ListIsReadable(settings, key)
    ensures ListIsReadable(settings, key) ==> (ListOf(settings, key).value.Some? <==> Writes(settings, key))
    ensures ListIsReadable(settings, key) && Writes(settings, key) ==>
      ListOf(settings, key).value.value == NormalizedAll(settings.fields[key].items)
  {}

  /** What the reader has of a list that is written. */
  lemma ListIsRead(settings: Json, key: string)
    requires ListIsReadable(settings, key) && Writes(settings, key)
    ensures var items, names := settings.fields[key].items, ListOf(settings, key).value.value;
      && ListOf(settings, key).Some? && ListOf(settings, key).value.Some?
      && |names| == |items|
      && forall i | 0 <= i < |items| ::
           items[i] == Str(items[i].s) && Lists(settings, key, items[i].s) && names[i] == Normalized(items[i].s)
  {
    var items := settings.fields[key].items;
    NormalizedEach(items);
    forall i | 0 <= i < |items| ensures items[i] == Str(items[i].s) && Lists(settings, key, items[i].s) {
      assert items[i] in items;
    }
  }

  /** A pattern of the list that matches is one that an entry stands for and that covers. */
  lemma MatchIsCovered(settings: Json, key: string, path: Path, i: nat)
    requires ListIsReadable(settings, key) && Writes(settings, key) && CompileAll(ListOf(settings, key).value.value).Some?
    requires i < |CompileAll(ListOf(settings, key).value.value).value|
    requires Matches(CompileAll(ListOf(settings, key).value.value).value[i], path)
    ensures exists entry :: EntryCovers(settings, key, entry, path)
  {
    var names := ListOf(settings, key).value.value;
    ListIsRead(settings, key);
    CompiledLength(names);
    CompiledAt(names, i);
    var pattern, entry := CompileAll(names).value[i], settings.fields[key].items[i].s;
    StandsForExactly(entry, pattern);
    MatchesIsCovering(pattern, path);
    assert EntryCovers(settings, key, entry, path);
  }

  lemma CoveredIsMatch(settings: Json, key: string, path: Path, entry: string)
    requires ListIsReadable(settings, key) && Writes(settings, key) && CompileAll(ListOf(settings, key).value.value).Some?
    requires EntryCovers(settings, key, entry, path)
    ensures exists pattern | pattern in CompileAll(ListOf(settings, key).value.value).value :: Matches(pattern, path)
  {
    var names := ListOf(settings, key).value.value;
    ListIsRead(settings, key);
    var pattern :| StandsFor(entry, pattern) && IsCovered(pattern, path);
    var i :| 0 <= i < |names| && settings.fields[key].items[i] == Str(entry);
    CompiledAt(names, i);
    StandsForExactly(entry, pattern);
    MatchesIsCovering(pattern, path);
    assert CompileAll(names).value[i] == pattern;
  }

  lemma OneMatches(settings: Json, key: string, path: Path)
    requires ListIsReadable(settings, key) && Writes(settings, key) && CompileAll(ListOf(settings, key).value.value).Some?
    ensures (exists pattern | pattern in CompileAll(ListOf(settings, key).value.value).value :: Matches(pattern, path))
      <==> exists entry :: EntryCovers(settings, key, entry, path)
  {
    var patterns := CompileAll(ListOf(settings, key).value.value).value;
    if pattern :| pattern in patterns && Matches(pattern, path) {
      var i :| 0 <= i < |patterns| && patterns[i] == pattern;
      MatchIsCovered(settings, key, path, i);
    }
    if entry :| EntryCovers(settings, key, entry, path) {
      CoveredIsMatch(settings, key, path, entry);
    }
  }

  lemma ListedExactly(settings: Json, source: string)
    requires ListIsReadable(settings, "files")
    ensures source in ListOf(settings, "files").value.GetOr([]) <==> IsListed(settings, source)
  {
    ListOfExactly(settings, "files");
    if Writes(settings, "files") {
      ListIsRead(settings, "files");
      var items, names := settings.fields["files"].items, ListOf(settings, "files").value.value;
      if source in names {
        var i :| 0 <= i < |items| && names[i] == source;
        NormalizedExactly(items[i].s, source);
        assert Lists(settings, "files", items[i].s);
      }
      if entry :| Lists(settings, "files", entry) && Normalizes(entry, source) {
        var i :| 0 <= i < |items| && items[i] == Str(entry);
        NormalizedExactly(entry, source);
        assert names[i] == source;
      }
    }
  }

  lemma AllCompileExactly(settings: Json, key: string)
    requires ListIsReadable(settings, key) && Writes(settings, key)
    ensures CompileAll(ListOf(settings, key).value.value).Some? <==> forall entry | Lists(settings, key, entry) :: Stands(entry)
  {
    ListIsRead(settings, key);
    var items, names := settings.fields[key].items, ListOf(settings, key).value.value;
    if CompileAll(names).Some? {
      forall entry | Lists(settings, key, entry) ensures Stands(entry) {
        var i :| 0 <= i < |items| && items[i] == Str(entry);
        CompiledAt(names, i);
        StandsExactly(entry);
      }
    } else {
      var i := NotCompiledAt(names);
      StandsExactly(items[i].s);
      assert Lists(settings, key, items[i].s);
    }
  }

  // --- The default exclusion ----------------------------------------------------------------

  function OutDirNames(settings: Json): seq<string> {
    if WritesOption(settings, "outDir") && Option(settings, "outDir").Str? then [Normalized(Option(settings, "outDir").s)] else []
  }

  lemma DefaultExcludeExactly(settings: Json)
    requires settings.Object?
    ensures DefaultExclude(settings).Some? <==>
      OptionsAreReadable(settings) && (WritesOption(settings, "outDir") ==> Option(settings, "outDir").Str?)
    ensures DefaultExclude(settings).Some? ==> DefaultExclude(settings).value == DEFAULT_EXCLUDE + OutDirNames(settings)
  {}

  /** One more entry is compiled last. */
  lemma {:induction false} CompileOneMore(names: seq<string>, name: string)
    requires CompileAll(names).Some?
    ensures CompileAll(names + [name]) ==
      if Compile(name).None? then None else Some(CompileAll(names).value + [Compile(name).value])
  {
    var all := names + [name];
    if names == [] {
      assert all == [name] && all[1..] == [] && CompileAll([]) == Some([]);
      if Compile(name).Some? {
        CompileOne(name);
        assert [] + [Compile(name).value] == [Compile(name).value];
      }
    } else {
      assert all[1..] == names[1..] + [name] && all[0] == names[0];
      CompileOneMore(names[1..], name);
      FirstOfThree(Compile(names[0]).value, CompileAll(names[1..]).value, Compile(name).GetOr([]));
    }
  }

  lemma FirstOfThree<T>(first: T, rest: seq<T>, last: T)
    ensures [first] + (rest + [last]) == [first] + rest + [last]
  {}

  predicate BelowPackage(dir: string, path: Path) {
    path != [] && path[0] == dir && exists k | 1 <= k < |path| :: NoneDotted(path[1..k]) && Eligible(path[k])
  }

  lemma PackageExcludes(dir: string, path: Path)
    requires dir in DEFAULT_EXCLUDE
    ensures Excludes([dir] + ["**", "*"], path) <==> BelowPackage(dir, path)
  {
    PackageDirectories(dir);
    DirectoryExcludesEligible([dir], path);
  }

  lemma PackagesExclude(path: Path)
    ensures (exists pattern | pattern in Below(DEFAULT_EXCLUDE) :: Excludes(pattern, path)) <==> BelowPackages(path)
  {
    var dirs, patterns := DEFAULT_EXCLUDE, Below(DEFAULT_EXCLUDE);
    AmongPackages(path);
    if pattern :| pattern in patterns && Excludes(pattern, path) {
      var i :| 0 <= i < |patterns| && patterns[i] == pattern;
      PackageExcludes(dirs[i], path);
    }
    if BelowPackages(path) {
      var i :| 0 <= i < |dirs| && path[0] == dirs[i];
      PackageExcludes(dirs[i], path);
      assert patterns[i] in patterns;
    }
  }

  lemma AmongPackages(path: Path)
    ensures path != [] ==> (path[0] in PACKAGES <==> exists i | 0 <= i < |DEFAULT_EXCLUDE| :: path[0] == DEFAULT_EXCLUDE[i])
  {
    assert DEFAULT_EXCLUDE[0] == "node_modules" && DEFAULT_EXCLUDE[1] == "bower_components" && DEFAULT_EXCLUDE[2] == "jspm_packages";
  }

  lemma PackagesCompile()
    ensures CompileAll(DEFAULT_EXCLUDE) == Some(Below(DEFAULT_EXCLUDE))
  {
    DefaultsAreDirectories();
    DirectoriesCompile(DEFAULT_EXCLUDE);
  }

  /** The pattern of the `outDir`, if it is written. */
  function OutDirPatterns(settings: Json): seq<Pattern> {
    if WritesOption(settings, "outDir") && Option(settings, "outDir").Str?
    then [Compile(Normalized(Option(settings, "outDir").s)).GetOr([])] else []
  }

  /** With the package directories `dirs`, what the reader excludes when nothing is written. */
  lemma DefaultIsRead(settings: Json, dirs: seq<string>, excluded: seq<Pattern>)
    requires settings.Object? && CompileAll(dirs) == Some(excluded)
    requires DefaultExclude(settings).Some? ==> DefaultExclude(settings).value == dirs + OutDirNames(settings)
    ensures (if DefaultExclude(settings).None? then None else CompileAll(DefaultExclude(settings).value)) ==
      if DefaultIsReadable(settings) then Some(excluded + OutDirPatterns(settings)) else None
  {
    DefaultExcludeExactly(settings);
    if WritesOption(settings, "outDir") && Option(settings, "outDir").Str? {
      CompileOneMore(dirs, Normalized(Option(settings, "outDir").s));
      StandsExactly(Option(settings, "outDir").s);
    } else {
      assert dirs + [] == dirs && excluded + [] == excluded;
    }
  }

  lemma OutDirExcludes(settings: Json, path: Path)
    requires DefaultIsReadable(settings)
    ensures (exists pattern | pattern in OutDirPatterns(settings) :: Excludes(pattern, path))
      <==> exists end | 1 <= end <= |path| :: OutDirCovers(settings, path[..end])
  {
    if WritesOption(settings, "outDir") {
      var pattern := OutDirPatterns(settings)[0];
      forall end | 1 <= end <= |path| ensures Matches(pattern, path[..end]) <==> OutDirCovers(settings, path[..end]) {
        OutDirMatches(settings, path[..end]);
      }
      assert pattern in OutDirPatterns(settings);
    }
  }

  lemma OutDirMatches(settings: Json, path: Path)
    requires DefaultIsReadable(settings) && WritesOption(settings, "outDir")
    ensures Matches(OutDirPatterns(settings)[0], path) <==> OutDirCovers(settings, path)
  {
    var entry, pattern := Option(settings, "outDir").s, OutDirPatterns(settings)[0];
    StandsExactly(entry);
    MatchesIsCovering(pattern, path);
    StandsForExactly(entry, pattern);
    forall other | StandsFor(entry, other) ensures other == pattern {
      StandsForExactly(entry, other);
    }
  }

  /** What the reader excludes when nothing is written is what is excluded by default. */
  lemma DefaultExcludes(settings: Json, path: Path)
    requires DefaultIsReadable(settings)
    ensures (exists pattern | pattern in Below(DEFAULT_EXCLUDE) + OutDirPatterns(settings) :: Excludes(pattern, path))
      <==> BelowPackages(path) || exists end | 1 <= end <= |path| :: OutDirCovers(settings, path[..end])
  {
    PackagesExclude(path);
    OutDirExcludes(settings, path);
    InEither(Below(DEFAULT_EXCLUDE), OutDirPatterns(settings), path);
  }

  lemma InEither(a: seq<Pattern>, b: seq<Pattern>, path: Path)
    ensures (exists pattern | pattern in a + b :: Excludes(pattern, path)) <==>
      (exists pattern | pattern in a :: Excludes(pattern, path)) || (exists pattern | pattern in b :: Excludes(pattern, path))
  {}

  // --- The scope is what the settings say ---------------------------------------------------

  /** The three parts that the reader compiles. */
  function IncludeNames(settings: Json): Option<seq<string>>
    requires settings.Object?
  {
    if ListOf(settings, "include").None? then None
    else Some(ListOf(settings, "include").value.GetOr(if Writes(settings, "files") then [] else ["**/*"]))
  }

  function ExcludeNames(settings: Json): Option<seq<string>>
    requires settings.Object?
  {
    if ListOf(settings, "exclude").None? then None
    else if ListOf(settings, "exclude").value.Some? then ListOf(settings, "exclude").value
    else DefaultExclude(settings)
  }

  function Compiled(names: Option<seq<string>>): Option<seq<Pattern>> {
    if names.None? then None else CompileAll(names.value)
  }

  lemma IncludeIsRead(settings: Json, path: Path)
    requires settings.Object? && ListIsReadable(settings, "include")
    ensures var included := Compiled(IncludeNames(settings));
      && (included.Some? <==> forall entry | Lists(settings, "include", entry) :: Stands(entry))
      && (included.Some? ==> ((exists pattern | pattern in included.value :: Matches(pattern, path)) <==> IsIncluded(settings, path)))
  {
    ListOfExactly(settings, "include");
    if Writes(settings, "include") {
      AllCompileExactly(settings, "include");
      if Compiled(IncludeNames(settings)).Some? {
        OneMatches(settings, "include", path);
      }
    } else if !Writes(settings, "files") {
      EverythingCompiles();
      EverythingBelow(path);
      assert [["**", "*"]][0] == ["**", "*"];
    }
  }

  lemma ExcludeEntries(settings: Json, path: Path)
    requires ListIsReadable(settings, "exclude") && Writes(settings, "exclude")
    requires CompileAll(ListOf(settings, "exclude").value.value).Some?
    ensures (exists pattern | pattern in CompileAll(ListOf(settings, "exclude").value.value).value :: Excludes(pattern, path))
      <==> exists entry, end | 1 <= end <= |path| :: EntryCovers(settings, "exclude", entry, path[..end])
  {
    var patterns := CompileAll(ListOf(settings, "exclude").value.value).value;
    forall end | 1 <= end <= |path|
      ensures (exists pattern | pattern in patterns :: Matches(pattern, path[..end]))
        <==> exists entry :: EntryCovers(settings, "exclude", entry, path[..end])
    {
      OneMatches(settings, "exclude", path[..end]);
    }
    if pattern :| pattern in patterns && Excludes(pattern, path) {
      var end :| 1 <= end <= |path| && Matches(pattern, path[..end]);
      assert exists entry :: EntryCovers(settings, "exclude", entry, path[..end]);
    }
    if entry, end :| 1 <= end <= |path| && EntryCovers(settings, "exclude", entry, path[..end]) {
      var pattern :| pattern in patterns && Matches(pattern, path[..end]);
      assert Excludes(pattern, path);
    }
  }

  lemma ExcludeIsRead(settings: Json, path: Path)
    requires settings.Object? && ListIsReadable(settings, "exclude")
    ensures var excluded := Compiled(ExcludeNames(settings));
      && (excluded.Some? <==>
            (forall entry | Lists(settings, "exclude", entry) :: Stands(entry))
            && (!Writes(settings, "exclude") ==> DefaultIsReadable(settings)))
      && (excluded.Some? ==> ((exists pattern | pattern in excluded.value :: Excludes(pattern, path)) <==> IsExcluded(settings, path)))
  {
    ListOfExactly(settings, "exclude");
    if Writes(settings, "exclude") {
      AllCompileExactly(settings, "exclude");
      if Compiled(ExcludeNames(settings)).Some? {
        ExcludeEntries(settings, path);
      }
    } else {
      PackagesCompile();
      DefaultExcludeExactly(settings);
      DefaultIsRead(settings, DEFAULT_EXCLUDE, Below(DEFAULT_EXCLUDE));
      if DefaultIsReadable(settings) {
        DefaultExcludes(settings, path);
      }
    }
  }

  lemma ScopeIsRead(settings: Json)
    requires settings.Object?
    ensures var files, included, excluded := ListOf(settings, "files"), Compiled(IncludeNames(settings)), Compiled(ExcludeNames(settings));
      ReadScope(settings) ==
        if files.None? || included.None? || excluded.None? then None
        else Some(ProjectScope(files.value.GetOr([]), included.value, excluded.value))
  {
    ListOfExactly(settings, "files");
  }

  /** A configuration is read exactly when all that decides is readable, and what is read takes in exactly
      the sources that its entries take in: a listed one, or an included one that is not excluded. */
  lemma ScopeExactly(settings: Json, source: string)
    requires settings.Object?
    ensures ReadScope(settings).Some? <==> ScopeIsReadable(settings)
    ensures ReadScope(settings).Some? ==> (ReadScope(settings).value.TakesIn(source) <==> ConfigTakes(settings, source))
  {
    ScopeIsRead(settings);
    ListOfExactly(settings, "files");
    ListOfExactly(settings, "include");
    ListOfExactly(settings, "exclude");
    if ListIsReadable(settings, "files") && ListIsReadable(settings, "include") && ListIsReadable(settings, "exclude") {
      ListedExactly(settings, source);
      IncludeIsRead(settings, Split(source));
      ExcludeIsRead(settings, Split(source));
    }
  }

  /** With `files` and no `include`: exactly the listed names. */
  lemma FilesAlone(settings: Json, source: string)
    requires Writes(settings, "files") && !Writes(settings, "include") && ReadScope(settings).Some?
    ensures ReadScope(settings).value.TakesIn(source) <==>
      source != "" && exists entry :: Str(entry) in settings.fields["files"].items && Normalizes(entry, source)
  {
    ScopeExactly(settings, source);
    ListOfExactly(settings, "files");
    assert IsListed(settings, source) <==>
      exists entry :: Str(entry) in settings.fields["files"].items && Normalizes(entry, source);
  }

  // --- JavaScript ---------------------------------------------------------------------------

  predicate JavascriptIsReadable(settings: Json) {
    OptionsAreReadable(settings) && (WritesOption(settings, "allowJs") ==> Option(settings, "allowJs").Bool?)
  }

  /** As `allowJs` says; when it says nothing, by the name of the configuration. */
  predicate TakesJavascript(settings: Json, name: string) {
    if WritesOption(settings, "allowJs") then Option(settings, "allowJs") == Bool(true) else name == "jsconfig.json"
  }

  lemma AllowJsExactly(settings: Json, name: string)
    requires settings.Object?
    ensures ReadAllowJs(settings, name) == if JavascriptIsReadable(settings) then Some(TakesJavascript(settings, name)) else None
  {}

  // --- Names of files -----------------------------------------------------------------------

  /** Something, a dot, and one of the extensions. */
  ghost predicate NamedWith(name: string, extensions: set<string>) {
    exists stem, extension :: stem != "" && extension in extensions && name == stem + "." + extension
  }

  lemma {:induction false} ExtensionSplits(name: string) returns (stem: string)
    requires Extension(name).Some?
    ensures stem != "" && '.' !in Extension(name).value && name == stem + "." + Extension(name).value
  {
    var shorter, last := name[..|name| - 1], name[|name| - 1];
    if last == '.' {
      stem := shorter;
      assert name == shorter + [last];
    } else {
      stem := ExtensionSplits(shorter);
      var rest := Extension(shorter).value;
      assert Extension(name) == Some(rest + [last]);
      assert name == shorter + [last] && shorter == stem + "." + rest;
      assert stem + "." + (rest + [last]) == stem + "." + rest + [last];
    }
  }

  lemma {:induction false} ExtensionIsLast(stem: string, extension: string)
    requires stem != "" && '.' !in extension
    ensures Extension(stem + "." + extension) == Some(extension)
  {
    var name := stem + "." + extension;
    if extension == "" {
      assert name == stem + ".";
    } else {
      var n := |extension| - 1;
      assert name[..|name| - 1] == stem + "." + extension[..n];
      assert name[|name| - 1] == extension[n] && extension[n] in extension;
      ExtensionIsLast(stem, extension[..n]);
      assert extension[..n] + [extension[n]] == extension;
    }
  }

  lemma HasExtensionExactly(path: Path, extensions: set<string>)
    requires forall extension | extension in extensions :: '.' !in extension
    ensures HasExtension(path, extensions) <==> path != [] && NamedWith(path[|path| - 1], extensions)
  {
    if HasExtension(path, extensions) {
      var stem := ExtensionSplits(path[|path| - 1]);
    }
    if path != [] && NamedWith(path[|path| - 1], extensions) {
      var stem, extension :| stem != "" && extension in extensions && path[|path| - 1] == stem + "." + extension;
      ExtensionIsLast(stem, extension);
    }
  }

  const JAVASCRIPT := {"js", "jsx", "mjs", "cjs"}
  const TYPESCRIPT := {"ts", "tsx", "mts", "cts"}

  lemma SourceExactly(path: Path)
    ensures IsJavascript(path) <==> path != [] && NamedWith(path[|path| - 1], JAVASCRIPT)
    ensures IsSource(path) <==>
      path != [] && (NamedWith(path[|path| - 1], JAVASCRIPT) || NamedWith(path[|path| - 1], TYPESCRIPT))
  {
    HasExtensionExactly(path, JAVASCRIPT);
    HasExtensionExactly(path, TYPESCRIPT);
  }

  // --- When the folder can be walked --------------------------------------------------------

  predicate Skipped(name: string) { name == "node_modules" || name == ".git" }

  predicate NoneSkipped(names: Route) { forall name | name in names :: !Skipped(name) }

  /** What stops the walk: an entry whose kind cannot be read, or a directory that cannot be listed. */
  predicate StopsAt(name: string, node: Node) { node.Unseen? || (node.Locked? && !Skipped(name)) }

  /** It is found somewhere with no skipped directory on the way, or the folder is none itself. */
  ghost predicate Stops(node: Node) {
    !node.Dir? ||
    exists route, leaf ::
      route != [] && Leads(node, route, leaf) && NoneSkipped(route[..|route| - 1]) && StopsAt(route[|route| - 1], leaf)
  }

  ghost predicate EntryStops(e: Entry) {
    StopsAt(e.name, e.node) || (e.node.Dir? && !Skipped(e.name) && Stops(e.node))
  }

  lemma DirStops(entries: seq<Entry>)
    ensures Stops(Dir(entries)) <==> exists e | e in entries :: EntryStops(e)
  {
    var node := Dir(entries);
    if Stops(node) {
      var route, leaf :| route != [] && Leads(node, route, leaf) && NoneSkipped(route[..|route| - 1]) && StopsAt(route[|route| - 1], leaf);
      var e :| e in entries && e.name == route[0] && Leads(e.node, route[1..], leaf);
      StoppedBelow(e, route, leaf);
    }
    if e :| e in entries && EntryStops(e) {
      StoppedFrom(entries, e);
    }
  }

  lemma StoppedBelow(e: Entry, route: Route, leaf: Node)
    requires route != [] && e.name == route[0] && Leads(e.node, route[1..], leaf)
    requires NoneSkipped(route[..|route| - 1]) && StopsAt(route[|route| - 1], leaf)
    ensures EntryStops(e)
  {
    if |route| > 1 {
      var r := route[1..];
      assert r[..|r| - 1] == route[..|route| - 1][1..] && r[|r| - 1] == route[|route| - 1];
      assert route[..|route| - 1][0] == e.name;
    }
  }

  lemma StoppedFrom(entries: seq<Entry>, e: Entry)
    requires e in entries && EntryStops(e)
    ensures Stops(Dir(entries))
  {
    if StopsAt(e.name, e.node) {
      assert [e.name][1..] == [] && Leads(Dir(entries), [e.name], e.node);
    } else {
      var r, leaf :| r != [] && Leads(e.node, r, leaf) && NoneSkipped(r[..|r| - 1]) && StopsAt(r[|r| - 1], leaf);
      var route := [e.name] + r;
      assert route[1..] == r && route[..|route| - 1] == [e.name] + r[..|r| - 1];
      assert Leads(Dir(entries), route, leaf) && route[|route| - 1] == r[|r| - 1];
    }
  }

  /** The walk gives nothing exactly when something stops it. */
  lemma {:induction false} WalkExactly(node: Node, at: Route)
    ensures Walk(node, at).None? <==> Stops(node)
    decreases node, 0
  {
    if node.Dir? {
      EntriesWalkExactly(node.entries, at);
      DirStops(node.entries);
    }
  }

  lemma {:induction false} EntriesWalkExactly(entries: seq<Entry>, at: Route)
    ensures WalkEntries(entries, at).None? <==> exists e | e in entries :: EntryStops(e)
    decreases entries, 2
  {
    if entries != [] {
      var n := |entries| - 1;
      EntriesWalkExactly(entries[..n], at);
      EntryWalkExactly(entries[n], at);
      assert entries == entries[..n] + [entries[n]];
    }
  }

  lemma EntryWalkExactly(e: Entry, at: Route)
    ensures WalkEntry(e.name, e.node, at).None? <==> EntryStops(e)
    decreases e, 1
  {
    if e.node.Dir? && e.name !in SKIPPED_DIRS {
      WalkExactly(e.node, at + [e.name]);
    }
  }

  // --- When a folder is complete ------------------------------------------------------------

  ghost predicate Reaches(node: Node, route: Route, text: Option<string>) {
    route != [] && NoneSkipped(route[..|route| - 1]) && Leads(node, route, File(text))
  }

  predicate IsConfigName(name: string) { name == "tsconfig.json" || name == "jsconfig.json" }

  ghost predicate IsConfigAt(node: Node, route: Route, text: Option<string>) {
    Reaches(node, route, text) && IsConfigName(route[|route| - 1])
  }

  /** A file with a source's name that is no configuration, below no skipped directory. */
  ghost predicate IsSourceAt(node: Node, route: Route) {
    && (exists text :: Reaches(node, route, text)) && !IsConfigName(route[|route| - 1])
    && (NamedWith(route[|route| - 1], JAVASCRIPT) || NamedWith(route[|route| - 1], TYPESCRIPT))
  }

  /** The project of the configuration `name` with these settings has the source. */
  ghost predicate HasSource(settings: Json, name: string, route: Route) {
    && route != [] && ConfigTakes(settings, Slashed(route))
    && (NamedWith(route[|route| - 1], JAVASCRIPT) ==> TakesJavascript(settings, name))
  }

  /** The folder's only configuration file is `name` at its root, with these settings. */
  ghost predicate IsConfiguredBy(node: Node, name: string, settings: Json, parse: Parser) {
    && settings.Object?
    && exists text, json ::
         && Jsoncs.Stripped(text) == Some(json) && parse(json) == Some(settings)
         && IsConfigAt(node, [name], Some(text))
         && forall route, other | IsConfigAt(node, route, other) :: route == [name] && other == Some(text)
  }

  ghost predicate SettingsAreReadable(settings: Json) {
    JavascriptIsReadable(settings) && ScopeIsReadable(settings)
  }

  lemma ConfigAtExactly(node: Node, route: Route, text: Option<string>)
    ensures IsConfigAt(node, route, text) <==> IsConfigBelow(node, [], route, text)
  {
    assert route[0..] == route;
    assert forall name: string :: name in SKIPPED_DIRS <==> Skipped(name);
  }

  lemma SourceAtExactly(node: Node, route: Route)
    ensures IsSourceAt(node, route) <==> IsSourceBelow(node, [], route)
  {
    assert route[0..] == route;
    assert forall name: string :: name in SKIPPED_DIRS <==> Skipped(name);
    SourceExactly(route);
    if route != [] {
      forall text ensures Reaches(node, route, text) <==> HasFile(node, route, text) {}
    }
  }

  /** With readable settings, the project read has exactly the sources the settings have. */
  lemma ProjectExactly(root: Path, config: Config, settings: Json, parse: Parser, route: Route)
    requires config.route != [] && Settings(config, parse) == Some(settings)
    ensures var project := ReadProject(root, config, parse);
      && settings.Object?
      && (project.complete <==> SettingsAreReadable(settings) && !Writes(settings, "extends"))
      && (SettingsAreReadable(settings) ==> (project.Has(route) <==> HasSource(settings, config.route[0], route)))
  {
    AllowJsExactly(settings, config.route[0]);
    ScopeExactly(settings, if route == [] then "" else Slashed(route));
    SourceExactly(route);
  }

  lemma ConfiguredExactly(root: Path, node: Node, name: string, text: Option<string>, parse: Parser)
    requires IsOnlyConfig(node, name, text)
    ensures Settings(Config([name], text), parse).Some? ==> IsConfiguredBy(node, name, Settings(Config([name], text), parse).value, parse)
    ensures forall settings | IsConfiguredBy(node, name, settings, parse) :: Settings(Config([name], text), parse) == Some(settings)
  {
    forall route, other ensures IsConfigAt(node, route, other) <==> IsConfigBelow(node, [], route, other) {
      ConfigAtExactly(node, route, other);
    }
  }

  lemma ConfiguredIsOnly(node: Node, name: string, settings: Json, parse: Parser) returns (text: string)
    requires IsConfiguredBy(node, name, settings, parse)
    ensures IsOnlyConfig(node, name, Some(text)) && Settings(Config([name], Some(text)), parse) == Some(settings)
  {
    var json: string;
    text, json :|
      && Jsoncs.Stripped(text) == Some(json) && parse(json) == Some(settings)
      && IsConfigAt(node, [name], Some(text))
      && forall route, other | IsConfigAt(node, route, other) :: route == [name] && other == Some(text);
    forall route, other ensures IsConfigAt(node, route, other) <==> IsConfigBelow(node, [], route, other) {
      ConfigAtExactly(node, route, other);
    }
  }

  /** The only configuration file is at the root, all that it says can be read, it does not extend another
      one, and its project has every source of the folder. */
  ghost predicate IsCompleteBy(node: Node, name: string, settings: Json, parse: Parser) {
    && IsConfiguredBy(node, name, settings, parse) && SettingsAreReadable(settings) && !Writes(settings, "extends")
    && forall route | IsSourceAt(node, route) :: HasSource(settings, name, route)
  }

  lemma TakenInExactly(root: Path, node: Node, config: Config, settings: Json, parse: Parser)
    requires config.route != [] && Settings(config, parse) == Some(settings) && SettingsAreReadable(settings)
    ensures AllTakenIn(node, ReadProject(root, config, parse)) <==>
      forall route | IsSourceAt(node, route) :: HasSource(settings, config.route[0], route)
  {
    forall route
      ensures IsSourceAt(node, route) <==> IsSourceBelow(node, [], route)
      ensures ReadProject(root, config, parse).Has(route) <==> HasSource(settings, config.route[0], route)
    {
      SourceAtExactly(node, route);
      ProjectExactly(root, config, settings, parse, route);
    }
  }

  lemma ProjectIsComplete(root: Path, node: Node, name: string, text: Option<string>, settings: Json, parse: Parser)
    requires IsOnlyConfig(node, name, text) && Settings(Config([name], text), parse) == Some(settings)
    ensures IsProject(root, node, Config([name], text), parse) <==> IsCompleteBy(node, name, settings, parse)
  {
    var config := Config([name], text);
    ProjectExactly(root, config, settings, parse, []);
    ConfiguredExactly(root, node, name, text, parse);
    if SettingsAreReadable(settings) {
      TakenInExactly(root, node, config, settings, parse);
    }
  }

  lemma ProjectHasSettings(root: Path, node: Node, config: Config, parse: Parser)
    requires |config.route| == 1 && IsProject(root, node, config, parse)
    ensures Settings(config, parse).Some?
  {}

  /** A folder is complete exactly when nothing stops the walk and some settings of a configuration at its
      root make it complete: told by the files and the entries of the JSON alone. */
  lemma CompleteBySettings(root: Path, node: Node, parse: Parser)
    requires WellNamed(node)
    ensures AssessFolder(root, node, parse).complete <==>
      !Stops(node) && exists name, settings :: IsCompleteBy(node, name, settings, parse)
  {
    CompleteExactly(root, node, parse);
    WalkExactly(node, []);
    if name, text :| IsProject(root, node, Config([name], text), parse) {
      ProjectHasSettings(root, node, Config([name], text), parse);
      ProjectIsComplete(root, node, name, text, Settings(Config([name], text), parse).value, parse);
    }
    if name, settings :| IsCompleteBy(node, name, settings, parse) {
      var text := ConfiguredIsOnly(node, name, settings, parse);
      ProjectIsComplete(root, node, name, Some(text), settings, parse);
    }
  }

  // --- The checks of one path ---------------------------------------------------------------

  /** The path is the folder itself or below it, and below no skipped directory. */
  predicate IsInside(root: Path, path: Path) { root <= path && NoneSkipped(path[|root|..]) }

  lemma InsideExactly(layout: FolderLayout, path: Path)
    ensures Inside(layout, path) == if IsInside(layout.root, path) then Some(path[|layout.root|..]) else None
  {
    assert forall name: string :: name in SKIPPED_DIRS <==> Skipped(name);
  }

  /** A path calls for reading the folder again iff it is a configuration file inside. */
  lemma ConfigChangeExactly(layout: FolderLayout, path: Path)
    ensures IsConfigChange(layout, path) <==>
      IsInside(layout.root, path) && path != [] && IsConfigName(path[|path| - 1])
  {
    InsideExactly(layout, path);
  }

  lemma RefusedByLayout(layout: FolderLayout, path: Path)
    ensures NewSourceOutside(layout, path) <==>
      && IsInside(layout.root, path) && path != [] && !IsConfigName(path[|path| - 1])
      && (NamedWith(path[|path| - 1], JAVASCRIPT) || NamedWith(path[|path| - 1], TYPESCRIPT))
      && (".." in path[|layout.root|..] || !layout.Has(path[|layout.root|..]))
  {
    InsideExactly(layout, path);
    SourceExactly(path);
    if IsInside(layout.root, path) {
      LastBelow(layout.root, path);
    }
  }

  lemma StoredHas(root: Path, node: Node, name: string, settings: Json, route: Route, parse: Parser)
    requires WellNamed(node) && !Stops(node) && IsCompleteBy(node, name, settings, parse)
    ensures var layout := AssessFolder(root, node, parse);
      layout.root == root && (layout.Has(route) <==> HasSource(settings, name, route))
  {
    var text := ConfiguredIsOnly(node, name, settings, parse);
    WalkExactly(node, []);
    AssessedProject(root, node, name, Some(text), parse);
    ProjectExactly(root, Config([name], Some(text)), settings, parse, route);
  }

  /** Against the stored layout of a complete folder, a path is refused iff it is inside, named like a source,
      and the project of the settings does not have it. */
  lemma RefusedExactly(root: Path, node: Node, name: string, settings: Json, path: Path, parse: Parser)
    requires WellNamed(node) && !Stops(node) && IsCompleteBy(node, name, settings, parse)
    ensures NewSourceOutside(AssessFolder(root, node, parse), path) <==>
      && IsInside(root, path) && path != [] && !IsConfigName(path[|path| - 1])
      && (NamedWith(path[|path| - 1], JAVASCRIPT) || NamedWith(path[|path| - 1], TYPESCRIPT))
      && (".." in path[|root|..] || !HasSource(settings, name, path[|root|..]))
  {
    StoredHas(root, node, name, settings, if root <= path then path[|root|..] else [], parse);
    RefusedByLayout(AssessFolder(root, node, parse), path);
  }

  lemma LastBelow(root: Path, path: Path)
    requires root <= path
    ensures |root| < |path| ==> path[|root|..][|path| - |root| - 1] == path[|path| - 1]
  {}
}
