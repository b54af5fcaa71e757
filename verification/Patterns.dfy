/** The patterns of a TypeScript configuration (src/adapter/typescript_layout.rs): compiling an
    entry, and matching it with the path of a source. */
module Patterns {
  import opened Wrappers
  import opened Utf8s
  import opened FileTrees
  import opened Progresses

  const STAR: Byte := 42
  const QUESTION: Byte := 63

  type Pattern = seq<string>

  predicate HasWildcard(segment: string) { '*' in segment || '?' in segment }

  predicate Dotted(name: string) { "." <= name }

  /** The recursive matcher within a name. */
  predicate Wildcard(pattern: seq<Byte>, name: seq<Byte>) {
    if pattern == [] then name == []
    else if pattern[0] == STAR then exists skip | 0 <= skip <= |name| :: Wildcard(pattern[1..], name[skip..])
    else if pattern[0] == QUESTION then name != [] && Wildcard(pattern[1..], name[1..])
    else name != [] && name[0] == pattern[0] && Wildcard(pattern[1..], name[1..])
  }

  predicate MatchesSegment(pattern: string, name: string) {
    if !HasWildcard(pattern) then pattern == name
    else if Dotted(name) then false
    else if '*' in pattern && EndsWith(name, ".min.js") && !EndsWith(pattern, ".min.js") then false
    else Wildcard(Utf8(pattern), Utf8(name))
  }

  /** The recursive matcher of a path. */
  predicate Matches(pattern: Pattern, path: Path) {
    if pattern == [] then path == []
    else if pattern[0] == "**" then
      exists skip | 0 <= skip <= |path| :: NoneDotted(path[..skip]) && Matches(pattern[1..], path[skip..])
    else path != [] && MatchesSegment(pattern[0], path[0]) && Matches(pattern[1..], path[1..])
  }

  predicate NoneDotted(path: Path) { forall name | name in path :: !Dotted(name) }

  /** An exclude pattern also drops everything beneath a directory it matches. */
  predicate Excludes(pattern: Pattern, path: Path) {
    exists end | 1 <= end <= |path| :: Matches(pattern, path[..end])
  }

  // --- What the matchers decide -----------------------------------------------------------

  function Flatten<T>(blocks: seq<seq<T>>): seq<T> {
    if blocks == [] then [] else blocks[0] + Flatten(blocks[1..])
  }

  /** One block of a name for each byte of the pattern: anything for a star, one byte for a
      question mark, the byte itself for any other. */
  predicate Spells(pattern: seq<Byte>, blocks: seq<seq<Byte>>) {
    |blocks| == |pattern| &&
    forall i | 0 <= i < |pattern| ::
      if pattern[i] == STAR then true else if pattern[i] == QUESTION then |blocks[i]| == 1 else blocks[i] == [pattern[i]]
  }

  /** One block of a path for each segment of the pattern: a run of directories without a leading
      dot for `**`, one matching name for any other. */
  predicate Covers(pattern: Pattern, blocks: seq<Path>) {
    |blocks| == |pattern| &&
    forall i | 0 <= i < |pattern| ::
      if pattern[i] == "**" then NoneDotted(blocks[i]) else |blocks[i]| == 1 && MatchesSegment(pattern[i], blocks[i][0])
  }

  ghost predicate IsSpelled(pattern: seq<Byte>, name: seq<Byte>) {
    exists blocks: seq<seq<Byte>> :: Spells(pattern, blocks) && Flatten(blocks) == name
  }

  ghost predicate IsCovered(pattern: Pattern, path: Path) {
    exists blocks: seq<Path> :: Covers(pattern, blocks) && Flatten(blocks) == path
  }

  /** A name matches exactly when it falls into blocks that the pattern spells. */
  lemma {:induction false} WildcardIsSpelling(pattern: seq<Byte>, name: seq<Byte>)
    ensures Wildcard(pattern, name) <==> IsSpelled(pattern, name)
  {
    if pattern == [] {
      assert Spells([], []) && Flatten<Byte>([]) == [];
    } else {
      if Wildcard(pattern, name) {
        var skip :| 0 <= skip <= |name| && Wildcard(pattern[1..], name[skip..]) && Spells([pattern[0]], [name[..skip]]);
        WildcardIsSpelling(pattern[1..], name[skip..]);
        SpelledBefore(pattern, name, skip);
      }
      if IsSpelled(pattern, name) {
        var blocks: seq<seq<Byte>> :| Spells(pattern, blocks) && Flatten(blocks) == name;
        var skip := |blocks[0]|;
        assert name == blocks[0] + Flatten(blocks[1..]);
        assert name[skip..] == Flatten(blocks[1..]) && Spells(pattern[1..], blocks[1..]);
        WildcardIsSpelling(pattern[1..], name[skip..]);
      }
    }
  }

  lemma SpelledBefore(pattern: seq<Byte>, name: seq<Byte>, skip: nat)
    requires pattern != [] && skip <= |name| && Spells([pattern[0]], [name[..skip]]) && IsSpelled(pattern[1..], name[skip..])
    ensures IsSpelled(pattern, name)
  {
    var rest: seq<seq<Byte>> :| Spells(pattern[1..], rest) && Flatten(rest) == name[skip..];
    var blocks := [name[..skip]] + rest;
    assert blocks[1..] == rest;
    assert [name[..skip]][0] == name[..skip];
    assert Spells(pattern, blocks) && Flatten(blocks) == name;
  }

  /** A path matches exactly when it falls into blocks that the pattern covers. */
  lemma {:induction false} MatchesIsCovering(pattern: Pattern, path: Path)
    ensures Matches(pattern, path) <==> IsCovered(pattern, path)
  {
    if pattern == [] {
      assert Covers([], []) && Flatten<string>([]) == [];
    } else {
      if Matches(pattern, path) {
        var skip :| 0 <= skip <= |path| && Matches(pattern[1..], path[skip..]) && Covers([pattern[0]], [path[..skip]]);
        MatchesIsCovering(pattern[1..], path[skip..]);
        CoveredBefore(pattern, path, skip);
      }
      if IsCovered(pattern, path) {
        var blocks: seq<Path> :| Covers(pattern, blocks) && Flatten(blocks) == path;
        var skip := |blocks[0]|;
        assert path == blocks[0] + Flatten(blocks[1..]);
        assert path[..skip] == blocks[0];
        assert path[skip..] == Flatten(blocks[1..]) && Covers(pattern[1..], blocks[1..]);
        MatchesIsCovering(pattern[1..], path[skip..]);
      }
    }
  }

  lemma CoveredBefore(pattern: Pattern, path: Path, skip: nat)
    requires pattern != [] && skip <= |path| && Covers([pattern[0]], [path[..skip]]) && IsCovered(pattern[1..], path[skip..])
    ensures IsCovered(pattern, path)
  {
    var rest: seq<Path> :| Covers(pattern[1..], rest) && Flatten(rest) == path[skip..];
    var blocks := [path[..skip]] + rest;
    assert blocks[1..] == rest;
    assert [path[..skip]][0] == path[..skip];
    assert Covers(pattern, blocks) && Flatten(blocks) == path;
  }

  /** A name matches a segment without wildcards iff it is that; and one with wildcards iff it is spelled by
      it, is not dotted, and is not minified unless the segment says so or has no star. */
  lemma SegmentExactly(pattern: string, name: string)
    ensures MatchesSegment(pattern, name) <==>
      if '*' in pattern || '?' in pattern then
        && IsSpelled(Utf8(pattern), Utf8(name)) && !("." <= name)
        && (EndsWith(name, ".min.js") && '*' in pattern ==> EndsWith(pattern, ".min.js"))
      else pattern == name
  {
    WildcardIsSpelling(Utf8(pattern), Utf8(name));
  }

  // --- Compiling an entry -----------------------------------------------------------------

  function TrimStart(text: string): string {
    if text != "" && IsWhitespace(text[0]) then TrimStart(text[1..]) else text
  }

  function TrimEnd(text: string): string {
    if text != "" && IsWhitespace(text[|text| - 1]) then TrimEnd(text[..|text| - 1]) else text
  }

  function WithoutDots(entry: string): string {
    if "./" <= entry then WithoutDots(entry[2..]) else entry
  }

  function Normalized(entry: string): string {
    WithoutDots(TrimEnd(TrimStart(entry)))
  }

  method NormalizeEntry(entry: string) returns (rest: string)
    ensures rest == Normalized(entry)
    ensures !("./" <= rest)
  {
    rest := TrimEnd(TrimStart(entry));
    while "./" <= rest
      invariant WithoutDots(rest) == Normalized(entry)
      decreases |rest|
    {
      rest := rest[2..];
    }
  }

  /** A last segment without a wildcard or an extension names a directory. */
  predicate NamesDirectory(segment: string) { !HasWildcard(segment) && '.' !in segment }

  function Expanded(segments: Pattern): Pattern
    requires segments != []
  {
    if NamesDirectory(segments[|segments| - 1]) then segments + ["**", "*"] else segments
  }

  function Compile(pattern: string): Option<Pattern> {
    if pattern == "" || pattern[0] == '/' || '\\' in pattern then None
    else
      var segments := Components(pattern);
      if segments == [] || ".." in segments then None else Some(Expanded(segments))
  }

  function CompileAll(patterns: seq<string>): Option<seq<Pattern>> {
    if patterns == [] then Some([])
    else
      var first, rest := Compile(patterns[0]), CompileAll(patterns[1..]);
      if first.None? || rest.None? then None else Some([first.value] + rest.value)
  }

  /** A segment that compiling keeps as it is. */
  predicate Plain(segment: string) {
    Name(segment) && segment !in {"", ".", ".."} && '\\' !in segment
  }

  predicate AllPlain(segments: Pattern) { forall segment | segment in segments :: Plain(segment) }

  lemma {:induction false} ComponentsArePlain(text: string, segment: string)
    requires '\\' !in text && segment in Named(Split(text)) && segment != ".."
    ensures Plain(segment)
  {
    NamedAreAmong(Split(text), segment);
    SplitKeepsCharacters(text, segment);
  }

  lemma {:induction false} NamedAreAmong(names: seq<string>, name: string)
    ensures name in Named(names) <==> name in names && name != "" && name != "."
  {
    if names != [] {
      NamedAreAmong(names[1..], name);
    }
  }

  lemma {:induction false} SplitKeepsCharacters(text: string, piece: string)
    requires piece in Split(text)
    ensures Name(piece) && forall c | c in piece :: c in text
  {
    if text != "" {
      var rest := Split(text[1..]);
      forall other | other in rest ensures Name(other) && forall c | c in other :: c in text {
        SplitKeepsCharacters(text[1..], other);
      }
      assert piece in rest || piece == "" || piece == [text[0]] + rest[0];
      assert rest[0] in rest;
    }
  }

  lemma {:induction false} NamedIsUnchanged(segments: Pattern)
    requires AllPlain(segments)
    ensures Named(segments) == segments
  {
    if segments != [] {
      NamedIsUnchanged(segments[1..]);
      assert Plain(segments[0]);
    }
  }

  lemma {:induction false} SlashedKeepsCharacters(segments: Pattern, c: char)
    requires segments != [] && c in Slashed(segments)
    ensures c == '/' || exists segment | segment in segments :: c in segment
  {
    if |segments| > 1 && c !in segments[0] && c != '/' {
      SlashedKeepsCharacters(segments[1..], c);
    }
  }

  /** What plain segments with slashes between them compile to. */
  lemma CompileSlashed(segments: Pattern)
    requires segments != [] && AllPlain(segments)
    ensures Compile(Slashed(segments)) == Some(Expanded(segments))
  {
    var text := Slashed(segments);
    SplitSlashed(segments);
    NamedIsUnchanged(segments);
    assert Plain(segments[0]);
    assert text[0] == segments[0][0];
    if '\\' in text {
      SlashedKeepsCharacters(segments, '\\');
    }
  }

  /** Compiling a compiled pattern changes nothing. */
  lemma CompileAgain(pattern: string)
    requires Compile(pattern).Some?
    ensures var compiled := Compile(pattern).value;
      compiled != [] && Compile(Slashed(compiled)) == Some(compiled)
  {
    var compiled := Compile(pattern).value;
    forall segment | segment in compiled ensures Plain(segment) {
      if segment in Components(pattern) {
        ComponentsArePlain(pattern, segment);
      }
    }
    CompileSlashed(compiled);
  }

  // --- Laws of matching -------------------------------------------------------------------

  ghost predicate SameLanguage(p: Pattern, q: Pattern) {
    forall path :: Matches(p, path) <==> Matches(q, path)
  }

  lemma {:induction false} SameLanguageAfter(before: Pattern, p: Pattern, q: Pattern)
    requires SameLanguage(p, q)
    ensures SameLanguage(before + p, before + q)
  {
    if before == [] {
      assert before + p == p && before + q == q;
    } else {
      SameLanguageAfter(before[1..], p, q);
      assert (before + p)[1..] == before[1..] + p && (before + q)[1..] == before[1..] + q;
    }
  }

  /** `**` twice is `**` once, anywhere in a pattern. */
  lemma DoubleStarIsIdempotent(before: Pattern, after: Pattern)
    ensures SameLanguage(before + (["**", "**"] + after), before + (["**"] + after))
  {
    forall path ensures Matches(["**", "**"] + after, path) <==> Matches(["**"] + after, path) {
      DoubleStarTwice(after, path);
    }
    SameLanguageAfter(before, ["**", "**"] + after, ["**"] + after);
  }

  lemma DoubleStarTwice(after: Pattern, path: Path)
    ensures Matches(["**", "**"] + after, path) <==> Matches(["**"] + after, path)
  {
    var q := ["**"] + after;
    assert ["**", "**"] + after == ["**"] + q;
    if Matches(["**"] + q, path) {
      DoubleStarFirst(q, path);
      var i :| 0 <= i <= |path| && NoneDotted(path[..i]) && Matches(q, path[i..]);
      LongerRun(after, path, i);
    }
    if Matches(q, path) {
      DoubleStarFirst(q, path);
      assert path[..0] == [] && path[0..] == path;
    }
  }

  lemma LongerRun(after: Pattern, path: Path, i: nat)
    requires i <= |path| && NoneDotted(path[..i]) && Matches(["**"] + after, path[i..])
    ensures Matches(["**"] + after, path)
  {
    DoubleStarFirst(after, path[i..]);
    DoubleStarFirst(after, path);
    var rest := path[i..];
    var j :| 0 <= j <= |rest| && NoneDotted(rest[..j]) && Matches(after, rest[j..]);
    TwoRuns(path, i, j);
  }

  lemma TwoRuns(path: Path, i: nat, j: nat)
    requires i + j <= |path| && NoneDotted(path[..i]) && NoneDotted(path[i..][..j])
    ensures NoneDotted(path[..i + j]) && path[i..][j..] == path[i + j..]
  {
    assert path[..i + j] == path[..i] + path[i..][..j];
  }

  predicate NoWildcards(segments: Pattern) { forall segment | segment in segments :: !HasWildcard(segment) }

  lemma {:induction false} NoWildcardsIsPrefix(segments: Pattern, rest: Pattern, path: Path)
    requires NoWildcards(segments)
    ensures Matches(segments + rest, path) <==> segments <= path && Matches(rest, path[|segments|..])
  {
    if segments == [] {
      assert segments + rest == rest && path[0..] == path;
    } else {
      assert (segments + rest)[1..] == segments[1..] + rest;
      assert '*' in "**";
      assert segments[0] in segments && segments[0] != "**";
      if path != [] {
        NoWildcardsIsPrefix(segments[1..], rest, path[1..]);
        if path[0] == segments[0] && |segments| <= |path| {
          assert path[1..][|segments| - 1..] == path[|segments|..];
          assert segments <= path <==> segments[1..] <= path[1..];
        }
      }
    }
  }

  /** A name that `*` matches. */
  predicate Eligible(name: string) { !Dotted(name) && !EndsWith(name, ".min.js") }

  lemma StarMatchesEligible(name: string)
    ensures MatchesSegment("*", name) <==> Eligible(name)
  {
    assert Utf8("*") == [STAR];
    var bytes := Utf8(name);
    assert Wildcard([], bytes[|bytes|..]);
    assert [STAR][1..] == [];
    assert Wildcard([STAR], bytes);
  }

  lemma StarAlone(tail: Path)
    ensures Matches(["*"], tail) <==> |tail| == 1 && Eligible(tail[0])
  {
    var star: Pattern := ["*"];
    assert star[1..] == [] && star[0] != "**";
    if tail != [] {
      StarMatchesEligible(tail[0]);
    }
  }

  lemma DoubleStarFirst(rest: Pattern, path: Path)
    ensures Matches(["**"] + rest, path) <==>
      exists skip | 0 <= skip <= |path| :: NoneDotted(path[..skip]) && Matches(rest, path[skip..])
  {
    assert (["**"] + rest)[1..] == rest;
  }

  lemma EverythingBelow(path: Path)
    ensures Matches(["**", "*"], path) <==>
      path != [] && NoneDotted(path[..|path| - 1]) && Eligible(path[|path| - 1])
  {
    assert ["**", "*"] == ["**"] + ["*"];
    DoubleStarFirst(["*"], path);
    forall skip | 0 <= skip <= |path|
      ensures Matches(["*"], path[skip..]) <==> path != [] && skip == |path| - 1 && Eligible(path[|path| - 1])
    {
      StarAlone(path[skip..]);
    }
  }

  /** The eligible files below a directory: no dotted directory on the way, and a name that is
      neither dotted nor minified. */
  predicate EligibleBelow(segments: Pattern, path: Path) {
    && segments <= path && |segments| < |path|
    && NoneDotted(path[|segments|..|path| - 1]) && Eligible(path[|path| - 1])
  }

  /** A directory entry takes in exactly the eligible files below it. */
  lemma DirectoryTakesInEligible(segments: Pattern, path: Path)
    requires NoWildcards(segments)
    ensures Matches(segments + ["**", "*"], path) <==> EligibleBelow(segments, path)
  {
    NoWildcardsIsPrefix(segments, ["**", "*"], path);
    if segments <= path {
      EverythingBelow(path[|segments|..]);
      Tail(path, |segments|);
    }
  }

  lemma Tail(path: Path, n: nat)
    requires n <= |path|
    ensures n < |path| ==> path[n..][..|path| - n - 1] == path[n..|path| - 1] && path[n..][|path| - n - 1] == path[|path| - 1]
  {}

  /** What an exclude pattern matches, it excludes with everything beneath. */
  lemma ExcludesEverythingBeneath(pattern: Pattern, path: Path, below: Path)
    requires Excludes(pattern, path) || (path != [] && Matches(pattern, path))
    ensures Excludes(pattern, path + below)
  {
    assert path[..|path|] == path;
    var end :| 1 <= end <= |path| && Matches(pattern, path[..end]);
    assert (path + below)[..end] == path[..end];
  }

  /** But an entry that names a directory excludes what is below it only from an eligible name
      on, with no dotted directory before. */
  lemma DirectoryExcludesEligible(segments: Pattern, path: Path)
    requires NoWildcards(segments)
    ensures Excludes(segments + ["**", "*"], path) <==>
      segments <= path && exists k | |segments| <= k < |path| :: NoneDotted(path[|segments|..k]) && Eligible(path[k])
  {
    var n := |segments|;
    forall end | 1 <= end <= |path|
      ensures Matches(segments + ["**", "*"], path[..end]) <==>
        segments <= path && n < end && NoneDotted(path[n..end - 1]) && Eligible(path[end - 1])
    {
      DirectoryTakesInEligible(segments, path[..end]);
      if n < end {
        assert path[..end][n..end - 1] == path[n..end - 1];
      }
    }
    if segments <= path && exists k | n <= k < |path| :: NoneDotted(path[n..k]) && Eligible(path[k]) {
      var k :| n <= k < |path| && NoneDotted(path[n..k]) && Eligible(path[k]);
      assert Matches(segments + ["**", "*"], path[..k + 1]);
    }
  }

  /** So it leaves what is below a dotted directory in the project. */
  lemma DottedIsNotExcluded(segments: Pattern, path: Path)
    requires NoWildcards(segments) && |segments| < |path| && Dotted(path[|segments|])
    ensures !Excludes(segments + ["**", "*"], path)
  {
    DirectoryExcludesEligible(segments, path);
    assert forall k | |segments| < k <= |path| :: path[|segments|] in path[|segments|..k];
  }

  /** For instance the entry "gen" does not exclude gen/.cache/a.ts. */
  lemma GenDoesNotExcludeCache()
    ensures Compile("gen") == Some(["gen"] + ["**", "*"])
    ensures !Excludes(["gen"] + ["**", "*"], ["gen", ".cache", "a.ts"])
  {
    assert Plain(["gen"][0]);
    CompileSlashed(["gen"]);
    assert Dotted(["gen", ".cache", "a.ts"][1]);
    DottedIsNotExcluded(["gen"], ["gen", ".cache", "a.ts"]);
  }
}
