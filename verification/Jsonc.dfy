/** Comments and trailing commas of tsconfig.json (src/adapter/typescript_layout.rs): what is
    stripped, so that the text parses as JSON. */
module Jsoncs {
  import opened Wrappers
  import opened Utf8s

  datatype Kind = Char | Str | Line | Block | OpenStr | OpenLine

  /** A stretch of the text that the stripper takes as one: a character, a string, a comment. The
      end of the text may leave a string or a line comment open. */
  datatype Piece = Piece(kind: Kind, text: string)

  function Render(pieces: seq<Piece>): string {
    if pieces == [] then "" else pieces[0].text + Render(pieces[1..])
  }

  // --- Reading a text ---------------------------------------------------------------------

  /** How far a string goes: to the first quote that no backslash escapes. */
  function StringLength(text: string): (n: nat)
    ensures n <= |text|
    ensures n < |text| ==> text[n] == '"'
  {
    if text == "" || text[0] == '"' then 0
    else if text[0] == '\\' && |text| > 1 then 2 + StringLength(text[2..])
    else 1 + StringLength(text[1..])
  }

  function LineLength(text: string): (n: nat)
    ensures n <= |text| && '\n' !in text[..n]
    ensures n < |text| ==> text[n] == '\n'
  {
    if text == "" || text[0] == '\n' then 0 else 1 + LineLength(text[1..])
  }

  predicate ClosesAt(text: string, k: nat) { k + 1 < |text| && text[k] == '*' && text[k + 1] == '/' }

  function BlockLength(text: string): (n: Option<nat>)
    ensures n.Some? ==> ClosesAt(text, n.value) && forall k: nat | k < n.value :: !ClosesAt(text, k)
    ensures n.None? ==> forall k: nat :: !ClosesAt(text, k)
  {
    if text == "" then None
    else if ClosesAt(text, 0) then Some(0)
    else
      var n := BlockLength(text[1..]);
      assert forall k: nat | k > 0 :: ClosesAt(text, k) <==> ClosesAt(text[1..], k - 1);
      if n.None? then None else Some(1 + n.value)
  }

  /** The first piece; none if it is a block comment that never closes. */
  function First(text: string): (p: Option<Piece>)
    requires text != ""
    ensures p.Some? ==> |p.value.text| > 0 && p.value.text <= text
  {
    if text[0] == '"' then
      var n := 1 + StringLength(text[1..]);
      Some(if n < |text| then Piece(Str, text[..n + 1]) else Piece(OpenStr, text))
    else if text[0] == '/' && |text| > 1 && text[1] == '/' then
      var n := 2 + LineLength(text[2..]);
      Some(if n < |text| then Piece(Line, text[..n + 1]) else Piece(OpenLine, text))
    else if text[0] == '/' && |text| > 1 && text[1] == '*' then
      var n := BlockLength(text[2..]);
      if n.None? then None else Some(Piece(Block, text[..n.value + 4]))
    else Some(Piece(Char, text[..1]))
  }

  function Pieces(text: string): Option<seq<Piece>>
    decreases |text|
  {
    if text == "" then Some([])
    else if First(text).None? then None
    else
      Before(First(text).value, Pieces(text[|First(text).value.text|..]))
  }

  function Before(p: Piece, pieces: Option<seq<Piece>>): Option<seq<Piece>> {
    if pieces.None? then None else Some([p] + pieces.value)
  }

  /** The piece reads back as itself. */
  predicate WellFormed(p: Piece) { p.text != "" && First(p.text) == Some(p) }

  /** Nothing follows an open piece; a slash is not followed by what would make it a comment. */
  predicate MayPrecede(p: Piece, rest: string)
    requires p.text != ""
  {
    && (p.kind == OpenStr || p.kind == OpenLine ==> rest == "")
    && (p.kind == Char && p.text[0] == '/' && rest != "" ==> rest[0] != '/' && rest[0] != '*')
  }

  /** Each piece reads back as itself where it stands, with `rest` after the last. */
  predicate Readable(pieces: seq<Piece>, rest: string) {
    pieces != [] ==>
      WellFormed(pieces[0]) && MayPrecede(pieces[0], Render(pieces[1..]) + rest) && Readable(pieces[1..], rest)
  }

  lemma {:induction false} StringIsLocal(text: string, rest: string)
    ensures var n := StringLength(text); n < |text| ==> StringLength(text[..n + 1] + rest) == n
    decreases |text|
  {
    var n := StringLength(text);
    if 0 < n < |text| {
      var step := if text[0] == '\\' then 2 else 1;
      StringIsLocal(text[step..], rest);
      assert (text[..n + 1] + rest)[step..] == text[step..][..n - step + 1] + rest;
    }
  }

  lemma LineIsLocal(text: string, rest: string)
    ensures var n := LineLength(text); n < |text| ==> LineLength(text[..n + 1] + rest) == n
  {
    var n := LineLength(text);
    if n < |text| {
      LineLengthIs(text[..n + 1] + rest, n);
    }
  }

  lemma LineLengthIs(text: string, n: nat)
    requires n < |text| && text[n] == '\n' && '\n' !in text[..n]
    ensures LineLength(text) == n
  {}

  lemma BlockIsLocal(text: string, rest: string)
    ensures var n := BlockLength(text); n.Some? ==> BlockLength(text[..n.value + 2] + rest) == n
  {
    var n := BlockLength(text);
    if n.Some? {
      var other := text[..n.value + 2] + rest;
      forall k: nat | k <= n.value ensures ClosesAt(text, k) <==> ClosesAt(other, k) {}
    }
  }

  lemma StrIsLocal(text: string, rest: string)
    requires text != "" && text[0] == '"' && First(text).value.kind == Str
    ensures First(First(text).value.text + rest) == First(text)
  {
    var p := First(text).value;
    StringIsLocal(text[1..], rest);
    assert (p.text + rest)[1..] == text[1..][..|p.text| - 1] + rest;
    assert (p.text + rest)[..|p.text|] == p.text;
  }

  lemma LineCommentIsLocal(text: string, rest: string)
    requires |text| > 1 && text[0] == '/' && text[1] == '/' && First(text).value.kind == Line
    ensures First(First(text).value.text + rest) == First(text)
  {
    var p := First(text).value;
    LineIsLocal(text[2..], rest);
    assert (p.text + rest)[2..] == text[2..][..|p.text| - 2] + rest;
    assert (p.text + rest)[..|p.text|] == p.text;
  }

  lemma BlockCommentIsLocal(text: string, rest: string)
    requires |text| > 1 && text[0] == '/' && text[1] == '*' && First(text).Some?
    ensures First(First(text).value.text + rest) == First(text)
  {
    var p := First(text).value;
    BlockIsLocal(text[2..], rest);
    assert (p.text + rest)[2..] == text[2..][..|p.text| - 2] + rest;
    assert (p.text + rest)[..|p.text|] == p.text;
  }

  /** The first piece does not depend on what follows it. */
  lemma FirstIsLocal(text: string, rest: string)
    requires text != "" && First(text).Some? && MayPrecede(First(text).value, rest)
    ensures First(First(text).value.text + rest) == First(text)
  {
    var kind := First(text).value.kind;
    if kind == Str {
      StrIsLocal(text, rest);
    } else if kind == Line {
      LineCommentIsLocal(text, rest);
    } else if kind == Block {
      BlockCommentIsLocal(text, rest);
    } else if kind != Char {
      assert text + rest == text;
    }
  }

  lemma PiecesStep(p: Piece, rest: string)
    requires WellFormed(p) && MayPrecede(p, rest)
    ensures Pieces(p.text + rest) == Before(p, Pieces(rest))
  {
    FirstIsLocal(p.text, rest);
    assert (p.text + rest)[|p.text|..] == rest;
  }

  lemma FirstStep(text: string)
    requires text != "" && First(text).Some?
    ensures var p := First(text).value;
      WellFormed(p) && MayPrecede(p, text[|p.text|..]) && text == p.text + text[|p.text|..]
  {
    FirstIsLocal(text, "");
    assert First(text).value.text + "" == First(text).value.text;
  }

  /** Reading a text into pieces, and writing pieces to a text, undo each other. */
  lemma {:induction false} PiecesRender(text: string)
    ensures Pieces(text).Some? ==> Readable(Pieces(text).value, "") && Render(Pieces(text).value) == text
    decreases |text|
  {
    if text != "" && Pieces(text).Some? {
      var p := First(text).value;
      var rest := text[|p.text|..];
      PiecesRender(rest);
      FirstStep(text);
      assert rest + "" == rest;
      assert ([p] + Pieces(rest).value)[1..] == Pieces(rest).value;
    }
  }

  lemma {:induction false} RenderedPieces(pieces: seq<Piece>)
    requires Readable(pieces, "")
    ensures Pieces(Render(pieces)) == Some(pieces)
  {
    if pieces != [] {
      RenderedPieces(pieces[1..]);
      assert Render(pieces[1..]) + "" == Render(pieces[1..]);
      PiecesStep(pieces[0], Render(pieces[1..]));
      assert [pieces[0]] + pieces[1..] == pieces;
    }
  }

  /** After some pieces a block comment opens and never closes. */
  ghost predicate IsUnclosed(text: string) {
    exists pieces, body ::
      Readable(pieces, "/*" + body) && BlockLength(body).None? && text == Render(pieces) + ("/*" + body)
  }

  lemma UnclosedBefore(p: Piece, rest: string)
    requires WellFormed(p) && MayPrecede(p, rest) && IsUnclosed(rest)
    ensures IsUnclosed(p.text + rest)
  {
    var pieces, body :| Readable(pieces, "/*" + body) && BlockLength(body).None? && rest == Render(pieces) + ("/*" + body);
    var all := [p] + pieces;
    assert all[1..] == pieces && all[0] == p;
    assert Render(all) == p.text + Render(pieces);
    Reassociated(p.text, Render(pieces), "/*" + body);
    assert p.text + rest == Render(all) + ("/*" + body);
    assert Readable(all, "/*" + body);
  }

  lemma Reassociated(a: string, b: string, c: string)
    ensures (a + b) + c == a + (b + c)
  {}

  lemma {:induction false} UnreadableAfter(pieces: seq<Piece>, rest: string)
    requires Readable(pieces, rest) && Pieces(rest).None?
    ensures Pieces(Render(pieces) + rest).None?
  {
    if pieces == [] {
      assert Render(pieces) + rest == rest;
    } else {
      UnreadableAfter(pieces[1..], rest);
      PiecesStep(pieces[0], Render(pieces[1..]) + rest);
      Reassociated(pieces[0].text, Render(pieces[1..]), rest);
    }
  }

  lemma UnclosedFirst(body: string)
    requires BlockLength(body).None?
    ensures Pieces("/*" + body).None?
  {
    assert ("/*" + body)[2..] == body;
  }

  /** Only a block comment that never closes cannot be read. */
  lemma {:induction false} UnreadableIsUnclosed(text: string)
    ensures Pieces(text).None? <==> IsUnclosed(text)
    decreases |text|
  {
    if Pieces(text).None? {
      if First(text).None? {
        assert text == Render([]) + ("/*" + text[2..]);
        assert Readable([], "/*" + text[2..]);
      } else {
        var p := First(text).value;
        var rest := text[|p.text|..];
        UnreadableIsUnclosed(rest);
        FirstStep(text);
        UnclosedBefore(p, rest);
      }
    }
    if IsUnclosed(text) {
      var pieces, body :| Readable(pieces, "/*" + body) && BlockLength(body).None? && text == Render(pieces) + ("/*" + body);
      UnclosedFirst(body);
      UnreadableAfter(pieces, "/*" + body);
    }
  }

  // --- What is stripped -------------------------------------------------------------------

  const SPACE := Piece(Char, " ")
  const NEWLINE := Piece(Char, "\n")
  const COMMA := Piece(Char, ",")
  const CLOSERS := {Piece(Char, "}"), Piece(Char, "]")}

  predicate IsComment(p: Piece) { p.kind == Line || p.kind == Block || p.kind == OpenLine }

  predicate Blank(p: Piece) { IsComment(p) || (p.kind == Char && p.text != "" && IsWhitespace(p.text[0])) }

  /** The first piece that is not blank is a closing bracket. */
  predicate CloserNext(pieces: seq<Piece>) {
    pieces != [] && if Blank(pieces[0]) then CloserNext(pieces[1..]) else pieces[0] in CLOSERS
  }

  /** A block comment becomes a space, a line comment its newline. */
  function WithoutComment(p: Piece): seq<Piece> {
    match p.kind
    case Block => [SPACE]
    case Line => [NEWLINE]
    case OpenLine => []
    case Char => [p]
    case Str => [p]
    case OpenStr => [p]
  }

  /** What is left: no comment, and no comma with a closing bracket next. */
  function Final(pieces: seq<Piece>): seq<Piece> {
    if pieces == [] then []
    else (if pieces[0] == COMMA && CloserNext(pieces[1..]) then [] else WithoutComment(pieces[0])) + Final(pieces[1..])
  }

  function Stripped(text: string): Option<string> {
    var pieces := Pieces(text);
    if pieces.None? then None else Some(Render(Final(pieces.value)))
  }

  // --- The two passes ---------------------------------------------------------------------

  /** One turn within a string takes this much. */
  function Turn(rest: string): (n: nat)
    requires rest != ""
    ensures 1 <= n <= |rest|
  {
    if rest[0] == '\\' && |rest| > 1 then 2 else 1
  }

  predicate ClosesNext(text: string) {
    text != "" && if IsWhitespace(text[0]) then ClosesNext(text[1..]) else text[0] == '}' || text[0] == ']'
  }

  /** The text after the second pass, from outside or within a string. */
  function WithoutCommas(text: string, inString: bool): string
    decreases |text|
  {
    if text == "" then ""
    else
      var n := if inString then Turn(text) else 1;
      Kept(text, inString) + WithoutCommas(text[n..], inString != (text[0] == '"'))
  }

  function Kept(text: string, inString: bool): string
    requires text != ""
  {
    if inString then text[..Turn(text)] else if text[0] == ',' && ClosesNext(text[1..]) then "" else text[..1]
  }

  lemma Regrouped(whole: string, out: string, x: string, rest: string)
    requires whole == out + (x + rest)
    ensures whole == (out + x) + rest
  {}

  /** One turn of the second pass takes this much of the text, */
  function TurnAt(text: string, i: nat, inString: bool): nat
    requires i < |text|
  {
    if inString && text[i] == '\\' && i + 1 < |text| then 2 else 1
  }

  /** and keeps this. */
  function KeptAt(text: string, i: nat, inString: bool): string
    requires i < |text|
  {
    if TurnAt(text, i, inString) == 2 then [text[i], text[i + 1]]
    else if !inString && text[i] == ',' && ClosesNext(text[i + 1..]) then ""
    else [text[i]]
  }

  /** The second pass from position `i`, with `out` put out so far. */
  function ScanCommas(text: string, i: nat, inString: bool, out: string): string
    requires i <= |text|
    decreases |text| - i
  {
    if i == |text| then out
    else ScanCommas(text, i + TurnAt(text, i, inString), inString != (text[i] == '"'), out + KeptAt(text, i, inString))
  }

  lemma {:induction false} ScanCommasIsWithout(text: string, i: nat, inString: bool, out: string)
    requires i <= |text|
    ensures ScanCommas(text, i, inString, out) == out + WithoutCommas(text[i..], inString)
    decreases |text| - i
  {
    if i == |text| {
      assert out + "" == out;
    } else {
      var n, kept := TurnAt(text, i, inString), KeptAt(text, i, inString);
      ScanCommasIsWithout(text, i + n, inString != (text[i] == '"'), out + kept);
      KeptIsKeptAt(text, i, inString);
      Regrouped(out + (kept + WithoutCommas(text[i + n..], inString != (text[i] == '"'))), out, kept,
                WithoutCommas(text[i + n..], inString != (text[i] == '"')));
    }
  }

  lemma KeptIsKeptAt(text: string, i: nat, inString: bool)
    requires i < |text|
    ensures var n := TurnAt(text, i, inString);
      WithoutCommas(text[i..], inString) == KeptAt(text, i, inString) + WithoutCommas(text[i + n..], inString != (text[i] == '"'))
  {
    var rest, n := text[i..], TurnAt(text, i, inString);
    assert rest[1..] == text[i + 1..] && rest[n..] == text[i + n..];
    assert Kept(rest, inString) == KeptAt(text, i, inString);
  }

  method RemoveTrailingCommas(text: string) returns (out: string)
    ensures out == WithoutCommas(text, false)
  {
    out := "";
    var i, inString := 0, false;
    while i < |text|
      invariant 0 <= i <= |text|
      invariant ScanCommas(text, 0, false, "") == ScanCommas(text, i, inString, out)
    {
      ghost var taken, kept := out, KeptAt(text, i, inString);
      var c := text[i];
      if inString {
        out := out + [c];
        if c == '\\' && i + 1 < |text| {
          out := out + [text[i + 1]];
          i := i + 1;
        } else if c == '"' {
          inString := false;
        }
      } else if c == '"' {
        inString := true;
        out := out + [c];
      } else if c == ',' {
        if !ClosesNext(text[i + 1..]) {
          out := out + [c];
        }
      } else {
        out := out + [c];
      }
      i := i + 1;
      assert out == taken + kept;
    }
    ScanCommasIsWithout(text, 0, false, "");
    assert text[0..] == text;
  }

  /** The position after the rest of a line, and whether a newline ends it. */
  function AfterLine(text: string, start: nat): (r: (nat, bool))
    requires start <= |text|
    ensures start <= r.0 <= |text|
  {
    var n := LineLength(text[start..]);
    if start + n < |text| then (start + n + 1, true) else (|text|, false)
  }

  /** The position after the rest of a block comment, and whether it closes. */
  function AfterBlock(text: string, start: nat): (r: (nat, bool))
    requires start <= |text|
    ensures start <= r.0 <= |text|
  {
    var n := BlockLength(text[start..]);
    if n.Some? then (start + n.value + 2, true) else (|text|, false)
  }

  /** Where a turn of the first pass goes on, whether within a string, and what it puts out. */
  datatype Turned = Turned(next: nat, inString: bool, left: string)

  function TurnOf(text: string, i: nat, inString: bool): (t: Option<Turned>)
    requires i < |text|
    ensures t.Some? ==> i < t.value.next <= |text|
  {
    var c := text[i];
    if inString then
      if c == '\\' && i + 1 < |text| then Some(Turned(i + 2, true, [c, text[i + 1]]))
      else Some(Turned(i + 1, c != '"', [c]))
    else if c == '"' then Some(Turned(i + 1, true, [c]))
    else if c == '/' && i + 1 < |text| && text[i + 1] == '/' then
      var (end, newline) := AfterLine(text, i + 2);
      Some(Turned(end, false, if newline then "\n" else ""))
    else if c == '/' && i + 1 < |text| && text[i + 1] == '*' then
      var (end, closed) := AfterBlock(text, i + 2);
      if closed then Some(Turned(end, false, " ")) else None
    else Some(Turned(i + 1, false, [c]))
  }

  /** The first pass from position `i`, with `out` put out so far. */
  function Scan(text: string, i: nat, inString: bool, out: string): Option<string>
    requires i <= |text|
    decreases |text| - i
  {
    if i == |text| then Some(out)
    else
      var t := TurnOf(text, i, inString);
      if t.None? then None else Scan(text, t.value.next, t.value.inString, out + t.value.left)
  }

  method SkipLine(text: string, start: nat) returns (end: nat, newline: bool)
    requires start <= |text|
    ensures (end, newline) == AfterLine(text, start)
  {
    end, newline := start, false;
    while end < |text| && !newline
      invariant start <= end <= |text|
      invariant !newline ==> LineLength(text[start..]) == end - start + LineLength(text[end..])
      invariant newline ==> LineLength(text[start..]) == end - start - 1
    {
      newline := text[end] == '\n';
      end := end + 1;
    }
  }

  method SkipBlock(text: string, start: nat) returns (end: nat, closed: bool)
    requires start <= |text|
    ensures (end, closed) == AfterBlock(text, start)
  {
    ghost var rest := text[start..];
    var previous := '\0';
    end, closed := start, false;
    while end < |text| && !closed
      invariant start <= end <= |text|
      invariant forall k: nat | start + k + 1 < if closed then end - 1 else end :: !ClosesAt(rest, k)
      invariant closed ==> start + 2 <= end && ClosesAt(rest, end - start - 2)
      invariant !closed ==> previous == if end == start then '\0' else text[end - 1]
    {
      var next := text[end];
      if previous == '*' && next == '/' {
        closed := true;
      } else {
        previous := next;
      }
      end := end + 1;
    }
  }

  method RemoveComments(text: string) returns (r: Option<string>)
    ensures r == Scan(text, 0, false, "")
  {
    var out, i, inString := "", 0, false;
    while i < |text|
      invariant 0 <= i <= |text|
      invariant Scan(text, 0, false, "") == Scan(text, i, inString, out)
    {
      ghost var turn, taken := TurnOf(text, i, inString), out;
      var c := text[i];
      i := i + 1;
      if inString {
        out := out + [c];
        if c == '\\' {
          if i < |text| {
            out := out + [text[i]];
            i := i + 1;
          }
        } else if c == '"' {
          inString := false;
        }
      } else if c == '"' {
        inString := true;
        out := out + [c];
      } else if c == '/' && i < |text| && text[i] == '/' {
        var newline;
        i, newline := SkipLine(text, i + 1);
        if newline {
          out := out + ['\n'];
        }
      } else if c == '/' && i < |text| && text[i] == '*' {
        var closed;
        i, closed := SkipBlock(text, i + 1);
        if !closed {
          return None;
        }
        out := out + [' '];
      } else {
        out := out + [c];
      }
      assert turn == Some(Turned(i, inString, turn.value.left));
      assert out == taken + turn.value.left;
    }
    r := Some(out);
  }

  method StripJsonc(text: string) returns (r: Option<string>)
    ensures r == Stripped(text)
  {
    StrippedIsScanned(text);
    r := RemoveComments(text);
    if r.Some? {
      var stripped := RemoveTrailingCommas(r.value);
      r := Some(stripped);
    }
  }

  // --- The passes, by pieces --------------------------------------------------------------

  function Clean(pieces: seq<Piece>): seq<Piece> {
    if pieces == [] then [] else WithoutComment(pieces[0]) + Clean(pieces[1..])
  }

  /** How much of `rest`, which starts within a string, the string takes with its quote. */
  function Within(rest: string): (n: nat)
    ensures n <= |rest|
  {
    var n := StringLength(rest);
    if n < |rest| then n + 1 else n
  }

  lemma RenderFirst(p: seq<Piece>, rest: seq<Piece>)
    requires |p| <= 1
    ensures Render(p + rest) == (if p == [] then "" else p[0].text) + Render(rest)
  {
    if p == [] {
      assert p + rest == rest;
      assert "" + Render(rest) == Render(rest);
    } else {
      assert (p + rest)[1..] == rest && (p + rest)[0] == p[0];
    }
  }

  function Left(p: Piece): string {
    var left := WithoutComment(p);
    if left == [] then "" else left[0].text
  }

  lemma CleanBefore(p: Piece, rest: seq<Piece>)
    ensures Render(Clean([p] + rest)) == Left(p) + Render(Clean(rest))
  {
    assert ([p] + rest)[1..] == rest;
    RenderFirst(WithoutComment(p), Clean(rest));
  }

  lemma WithinTurn(rest: string)
    requires rest != "" && rest[0] != '"'
    ensures Within(rest) == Turn(rest) + Within(rest[Turn(rest)..])
  {}

  function Added(out: string, rest: Option<string>): Option<string> {
    if rest.None? then None else Some(out + rest.value)
  }

  lemma AddedTwice(out: string, x: string, rest: Option<string>)
    ensures Added(out + x, rest) == Added(out, Added(x, rest))
  {
    if rest.Some? {
      assert out + x + rest.value == out + (x + rest.value);
    }
  }

  /** The text after the first pass, from outside or within a string. */
  function Uncommented(text: string, inString: bool): Option<string>
    decreases |text|
  {
    if text == "" then Some("")
    else
      var t := TurnOf(text, 0, inString);
      if t.None? then None else Added(t.value.left, Uncommented(text[t.value.next..], t.value.inString))
  }

  lemma TurnOfSuffix(text: string, i: nat, inString: bool)
    requires i < |text|
    ensures var t, u := TurnOf(text, i, inString), TurnOf(text[i..], 0, inString);
      t == if u.None? then None else Some(u.value.(next := i + u.value.next))
  {
    if i + 1 < |text| {
      assert text[i..][2..] == text[i + 2..];
    }
  }

  lemma {:induction false} ScanIsUncommented(text: string, i: nat, inString: bool, out: string)
    requires i <= |text|
    ensures Scan(text, i, inString, out) == Added(out, Uncommented(text[i..], inString))
    decreases |text| - i
  {
    if i == |text| {
      assert out + "" == out;
    } else {
      TurnOfSuffix(text, i, inString);
      var t := TurnOf(text, i, inString);
      if t.Some? {
        ScanIsUncommented(text, t.value.next, t.value.inString, out + t.value.left);
        assert text[i..][t.value.next - i..] == text[t.value.next..];
        AddedTwice(out, t.value.left, Uncommented(text[t.value.next..], t.value.inString));
      }
    }
  }

  lemma UncommentedTurn(rest: string)
    requires rest != ""
    ensures Uncommented(rest, true) == Added(rest[..Turn(rest)], Uncommented(rest[Turn(rest)..], rest[0] != '"'))
  {
    assert Turn(rest) == 1 ==> rest[..1] == [rest[0]];
    assert Turn(rest) == 2 ==> rest[..2] == [rest[0], rest[1]];
  }

  lemma Slices(rest: string, n: nat, m: nat)
    requires n + m <= |rest|
    ensures rest[n..][m..] == rest[n + m..] && rest[..n] + rest[n..][..m] == rest[..n + m]
  {}

  lemma {:induction false} UncommentedInString(rest: string)
    ensures Uncommented(rest, true) == Added(rest[..Within(rest)], Uncommented(rest[Within(rest)..], false))
    decreases |rest|
  {
    if rest == "" {
      assert "" + "" == "";
    } else if rest[0] == '"' {
      UncommentedTurn(rest);
    } else {
      UncommentedTurn(rest);
      var n := Turn(rest);
      var m := Within(rest[n..]);
      WithinTurn(rest);
      UncommentedInString(rest[n..]);
      Slices(rest, n, m);
      AddedTwice(rest[..n], rest[n..][..m], Uncommented(rest[n..][m..], false));
    }
  }

  lemma QuotedFirst(text: string)
    requires text != "" && text[0] == '"'
    ensures var m := Within(text[1..]); First(text).value.text == text[..1 + m] && Left(First(text).value) == text[..1 + m]
  {}

  lemma OpeningTurn(text: string)
    requires text != "" && text[0] == '"'
    ensures Uncommented(text, false) == Added(text[..1], Uncommented(text[1..], true))
  {
    assert [text[0]] == text[..1];
  }

  lemma UncommentedQuoted(text: string)
    requires text != "" && text[0] == '"'
    ensures var m := Within(text[1..]); Uncommented(text, false) == Added(text[..1 + m], Uncommented(text[1 + m..], false))
  {
    var m := Within(text[1..]);
    OpeningTurn(text);
    UncommentedInString(text[1..]);
    AddedTwice(text[..1], text[1..][..m], Uncommented(text[1..][m..], false));
    assert text[1..][m..] == text[1 + m..];
    assert text[..1] + text[1..][..m] == text[..1 + m];
  }

  lemma UncommentedFirst(text: string)
    requires text != ""
    ensures Uncommented(text, false) ==
      if First(text).None? then None
      else Added(Left(First(text).value), Uncommented(text[|First(text).value.text|..], false))
  {
    if text[0] == '"' {
      QuotedFirst(text);
      UncommentedQuoted(text);
    } else {
      FirstTurn(text);
    }
  }

  lemma FirstTurn(text: string)
    requires text != "" && text[0] != '"'
    ensures TurnOf(text, 0, false) ==
      if First(text).None? then None else Some(Turned(|First(text).value.text|, false, Left(First(text).value)))
  {
    assert text[..1] == [text[0]];
  }

  /** The first pass leaves what the pieces leave without comments. */
  lemma {:induction false} UncommentedIsClean(text: string)
    ensures var pieces := Pieces(text);
      Uncommented(text, false) == if pieces.None? then None else Some(Render(Clean(pieces.value)))
    decreases |text|
  {
    if text != "" {
      UncommentedFirst(text);
      if First(text).Some? {
        var p := First(text).value;
        UncommentedIsClean(text[|p.text|..]);
        if Pieces(text[|p.text|..]).Some? {
          CleanBefore(p, Pieces(text[|p.text|..]).value);
        }
      }
    }
  }

  lemma CommasTurn(rest: string)
    requires rest != ""
    ensures WithoutCommas(rest, true) == rest[..Turn(rest)] + WithoutCommas(rest[Turn(rest)..], rest[0] != '"')
  {}

  lemma {:induction false} CommasInString(rest: string)
    ensures WithoutCommas(rest, true) == rest[..Within(rest)] + WithoutCommas(rest[Within(rest)..], false)
    decreases |rest|
  {
    if rest == "" {
    } else if rest[0] == '"' {
      CommasTurn(rest);
    } else {
      CommasTurn(rest);
      var n := Turn(rest);
      var m := Within(rest[n..]);
      WithinTurn(rest);
      CommasInString(rest[n..]);
      Slices(rest, n, m);
      Regrouped(WithoutCommas(rest, true), rest[..n], rest[n..][..m], WithoutCommas(rest[n..][m..], false));
    }
  }

  lemma CommasOpening(text: string)
    requires text != "" && text[0] == '"'
    ensures WithoutCommas(text, false) == text[..1] + WithoutCommas(text[1..], true)
  {}

  lemma CommasQuoted(text: string)
    requires text != "" && text[0] == '"'
    ensures var m := Within(text[1..]); WithoutCommas(text, false) == text[..1 + m] + WithoutCommas(text[1 + m..], false)
  {
    var m := Within(text[1..]);
    CommasOpening(text);
    CommasInString(text[1..]);
    Regrouped(WithoutCommas(text, false), text[..1], text[1..][..m], WithoutCommas(text[1..][m..], false));
    QuotedSlices(text, m);
  }

  lemma QuotedSlices(text: string, m: nat)
    requires 1 + m <= |text|
    ensures text[1..][m..] == text[1 + m..] && text[..1] + text[1..][..m] == text[..1 + m]
  {}

  lemma CommasOfCharacter(c: char, rest: string)
    requires c != '"'
    ensures WithoutCommas([c] + rest, false) == (if c == ',' && ClosesNext(rest) then "" else [c]) + WithoutCommas(rest, false)
  {
    var text := [c] + rest;
    assert text[1..] == rest && text[..1] == [c];
  }

  lemma CharacterPiece(p: Piece)
    requires WellFormed(p) && p.kind == Char
    ensures p.text == [p.text[0]] && p.text[0] != '"'
  {}

  lemma QuotedPiece(p: Piece, rest: string)
    requires WellFormed(p) && (p.kind == Str || (p.kind == OpenStr && rest == ""))
    ensures var text := p.text + rest;
      text[0] == '"' && p.text == text[..1 + Within(text[1..])] && rest == text[1 + Within(text[1..])..]
  {
    FirstIsLocal(p.text, rest);
    QuotedFirst(p.text + rest);
  }

  lemma CommasOfPiece(p: Piece, rest: string)
    requires WellFormed(p) && !IsComment(p) && (p.kind == OpenStr ==> rest == "")
    ensures WithoutCommas(p.text + rest, false) ==
      (if p == COMMA && ClosesNext(rest) then "" else p.text) + WithoutCommas(rest, false)
  {
    if p.kind == Char {
      CharacterPiece(p);
      CommasOfCharacter(p.text[0], rest);
    } else {
      QuotedPiece(p, rest);
      CommasQuoted(p.text + rest);
    }
  }

  lemma ClosesNextAfter(c: char, rest: string)
    ensures ClosesNext([c] + rest) <==> if IsWhitespace(c) then ClosesNext(rest) else c == '}' || c == ']'
  {
    assert ([c] + rest)[1..] == rest;
  }

  lemma ClosesNextPiece(p: Piece, rest: string)
    requires WellFormed(p) && (p.kind == OpenStr ==> rest == "")
    ensures ClosesNext(Left(p) + rest) <==> if Blank(p) then ClosesNext(rest) else p in CLOSERS
  {
    if p.kind == Char {
      CharacterPiece(p);
      ClosesNextAfter(p.text[0], rest);
    } else if p.kind == OpenLine {
      assert "" + rest == rest;
    } else if IsComment(p) {
      ClosesNextAfter(Left(p)[0], rest);
      assert Left(p) == [Left(p)[0]];
    } else {
      QuotedPiece(p, rest);
    }
  }

  lemma OpenIsLast(pieces: seq<Piece>)
    requires pieces != [] && Readable(pieces, "") && (pieces[0].kind == OpenLine || pieces[0].kind == OpenStr)
    ensures pieces[1..] == []
  {}

  lemma {:induction false} ClosesNextPieces(pieces: seq<Piece>)
    requires Readable(pieces, "")
    ensures ClosesNext(Render(Clean(pieces))) <==> CloserNext(pieces)
  {
    if pieces != [] {
      var p, rest := pieces[0], pieces[1..];
      ClosesNextPieces(rest);
      assert pieces == [p] + rest;
      CleanBefore(p, rest);
      if p.kind == OpenStr {
        OpenIsLast(pieces);
      }
      ClosesNextPiece(p, Render(Clean(rest)));
    }
  }

  /** What a piece leaves after both passes. */
  function FinalText(p: Piece, closerNext: bool): string { if p == COMMA && closerNext then "" else Left(p) }

  lemma CommasOfLeft(p: Piece, tail: string)
    requires WellFormed(p) && (p.kind == OpenStr ==> tail == "")
    ensures WithoutCommas(Left(p) + tail, false) == FinalText(p, ClosesNext(tail)) + WithoutCommas(tail, false)
  {
    if p.kind == OpenLine {
      assert "" + tail == tail;
    } else if IsComment(p) {
      CommasOfCharacter(Left(p)[0], tail);
      assert Left(p) == [Left(p)[0]];
    } else {
      CommasOfPiece(p, tail);
    }
  }

  lemma FinalBefore(p: Piece, rest: seq<Piece>)
    ensures Render(Final([p] + rest)) == FinalText(p, CloserNext(rest)) + Render(Final(rest))
  {
    assert ([p] + rest)[1..] == rest;
    RenderFirst(if p == COMMA && CloserNext(rest) then [] else WithoutComment(p), Final(rest));
  }

  /** The second pass leaves what the pieces leave without trailing commas. */
  lemma {:induction false} CommasOfClean(pieces: seq<Piece>)
    requires Readable(pieces, "")
    ensures WithoutCommas(Render(Clean(pieces)), false) == Render(Final(pieces))
  {
    if pieces != [] {
      var p, rest := pieces[0], pieces[1..];
      CommasOfClean(rest);
      ClosesNextPieces(rest);
      assert pieces == [p] + rest;
      CleanBefore(p, rest);
      FinalBefore(p, rest);
      if p.kind == OpenStr {
        OpenIsLast(pieces);
      }
      CommasOfLeft(p, Render(Clean(rest)));
    }
  }

  lemma StrippedIsScanned(text: string)
    ensures var scanned := Scan(text, 0, false, "");
      Stripped(text) == if scanned.None? then None else Some(WithoutCommas(scanned.value, false))
  {
    ScanIsUncommented(text, 0, false, "");
    assert text[0..] == text;
    UncommentedIsClean(text);
    PiecesRender(text);
    if Pieces(text).Some? {
      var pieces := Pieces(text).value;
      assert "" + Render(Clean(pieces)) == Render(Clean(pieces));
      CommasOfClean(pieces);
    }
  }

  // --- What that means for a text with decorations ------------------------------------------

  /** `decorated` is `base` with comments in any gap, and commas where a closing bracket is next. */
  predicate Decorates(decorated: seq<Piece>, base: seq<Piece>) {
    if decorated == [] then base == []
    else
      || (IsComment(decorated[0]) && Decorates(decorated[1..], base))
      || (decorated[0] == COMMA && CloserNext(decorated[1..]) && Decorates(decorated[1..], base))
      || (base != [] && decorated[0] == base[0] && Decorates(decorated[1..], base[1..]))
  }

  /** No comment, and no comma with a closing bracket next. */
  predicate Undecorated(base: seq<Piece>) {
    base != [] ==>
      !IsComment(base[0]) && !(base[0] == COMMA && CloserNext(base[1..])) && Undecorated(base[1..])
  }

  /** What is not white space. */
  function Visible(pieces: seq<Piece>): seq<Piece> {
    if pieces == [] then [] else (if Blank(pieces[0]) then [] else [pieces[0]]) + Visible(pieces[1..])
  }

  /** A text without decorations is left as it is. */
  lemma {:induction false} UndecoratedIsUnchanged(base: seq<Piece>)
    requires Undecorated(base)
    ensures Final(base) == base
  {
    if base != [] {
      UndecoratedIsUnchanged(base[1..]);
    }
  }

  /** Whatever pieces a text is written from, they tell what is stripped; nothing if they carry no
      decoration. */
  lemma StrippedPieces(pieces: seq<Piece>)
    requires Readable(pieces, "")
    ensures Stripped(Render(pieces)) == Some(Render(Final(pieces)))
    ensures Undecorated(pieces) ==> Stripped(Render(pieces)) == Some(Render(pieces))
  {
    RenderedPieces(pieces);
    if Undecorated(pieces) {
      UndecoratedIsUnchanged(pieces);
    }
  }

  lemma VisibleFirst(p: Piece, rest: seq<Piece>)
    ensures Visible(WithoutComment(p) + rest) == (if Blank(p) then [] else [p]) + Visible(rest)
  {
    var left := WithoutComment(p);
    if left == [] {
      assert left + rest == rest;
    } else {
      assert (left + rest)[1..] == rest && (left + rest)[0] == left[0];
      assert Blank(left[0]) == Blank(p);
    }
  }

  /** A decorated text is left with the visible pieces of the text without decorations. */
  lemma {:induction false} DecorationIsUndone(decorated: seq<Piece>, base: seq<Piece>)
    requires Decorates(decorated, base) && Undecorated(base)
    ensures Visible(Final(decorated)) == Visible(base)
  {
    if decorated != [] {
      var p, rest := decorated[0], decorated[1..];
      VisibleFirst(p, Final(rest));
      if IsComment(p) && Decorates(rest, base) {
        DecorationIsUndone(rest, base);
      } else if p == COMMA && CloserNext(rest) && Decorates(rest, base) {
        DecorationIsUndone(rest, base);
        assert [] + Final(rest) == Final(rest);
      } else {
        DecorationIsUndone(rest, base[1..]);
        if p == COMMA && CloserNext(rest) {
          CloserUnderDecoration(rest, base[1..]);
        }
      }
    }
  }

  lemma {:induction false} CloserUnderDecoration(decorated: seq<Piece>, base: seq<Piece>)
    requires Decorates(decorated, base) && Undecorated(base) && CloserNext(decorated)
    ensures CloserNext(base)
  {
    var p, rest := decorated[0], decorated[1..];
    if Blank(p) {
      if IsComment(p) && Decorates(rest, base) {
        CloserUnderDecoration(rest, base);
      } else {
        CloserUnderDecoration(rest, base[1..]);
      }
    }
  }

  // --- What is left reads back --------------------------------------------------------------

  predicate Slashing(c: char) { c == '/' || c == '*' }

  lemma FirstCharacter(p: seq<Piece>, rest: seq<Piece>)
    requires |p| == 1 && p[0].text != ""
    ensures Render(p + rest) != "" && Render(p + rest)[0] == p[0].text[0]
  {
    RenderFirst(p, rest);
  }

  /** After a comma that is dropped comes white space or a closing bracket. */
  lemma HeadAfterComma(pieces: seq<Piece>)
    requires Readable(pieces, "") && CloserNext(pieces)
    ensures Render(Final(pieces)) != "" && !Slashing(Render(Final(pieces))[0])
  {
    var p, rest := pieces[0], pieces[1..];
    if p.kind == OpenLine {
      OpenIsLast(pieces);
    } else {
      FirstCharacter(WithoutComment(p), Final(rest));
    }
  }

  /** What is left starts as the text did, or with nothing that could make a comment of a slash. */
  lemma HeadOfFinal(pieces: seq<Piece>)
    requires Readable(pieces, "") && Render(Final(pieces)) != ""
    ensures Render(pieces) != "" && (Slashing(Render(Final(pieces))[0]) ==> Render(Final(pieces))[0] == Render(pieces)[0])
  {
    var p, rest := pieces[0], pieces[1..];
    if p == COMMA && CloserNext(rest) {
      assert Readable(rest, "");
      HeadAfterComma(rest);
      assert [] + Final(rest) == Final(rest);
    } else if p.kind == OpenLine {
      OpenIsLast(pieces);
    } else {
      FirstCharacter(WithoutComment(p), Final(rest));
    }
  }

  lemma MayPrecedeFinal(p: Piece, rest: seq<Piece>)
    requires Readable([p] + rest, "") && !IsComment(p)
    ensures MayPrecede(p, Render(Final(rest)) + "")
  {
    var pieces := [p] + rest;
    assert pieces[1..] == rest && pieces[0] == p;
    assert Render(rest) + "" == Render(rest) && Render(Final(rest)) + "" == Render(Final(rest));
    if p.kind == OpenStr {
      OpenIsLast(pieces);
    } else if Render(Final(rest)) != "" {
      HeadOfFinal(rest);
    }
  }

  lemma ReadableBefore(p: Piece, rest: seq<Piece>)
    requires WellFormed(p) && MayPrecede(p, Render(rest) + "") && Readable(rest, "")
    ensures Readable([p] + rest, "")
  {
    assert ([p] + rest)[1..] == rest;
  }

  lemma BlanksAreWellFormed(rest: string)
    ensures WellFormed(SPACE) && WellFormed(NEWLINE) && MayPrecede(SPACE, rest) && MayPrecede(NEWLINE, rest)
  {
    assert " "[..1] == " " && "\n"[..1] == "\n";
  }

  lemma {:induction false} FinalIsReadable(pieces: seq<Piece>)
    requires Readable(pieces, "")
    ensures Readable(Final(pieces), "")
  {
    if pieces != [] {
      var p, rest := pieces[0], pieces[1..];
      FinalIsReadable(rest);
      BlanksAreWellFormed(Render(Final(rest)) + "");
      if (p == COMMA && CloserNext(rest)) || p.kind == OpenLine {
        assert [] + Final(rest) == Final(rest);
      } else if IsComment(p) {
        ReadableBefore(WithoutComment(p)[0], Final(rest));
        assert WithoutComment(p) == [WithoutComment(p)[0]];
      } else {
        assert pieces == [p] + rest;
        MayPrecedeFinal(p, rest);
        ReadableBefore(p, Final(rest));
      }
    }
  }

  /** The text that is left of a decorated text has the visible pieces of the text without
      decorations, and no others. */
  lemma StrippedTextIsUndecorated(decorated: seq<Piece>, base: seq<Piece>)
    requires Readable(decorated, "") && Decorates(decorated, base) && Undecorated(base)
    ensures var stripped := Stripped(Render(decorated));
      stripped.Some? && Pieces(stripped.value).Some? && Visible(Pieces(stripped.value).value) == Visible(base)
  {
    StrippedPieces(decorated);
    FinalIsReadable(decorated);
    RenderedPieces(Final(decorated));
    DecorationIsUndone(decorated, base);
  }
}
