/** Paths and `file:` URIs (src/uri.rs), on the bytes of their text. */
module Uris {
  import opened Wrappers
  import opened Utf8s

  type Bytes = seq<Byte>

  const SLASH: Byte := 47
  const PERCENT: Byte := 37
  const COLON: Byte := 58
  const PLUS: Byte := 43
  /** "file://" */
  const SCHEME: Bytes := [102, 105, 108, 101, 58, 47, 47]

  predicate IsAlphanumeric(b: Byte) { 48 <= b < 58 || 65 <= b < 91 || 97 <= b < 123 }

  predicate IsUnreserved(b: Byte) { IsAlphanumeric(b) || b in {45, 46, 95, 126} }

  predicate Verbatim(b: Byte) { IsUnreserved(b) || b == SLASH || b == COLON }

  // --- Encoding -----------------------------------------------------------------------------

  function HexDigit(n: nat): Byte
    requires n < 16
  {
    if n < 10 then 48 + n else 55 + n
  }

  function EncodedByte(b: Byte): Bytes {
    if Verbatim(b) then [b] else [PERCENT, HexDigit(b / 16), HexDigit(b % 16)]
  }

  function EncodedPath(path: Bytes): Bytes {
    if path == [] then [] else EncodedByte(path[0]) + EncodedPath(path[1..])
  }

  /** The path with a slash before it if it has none. */
  function Rooted(path: Bytes): Bytes {
    if path != [] && path[0] == SLASH then path else [SLASH] + path
  }

  method PathToUri(path: Bytes) returns (uri: Bytes)
    ensures uri == SCHEME + EncodedPath(Rooted(path))
  {
    uri := SCHEME;
    EncodedRooted(path);
    assert path[0..] == path;
    if path == [] || path[0] != SLASH {
      uri := uri + [SLASH];
    }
    for i := 0 to |path|
      invariant uri + EncodedPath(path[i..]) == SCHEME + EncodedPath(Rooted(path))
    {
      EncodedNext(uri, path, i);
      uri := uri + EncodedByte(path[i]);
    }
  }

  lemma EncodedNext(out: Bytes, path: Bytes, i: nat)
    requires i < |path|
    ensures out + EncodedPath(path[i..]) == out + EncodedByte(path[i]) + EncodedPath(path[i + 1..])
  {
    assert path[i..][1..] == path[i + 1..];
  }

  lemma EncodedRooted(path: Bytes)
    ensures EncodedPath(Rooted(path)) == (if path != [] && path[0] == SLASH then [] else [SLASH]) + EncodedPath(path)
  {
    assert ([SLASH] + path)[1..] == path;
  }

  // --- Decoding -----------------------------------------------------------------------------

  function HexValue(b: Byte): Option<nat> {
    if 48 <= b < 58 then Some(b - 48)
    else if 65 <= b < 71 then Some(b - 55)
    else if 97 <= b < 103 then Some(b - 87)
    else None
  }

  /** `u8::from_str_radix(_, 16)` of two bytes: two hexadecimal digits, or a plus sign and one. */
  function HexPair(a: Byte, b: Byte): Option<Byte> {
    if HexValue(b).None? then None
    else if a == PLUS then Some(HexValue(b).value)
    else if HexValue(a).None? then None
    else Some(16 * HexValue(a).value + HexValue(b).value)
  }

  /** How many bytes a turn of the decoder takes, and the byte it gives. */
  function Turn(text: Bytes): (nat, Byte)
    requires text != []
  {
    if text[0] == PERCENT && |text| > 2 && HexPair(text[1], text[2]).Some?
    then (3, HexPair(text[1], text[2]).value)
    else (1, text[0])
  }

  /** The bytes a text stands for. */
  function Decoded(text: Bytes): Bytes {
    if text == [] then [] else [Turn(text).1] + Decoded(text[Turn(text).0..])
  }

  /** The two bytes after a percent sign are cut out of the text: between them and what follows
      there must be no character that goes on. */
  predicate CutsCharacter(text: Bytes, i: nat) {
    i + 2 < |text| && text[i] == PERCENT && (Continues(text[i + 1]) || (i + 3 < |text| && Continues(text[i + 3])))
  }

  /** The path a URI stands for; none for another scheme or a host, or when the decoder would cut a
      character. */
  function UriToPath(uri: Bytes): Option<Bytes> {
    if !(SCHEME <= uri) then None
    else
      var path := uri[|SCHEME|..];
      if path != [] && path[0] != SLASH then None
      else if Cuts(path) then None
      else Some(Decoded(path))
  }

  /** Some turn of the decoder would cut a character. */
  predicate Cuts(text: Bytes) {
    text != [] && (CutsCharacter(text, 0) || Cuts(text[Turn(text).0..]))
  }

  method PercentDecode(text: Bytes) returns (decoded: Option<Bytes>)
    ensures decoded == if Cuts(text) then None else Some(Decoded(text))
  {
    var out, i := [], 0;
    assert text[0..] == text;
    while i < |text|
      invariant 0 <= i <= |text|
      invariant Cuts(text) == Cuts(text[i..])
      invariant Decoded(text) == out + Decoded(text[i..])
    {
      ghost var rest, start := text[i..], i;
      DecodedNext(out, rest);
      if text[i] == PERCENT && i + 2 < |text| {
        if CutsCharacter(text, i) {
          return None;
        }
        var value := HexPair(text[i + 1], text[i + 2]);
        if value.Some? {
          out := out + [value.value];
          i := i + 3;
        } else {
          out := out + [text[i]];
          i := i + 1;
        }
      } else {
        out := out + [text[i]];
        i := i + 1;
      }
      assert text[i..] == rest[i - start..];
    }
    assert out + [] == out;
    decoded := Some(out);
  }

  lemma DecodedNext(out: Bytes, rest: Bytes)
    requires rest != []
    ensures out + Decoded(rest) == out + [Turn(rest).1] + Decoded(rest[Turn(rest).0..])
  {}

  // --- The round trip -----------------------------------------------------------------------

  lemma EncodedIsAscii(path: Bytes)
    ensures forall i | 0 <= i < |EncodedPath(path)| :: EncodedPath(path)[i] < 0x80
  {
    if path != [] {
      EncodedIsAscii(path[1..]);
    }
  }

  lemma HexRoundTrip(b: Byte)
    ensures HexPair(HexDigit(b / 16), HexDigit(b % 16)) == Some(b)
  {}

  lemma TurnOfEncoded(b: Byte, rest: Bytes)
    ensures Turn(EncodedByte(b) + rest) == (|EncodedByte(b)|, b)
  {
    HexRoundTrip(b);
  }

  /** Decoding undoes encoding, and cuts no character. */
  lemma {:induction false} DecodedEncoded(path: Bytes)
    ensures Decoded(EncodedPath(path)) == path && !Cuts(EncodedPath(path))
  {
    if path != [] {
      var b, rest := path[0], EncodedPath(path[1..]);
      DecodedEncoded(path[1..]);
      TurnOfEncoded(b, rest);
      EncodedIsAscii(path);
      assert (EncodedByte(b) + rest)[|EncodedByte(b)|..] == rest;
      assert [b] + path[1..] == path;
    }
  }

  /** The URI of a path leads back to the path, with a slash before it if it had none. */
  lemma UriOfPathLeadsBack(path: Bytes)
    ensures UriToPath(SCHEME + EncodedPath(Rooted(path))) == Some(Rooted(path))
  {
    var encoded := EncodedPath(Rooted(path));
    assert (SCHEME + encoded)[|SCHEME|..] == encoded;
    assert encoded[0] == SLASH;
    DecodedEncoded(Rooted(path));
  }

  // --- Any spelling -------------------------------------------------------------------------

  /** "0123456789ABCDEF" and "0123456789abcdef" */
  const UPPER_DIGITS: Bytes := [48, 49, 50, 51, 52, 53, 54, 55, 56, 57, 65, 66, 67, 68, 69, 70]
  const LOWER_DIGITS: Bytes := [48, 49, 50, 51, 52, 53, 54, 55, 56, 57, 97, 98, 99, 100, 101, 102]

  /** A digit of the value, in either case. */
  predicate IsDigitOf(b: Byte, v: int) { 0 <= v < 16 && (b == UPPER_DIGITS[v] || b == LOWER_DIGITS[v]) }

  lemma HexValueExactly(b: Byte, v: nat)
    ensures HexValue(b) == Some(v) <==> IsDigitOf(b, v)
  {}

  /** A byte as it is, or as a percent sign and two digits of either case. */
  predicate SpellsByte(piece: Bytes, b: Byte) {
    || (piece == [b] && b != PERCENT)
    || (|piece| == 3 && piece[0] == PERCENT && IsDigitOf(piece[1], b / 16) && IsDigitOf(piece[2], b % 16))
  }

  function Joined(pieces: seq<Bytes>): Bytes { if pieces == [] then [] else pieces[0] + Joined(pieces[1..]) }

  lemma SpelledTurn(piece: Bytes, b: Byte, rest: Bytes)
    requires SpellsByte(piece, b)
    ensures Turn(piece + rest) == (|piece|, b) && (piece + rest)[|piece|..] == rest
  {
    if |piece| == 3 {
      HexValueExactly(piece[1], b / 16);
      HexValueExactly(piece[2], b % 16);
      assert piece[1] != PLUS;
    }
  }

  /** However the bytes of a path are spelled, byte by byte, they are decoded to the path. */
  lemma {:induction false} SpelledIsDecoded(pieces: seq<Bytes>, path: Bytes)
    requires |pieces| == |path| && forall i | 0 <= i < |path| :: SpellsByte(pieces[i], path[i])
    ensures Decoded(Joined(pieces)) == path
  {
    if path != [] {
      SpelledIsDecoded(pieces[1..], path[1..]);
      SpelledTurn(pieces[0], path[0], Joined(pieces[1..]));
      assert [path[0]] + path[1..] == path;
    }
  }

  /** Letters, digits, and "-._~/:" */
  predicate Allowed(b: Byte) {
    48 <= b <= 57 || 65 <= b <= 90 || 97 <= b <= 122 || b in {45, 46, 95, 126, 47, 58}
  }

  /** Of all spellings, the URI of a path has the one that leaves exactly the allowed bytes as they are and
      spells the others with upper-case digits. */
  lemma {:induction false} EncodedExactly(path: Bytes) returns (pieces: seq<Bytes>)
    ensures |pieces| == |path| && EncodedPath(path) == Joined(pieces)
    ensures forall i | 0 <= i < |path| ::
      pieces[i] == if Allowed(path[i]) then [path[i]] else [37, UPPER_DIGITS[path[i] / 16], UPPER_DIGITS[path[i] % 16]]
  {
    if path == [] {
      pieces := [];
    } else {
      var rest := EncodedExactly(path[1..]);
      var first := EncodedByte(path[0]);
      HexDigits(path[0]);
      pieces := [first] + rest;
      assert pieces[1..] == rest;
    }
  }

  lemma HexDigits(b: Byte)
    ensures HexDigit(b / 16) == UPPER_DIGITS[b / 16] && HexDigit(b % 16) == UPPER_DIGITS[b % 16]
  {}

  /** A URI has a path iff it is "file://" with nothing or an absolute path after it, no host, and no character
      of it is cut; then the path is what that stands for. */
  lemma PathExactly(uri: Bytes, path: Bytes)
    ensures UriToPath(uri) == Some(path) <==>
      exists text :: uri == [102, 105, 108, 101, 58, 47, 47] + text && (text == [] || text[0] == 47) && !Cuts(text) && Decoded(text) == path
  {
    if SCHEME <= uri {
      assert uri == SCHEME + uri[|SCHEME|..];
    }
  }

  /** Two absolute paths have the same URI only if they are the same. */
  lemma UrisAreDistinct(p: Bytes, q: Bytes)
    requires p != [] && q != [] && p[0] == SLASH && q[0] == SLASH
    ensures SCHEME + EncodedPath(Rooted(p)) == SCHEME + EncodedPath(Rooted(q)) ==> p == q
  {
    UriOfPathLeadsBack(p);
    UriOfPathLeadsBack(q);
  }

  /** A URI of unreserved characters, slashes, colons and percent signs with two digits. */
  predicate IsUriText(text: Bytes) {
    if text == [] then true
    else if text[0] == PERCENT then |text| > 2 && HexValue(text[1]).Some? && HexValue(text[2]).Some? && IsUriText(text[3..])
    else Verbatim(text[0]) && IsUriText(text[1..])
  }

  /** Only such characters are in the URI of a path (sections 2.1 and 2.3 of RFC 3986). */
  lemma {:induction false} EncodedIsUriText(path: Bytes)
    ensures IsUriText(EncodedPath(path))
  {
    if path != [] {
      var b, rest := path[0], EncodedPath(path[1..]);
      EncodedIsUriText(path[1..]);
      assert (EncodedByte(b) + rest)[|EncodedByte(b)|..] == rest;
      HexRoundTrip(b);
    }
  }

  // --- Where the decoder departs from the plain rule ----------------------------------------

  /** Two hexadecimal digits only. */
  function PlainTurn(text: Bytes): (nat, Byte)
    requires text != []
  {
    if text[0] == PERCENT && |text| > 2 && HexValue(text[1]).Some? && HexValue(text[2]).Some?
    then (3, 16 * HexValue(text[1]).value + HexValue(text[2]).value)
    else (1, text[0])
  }

  function PlainDecoded(text: Bytes): Bytes {
    if text == [] then [] else [PlainTurn(text).1] + PlainDecoded(text[PlainTurn(text).0..])
  }

  /** A percent sign, a plus sign and a hexadecimal digit. */
  predicate PlusAt(text: Bytes, i: nat) {
    i + 2 < |text| && text[i] == PERCENT && text[i + 1] == PLUS && HexValue(text[i + 2]).Some?
  }

  lemma PairIsNoPercent(a: Byte, b: Byte)
    requires HexPair(a, b).Some?
    ensures a != PERCENT && b != PERCENT && (a != PLUS ==> HexValue(a).Some?)
  {}

  lemma PlusTurn(text: Bytes)
    requires PlusAt(text, 0)
    ensures Turn(text).0 == 3 && |PlainDecoded(text)| == 3 + |PlainDecoded(text[3..])|
  {
    var t1, t2 := text[1..], text[2..];
    assert t1[1..] == t2 && t2[1..] == text[3..];
    PlainOne(text);
    PlainOne(t1);
    assert HexValue(t2[0]).Some? && t2[0] != PERCENT;
    PlainOne(t2);
  }

  lemma PlainOne(text: Bytes)
    requires text != [] && (text[0] != PERCENT || (|text| > 1 && text[1] == PLUS))
    ensures |PlainDecoded(text)| == 1 + |PlainDecoded(text[1..])|
  {}

  lemma SameAfter(x: Byte, a: Bytes, b: Bytes)
    ensures [x] + a == [x] + b <==> a == b
  {
    assert ([x] + a)[1..] == a && ([x] + b)[1..] == b;
  }

  lemma OtherTurn(text: Bytes)
    requires text != [] && !PlusAt(text, 0)
    ensures Turn(text) == PlainTurn(text)
  {}

  lemma PlusFurther(text: Bytes)
    requires text != []
    ensures (exists i: nat :: PlusAt(text, i)) <==> PlusAt(text, 0) || exists i: nat :: PlusAt(text[Turn(text).0..], i)
  {
    var n := Turn(text).0;
    if n == 3 {
      PairIsNoPercent(text[1], text[2]);
    }
    forall i: nat ensures PlusAt(text[n..], i) <==> PlusAt(text, n + i) {}
    if exists i: nat :: PlusAt(text, i) {
      var i: nat :| PlusAt(text, i);
      assert i == 0 || i >= n;
      if i >= n {
        assert PlusAt(text[n..], i - n);
      }
    }
  }

  /** The decoder gives what two hexadecimal digits stand for exactly when no percent sign is followed
      by a plus sign and a digit. */
  lemma {:induction false} PlainExactly(text: Bytes)
    ensures Decoded(text) == PlainDecoded(text) <==> !exists i: nat :: PlusAt(text, i)
    ensures |Decoded(text)| <= |PlainDecoded(text)|
  {
    if text != [] {
      var rest := text[Turn(text).0..];
      PlainExactly(rest);
      PlusFurther(text);
      assert Decoded(text) == [Turn(text).1] + Decoded(rest);
      if PlusAt(text, 0) {
        PlusTurn(text);
      } else {
        OtherTurn(text);
        assert PlainDecoded(text) == [Turn(text).1] + PlainDecoded(rest);
        SameAfter(Turn(text).1, Decoded(rest), PlainDecoded(rest));
      }
    } else {
      assert !exists i: nat :: PlusAt(text, i);
    }
  }

  /** For instance. */
  lemma PlusSignIsDecoded()
    ensures Decoded([PERCENT, PLUS, 70]) == [15] && PlainDecoded([PERCENT, PLUS, 70]) == [PERCENT, PLUS, 70]
  {
    var text: Bytes := [PERCENT, PLUS, 70];
    assert text[3..] == [] && text[1..] == [PLUS, 70] && text[1..][1..] == [70] && text[1..][1..][1..] == [];
    assert PlainDecoded([70]) == [70] + [];
    assert PlainDecoded([PLUS, 70]) == [PLUS] + [70];
    assert PlainDecoded(text) == [PERCENT] + [PLUS, 70];
  }

  lemma CutsFurther(text: Bytes)
    requires text != []
    ensures (exists i: nat :: CutsCharacter(text, i)) <==>
      CutsCharacter(text, 0) || exists i: nat :: CutsCharacter(text[Turn(text).0..], i)
  {
    var n := Turn(text).0;
    if n == 3 {
      PairIsNoPercent(text[1], text[2]);
    }
    forall i: nat ensures CutsCharacter(text[n..], i) <==> CutsCharacter(text, n + i) {}
    if exists i: nat :: CutsCharacter(text, i) {
      var i: nat :| CutsCharacter(text, i);
      assert i == 0 || i >= n;
      if i >= n {
        assert CutsCharacter(text[n..], i - n);
      }
    }
  }

  /** The decoder cuts a character exactly when somewhere in the text a character goes on right after a
      percent sign, or two bytes after that: no turn of the decoder passes over a percent sign. */
  lemma {:induction false} CutsExactly(text: Bytes)
    ensures Cuts(text) <==> exists i: nat :: CutsCharacter(text, i)
  {
    if text != [] {
      CutsExactly(text[Turn(text).0..]);
      CutsFurther(text);
    }
  }

  /** So a text of single-byte characters is never cut. */
  lemma AsciiIsNeverCut(text: Bytes)
    requires forall i | 0 <= i < |text| :: text[i] < 0x80
    ensures !Cuts(text)
  {
    CutsExactly(text);
  }

  /** For instance "/%a" and an e with an acute accent: a text, of which the decoder makes nothing. */
  lemma AccentIsCut()
    ensures var text: Bytes := [SLASH, PERCENT, 97, 0xC3, 0xA9]; IsText(text) && Cuts(text) && UriToPath(SCHEME + text) == None
  {
    var text: Bytes := [SLASH, PERCENT, 97, 0xC3, 0xA9];
    assert text[1..] == [PERCENT, 97, 0xC3, 0xA9] && text[1..][1..] == [97, 0xC3, 0xA9] && text[1..][1..][1..] == [0xC3, 0xA9];
    assert [0xC3, 0xA9][2..] == [];
    assert IsText([0xC3, 0xA9]);
    assert IsText([97, 0xC3, 0xA9]);
    assert IsText([PERCENT, 97, 0xC3, 0xA9]);
    assert CutsCharacter(text, 1);
    CutsExactly(text);
    assert (SCHEME + text)[|SCHEME|..] == text;
  }
}
