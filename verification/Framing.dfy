/** Messages framed by a Content-Length header (src/framing.rs), byte by byte. */
module Framings {
  import opened Wrappers
  import opened Utf8s

  type Bytes = seq<Byte>

  datatype Error =
    | Io
    | MalformedHeaderLine(line: Bytes)
    | MalformedHeader(text: Bytes)
    | MissingContentLength
    | InvalidContentLength(value: Bytes)

  datatype Result<T> = Ok(value: T) | Err(error: Error)

  const CR: Byte := 13
  const LF: Byte := 10
  const CRLF: Bytes := [13, 10]
  const COLON: Bytes := [58, 32]
  /** "Content-Length" */
  const CONTENT_LENGTH: Bytes := [67, 111, 110, 116, 101, 110, 116, 45, 76, 101, 110, 103, 116, 104]

  /** Sizes are of 64 bits. */
  const SIZES := 0x1_0000_0000_0000_0000

  // --- Numbers ------------------------------------------------------------------------------

  predicate IsDigit(b: Byte) { 48 <= b < 58 }

  function Decimal(n: nat): Bytes {
    if n < 10 then [48 + n] else Decimal(n / 10) + [48 + n % 10]
  }

  function Digits(text: Bytes): Option<nat> {
    if text == [] then Some(0)
    else
      var n := |text| - 1;
      var before := Digits(text[..n]);
      if before.None? || !IsDigit(text[n]) then None else Some(10 * before.value + (text[n] - 48))
  }

  /** `str::parse::<usize>`: digits, with a plus sign before them if need be, not too large. */
  function ParseSize(text: Bytes): Option<nat> {
    var digits := if text != [] && text[0] == 43 then text[1..] else text;
    var n := Digits(digits);
    if digits == [] || n.None? || n.value >= SIZES then None else n
  }

  lemma {:induction false} DigitsOfDecimal(n: nat)
    ensures Decimal(n) != [] && Digits(Decimal(n)) == Some(n)
    ensures forall b | b in Decimal(n) :: IsDigit(b)
  {
    if n >= 10 {
      DigitsOfDecimal(n / 10);
      var last := [48 + n % 10];
      assert (Decimal(n / 10) + last)[..|Decimal(n / 10)|] == Decimal(n / 10);
    } else {
      assert [48 + n][..0] == [];
    }
  }

  lemma ParseOfDecimal(n: nat)
    requires n < SIZES
    ensures ParseSize(Decimal(n)) == Some(n)
  {
    DigitsOfDecimal(n);
    assert Decimal(n)[0] in Decimal(n);
  }

  // --- Lines --------------------------------------------------------------------------------

  /** The bytes up to the first newline and with it, or all if there is none. */
  function LineLength(rest: Bytes): (n: nat)
    ensures n <= |rest| && (rest != [] ==> n > 0)
    ensures LF !in rest[..if n > 0 then n - 1 else 0]
    ensures rest != [] && n < |rest| ==> rest[n - 1] == LF
  {
    if rest == [] then 0 else if rest[0] == LF then 1 else 1 + LineLength(rest[1..])
  }

  lemma {:induction false} LineLengthIs(line: Bytes, rest: Bytes)
    requires LF !in line
    ensures LineLength(line + [LF] + rest) == |line| + 1
    ensures LineLength(line) == |line|
  {
    if line != [] {
      LineLengthIs(line[1..], rest);
      assert (line + [LF] + rest)[1..] == line[1..] + [LF] + rest;
    }
  }

  predicate EndsInCrlf(line: Bytes) { |line| >= 2 && line[|line| - 2..] == CRLF }

  /** The position of the first ": ", or none. */
  function SplitAt(text: Bytes): (i: Option<nat>)
    ensures i.Some? ==> i.value + 2 <= |text|
  {
    if |text| < 2 then None
    else if text[0] == 58 && text[1] == 32 then Some(0)
    else
      var i := SplitAt(text[1..]);
      if i.None? then None else Some(1 + i.value)
  }

  function Lower(b: Byte): Byte { if 65 <= b < 91 then b + 32 else b }

  predicate SameIgnoringCase(a: Bytes, b: Bytes) {
    |a| == |b| && forall i | 0 <= i < |a| :: Lower(a[i]) == Lower(b[i])
  }

  // --- Reading ------------------------------------------------------------------------------

  /** What a header line does to the length found so far. */
  function HeaderLine(text: Bytes, length: Option<nat>): Result<Option<nat>> {
    var i := SplitAt(text);
    if i.None? then Err(MalformedHeader(text))
    else if !SameIgnoringCase(text[..i.value], CONTENT_LENGTH) then Ok(length)
    else
      var value := text[i.value + 2..];
      if ParseSize(value).None? then Err(InvalidContentLength(value)) else Ok(ParseSize(value))
  }

  /** The length a header gives, none at a clean end, and what follows the header. */
  function Header(rest: Bytes, length: Option<nat>, atStart: bool): (r: (Result<Option<nat>>, Bytes))
    ensures |r.1| <= |rest|
    ensures r.0.Ok? && r.0.value.Some? ==> |r.1| < |rest|
    decreases |rest|
  {
    var n := LineLength(rest);
    var line, after := rest[..n], rest[n..];
    if !IsText(line) then (Err(Io), after)
    else if line == [] then (if atStart then Ok(None) else Err(MalformedHeaderLine(line)), after)
    else if !EndsInCrlf(line) then (Err(MalformedHeaderLine(line)), after)
    else
      var text := line[..n - 2];
      if text == [] then (if length.None? then Err(MissingContentLength) else Ok(length), after)
      else
        match HeaderLine(text, length)
        case Err(error) => (Err(error), after)
        case Ok(length) => Header(after, length, false)
  }

  /** A message, none at a clean end, and what follows it. */
  function Message(rest: Bytes): (r: (Result<Option<Bytes>>, Bytes))
    ensures r.0.Ok? && r.0.value.Some? ==> |r.1| < |rest|
  {
    var (length, body) := Header(rest, None, true);
    match length
    case Err(error) => (Err(error), body)
    case Ok(None) => (Ok(None), body)
    case Ok(Some(n)) => if n <= |body| then (Ok(Some(body[..n])), body[n..]) else (Err(Io), [])
  }

  function Frame(body: Bytes): Bytes {
    CONTENT_LENGTH + COLON + Decimal(|body|) + CRLF + CRLF + body
  }

  class Reader {
    /** What the stream still holds. */
    var rest: Bytes

    constructor (stream: Bytes)
      ensures rest == stream
    {
      rest := stream;
    }

    method ReadLine() returns (line: Bytes)
      modifies this
      ensures var n := LineLength(old(rest)); line == old(rest)[..n] && rest == old(rest)[n..]
    {
      var n, ended := 0, false;
      while n < |rest| && !ended
        invariant 0 <= n <= |rest|
        invariant LineLength(rest) == n + if ended then 0 else LineLength(rest[n..])
      {
        ended := rest[n] == LF;
        n := n + 1;
      }
      line := rest[..n];
      rest := rest[n..];
    }

    method ReadHeader() returns (length: Result<Option<nat>>)
      modifies this
      ensures (length, rest) == Header(old(rest), None, true)
    {
      var found: Option<nat> := None;
      var atStart := true;
      while true
        invariant Header(old(rest), None, true) == Header(rest, found, atStart)
        decreases |rest|
      {
        var line := ReadLine();
        if !IsText(line) {
          return Err(Io);
        }
        if line == [] {
          return if atStart then Ok(None) else Err(MalformedHeaderLine(line));
        }
        atStart := false;
        if !EndsInCrlf(line) {
          return Err(MalformedHeaderLine(line));
        }
        var text := line[..|line| - 2];
        if text == [] {
          break;
        }
        match HeaderLine(text, found) {
          case Err(error) => return Err(error);
          case Ok(size) => found := size;
        }
      }
      length := if found.None? then Err(MissingContentLength) else Ok(found);
    }

    method ReadMessage() returns (message: Result<Option<Bytes>>)
      modifies this
      ensures (message, rest) == Message(old(rest))
    {
      var length := ReadHeader();
      match length {
        case Err(error) => return Err(error);
        case Ok(None) => return Ok(None);
        case Ok(Some(n)) =>
          if n > |rest| {
            rest := [];
            return Err(Io);
          }
          var body := rest[..n];
          rest := rest[n..];
          message := Ok(Some(body));
      }
    }
  }

  class Writer {
    var written: Bytes

    constructor ()
      ensures written == []
    {
      written := [];
    }

    method WriteMessage(body: Bytes)
      modifies this
      ensures written == old(written) + Frame(body)
    {
      written := written + (CONTENT_LENGTH + COLON + Decimal(|body|) + CRLF + CRLF);
      written := written + body;
    }
  }

  // --- What is written is read back ---------------------------------------------------------

  function LengthText(n: nat): Bytes { CONTENT_LENGTH + COLON + Decimal(n) }

  lemma LengthTextIsAscii(n: nat)
    ensures forall i | 0 <= i < |LengthText(n)| :: 32 <= LengthText(n)[i] < 0x80
  {
    DigitsOfDecimal(n);
    forall i | 0 <= i < |Decimal(n)| ensures IsDigit(Decimal(n)[i]) {
      assert Decimal(n)[i] in Decimal(n);
    }
  }

  lemma {:induction false} SplitAtFirst(name: Bytes, rest: Bytes)
    requires forall i | 0 <= i < |name| :: name[i] != 58
    ensures SplitAt(name + COLON + rest) == Some(|name|)
  {
    var text := name + COLON + rest;
    if name != [] {
      SplitAtFirst(name[1..], rest);
      assert text[1..] == name[1..] + COLON + rest;
    }
  }

  lemma LengthLine(n: nat, length: Option<nat>)
    requires n < SIZES
    ensures HeaderLine(LengthText(n), length) == Ok(Some(n))
  {
    var text := LengthText(n);
    SplitAtFirst(CONTENT_LENGTH, Decimal(n));
    ParseOfDecimal(n);
    assert text[..|CONTENT_LENGTH|] == CONTENT_LENGTH;
    assert text[|CONTENT_LENGTH| + 2..] == Decimal(n);
  }

  /** One line of a header, read from what follows. */
  lemma FirstLine(text: Bytes, rest: Bytes)
    requires forall i | 0 <= i < |text| :: 32 <= text[i] < 0x80
    ensures var stream := text + CRLF + rest; var n := LineLength(stream);
      n == |text| + 2 && stream[..n] == text + CRLF && IsText(stream[..n]) && stream[n..] == rest
  {
    assert text + CRLF + rest == (text + [CR]) + [LF] + rest;
    assert LF !in text + [CR];
    LineLengthIs(text + [CR], rest);
    AsciiIsText(text + CRLF);
    assert (text + CRLF + rest)[..|text| + 2] == text + CRLF;
  }

  lemma HeaderOfFrame(n: nat, rest: Bytes)
    requires n < SIZES
    ensures Header(LengthText(n) + CRLF + (CRLF + rest), None, true) == (Ok(Some(n)), rest)
  {
    LengthTextIsAscii(n);
    FirstLine(LengthText(n), CRLF + rest);
    var line := LengthText(n) + CRLF;
    assert line[..|line| - 2] == LengthText(n);
    LengthLine(n, None);
    FirstLine([], rest);
    assert [] + CRLF + rest == CRLF + rest && [] + CRLF == CRLF;
    assert CRLF[..0] == [];
  }

  /** A message that is written is read back, and nothing beyond it. */
  lemma MessageOfFrame(body: Bytes, rest: Bytes)
    requires |body| < SIZES
    ensures Message(Frame(body) + rest) == (Ok(Some(body)), rest)
  {
    FrameParts(body, rest);
    HeaderOfFrame(|body|, body + rest);
    assert (body + rest)[..|body|] == body && (body + rest)[|body|..] == rest;
  }

  lemma FrameParts(body: Bytes, rest: Bytes)
    ensures Frame(body) + rest == LengthText(|body|) + CRLF + (CRLF + (body + rest))
  {}

  function Stream(bodies: seq<Bytes>): Bytes {
    if bodies == [] then [] else Frame(bodies[0]) + Stream(bodies[1..])
  }

  /** All messages up to a clean end; none if there is an error before it. */
  function Messages(rest: Bytes): Option<seq<Bytes>>
    decreases |rest|
  {
    var (message, after) := Message(rest);
    match message
    case Err(_) => None
    case Ok(None) => Some([])
    case Ok(Some(body)) =>
      var others := Messages(after);
      if others.None? then None else Some([body] + others.value)
  }

  /** Messages written one after another are read back, and then the stream ends cleanly. */
  lemma {:induction false} StreamIsReadBack(bodies: seq<Bytes>)
    requires forall i | 0 <= i < |bodies| :: |bodies[i]| < SIZES
    ensures Messages(Stream(bodies)) == Some(bodies)
  {
    if bodies != [] {
      MessageOfFrame(bodies[0], Stream(bodies[1..]));
      StreamIsReadBack(bodies[1..]);
      assert [bodies[0]] + bodies[1..] == bodies;
    }
  }

  lemma UnfinishedLine(line: Bytes, length: Option<nat>, atStart: bool)
    requires line != [] && LF !in line
    ensures Header(line, length, atStart).0.Err?
  {
    LineLengthIs(line, []);
    assert line[..|line|] == line;
    assert line[|line| - 1] in line;
  }

  lemma UnfinishedHeader(n: nat, after: Bytes)
    requires n < SIZES && (after == [] || after == [CR])
    ensures Header(LengthText(n) + CRLF + after, None, true).0.Err?
  {
    LengthTextIsAscii(n);
    FirstLine(LengthText(n), after);
    var line := LengthText(n) + CRLF;
    assert line[..|line| - 2] == LengthText(n);
    LengthLine(n, None);
    if after != [] {
      UnfinishedLine(after, Some(n), false);
    }
  }

  /** A message that is cut short anywhere is an error: it is neither read nor taken for the end. */
  lemma TruncatedIsAnError(body: Bytes, k: nat)
    requires |body| < SIZES && 0 < k < |Frame(body)|
    ensures Message(Frame(body)[..k]).0.Err?
  {
    var text, cut := LengthText(|body|), Frame(body)[..k];
    var h := |text|;
    assert Frame(body) == text + CRLF + (CRLF + body);
    LengthTextIsAscii(|body|);
    if k <= h + 1 {
      assert forall i | 0 <= i < k :: cut[i] == (text + [CR])[i];
      UnfinishedLine(cut, None, true);
    } else if k <= h + 3 {
      var after := if k == h + 2 then [] else [CR];
      assert cut == text + CRLF + after;
      UnfinishedHeader(|body|, after);
    } else {
      assert cut == text + CRLF + (CRLF + body[..k - h - 4]);
      HeaderOfFrame(|body|, body[..k - h - 4]);
    }
  }
}
