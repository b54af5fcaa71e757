/** Any header before a message: other lines beside Content-Length, in any order and letter case
    (src/framing.rs). */
module FramingHeaders {
  import opened Wrappers
  import opened Utf8s
  import opened Framings

  // --- A size -------------------------------------------------------------------------------

  predicate AllZero(text: Bytes) { forall i | 0 <= i < |text| :: text[i] == 48 }

  lemma {:induction false} ZerosAddNothing(zeros: Bytes, text: Bytes)
    requires AllZero(zeros)
    ensures Digits(zeros) == Some(0)
    ensures text != [] && Digits(text).Some? ==> Digits(zeros + text) == Digits(text)
    decreases |zeros| + |text|
  {
    if text != [] {
      assert (zeros + text)[..|zeros + text| - 1] == zeros + text[..|text| - 1];
      ZerosAddNothing(zeros, text[..|text| - 1]);
      if |text| == 1 {
        assert zeros + text[..0] == zeros && text[..0] == [];
      }
    } else if zeros != [] {
      ZerosAddNothing(zeros[..|zeros| - 1], []);
    }
  }

  lemma {:induction false} DigitsAreDecimal(text: Bytes) returns (zeros: Bytes)
    requires text != [] && Digits(text).Some?
    ensures AllZero(zeros) && text == zeros + Decimal(Digits(text).value)
  {
    var before, last := text[..|text| - 1], text[|text| - 1];
    assert text == before + [last];
    if before == [] {
      zeros := [];
    } else {
      zeros := DigitsAreDecimal(before);
      var m := Digits(before).value;
      if m == 0 {
        zeros := before;
      } else {
        assert Decimal(10 * m + (last - 48)) == Decimal(m) + [last];
      }
    }
  }

  lemma ParseOfDigits(plus: Bytes, digits: Bytes)
    requires digits != [] && digits[0] != 43 && Digits(digits).Some? && Digits(digits).value < SIZES
    requires plus == [] || plus == [43]
    ensures ParseSize(plus + digits) == Digits(digits)
  {
    assert (plus + digits)[|plus|..] == digits;
  }

  lemma SizeIsRead(plus: Bytes, zeros: Bytes, n: nat)
    requires n < SIZES && (plus == [] || plus == [43]) && AllZero(zeros)
    ensures ParseSize(plus + (zeros + Decimal(n))) == Some(n)
  {
    var decimal := Decimal(n);
    DigitsOfDecimal(n);
    assert decimal[0] in decimal;
    ZerosAddNothing(zeros, decimal);
    FirstOf(zeros, decimal);
    ParseOfDigits(plus, zeros + decimal);
  }

  lemma FirstOf(zeros: Bytes, digits: Bytes)
    requires AllZero(zeros) && digits != []
    ensures (zeros + digits)[0] == if zeros == [] then digits[0] else 48
  {}

  lemma SizeIsSpelled(text: Bytes) returns (plus: Bytes, zeros: Bytes)
    requires ParseSize(text).Some?
    ensures ParseSize(text).value < SIZES && (plus == [] || plus == [43]) && AllZero(zeros)
    ensures text == plus + (zeros + Decimal(ParseSize(text).value))
  {
    plus := if text[0] == 43 then [43] else [];
    zeros := DigitsAreDecimal(text[|plus|..]);
    assert text == plus + text[|plus|..];
  }

  ghost predicate SpellsSize(text: Bytes, n: nat) {
    exists plus, zeros :: (plus == [] || plus == [43]) && AllZero(zeros) && text == plus + (zeros + Decimal(n))
  }

  /** A size is read from its decimal digits, with any zeros and one plus sign before them, if it is of 64
      bits; and from nothing else. */
  lemma SizeExactly(text: Bytes, n: nat)
    ensures ParseSize(text) == Some(n) <==> n < SIZES && SpellsSize(text, n)
  {
    if ParseSize(text) == Some(n) {
      var plus, zeros := SizeIsSpelled(text);
    }
    if n < SIZES && SpellsSize(text, n) {
      var plus, zeros :| (plus == [] || plus == [43]) && AllZero(zeros) && text == plus + (zeros + Decimal(n));
      SizeIsRead(plus, zeros, n);
    }
  }

  // --- One line -----------------------------------------------------------------------------

  datatype Field = Field(name: Bytes, value: Bytes)

  function Text(f: Field): Bytes { f.name + [58, 32] + f.value }

  /** A line of text, whose first ": " is the one after the name. */
  predicate IsLine(f: Field) {
    && IsText(Text(f) + CRLF) && LF !in Text(f)
    && forall i | 0 <= i < |f.name| - 1 :: !(f.name[i] == 58 && f.name[i + 1] == 32)
  }

  /** "content-length" and "CONTENT-LENGTH" */
  const LOWER_NAME: Bytes := [99, 111, 110, 116, 101, 110, 116, 45, 108, 101, 110, 103, 116, 104]
  const UPPER_NAME: Bytes := [67, 79, 78, 84, 69, 78, 84, 45, 76, 69, 78, 71, 84, 72]

  /** Named Content-Length, each letter in either case. */
  predicate IsLength(f: Field) {
    |f.name| == 14 && forall i | 0 <= i < 14 :: f.name[i] == LOWER_NAME[i] || f.name[i] == UPPER_NAME[i]
  }

  lemma NameExactly(f: Field)
    ensures SameIgnoringCase(f.name, CONTENT_LENGTH) <==> IsLength(f)
  {
    if |f.name| == 14 {
      forall i | 0 <= i < 14
        ensures Lower(f.name[i]) == Lower(CONTENT_LENGTH[i]) <==> f.name[i] == LOWER_NAME[i] || f.name[i] == UPPER_NAME[i]
      {}
    }
  }

  lemma {:induction false} SplitsAfterName(name: Bytes, value: Bytes)
    requires forall i | 0 <= i < |name| - 1 :: !(name[i] == 58 && name[i + 1] == 32)
    ensures SplitAt(name + [58, 32] + value) == Some(|name|)
  {
    var text := name + [58, 32] + value;
    if name != [] {
      assert text[1..] == name[1..] + [58, 32] + value;
      SplitsAfterName(name[1..], value);
    }
  }

  /** What the line does to the length found so far. */
  function Found(f: Field, length: Option<nat>): Option<nat> { if IsLength(f) then ParseSize(f.value) else length }

  lemma FieldIsRead(f: Field, length: Option<nat>)
    requires IsLine(f)
    ensures HeaderLine(Text(f), length) ==
      if IsLength(f) && ParseSize(f.value).None? then Err(InvalidContentLength(f.value)) else Ok(Found(f, length))
  {
    SplitsAfterName(f.name, f.value);
    NameExactly(f);
    assert Text(f)[..|f.name|] == f.name && Text(f)[|f.name| + 2..] == f.value;
  }

  lemma LineIsFirst(text: Bytes, rest: Bytes)
    requires LF !in text
    ensures var stream := text + CRLF + rest; var n := LineLength(stream);
      n == |text| + 2 && stream[..n] == text + CRLF && stream[n..] == rest
  {
    assert text + CRLF + rest == (text + [CR]) + [LF] + rest;
    assert LF !in text + [CR];
    LineLengthIs(text + [CR], rest);
    assert (text + CRLF + rest)[..|text| + 2] == text + CRLF;
  }

  lemma HeaderStep(f: Field, rest: Bytes, length: Option<nat>, atStart: bool)
    requires IsLine(f)
    ensures Header(Text(f) + CRLF + rest, length, atStart) ==
      if IsLength(f) && ParseSize(f.value).None? then (Err(InvalidContentLength(f.value)), rest)
      else Header(rest, Found(f, length), false)
  {
    LineIsFirst(Text(f), rest);
    FieldIsRead(f, length);
    var line := Text(f) + CRLF;
    assert line[..|line| - 2] == Text(f) && line[|line| - 2..] == CRLF && line != [];
  }

  lemma HeaderEnds(rest: Bytes, length: Option<nat>, atStart: bool)
    ensures Header(CRLF + rest, length, atStart) == (if length.None? then Err(MissingContentLength) else Ok(length), rest)
  {
    LineIsFirst([], rest);
    AsciiIsText(CRLF);
    assert [] + CRLF + rest == CRLF + rest && [] + CRLF == CRLF;
    assert CRLF[..0] == [];
  }

  /** A line without ": " is an error that names it. */
  lemma NoSeparatorIsAnError(text: Bytes, rest: Bytes, length: Option<nat>, atStart: bool)
    requires text != [] && IsText(text + CRLF) && LF !in text
    requires forall i | 0 <= i < |text| - 1 :: !(text[i] == 58 && text[i + 1] == 32)
    ensures Header(text + CRLF + rest, length, atStart) == (Err(MalformedHeader(text)), rest)
  {
    LineIsFirst(text, rest);
    NoSplit(text);
    var line := text + CRLF;
    assert line[..|line| - 2] == text && line[|line| - 2..] == CRLF && line != [];
  }

  lemma {:induction false} NoSplit(text: Bytes)
    requires forall i | 0 <= i < |text| - 1 :: !(text[i] == 58 && text[i + 1] == 32)
    ensures SplitAt(text).None?
  {
    if |text| >= 2 {
      NoSplit(text[1..]);
    }
  }

  // --- All lines ----------------------------------------------------------------------------

  function Lines(fields: seq<Field>): Bytes {
    if fields == [] then [] else Text(fields[0]) + CRLF + Lines(fields[1..])
  }

  predicate AreLines(fields: seq<Field>) { forall f | f in fields :: IsLine(f) }

  predicate IsBad(f: Field) { IsLength(f) && ParseSize(f.value).None? }

  predicate NoLengthAfter(fields: seq<Field>, i: int) { forall j | 0 <= j < |fields| && i < j :: !IsLength(fields[j]) }

  lemma LinesFirst(fields: seq<Field>, rest: Bytes)
    requires fields != []
    ensures Lines(fields) + rest == Text(fields[0]) + CRLF + (Lines(fields[1..]) + rest)
  {}

  lemma OverFirst(fields: seq<Field>, rest: Bytes, length: Option<nat>, atStart: bool)
    requires fields != [] && IsLine(fields[0]) && !IsBad(fields[0])
    ensures Header(Lines(fields) + rest, length, atStart) == Header(Lines(fields[1..]) + rest, Found(fields[0], length), false)
  {
    LinesFirst(fields, rest);
    HeaderStep(fields[0], Lines(fields[1..]) + rest, length, atStart);
  }

  lemma {:induction false} LengthIsKept(fields: seq<Field>, rest: Bytes, length: Option<nat>, atStart: bool)
    requires AreLines(fields) && NoLengthAfter(fields, -1)
    ensures Header(Lines(fields) + (CRLF + rest), length, atStart) ==
      (if length.None? then Err(MissingContentLength) else Ok(length), rest)
  {
    if fields == [] {
      assert Lines(fields) + (CRLF + rest) == CRLF + rest;
      HeaderEnds(rest, length, atStart);
    } else {
      assert !IsLength(fields[0]);
      OverFirst(fields, CRLF + rest, length, atStart);
      LengthIsKept(fields[1..], rest, length, false);
    }
  }

  lemma NoneAfterFirst(fields: seq<Field>, i: nat)
    requires fields != [] && NoLengthAfter(fields, i)
    ensures NoLengthAfter(fields[1..], i - 1)
  {}

  lemma {:induction false} LastIsKept(fields: seq<Field>, i: nat, rest: Bytes, length: Option<nat>, atStart: bool)
    requires AreLines(fields) && i < |fields| && IsLength(fields[i]) && NoLengthAfter(fields, i)
    requires forall f | f in fields :: !IsBad(f)
    ensures Header(Lines(fields) + (CRLF + rest), length, atStart) == (Ok(ParseSize(fields[i].value)), rest)
  {
    OverFirst(fields, CRLF + rest, length, atStart);
    NoneAfterFirst(fields, i);
    if i == 0 {
      LengthIsKept(fields[1..], rest, ParseSize(fields[0].value), false);
    } else {
      LastIsKept(fields[1..], i - 1, rest, Found(fields[0], length), false);
    }
  }

  lemma {:induction false} FirstBadStops(fields: seq<Field>, i: nat, rest: Bytes, length: Option<nat>, atStart: bool)
    requires AreLines(fields) && i < |fields| && IsBad(fields[i]) && forall j | 0 <= j < i :: !IsBad(fields[j])
    ensures Header(Lines(fields) + (CRLF + rest), length, atStart) ==
      (Err(InvalidContentLength(fields[i].value)), Lines(fields[i + 1..]) + (CRLF + rest))
  {
    if i == 0 {
      LinesFirst(fields, CRLF + rest);
      HeaderStep(fields[0], Lines(fields[1..]) + (CRLF + rest), length, atStart);
    } else {
      OverFirst(fields, CRLF + rest, length, atStart);
      assert fields[1..][i..] == fields[i + 1..];
      FirstBadStops(fields[1..], i - 1, rest, Found(fields[0], length), false);
    }
  }

  // --- A message under any header -----------------------------------------------------------

  /** Whatever other lines stand beside it, in any order and letter case, the last Content-Length gives the
      body. */
  lemma MessageUnderHeader(fields: seq<Field>, i: nat, body: Bytes, rest: Bytes)
    requires AreLines(fields) && (forall f | f in fields :: !IsBad(f))
    requires i < |fields| && IsLength(fields[i]) && NoLengthAfter(fields, i) && ParseSize(fields[i].value) == Some(|body|)
    ensures Message(Lines(fields) + (CRLF + (body + rest))) == (Ok(Some(body)), rest)
  {
    LastIsKept(fields, i, body + rest, None, true);
    assert (body + rest)[..|body|] == body && (body + rest)[|body|..] == rest;
  }

  /** A header without Content-Length is an error, after the whole header. */
  lemma MissingLength(fields: seq<Field>, rest: Bytes)
    requires AreLines(fields) && forall f | f in fields :: !IsLength(f)
    ensures Message(Lines(fields) + (CRLF + rest)) == (Err(MissingContentLength), rest)
  {
    LengthIsKept(fields, rest, None, true);
  }

  /** The first Content-Length that is no size is an error that names it, after its line. */
  lemma BadLength(fields: seq<Field>, i: nat, rest: Bytes)
    requires AreLines(fields) && i < |fields| && IsBad(fields[i]) && forall j | 0 <= j < i :: !IsBad(fields[j])
    ensures Message(Lines(fields) + (CRLF + rest)) ==
      (Err(InvalidContentLength(fields[i].value)), Lines(fields[i + 1..]) + (CRLF + rest))
  {
    FirstBadStops(fields, i, rest, None, true);
  }
}
