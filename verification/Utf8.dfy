/** Text as bytes. */
module Utf8s {
  type Byte = b: int | 0 <= b < 256

  function Encoded(c: char): seq<Byte> {
    var n := c as int;
    if n < 0x80 then [n]
    else if n < 0x800 then [0xC0 + n / 64, 0x80 + n % 64]
    else if n < 0x1_0000 then [0xE0 + n / 4096, 0x80 + n / 64 % 64, 0x80 + n % 64]
    else [0xF0 + n / 26_2144, 0x80 + n / 4096 % 64, 0x80 + n / 64 % 64, 0x80 + n % 64]
  }

  function Utf8(text: string): seq<Byte> {
    if text == "" then [] else Encoded(text[0]) + Utf8(text[1..])
  }

  /** `char::is_whitespace`: the Unicode property White_Space. */
  predicate IsWhitespace(c: char) {
    var n := c as int;
    || 0x09 <= n <= 0x0D || n in {0x20, 0x85, 0xA0, 0x1680, 0x2028, 0x2029, 0x202F, 0x205F, 0x3000}
    || 0x2000 <= n <= 0x200A
  }

  predicate Continues(b: Byte) { 0x80 <= b < 0xC0 }

  /** Whether bytes are the encoding of some text: no overlong form, no surrogate. */
  predicate IsText(bytes: seq<Byte>) {
    if bytes == [] then true
    else if bytes[0] < 0x80 then IsText(bytes[1..])
    else if 0xC2 <= bytes[0] < 0xE0 then |bytes| >= 2 && Continues(bytes[1]) && IsText(bytes[2..])
    else if 0xE0 <= bytes[0] < 0xF0 then
      && |bytes| >= 3 && Continues(bytes[1]) && Continues(bytes[2])
      && (bytes[0] == 0xE0 ==> bytes[1] >= 0xA0) && (bytes[0] == 0xED ==> bytes[1] < 0xA0)
      && IsText(bytes[3..])
    else if 0xF0 <= bytes[0] < 0xF5 then
      && |bytes| >= 4 && Continues(bytes[1]) && Continues(bytes[2]) && Continues(bytes[3])
      && (bytes[0] == 0xF0 ==> bytes[1] >= 0x90) && (bytes[0] == 0xF4 ==> bytes[1] < 0x90)
      && IsText(bytes[4..])
    else false
  }

  lemma {:induction false} EncodedIsText(c: char, rest: seq<Byte>)
    requires IsText(rest)
    ensures IsText(Encoded(c) + rest)
  {
    var bytes, n := Encoded(c) + rest, c as int;
    assert bytes[|Encoded(c)|..] == rest;
    if n < 0x80 {
      assert bytes[0] == n;
    } else if n < 0x800 {
      assert 0xC2 <= bytes[0] < 0xE0;
    } else if n < 0x1_0000 {
      assert 0xE0 <= bytes[0] < 0xF0;
    } else {
      assert 0xF0 <= bytes[0] < 0xF5;
    }
  }

  /** The encoding of a text is one. */
  lemma {:induction false} Utf8IsText(text: string)
    ensures IsText(Utf8(text))
  {
    if text != "" {
      Utf8IsText(text[1..]);
      EncodedIsText(text[0], Utf8(text[1..]));
    }
  }

  lemma {:induction false} AsciiIsText(bytes: seq<Byte>)
    requires forall i | 0 <= i < |bytes| :: bytes[i] < 0x80
    ensures IsText(bytes)
  {
    if bytes != [] {
      AsciiIsText(bytes[1..]);
    }
  }
}
