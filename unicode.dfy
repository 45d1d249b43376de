/** UTF-16 as RFC 2781 defines it: encoding a character into one or two 16-bit
    code units (section 2.1) and decoding code units back (section 2.2), in the
    lossy form of Rust's `String::from_utf16_lossy`, which puts U+FFFD in place of
    an unpaired surrogate. Also the ISO-8859-1 (Latin-1) decoding that is used when
    the engine stores a string one byte per character.

    A Rust `String` is a sequence of Unicode scalar values, which is what a Dafny
    `string` is (`char` excludes the surrogate range). */
module Unicode {

  /** A UTF-16 code unit. */
  type CodeUnit = x: int | 0 <= x < 0x1_0000

  predicate IsHighSurrogate(w: int) { 0xD800 <= w < 0xDC00 }
  predicate IsLowSurrogate(w: int) { 0xDC00 <= w < 0xE000 }
  predicate IsSurrogate(w: int) { 0xD800 <= w < 0xE000 }

  /** U+FFFD REPLACEMENT CHARACTER. */
  const Replacement: char := '\U{FFFD}'

  /** Section 2.1: a character below U+10000 is one unit equal to its value;
      any other is a high surrogate carrying the top ten bits of U - 0x10000
      followed by a low surrogate carrying the bottom ten. */
  function EncodeChar(c: char): (r: seq<CodeUnit>)
    ensures |r| == (if c as int < 0x1_0000 then 1 else 2)
    ensures |r| == 1 ==> !IsSurrogate(r[0]) && r[0] == c as int
    ensures |r| == 2 ==> IsHighSurrogate(r[0]) && IsLowSurrogate(r[1])
  {
    var u := c as int;
    if u < 0x1_0000 then [u]
    else
      var v := u - 0x1_0000;
      [0xD800 + v / 0x400, 0xDC00 + v % 0x400]
  }

  /** `str::encode_utf16`: the units of every character, in order. */
  function Encode(s: string): (w: seq<CodeUnit>)
    ensures |s| <= |w| <= 2 * |s|
  {
    if s == [] then [] else EncodeChar(s[0]) + Encode(s[1..])
  }

  /** The character a surrogate pair carries (section 2.2, step 3). */
  function Combine(hi: int, lo: int): int
  {
    0x1_0000 + (hi - 0xD800) * 0x400 + (lo - 0xDC00)
  }

  /** Section 2.2, with every decoding error replaced by U+FFFD: a unit outside
      the surrogate range is a character; a high surrogate followed by a low one
      is the character they carry; any other surrogate is an error, and the unit
      after it is decoded afresh. */
  function DecodeLossy(w: seq<CodeUnit>): (s: string)
    ensures |s| <= |w|
    decreases |w|
  {
    if w == [] then ""
    else if !IsSurrogate(w[0]) then [w[0] as char] + DecodeLossy(w[1..])
    else if IsHighSurrogate(w[0]) && |w| >= 2 && IsLowSurrogate(w[1]) then
      [Combine(w[0], w[1]) as char] + DecodeLossy(w[2..])
    else [Replacement] + DecodeLossy(w[1..])
  }

  /** Well-formed UTF-16: every high surrogate is followed by a low one and
      every low surrogate follows a high one. */
  predicate WellFormed(w: seq<CodeUnit>)
    decreases |w|
  {
    if w == [] then true
    else if !IsSurrogate(w[0]) then WellFormed(w[1..])
    else IsHighSurrogate(w[0]) && |w| >= 2 && IsLowSurrogate(w[1]) && WellFormed(w[2..])
  }

  /** ISO-8859-1: each byte b is the character U+00b. */
  function DecodeLatin1(b: seq<CodeUnit>): (s: string)
    requires forall i :: 0 <= i < |b| ==> b[i] < 0x100
    ensures |s| == |b|
    ensures forall i :: 0 <= i < |b| ==> s[i] as int == b[i]
  {
    seq(|b|, i requires 0 <= i < |b| => b[i] as char)
  }

  lemma DecodeCharThen(c: char, rest: seq<CodeUnit>)
    ensures DecodeLossy(EncodeChar(c) + rest) == [c] + DecodeLossy(rest)
  {
    var w := EncodeChar(c) + rest;
    if c as int < 0x1_0000 {
      assert w[1..] == rest;
    } else {
      var v := c as int - 0x1_0000;
      assert v == (v / 0x400) * 0x400 + v % 0x400;
      assert w[2..] == rest;
    }
  }

  /** Decoding inverts encoding, for every string. */
  lemma {:induction false} DecodeEncode(s: string)
    ensures DecodeLossy(Encode(s)) == s
  {
    if s != [] {
      DecodeEncode(s[1..]);
      DecodeCharThen(s[0], Encode(s[1..]));
    }
  }

  lemma {:induction false} EncodeWellFormed(s: string)
    ensures WellFormed(Encode(s))
  {
    if s != [] {
      EncodeWellFormed(s[1..]);
      var w := Encode(s);
      assert w == EncodeChar(s[0]) + Encode(s[1..]);
      if s[0] as int < 0x1_0000 {
        assert w[1..] == Encode(s[1..]);
      } else {
        assert w[2..] == Encode(s[1..]);
      }
    }
  }

  /** On well-formed input the decoder loses nothing: encoding what it returns
      gives back the units it was given. */
  lemma {:induction false} EncodeDecode(w: seq<CodeUnit>)
    requires WellFormed(w)
    ensures Encode(DecodeLossy(w)) == w
    decreases |w|
  {
    if w != [] {
      if !IsSurrogate(w[0]) {
        EncodeDecode(w[1..]);
        assert DecodeLossy(w) == [w[0] as char] + DecodeLossy(w[1..]);
        assert w == [w[0]] + w[1..];
      } else {
        EncodeDecode(w[2..]);
        var c := Combine(w[0], w[1]) as char;
        assert DecodeLossy(w) == [c] + DecodeLossy(w[2..]);
        var v := c as int - 0x1_0000;
        assert v / 0x400 == w[0] - 0xD800 && v % 0x400 == w[1] - 0xDC00;
        assert EncodeChar(c) == w[..2];
        assert w == w[..2] + w[2..];
      }
    }
  }

  /** An unpaired surrogate is where the decoder loses information. */
  lemma LoneSurrogateIsReplaced(w: CodeUnit, rest: seq<CodeUnit>)
    requires IsLowSurrogate(w) || (IsHighSurrogate(w) && (rest == [] || !IsLowSurrogate(rest[0])))
    ensures DecodeLossy([w] + rest) == [Replacement] + DecodeLossy(rest)
  {
    assert ([w] + rest)[1..] == rest;
  }

  /** The Latin-1 fast path agrees with the UTF-16 decoder on every string the
      engine can store one byte per character. */
  lemma {:induction false} Latin1AgreesWithUtf16(b: seq<CodeUnit>)
    requires forall i :: 0 <= i < |b| ==> b[i] < 0x100
    ensures DecodeLatin1(b) == DecodeLossy(b)
  {
    if b != [] {
      Latin1AgreesWithUtf16(b[1..]);
      assert DecodeLatin1(b) == [b[0] as char] + DecodeLatin1(b[1..]);
    }
  }

  /** A string can be stored one byte per character exactly when each of its
      characters is below U+0100, and then its units are its characters. */
  lemma {:induction false} NarrowEncode(s: string)
    ensures (forall i :: 0 <= i < |Encode(s)| ==> Encode(s)[i] < 0x100)
        <==> (forall i :: 0 <= i < |s| ==> s[i] as int < 0x100)
    ensures (forall i :: 0 <= i < |s| ==> s[i] as int < 0x100) ==> |Encode(s)| == |s|
  {
    if s != [] {
      NarrowEncode(s[1..]);
      var w := Encode(s);
      assert w == EncodeChar(s[0]) + Encode(s[1..]);
      if (forall i :: 0 <= i < |s| ==> s[i] as int < 0x100) {
        assert forall i :: 0 <= i < |s| - 1 ==> s[1..][i] as int < 0x100;
      }
      if (forall i :: 0 <= i < |w| ==> w[i] < 0x100) {
        assert w[0] < 0x100;
        var k := |EncodeChar(s[0])|;
        assert forall i :: 0 <= i < |Encode(s[1..])| ==> Encode(s[1..])[i] == w[k + i];
        forall i | 0 <= i < |s| ensures s[i] as int < 0x100 {
          if i > 0 { assert s[i] == s[1..][i - 1]; }
        }
      }
      if (forall i :: 0 <= i < |s| ==> s[i] as int < 0x100) {
        assert forall i :: 0 <= i < |s| - 1 ==> s[1..][i] as int < 0x100;
        forall i | 0 <= i < |w| ensures w[i] < 0x100 {
          if i > 0 { assert w[i] == Encode(s[1..])[i - 1]; }
        }
      }
    }
  }
}
