/**
 * UTF-8 as Rust's `str::as_bytes` produces it and `String::from_utf8` (or
 * `BufRead::read_line`) checks it: the frame decoder reads bytes, while the
 * client writes strings.
 */
module Utf8 {
  import opened Wrappers

  type byte = b: int | 0 <= b < 256

  predicate IsContinuation(b: byte) {
    0x80 <= b <= 0xBF
  }

  /** The bytes of one Unicode scalar value. */
  function EncodeChar(c: char): (bs: seq<byte>)
    ensures 1 <= |bs| <= 4
    ensures |bs| == 1 <==> (c as int) < 0x80
  {
    var x := c as int;
    if x < 0x80 then [x]
    else if x < 0x800 then [0xC0 + x / 64, 0x80 + x % 64]
    else if x < 0x10000 then [0xE0 + x / 4096, 0x80 + (x / 64) % 64, 0x80 + x % 64]
    else [0xF0 + x / 262144, 0x80 + (x / 4096) % 64, 0x80 + (x / 64) % 64, 0x80 + x % 64]
  }

  /** `str::as_bytes`. */
  function ToUtf8(s: string): seq<byte>
  {
    if s == [] then [] else EncodeChar(s[0]) + ToUtf8(s[1..])
  }

  /**
   * The scalar value at the front of `bs` and the number of bytes it takes, or
   * None when the front is not a well-formed sequence (a stray continuation
   * byte, an overlong form, a surrogate, a value past U+10FFFF, a cut-off tail).
   */
  function DecodeFirst(bs: seq<byte>): (r: Option<(char, nat)>)
    requires |bs| > 0
    ensures r.Some? ==> 1 <= r.value.1 <= |bs|
  {
    var b0: int := bs[0];
    var b1: int := if |bs| > 1 then bs[1] else 0;
    var b2: int := if |bs| > 2 then bs[2] else 0;
    var b3: int := if |bs| > 3 then bs[3] else 0;
    if b0 < 0x80 then Some((b0 as char, 1))
    else if 0xC2 <= b0 <= 0xDF then
      if |bs| >= 2 && IsContinuation(bs[1])
      then Some((((b0 - 0xC0) * 64 + (b1 - 0x80)) as char, 2))
      else None
    else if 0xE0 <= b0 <= 0xEF then
      var lo := if b0 == 0xE0 then 0xA0 else 0x80;
      var hi := if b0 == 0xED then 0x9F else 0xBF;
      if |bs| >= 3 && lo <= bs[1] <= hi && IsContinuation(bs[2])
      then Some((((b0 - 0xE0) * 4096 + (b1 - 0x80) * 64 + (b2 - 0x80)) as char, 3))
      else None
    else if 0xF0 <= b0 <= 0xF4 then
      var lo := if b0 == 0xF0 then 0x90 else 0x80;
      var hi := if b0 == 0xF4 then 0x8F else 0xBF;
      if |bs| >= 4 && lo <= bs[1] <= hi && IsContinuation(bs[2]) && IsContinuation(bs[3])
      then Some((((b0 - 0xF0) * 262144 + (b1 - 0x80) * 4096 + (b2 - 0x80) * 64 + (b3 - 0x80)) as char, 4))
      else None
    else None
  }

  /** `String::from_utf8`: the decoded text, or None when `bs` is not well-formed UTF-8. */
  function FromUtf8(bs: seq<byte>): Option<string>
    decreases |bs|
  {
    if bs == [] then Some([])
    else match DecodeFirst(bs)
      case None => None
      case Some((c, w)) =>
        match FromUtf8(bs[w..])
        case None => None
        case Some(rest) => Some([c] + rest)
  }

  lemma DecodeFirstOfEncodeChar(c: char, rest: seq<byte>)
    ensures DecodeFirst(EncodeChar(c) + rest) == Some((c, |EncodeChar(c)|))
  {
    var x := c as int;
    if x < 0x80 {
    } else if x < 0x800 {
      DecodeTwoBytes(c, rest);
    } else if x < 0x10000 {
      DecodeThreeBytes(c, rest);
    } else {
      DecodeFourBytes(c, rest);
    }
  }

  lemma DecodeTwoBytes(c: char, rest: seq<byte>)
    requires 0x80 <= c as int < 0x800
    ensures DecodeFirst(EncodeChar(c) + rest) == Some((c, 2))
  {
    var x := c as int;
    var q, r := x / 64, x % 64;
    assert x == q * 64 + r;
    var bs := EncodeChar(c) + rest;
    assert bs[0] == 0xC0 + q && bs[1] == 0x80 + r;
  }

  lemma DecodeThreeBytes(c: char, rest: seq<byte>)
    requires 0x800 <= c as int < 0x10000
    ensures DecodeFirst(EncodeChar(c) + rest) == Some((c, 3))
  {
    var x := c as int;
    var q, m, r := x / 4096, (x / 64) % 64, x % 64;
    assert x / 64 == q * 64 + m;
    assert x == q * 4096 + m * 64 + r;
    var bs := EncodeChar(c) + rest;
    assert bs[0] == 0xE0 + q && bs[1] == 0x80 + m && bs[2] == 0x80 + r;
    assert q == 0 ==> m >= 32;
    assert q == 13 ==> m < 32;
  }

  lemma DecodeFourBytes(c: char, rest: seq<byte>)
    requires 0x10000 <= c as int
    ensures DecodeFirst(EncodeChar(c) + rest) == Some((c, 4))
  {
    var x := c as int;
    var q, h, m, r := x / 262144, (x / 4096) % 64, (x / 64) % 64, x % 64;
    assert x / 64 == (x / 4096) * 64 + m;
    assert x / 4096 == q * 64 + h;
    assert x == q * 262144 + h * 4096 + m * 64 + r;
    var bs := EncodeChar(c) + rest;
    assert bs[0] == 0xF0 + q && bs[1] == 0x80 + h && bs[2] == 0x80 + m && bs[3] == 0x80 + r;
    assert q == 0 ==> h >= 16;
    assert q == 4 ==> h < 16;
  }

  /** Decoding what `ToUtf8` wrote gives the text back. */
  lemma {:induction false} Utf8RoundTrip(s: string)
    ensures FromUtf8(ToUtf8(s)) == Some(s)
  {
    if s != [] {
      var bs := ToUtf8(s);
      DecodeFirstOfEncodeChar(s[0], ToUtf8(s[1..]));
      assert bs[|EncodeChar(s[0])|..] == ToUtf8(s[1..]);
      Utf8RoundTrip(s[1..]);
      assert [s[0]] + s[1..] == s;
    }
  }

  lemma {:induction false} ToUtf8Append(a: string, b: string)
    ensures ToUtf8(a + b) == ToUtf8(a) + ToUtf8(b)
  {
    if a != [] {
      assert (a + b)[0] == a[0];
      assert (a + b)[1..] == a[1..] + b;
      ToUtf8Append(a[1..], b);
    } else {
      assert a + b == b;
    }
  }

  predicate IsAscii(s: string) {
    forall i :: 0 <= i < |s| ==> (s[i] as int) < 0x80
  }

  /** ASCII text is written one byte per character, each byte being the character's code. */
  lemma {:induction false} AsciiToUtf8(s: string)
    requires IsAscii(s)
    ensures |ToUtf8(s)| == |s|
    ensures forall i :: 0 <= i < |s| ==> ToUtf8(s)[i] == s[i] as int
  {
    if s != [] {
      AsciiToUtf8(s[1..]);
    }
  }
}
