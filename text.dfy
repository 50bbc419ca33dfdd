/**
 * Character-level helpers shared by the header parser, the JSON writer and the
 * path handling: decimal rendering and parsing, prefixes and substring search.
 */
module Text {
  import opened Wrappers

  /** One more than the largest value of a 64-bit `usize`. */
  const UsizeLimit: nat := 0x1_0000_0000_0000_0000

  /** One more than the largest value of a 64-bit `isize`, the most bytes a `Vec` may reserve. */
  const IsizeLimit: nat := 0x8000_0000_0000_0000

  predicate IsDigit(c: char) {
    '0' <= c <= '9'
  }

  predicate AllDigits(s: string) {
    forall i :: 0 <= i < |s| ==> IsDigit(s[i])
  }

  function DigitChar(d: nat): (c: char)
    requires d < 10
    ensures IsDigit(c) && (c as int) - ('0' as int) == d
  {
    (('0' as int) + d) as char
  }

  /** Decimal rendering of a natural number, as Rust's `Display` for integers. */
  function NatToDecimal(n: nat): (s: string)
    ensures |s| >= 1 && AllDigits(s)
    ensures |s| > 1 ==> s[0] != '0'
    decreases n
  {
    if n < 10 then [DigitChar(n)] else NatToDecimal(n / 10) + [DigitChar(n % 10)]
  }

  /** Decimal rendering of an integer, with a leading `-` when negative. */
  function IntToDecimal(i: int): (s: string)
    ensures |s| >= 1
    ensures i < 0 <==> s[0] == '-'
  {
    if i < 0 then "-" + NatToDecimal(-i) else NatToDecimal(i)
  }

  /** The value of a string of decimal digits (most significant first). */
  function DecimalValue(s: string): nat
    requires AllDigits(s)
  {
    if s == [] then 0
    else DecimalValue(s[..|s| - 1]) * 10 + ((s[|s| - 1] as int) - ('0' as int))
  }

  lemma {:induction false} DecimalRoundTrip(n: nat)
    ensures DecimalValue(NatToDecimal(n)) == n
    decreases n
  {
    if n >= 10 {
      var s := NatToDecimal(n);
      assert s[..|s| - 1] == NatToDecimal(n / 10);
      DecimalRoundTrip(n / 10);
    }
  }

  /**
   * `str::parse::<usize>`: an optional `+`, then at least one decimal digit, and
   * a value that fits in 64 bits. Anything else is a parse error (None).
   */
  function ParseUsize(s: string): (r: Option<nat>)
    ensures r.Some? ==> r.value < UsizeLimit
  {
    var digits := if |s| > 0 && s[0] == '+' then s[1..] else s;
    if |digits| > 0 && AllDigits(digits) && DecimalValue(digits) < UsizeLimit
    then Some(DecimalValue(digits))
    else None
  }

  /** Parsing the decimal rendering of any 64-bit value gives that value back. */
  lemma ParseUsizeOfDecimal(n: nat)
    requires n < UsizeLimit
    ensures ParseUsize(NatToDecimal(n)) == Some(n)
  {
    DecimalRoundTrip(n);
  }

  /**
   * A word with a non-digit anywhere after its first character never parses;
   * the first character may be the `+` sign.
   */
  lemma ParseUsizeRejectsNonDigit(s: string, i: nat)
    requires 0 < i < |s| && !IsDigit(s[i])
    ensures ParseUsize(s) == None
  {
    var digits := if |s| > 0 && s[0] == '+' then s[1..] else s;
    assert digits[i - (|s| - |digits|)] == s[i];
  }

  /** `str::strip_prefix`: the remainder after `prefix`, if `s` starts with it. */
  function StripPrefix(s: string, prefix: string): (r: Option<string>)
    ensures r.Some? <==> prefix <= s
    ensures r.Some? ==> prefix + r.value == s
  {
    if prefix <= s then Some(s[|prefix|..]) else None
  }

  /** `str::rfind` for one character: the index of the last `c` in `s`, if any. */
  function LastOf(s: string, c: char): (r: Option<nat>)
    ensures r.Some? ==> r.value < |s| && s[r.value] == c
    ensures r.Some? ==> forall j :: r.value < j < |s| ==> s[j] != c
    ensures r.None? ==> forall j :: 0 <= j < |s| ==> s[j] != c
  {
    if s == [] then None
    else if s[|s| - 1] == c then Some(|s| - 1)
    else LastOf(s[..|s| - 1], c)
  }

  /** After a text ending in `c`, a tail without `c` leaves that `c` the last one. */
  lemma {:induction false} LastOfAfter(prefix: string, tail: string, c: char)
    requires prefix != [] && prefix[|prefix| - 1] == c
    requires forall j :: 0 <= j < |tail| ==> tail[j] != c
    ensures LastOf(prefix + tail, c) == Some(|prefix| - 1)
    decreases |tail|
  {
    if tail == [] {
      assert prefix + tail == prefix;
    } else {
      var init := tail[..|tail| - 1];
      assert (prefix + tail)[..|prefix + tail| - 1] == prefix + init;
      LastOfAfter(prefix, init, c);
    }
  }

  /** `str::contains` for a string needle; the empty needle occurs everywhere. */
  function Contains(haystack: string, needle: string): bool
    decreases |haystack|
  {
    needle <= haystack || (haystack != [] && Contains(haystack[1..], needle))
  }

  ghost predicate OccursAt(haystack: string, needle: string, i: nat) {
    i + |needle| <= |haystack| && haystack[i..i + |needle|] == needle
  }

  /** `Contains` holds exactly when the needle occurs at some offset. */
  lemma {:induction false} ContainsIff(haystack: string, needle: string)
    ensures Contains(haystack, needle) <==> exists i: nat :: OccursAt(haystack, needle, i)
    decreases |haystack|
  {
    if needle <= haystack {
      assert OccursAt(haystack, needle, 0);
    } else if haystack == [] {
      forall i: nat | OccursAt(haystack, needle, i) ensures false {
      }
    } else {
      ContainsIff(haystack[1..], needle);
      if exists i: nat :: OccursAt(haystack[1..], needle, i) {
        var i: nat :| OccursAt(haystack[1..], needle, i);
        assert haystack[1..][i..i + |needle|] == haystack[i + 1..i + 1 + |needle|];
        assert OccursAt(haystack, needle, i + 1);
      }
      if exists i: nat :: OccursAt(haystack, needle, i) {
        var i: nat :| OccursAt(haystack, needle, i);
        assert i != 0;
        assert haystack[1..][i - 1..i - 1 + |needle|] == haystack[i..i + |needle|];
        assert OccursAt(haystack[1..], needle, i - 1);
      }
    }
  }
}
