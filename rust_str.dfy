/**
 * The pieces of Rust's `str` that the modelled crates rely on:
 * `split(" ")`, `trim()` and `parse::<i32>()`, together with the decimal
 * rendering of an `i32` (its `Display`), which serves as the inverse of
 * parsing in the round-trip lemmas.
 */
module RustStr {
  import opened Results

  const I32_MIN: int := -0x8000_0000
  const I32_MAX: int := 0x7FFF_FFFF

  predicate InI32(n: int) {
    I32_MIN <= n <= I32_MAX
  }

  // ---------------------------------------------------------------------------
  // str::split with a one-character pattern

  /** `s.split(sep)`: the pieces of `s` between occurrences of `sep`, in order. */
  function Split(s: string, sep: char): (pieces: seq<string>)
    ensures |pieces| >= 1
    ensures forall k :: 0 <= k < |pieces| ==> sep !in pieces[k]
    decreases |s|
  {
    if |s| == 0 then [""]
    else
      var rest := Split(s[1..], sep);
      if s[0] == sep then [""] + rest
      else [[s[0]] + rest[0]] + rest[1..]
  }

  /** The pieces put back together with `sep` between consecutive ones. */
  function Join(pieces: seq<string>, sep: char): string
    requires |pieces| >= 1
    decreases |pieces|
  {
    if |pieces| == 1 then pieces[0] else pieces[0] + [sep] + Join(pieces[1..], sep)
  }

  /** Splitting loses nothing: joining the pieces gives the string back. */
  lemma {:induction false} JoinSplit(s: string, sep: char)
    ensures Join(Split(s, sep), sep) == s
    decreases |s|
  {
    if |s| > 0 {
      var rest := Split(s[1..], sep);
      JoinSplit(s[1..], sep);
      if s[0] == sep {
        assert ([""] + rest)[1..] == rest;
      } else {
        var pieces := [[s[0]] + rest[0]] + rest[1..];
        assert pieces[1..] == rest[1..];
        if |rest| > 1 {
          assert Join(rest, sep) == rest[0] + [sep] + Join(rest[1..], sep);
        }
        assert s == [s[0]] + s[1..];
      }
    }
  }

  /** A piece free of `sep` followed by `sep` splits off as one piece. */
  lemma {:induction false} SplitAfterPiece(a: string, sep: char, rest: string)
    requires sep !in a
    ensures Split(a + [sep] + rest, sep) == [a] + Split(rest, sep)
    decreases |a|
  {
    var s := a + [sep] + rest;
    if |a| == 0 {
      assert s[1..] == rest;
    } else {
      assert s[1..] == a[1..] + [sep] + rest;
      SplitAfterPiece(a[1..], sep, rest);
      assert [a[0]] + a[1..] == a;
    }
  }

  /** A string free of `sep` is a single piece. */
  lemma {:induction false} SplitNoSeparator(a: string, sep: char)
    requires sep !in a
    ensures Split(a, sep) == [a]
    decreases |a|
  {
    if |a| > 0 {
      SplitNoSeparator(a[1..], sep);
      assert [a[0]] + a[1..] == a;
    }
  }

  /**
   * A piece free of `sep` at the front of a string, followed by nothing or by
   * `sep`, is the first piece; what follows the `sep` splits on its own.
   */
  lemma SplitLeadingPiece(a: string, sep: char, rest: string)
    requires sep !in a
    requires rest == [] || rest[0] == sep
    ensures Split(a + rest, sep) == if rest == [] then [a] else [a] + Split(rest[1..], sep)
  {
    if rest == [] {
      assert a + rest == a;
      SplitNoSeparator(a, sep);
    } else {
      assert a + rest == a + [sep] + rest[1..];
      SplitAfterPiece(a, sep, rest[1..]);
    }
  }

  /** Joining pieces free of `sep` and splitting again gives the pieces back. */
  lemma {:induction false} SplitJoin(pieces: seq<string>, sep: char)
    requires |pieces| >= 1
    requires forall k :: 0 <= k < |pieces| ==> sep !in pieces[k]
    ensures Split(Join(pieces, sep), sep) == pieces
    decreases |pieces|
  {
    if |pieces| == 1 {
      SplitNoSeparator(pieces[0], sep);
    } else {
      SplitJoin(pieces[1..], sep);
      SplitAfterPiece(pieces[0], sep, Join(pieces[1..], sep));
      assert [pieces[0]] + pieces[1..] == pieces;
    }
  }

  // ---------------------------------------------------------------------------
  // str::trim

  /** `char::is_whitespace`: the Unicode White_Space property. */
  predicate IsWhitespace(c: char) {
    || c == ' '
    || '\U{9}' <= c <= '\U{D}'
    || c == '\U{85}'
    || c == '\U{A0}'
    || c == '\U{1680}'
    || '\U{2000}' <= c <= '\U{200A}'
    || c == '\U{2028}'
    || c == '\U{2029}'
    || c == '\U{202F}'
    || c == '\U{205F}'
    || c == '\U{3000}'
  }

  /** `trim_start`: drops the longest all-whitespace prefix. */
  function TrimStart(s: string): (r: string)
    ensures |r| <= |s| && r == s[|s| - |r|..]
    ensures forall k :: 0 <= k < |s| - |r| ==> IsWhitespace(s[k])
    ensures |r| > 0 ==> !IsWhitespace(r[0])
    decreases |s|
  {
    if |s| > 0 && IsWhitespace(s[0]) then TrimStart(s[1..]) else s
  }

  /** `trim_end`: drops the longest all-whitespace suffix. */
  function TrimEnd(s: string): (r: string)
    ensures |r| <= |s| && r == s[..|r|]
    ensures forall k :: |r| <= k < |s| ==> IsWhitespace(s[k])
    ensures |r| > 0 ==> !IsWhitespace(r[|r| - 1])
    decreases |s|
  {
    if |s| > 0 && IsWhitespace(s[|s| - 1]) then TrimEnd(s[..|s| - 1]) else s
  }

  /** `r` is the part of `s` from index `i` on, with only whitespace before and after it. */
  predicate StrippedAt(s: string, i: int, r: string) {
    && 0 <= i <= |s| - |r| && r == s[i..i + |r|]
    && (forall k :: 0 <= k < i ==> IsWhitespace(s[k]))
    && (forall k :: i + |r| <= k < |s| ==> IsWhitespace(s[k]))
  }

  /**
   * `trim`: `s` with its leading and its trailing whitespace removed and
   * nothing else; a string without any whitespace is kept.
   */
  function Trim(s: string): (r: string)
    ensures |r| <= |s|
    ensures exists i :: StrippedAt(s, i, r)
    ensures |r| > 0 ==> !IsWhitespace(r[0]) && !IsWhitespace(r[|r| - 1])
    ensures (forall k :: 0 <= k < |s| ==> !IsWhitespace(s[k])) ==> r == s
  {
    var front := TrimStart(s);
    var r := TrimEnd(front);
    assert StrippedAt(s, |s| - |front|, r);
    r
  }

  // ---------------------------------------------------------------------------
  // str::parse::<i32> and the decimal rendering of an i32

  predicate IsDigit(c: char) {
    '0' <= c <= '9'
  }

  predicate AllDigits(s: string) {
    forall k :: 0 <= k < |s| ==> IsDigit(s[k])
  }

  function DigitValue(c: char): nat
    requires IsDigit(c)
  {
    c as int - '0' as int
  }

  function DigitChar(d: nat): char
    requires d < 10
  {
    ('0' as int + d) as char
  }

  /** The number a string of decimal digits denotes (most significant first). */
  function DigitsValue(ds: string): nat
    requires AllDigits(ds)
    decreases |ds|
  {
    if |ds| == 0 then 0 else 10 * DigitsValue(ds[..|ds| - 1]) + DigitValue(ds[|ds| - 1])
  }

  /**
   * `t.parse::<i32>()`: an optional `+` or `-`, then one or more ASCII
   * digits, denoting a value within the `i32` range; anything else fails.
   */
  function ParseI32(t: string): (r: Option<int>)
    ensures r.Some? ==> InI32(r.value)
    ensures r.Some? ==> |t| > 0 && (IsDigit(t[0]) || t[0] == '+' || t[0] == '-')
  {
    var signed := |t| > 0 && (t[0] == '+' || t[0] == '-');
    var digits := if signed then t[1..] else t;
    if |digits| == 0 || !AllDigits(digits) then None
    else
      var magnitude := DigitsValue(digits);
      var v := if signed && t[0] == '-' then -(magnitude as int) else magnitude as int;
      if InI32(v) then Some(v) else None
  }

  /** A sign (none, `+` or `-`) and one or more digits parse to their value when it is an `i32`, and fail otherwise. */
  lemma ParseI32Accepts(sign: string, digits: string)
    requires sign == "" || sign == "+" || sign == "-"
    requires |digits| > 0 && AllDigits(digits)
    ensures var v := if sign == "-" then -(DigitsValue(digits) as int) else DigitsValue(digits) as int;
      ParseI32(sign + digits) == if InI32(v) then Some(v) else None
  {
    if sign == "" {
      assert sign + digits == digits;
      ParseUnsigned(digits);
    } else {
      assert sign + digits == [sign[0]] + digits;
      ParseSigned(sign[0], digits);
    }
  }

  lemma ParseUnsigned(digits: string)
    requires |digits| > 0 && AllDigits(digits)
    ensures ParseI32(digits) == if InI32(DigitsValue(digits)) then Some(DigitsValue(digits) as int) else None
  {
    assert IsDigit(digits[0]);
  }

  lemma ParseSigned(c: char, digits: string)
    requires c == '+' || c == '-'
    requires |digits| > 0 && AllDigits(digits)
    ensures var v := if c == '-' then -(DigitsValue(digits) as int) else DigitsValue(digits) as int;
      ParseI32([c] + digits) == if InI32(v) then Some(v) else None
  {
    var t := [c] + digits;
    assert t[0] == c && t[1..] == digits;
    ParseAfterSign(t, digits);
  }

  lemma ParseAfterSign(t: string, digits: string)
    requires |t| > 0 && (t[0] == '+' || t[0] == '-') && t[1..] == digits
    requires |digits| > 0 && AllDigits(digits)
    ensures var v := if t[0] == '-' then -(DigitsValue(digits) as int) else DigitsValue(digits) as int;
      ParseI32(t) == if InI32(v) then Some(v) else None
  {
  }

  /** A token that is empty, a bare sign, or has a non-digit after its optional sign does not parse. */
  lemma ParseI32Rejects(t: string, k: nat)
    requires var start := if |t| > 0 && (t[0] == '+' || t[0] == '-') then 1 else 0;
      |t| == start || (start <= k < |t| && !IsDigit(t[k]))
    ensures ParseI32(t) == None
  {
    var signed := |t| > 0 && (t[0] == '+' || t[0] == '-');
    if signed && k < |t| && 1 <= k {
      assert t[1..][k - 1] == t[k];
    }
  }

  /** An explicit `+` is accepted. */
  lemma ParseI32PlusExample()
    ensures ParseI32("+5") == Some(5)
  {
    assert DigitsValue("5") == 5 by {
      assert "5"[..0] == "";
    }
    ParseExample("+", "5", "+5", 5);
  }

  /** Leading zeros are accepted. */
  lemma ParseI32ZerosExample()
    ensures ParseI32("007") == Some(7)
  {
    assert DigitsValue("007") == 7 by {
      assert "007"[..2] == "00" && "00"[..1] == "0" && "0"[..0] == "";
    }
    ParseExample("", "007", "007", 7);
  }

  /** A `-` negates the digits that follow it. */
  lemma ParseI32MinusExample()
    ensures ParseI32("-12") == Some(-12)
  {
    assert DigitsValue("12") == 12 by {
      assert "12"[..1] == "1" && "1"[..0] == "";
    }
    ParseExample("-", "12", "-12", -12);
  }

  /** A leading space, a lone sign and a trailing letter are rejected. */
  lemma ParseI32RejectedExamples()
    ensures ParseI32(" 5") == None && ParseI32("-") == None && ParseI32("1x") == None
  {
    ParseI32Rejects(" 5", 0);
    ParseI32Rejects("-", 0);
    ParseI32Rejects("1x", 1);
  }

  lemma ParseExample(sign: string, digits: string, t: string, v: int)
    requires sign == "" || sign == "+" || sign == "-"
    requires |digits| > 0 && AllDigits(digits) && t == sign + digits
    requires InI32(v) && v == if sign == "-" then -(DigitsValue(digits) as int) else DigitsValue(digits) as int
    ensures ParseI32(t) == Some(v)
  {
    ParseI32Accepts(sign, digits);
  }

  /** The shortest decimal rendering of a natural number. */
  function FormatNat(n: nat): (s: string)
    ensures |s| >= 1 && AllDigits(s)
    decreases n
  {
    if n < 10 then [DigitChar(n)] else FormatNat(n / 10) + [DigitChar(n % 10)]
  }

  /** `i32`'s `Display`: a `-` for negative values, then the digits of the magnitude. */
  function FormatI32(v: int): (s: string)
    ensures |s| >= 1
    ensures forall k :: 0 <= k < |s| ==> !IsWhitespace(s[k])
  {
    if v < 0 then "-" + FormatNat(-v) else FormatNat(v)
  }

  lemma {:induction false} DigitsValueFormatNat(n: nat)
    ensures DigitsValue(FormatNat(n)) == n
    decreases n
  {
    if n >= 10 {
      var s := FormatNat(n);
      DigitsValueFormatNat(n / 10);
      assert s[..|s| - 1] == FormatNat(n / 10);
    }
  }

  /** Parsing undoes rendering for every `i32`. */
  lemma ParseFormatI32(v: int)
    requires InI32(v)
    ensures ParseI32(FormatI32(v)) == Some(v)
  {
    var s := FormatI32(v);
    if v < 0 {
      assert s[1..] == FormatNat(-v);
      DigitsValueFormatNat(-v);
    } else {
      DigitsValueFormatNat(v);
    }
  }
}
