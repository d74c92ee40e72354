/**
  The Python string operations the extractor relies on: `str.strip()` with no
  argument, `', '.join(...)`, the `in` test between two strings, and `str()`
  of an integer. Each comes with the property that pins it down: the strip is
  the maximal trim, joining is undone by splitting, decimal text reads back to
  the same number.
 */
module Text {

  /** The code points for which Python's `str.isspace()` holds, as inclusive
      ranges: the characters `str.strip()` removes when given no argument. */
  const SpaceRanges: seq<(int, int)> :=
    [(0x09, 0x0D), (0x1C, 0x20), (0x85, 0x85), (0xA0, 0xA0), (0x1680, 0x1680),
     (0x2000, 0x200A), (0x2028, 0x2029), (0x202F, 0x202F), (0x205F, 0x205F), (0x3000, 0x3000)]

  /** True when `n` lies in one of the ranges. */
  predicate InRanges(n: int, ranges: seq<(int, int)>)
  {
    ranges != [] && ((ranges[0].0 <= n <= ranges[0].1) || InRanges(n, ranges[1..]))
  }

  predicate IsSpace(c: char)
  {
    InRanges(c as int, SpaceRanges)
  }

  predicate AllSpace(s: string)
  {
    forall k :: 0 <= k < |s| ==> IsSpace(s[k])
  }

  /** `str.lstrip()`: drops the leading whitespace. */
  function TrimStart(s: string): (r: string)
    ensures |r| <= |s|
    ensures r != [] ==> !IsSpace(r[0])
  {
    if s != [] && IsSpace(s[0]) then TrimStart(s[1..]) else s
  }

  /** What TrimStart drops is the longest all-whitespace prefix: the result
      is a suffix of the input, and everything before it is whitespace. */
  lemma {:induction false} TrimStartIsSuffix(s: string)
    ensures TrimStart(s) == s[|s| - |TrimStart(s)|..]
    ensures AllSpace(s[..|s| - |TrimStart(s)|])
  {
    if s != [] && IsSpace(s[0]) {
      var r := TrimStart(s[1..]);
      TrimStartIsSuffix(s[1..]);
      assert s[1..][..|s| - 1 - |r|] == s[1..|s| - |r|];
    }
  }

  /** `str.rstrip()`: drops the trailing whitespace. */
  function TrimEnd(s: string): (r: string)
    ensures |r| <= |s|
    ensures r != [] ==> !IsSpace(r[|r| - 1]) && r[0] == s[0]
  {
    if s != [] && IsSpace(s[|s| - 1]) then TrimEnd(s[..|s| - 1]) else s
  }

  /** What TrimEnd drops is the longest all-whitespace suffix: the result is
      a prefix of the input, and everything after it is whitespace. */
  lemma {:induction false} TrimEndIsPrefix(s: string)
    ensures TrimEnd(s) == s[..|TrimEnd(s)|]
    ensures AllSpace(s[|TrimEnd(s)|..])
  {
    if s != [] && IsSpace(s[|s| - 1]) {
      var r := TrimEnd(s[..|s| - 1]);
      TrimEndIsPrefix(s[..|s| - 1]);
      assert s[..|s| - 1][|r|..] + [s[|s| - 1]] == s[|r|..];
    }
  }

  /** `str.strip()`: the input with its whitespace removed from both ends;
      what is left neither begins nor ends with whitespace. */
  function Strip(s: string): (r: string)
    ensures |r| <= |s|
    ensures r != [] ==> !IsSpace(r[0]) && !IsSpace(r[|r| - 1])
  {
    TrimEnd(TrimStart(s))
  }

  /** Strip removes whitespace from the two ends and nothing else: the
      result is a contiguous piece of the input with only whitespace around it. */
  lemma StripIsMaximalTrim(s: string)
    ensures exists i :: 0 <= i <= |s| - |Strip(s)| && Strip(s) == s[i..i + |Strip(s)|]
                        && AllSpace(s[..i]) && AllSpace(s[i + |Strip(s)|..])
  {
    var t := TrimStart(s);
    var r := TrimEnd(t);
    TrimStartIsSuffix(s);
    TrimEndIsPrefix(t);
    var i := |s| - |t|;
    assert r == s[i..i + |r|] by {
      assert t == s[i..];
    }
    assert s[i + |r|..] == t[|r|..];
  }

  /** Stripping a stripped string changes nothing. */
  lemma StripIdempotent(s: string)
    ensures Strip(Strip(s)) == Strip(s)
  {
    var r := Strip(s);
    if r != [] {
      assert TrimStart(r) == r;
      assert TrimEnd(r) == r;
    }
  }

  /** A string made only of whitespace strips to the empty string. */
  lemma StripAllSpace(s: string)
    requires AllSpace(s)
    ensures Strip(s) == ""
  {
    TrimStartIsSuffix(s);
  }

  /** The separator of `', '.join(...)`. */
  const Separator: string := ", "

  /** `', '.join(parts)`: the parts in their order with the separator between
      neighbours; nothing for no parts. */
  function Join(parts: seq<string>): (r: string)
    ensures |parts| == 0 ==> r == ""
    ensures |parts| == 1 ==> r == parts[0]
  {
    if |parts| == 0 then ""
    else if |parts| == 1 then parts[0]
    else parts[0] + Separator + Join(parts[1..])
  }

  /** Appending one more part adds a separator and that part at the end. */
  lemma {:induction false} JoinSnoc(parts: seq<string>, last: string)
    requires parts != []
    ensures Join(parts + [last]) == Join(parts) + Separator + last
  {
    if |parts| > 1 {
      assert (parts + [last])[1..] == parts[1..] + [last];
      JoinSnoc(parts[1..], last);
    }
  }

  /** True when the separator starts at position `i` of `s`. */
  predicate SepAt(s: string, i: nat)
  {
    i + 2 <= |s| && s[i] == ',' && s[i + 1] == ' '
  }

  /** The first position at or after `from` where the separator starts, or
      `|s|` when there is none. */
  function FirstSep(s: string, from: nat): (r: nat)
    requires from <= |s|
    ensures from <= r <= |s|
    ensures r < |s| ==> SepAt(s, r)
    ensures forall j :: from <= j < r ==> !SepAt(s, j)
    decreases |s| - from
  {
    if from + 2 > |s| then |s|
    else if SepAt(s, from) then from
    else FirstSep(s, from + 1)
  }

  /** `str.split(', ')`, the inverse of Join for parts that do not themselves
      contain the separator. */
  function Split(s: string): (r: seq<string>)
    ensures |r| >= 1
    decreases |s|
  {
    var k := FirstSep(s, 0);
    if k == |s| then [s] else [s[..k]] + Split(s[k + 2..])
  }

  /** Joining and then splitting gives back the parts, so joining keeps every
      part, in its order: the round trip holds for any non-empty list whose
      parts do not contain the separator. */
  lemma {:induction false} SplitJoin(parts: seq<string>)
    requires |parts| >= 1
    requires forall i, j :: 0 <= i < |parts| && 0 <= j ==> !SepAt(parts[i], j)
    ensures Split(Join(parts)) == parts
  {
    var p := parts[0];
    var s := Join(parts);
    if |parts| == 1 {
      assert !SepAt(p, FirstSep(p, 0));
    } else {
      var rest := Join(parts[1..]);
      assert s == p + Separator + rest;
      assert SepAt(s, |p|);
      forall j | 0 <= j < |p| ensures !SepAt(s, j) {
        if j + 1 < |p| {
          assert s[j] == p[j] && s[j + 1] == p[j + 1];
          assert !SepAt(p, j);
        } else {
          assert s[j + 1] == ',';
        }
      }
      var k := FirstSep(s, 0);
      assert k == |p|;
      assert s[..k] == p;
      assert s[k + 2..] == rest;
      SplitJoin(parts[1..]);
    }
  }

  /** True when the substring `pat` occurs somewhere in `s` (Python's `pat in s`). */
  predicate Contains(s: string, pat: string)
  {
    exists i :: 0 <= i <= |s| && OccursAt(s, pat, i)
  }

  /** True when `pat` occurs in `s` starting at position `i`. */
  predicate OccursAt(s: string, pat: string, i: nat)
  {
    i + |pat| <= |s| && s[i..i + |pat|] == pat
  }

  predicate IsDigit(c: char)
  {
    '0' <= c <= '9'
  }

  predicate AllDigits(s: string)
  {
    forall k :: 0 <= k < |s| ==> IsDigit(s[k])
  }

  function DigitChar(d: nat): (c: char)
    requires d < 10
    ensures IsDigit(c) && c as int - '0' as int == d
  {
    ('0' as int + d) as char
  }

  /** `str(n)` for a natural number: decimal digits, no leading zero. */
  function NatToDecimal(n: nat): (r: string)
    ensures r != [] && AllDigits(r)
    ensures r[0] == '0' ==> r == "0"
  {
    if n < 10 then [DigitChar(n)]
    else NatToDecimal(n / 10) + [DigitChar(n % 10)]
  }

  /** The value of a string of decimal digits. */
  function DecimalToNat(s: string): nat
    requires AllDigits(s)
  {
    if s == [] then 0
    else DecimalToNat(s[..|s| - 1]) * 10 + (s[|s| - 1] as int - '0' as int)
  }

  /** Reading back the digits `str` writes gives the number again. */
  lemma {:induction false} NatDecimalRoundTrip(n: nat)
    ensures DecimalToNat(NatToDecimal(n)) == n
  {
    if n >= 10 {
      var s := NatToDecimal(n);
      assert s[..|s| - 1] == NatToDecimal(n / 10);
      NatDecimalRoundTrip(n / 10);
    }
  }

  /** `str(i)` for any integer: a minus sign before the digits of a negative one. */
  function IntToDecimal(i: int): (r: string)
    ensures i < 0 <==> (r != [] && r[0] == '-')
    ensures r != [] && (r[0] == '0' ==> r == "0") && (r[0] == '-' ==> |r| >= 2 && r[1] != '0')
  {
    if i < 0 then "-" + NatToDecimal(-i) else NatToDecimal(i)
  }

  /** The shape of what IntToDecimal writes: an optional minus sign and at
      least one digit. */
  predicate IsIntLiteral(s: string)
  {
    if s != [] && s[0] == '-' then |s| >= 2 && AllDigits(s[1..]) else s != [] && AllDigits(s)
  }

  /** The integer a literal of that shape denotes. */
  function DecimalToInt(s: string): int
    requires IsIntLiteral(s)
  {
    if s[0] == '-' then -(DecimalToNat(s[1..]) as int) else DecimalToNat(s)
  }

  /** `str` of an integer is a well-formed literal that denotes that integer. */
  lemma IntDecimalRoundTrip(i: int)
    ensures IsIntLiteral(IntToDecimal(i))
    ensures DecimalToInt(IntToDecimal(i)) == i
  {
    var s := IntToDecimal(i);
    if i < 0 {
      assert s[1..] == NatToDecimal(-i);
      NatDecimalRoundTrip(-i);
    } else {
      NatDecimalRoundTrip(i);
    }
  }
}
