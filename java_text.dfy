/**
 * The few Java library operations on `String` and `int` that `Util` and the keypad rely on,
 * with Java's own edge cases: `"" + n`, `Integer.parseInt`, `String.split` with a
 * one-character separator, `String.indexOf`, `String.contains` and the `/` and `%` operators.
 */
module JavaText {
  import opened Wrappers

  const INT_MIN: int := -0x8000_0000
  const INT_MAX: int := 0x7fff_ffff

  predicate IsDigit(c: char) {
    '0' <= c <= '9'
  }

  predicate AllDigits(s: string) {
    forall i :: 0 <= i < |s| ==> IsDigit(s[i])
  }

  function DigitChar(d: nat): (c: char)
    requires d < 10
    ensures IsDigit(c) && c as int - '0' as int == d
  {
    ('0' as int + d) as char
  }

  function DigitValue(c: char): (d: nat)
    requires IsDigit(c)
    ensures d < 10 && DigitChar(d) == c
  {
    c as int - '0' as int
  }

  /** Decimal digits of `n`, most significant first, without leading zeros. */
  function NatToString(n: nat): (s: string)
    ensures 1 <= |s| && AllDigits(s)
    decreases n
  {
    if n < 10 then [DigitChar(n)] else NatToString(n / 10) + [DigitChar(n % 10)]
  }

  /** Java's `"" + n` for an integer: an optional minus sign and the decimal digits. */
  function IntToString(n: int): string {
    if n < 0 then "-" + NatToString(-n) else NatToString(n)
  }

  /** The number written by a string of decimal digits (leading zeros allowed). */
  function DigitsValue(s: string): nat
    requires AllDigits(s)
    decreases |s|
  {
    if s == [] then 0 else DigitsValue(s[..|s| - 1]) * 10 + DigitValue(s[|s| - 1])
  }

  /**
   * `Integer.parseInt(s)`: an optional `-` or `+`, then at least one decimal digit, and a
   * value that fits in a 32-bit `int`; anything else throws NumberFormatException (None).
   */
  function ParseInt(s: string): Option<int> {
    var signed := |s| > 0 && (s[0] == '-' || s[0] == '+');
    var digits := if signed then s[1..] else s;
    if |digits| == 0 || !AllDigits(digits) then None
    else
      var v: int := if signed && s[0] == '-' then -(DigitsValue(digits) as int) else DigitsValue(digits);
      if INT_MIN <= v <= INT_MAX then Some(v) else None
  }

  /** Java's `a % b`: the remainder takes the sign of the dividend. */
  function JavaRem(a: int, b: int): (r: int)
    requires b != 0
    ensures -(if b < 0 then -b else b) < r < (if b < 0 then -b else b)
    ensures a >= 0 ==> r >= 0
    ensures a <= 0 ==> r <= 0
  {
    var m := if b < 0 then -b else b;
    if a >= 0 then a % m else -((-a) % m)
  }

  /** Java's `a / b` on integers: the quotient rounds toward zero. */
  function JavaDiv(a: int, b: int): (q: int)
    requires b != 0
    ensures q * b + JavaRem(a, b) == a
  {
    var m := if b < 0 then -b else b;
    var u := if a >= 0 then a / m else -((-a) / m);
    TruncatedDivision(a, m);
    assert (if b < 0 then -u else u) * b == u * m by {
      if b < 0 {
        assert (-u) * b == u * (-b);
      }
    }
    if b < 0 then -u else u
  }

  /** Dividing the magnitude and restoring the sign splits `a` into quotient times `m` and remainder. */
  lemma {:induction false} TruncatedDivision(a: int, m: int)
    requires m > 0
    ensures var u := if a >= 0 then a / m else -((-a) / m);
            var r := if a >= 0 then a % m else -((-a) % m);
            u * m + r == a
  {
    if a < 0 {
      var n := -a;
      assert (n / m) * m + n % m == n;
      assert (-(n / m)) * m == -((n / m) * m);
    }
  }

  /** `s.indexOf(c)`: the first position of `c` in `s`, or -1. */
  function IndexOf(s: string, c: char): (k: int)
    ensures -1 <= k < |s|
    ensures k == -1 <==> c !in s
    ensures k >= 0 ==> s[k] == c && c !in s[..k]
    decreases |s|
  {
    if |s| == 0 then -1
    else if s[0] == c then 0
    else
      var k := IndexOf(s[1..], c);
      assert s[1..][..if k < 0 then 0 else k] == s[1..1 + if k < 0 then 0 else k];
      if k < 0 then -1 else k + 1
  }

  /** `s.startsWith(t)`. */
  predicate StartsWith(s: string, t: string) {
    |t| <= |s| && s[..|t|] == t
  }

  /** `s.contains(t)`. */
  predicate Contains(s: string, t: string)
    decreases |s|
  {
    StartsWith(s, t) || (|s| > 0 && Contains(s[1..], t))
  }

  /** The pieces of `s` between occurrences of `sep`, empty pieces included. */
  function SplitAll(s: string, sep: char): (parts: seq<string>)
    ensures |parts| >= 1
    decreases |s|
  {
    if |s| == 0 then [""]
    else
      var rest := SplitAll(s[1..], sep);
      if s[0] == sep then [""] + rest else [[s[0]] + rest[0]] + rest[1..]
  }

  function DropTrailingEmpty(parts: seq<string>): seq<string>
    decreases |parts|
  {
    if |parts| > 0 && parts[|parts| - 1] == "" then DropTrailingEmpty(parts[..|parts| - 1])
    else parts
  }

  /**
   * `s.split(sep)` for a separator that is not a regular-expression metacharacter: when
   * `sep` does not occur the result is `[s]`; otherwise the pieces, with trailing empty
   * pieces removed (a leading empty piece stays).
   */
  function Split(s: string, sep: char): seq<string> {
    if sep !in s then [s] else DropTrailingEmpty(SplitAll(s, sep))
  }

  // ---------------------------------------------------------------------------------------
  // Facts about these operations

  lemma {:induction false} DigitsValueOfNatToString(n: nat)
    ensures DigitsValue(NatToString(n)) == n
    decreases n
  {
    if n >= 10 {
      var s := NatToString(n);
      DigitsValueOfNatToString(n / 10);
      assert s[..|s| - 1] == NatToString(n / 10);
    }
  }

  /** `parseInt` of a string of digits that fits in an `int` reads its value. */
  lemma {:induction false} ParseDigits(s: string)
    requires |s| > 0 && AllDigits(s) && DigitsValue(s) <= INT_MAX
    ensures ParseInt(s) == Some(DigitsValue(s))
  {
    assert s[0] != '-' && s[0] != '+' by { assert IsDigit(s[0]); }
  }

  /** `parseInt` of a minus sign and digits whose value fits reads the negated value. */
  lemma {:induction false} ParseNegated(s: string)
    requires |s| > 0 && AllDigits(s) && DigitsValue(s) <= -INT_MIN
    ensures ParseInt("-" + s) == Some(-(DigitsValue(s) as int))
  {
    var t := "-" + s;
    assert t[0] == '-' && t[1..] == s;
  }

  /** Parsing what `"" + n` prints gives back `n`, for every 32-bit `n`. */
  lemma {:induction false} ParseIntOfIntToString(n: int)
    requires INT_MIN <= n <= INT_MAX
    ensures ParseInt(IntToString(n)) == Some(n)
  {
    if n < 0 {
      DigitsValueOfNatToString(-n);
      ParseNegated(NatToString(-n));
    } else {
      DigitsValueOfNatToString(n);
      ParseDigits(NatToString(n));
    }
  }

  lemma {:induction false} IntToStringHasNoSeparator(n: int, c: char)
    requires !IsDigit(c) && c != '-'
    ensures c !in IntToString(n)
  {
  }

  lemma {:induction false} SplitAllOfPiece(a: string, sep: char)
    requires sep !in a
    ensures SplitAll(a, sep) == [a]
    decreases |a|
  {
    if |a| > 0 {
      SplitAllOfPiece(a[1..], sep);
      assert [a[0]] + a[1..] == a;
    }
  }

  lemma {:induction false} SplitAllOfJoin(a: string, sep: char, b: string)
    requires sep !in a
    ensures SplitAll(a + [sep] + b, sep) == [a] + SplitAll(b, sep)
    decreases |a|
  {
    var s := a + [sep] + b;
    if |a| == 0 {
      assert s[1..] == b;
    } else {
      assert s[1..] == a[1..] + [sep] + b;
      SplitAllOfJoin(a[1..], sep, b);
      assert [a[0]] + a[1..] == a;
    }
  }

  /** Splitting three separator-free pieces joined by `sep` gives the three pieces back. */
  lemma {:induction false} SplitOfThree(a: string, b: string, c: string, sep: char)
    requires sep !in a && sep !in b && sep !in c && c != ""
    ensures Split(a + [sep] + b + [sep] + c, sep) == [a, b, c]
  {
    var s := a + [sep] + b + [sep] + c;
    assert s == a + [sep] + (b + [sep] + c);
    assert s[|a|] == sep;
    SplitAllOfJoin(a, sep, b + [sep] + c);
    SplitAllOfJoin(b, sep, c);
    SplitAllOfPiece(c, sep);
    assert SplitAll(s, sep) == [a, b, c];
  }

  /** Splitting two separator-free pieces joined by `sep` gives the two pieces back. */
  lemma {:induction false} SplitOfTwo(a: string, b: string, sep: char)
    requires sep !in a && sep !in b && b != ""
    ensures Split(a + [sep] + b, sep) == [a, b]
  {
    var s := a + [sep] + b;
    assert s[|a|] == sep;
    SplitAllOfJoin(a, sep, b);
    SplitAllOfPiece(b, sep);
    assert SplitAll(s, sep) == [a, b];
  }

  lemma {:induction false} ContainsSuffix(a: string, t: string)
    ensures Contains(a + t, t)
    decreases |a|
  {
    if |a| == 0 {
      assert a + t == t;
      assert StartsWith(t, t);
    } else {
      ContainsSuffix(a[1..], t);
      assert (a + t)[1..] == a[1..] + t;
    }
  }
}
