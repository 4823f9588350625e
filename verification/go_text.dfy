/** The two pieces of Go's string library the service relies on. */
module GoText {

  /** Go's `byte`; a `[]byte` is a `Bytes`. */
  newtype Byte = b: int | 0 <= b < 256

  type Bytes = seq<Byte>

  predicate StartsWith(s: string, prefix: string) {
    |prefix| <= |s| && s[..|prefix|] == prefix
  }

  /** `s` contains `pat` somewhere. */
  predicate Contains(s: string, pat: string) {
    exists i :: 0 <= i <= |s| && StartsWith(s[i..], pat)
  }

  /**
   * `strings.ReplaceAll(s, pat, rep)` for a non-empty pattern: a left-to-right
   * scan that replaces each non-overlapping occurrence of `pat`.
   */
  function ReplaceAll(s: string, pat: string, rep: string): string
    requires |pat| > 0
    decreases |s|
  {
    if |s| == 0 then ""
    else if StartsWith(s, pat) then rep + ReplaceAll(s[|pat|..], pat, rep)
    else [s[0]] + ReplaceAll(s[1..], pat, rep)
  }

  /** A string without the pattern comes back unchanged. */
  lemma {:induction false} ReplaceAllAbsent(s: string, pat: string, rep: string)
    requires |pat| > 0
    requires !Contains(s, pat)
    ensures ReplaceAll(s, pat, rep) == s
    decreases |s|
  {
    if |s| > 0 {
      assert s[0..] == s;
      assert !StartsWith(s, pat);
      forall i | 0 <= i <= |s[1..]| ensures !StartsWith(s[1..][i..], pat) {
        assert s[1..][i..] == s[i + 1..];
      }
      ReplaceAllAbsent(s[1..], pat, rep);
    }
  }

  /**
   * An occurrence preceded by text in which no occurrence starts is
   * replaced, and the scan resumes right after it.
   */
  lemma {:induction false} ReplaceAllFirst(x: string, pat: string, rep: string, y: string)
    requires |pat| > 0
    requires forall i :: 0 <= i < |x| ==> !StartsWith((x + pat + y)[i..], pat)
    ensures ReplaceAll(x + pat + y, pat, rep) == x + rep + ReplaceAll(y, pat, rep)
    decreases |x|
  {
    var s := x + pat + y;
    if |x| == 0 {
      assert s == pat + y;
      assert StartsWith(s, pat);
      assert s[|pat|..] == y;
    } else {
      assert s[0..] == s;
      assert !StartsWith(s, pat);
      assert s[1..] == x[1..] + pat + y;
      forall i | 0 <= i < |x[1..]| ensures !StartsWith((x[1..] + pat + y)[i..], pat) {
        assert (x[1..] + pat + y)[i..] == s[i + 1..];
      }
      ReplaceAllFirst(x[1..], pat, rep, y);
      assert x == [x[0]] + x[1..];
    }
  }

  /** The pieces with `sep` between each neighbouring two, as `strings.Join` does. */
  function JoinWith(pieces: seq<string>, sep: string): string
    requires |pieces| > 0
  {
    if |pieces| == 1 then pieces[0] else pieces[0] + sep + JoinWith(pieces[1..], sep)
  }

  /** Replacing a pattern by itself changes nothing. */
  lemma {:induction false} ReplaceAllSelf(s: string, pat: string)
    requires |pat| > 0
    ensures ReplaceAll(s, pat, pat) == s
    decreases |s|
  {
    if |s| > 0 {
      if StartsWith(s, pat) {
        ReplaceAllSelf(s[|pat|..], pat);
        assert s == s[..|pat|] + s[|pat|..];
      } else {
        ReplaceAllSelf(s[1..], pat);
        assert s == [s[0]] + s[1..];
      }
    }
  }

  function DigitChar(d: nat): (c: char)
    requires d < 10
    ensures '0' <= c <= '9' && c as int - '0' as int == d
  {
    ('0' as int + d) as char
  }

  /** The number a string of decimal digits denotes, most significant first. */
  function DigitsValue(s: string): int
    decreases |s|
  {
    if |s| == 0 then 0 else DigitsValue(s[..|s| - 1]) * 10 + (s[|s| - 1] as int - '0' as int)
  }

  /**
   * Decimal digits of a natural number, most significant first: digits
   * that denote `n`, with no leading zero, a single digit exactly below ten.
   */
  function NatDigits(n: nat): (r: string)
    ensures |r| > 0
    ensures forall i :: 0 <= i < |r| ==> '0' <= r[i] <= '9'
    ensures DigitsValue(r) == n
    ensures r[0] == '0' <==> n == 0
    ensures |r| == 1 <==> n < 10
  {
    if n < 10 then [DigitChar(n)]
    else
      var r := NatDigits(n / 10) + [DigitChar(n % 10)];
      assert r[..|r| - 1] == NatDigits(n / 10);
      r
  }

  /** An HTTP status code (three digits) prints as exactly its three digits. */
  lemma NatDigitsThree(n: nat)
    requires 100 <= n < 1000
    ensures NatDigits(n) == [DigitChar(n / 100), DigitChar(n / 10 % 10), DigitChar(n % 10)]
  {
    assert NatDigits(n / 100) == [DigitChar(n / 100)];
    assert n / 10 / 10 == n / 100;
  }

  /** `%d` formatting of an int, with a leading minus for negatives. */
  function Itoa(n: int): string {
    if n < 0 then "-" + NatDigits(-n) else NatDigits(n)
  }
}
