/**
 * Python `str` helpers and the character classes of Python's `re` module,
 * as the annotation generator uses them.
 */
module PyText {

  /** `str.isspace()`, which is also what `\s` and `str.strip()` use. */
  predicate IsSpace(c: char) {
    || ('\t' <= c <= '\r')
    || ('\U{001C}' <= c <= ' ')
    || c == '\U{0085}' || c == '\U{00A0}' || c == '\U{1680}'
    || ('\U{2000}' <= c <= '\U{200A}')
    || c == '\U{2028}' || c == '\U{2029}' || c == '\U{202F}' || c == '\U{205F}'
    || c == '\U{3000}'
  }

  /** `\d`, restricted to ASCII digits. */
  predicate IsDigit(c: char) {
    '0' <= c <= '9'
  }

  /** `\w`, restricted to ASCII letters, digits and underscore. */
  predicate IsWord(c: char) {
    ('a' <= c <= 'z') || ('A' <= c <= 'Z') || IsDigit(c) || c == '_'
  }

  /** The characters `line.strip('/ ')` removes. */
  predicate IsSlashOrBlank(c: char) {
    c == '/' || c == ' '
  }

  /** The character classes `strip` and the annotation patterns use. */
  datatype CharClass = Space | Digit | Word | SlashOrBlank | NotSpace | NotQuote | AllBut(c: char)

  /** Membership in a character class; `AllBut(c)` is every character except `c`. */
  predicate In(c: char, k: CharClass) {
    match k
    case Space => IsSpace(c)
    case Digit => IsDigit(c)
    case Word => IsWord(c)
    case SlashOrBlank => IsSlashOrBlank(c)
    case NotSpace => !IsSpace(c)
    case NotQuote => c != '"'
    case AllBut(x) => c != x
  }

  /** Length of the longest prefix of `s` whose characters satisfy `p`. */
  function SpanLen(s: string, p: CharClass): (n: nat)
    ensures n <= |s|
    ensures forall i :: 0 <= i < n ==> In(s[i], p)
    ensures n < |s| ==> !In(s[n], p)
  {
    if |s| == 0 || !In(s[0], p) then 0 else 1 + SpanLen(s[1..], p)
  }

  /** Length of the longest suffix of `s` whose characters satisfy `p`. */
  function BackSpanLen(s: string, p: CharClass): (n: nat)
    ensures n <= |s|
    ensures forall i :: |s| - n <= i < |s| ==> In(s[i], p)
    ensures n < |s| ==> !In(s[|s| - n - 1], p)
  {
    if |s| == 0 || !In(s[|s| - 1], p) then 0 else 1 + BackSpanLen(s[..|s| - 1], p)
  }

  /** `s.strip(chars)` where `p` says which characters belong to `chars`. */
  function Strip(s: string, p: CharClass): (r: string)
    ensures |r| > 0 ==> !In(r[0], p) && !In(r[|r| - 1], p)
    ensures exists i, j ::
              (&& 0 <= i <= j <= |s| && r == s[i..j]
               && (forall k :: 0 <= k < i ==> In(s[k], p))
               && (forall k :: j <= k < |s| ==> In(s[k], p)))
  {
    var i := SpanLen(s, p);
    var t := s[i..];
    var j := |t| - BackSpanLen(t, p);
    StripBounds(s, p, i, j);
    t[..j]
  }

  /** Where `Strip` cuts: everything outside the kept slice belongs to the strip set. */
  lemma StripBounds(s: string, p: CharClass, i: nat, j: int)
    requires i == SpanLen(s, p) && j == |s[i..]| - BackSpanLen(s[i..], p)
    ensures 0 <= i + j <= |s| && s[i..][..j] == s[i..i + j]
    ensures forall k :: i + j <= k < |s| ==> In(s[k], p)
  {
    var t := s[i..];
    assert forall k :: i + j <= k < |s| ==> s[k] == t[k - i];
  }

  /** What `Strip` removes: a run of the strip set on each side. */
  lemma StripPads(s: string, p: CharClass) returns (lead: string, trail: string)
    ensures forall k :: 0 <= k < |lead| ==> In(lead[k], p)
    ensures forall k :: 0 <= k < |trail| ==> In(trail[k], p)
    ensures s == lead + Strip(s, p) + trail
  {
    var i, j :| && 0 <= i <= j <= |s| && Strip(s, p) == s[i..j]
                && (forall k :: 0 <= k < i ==> In(s[k], p))
                && (forall k :: j <= k < |s| ==> In(s[k], p));
    lead, trail := s[..i], s[j..];
    assert s == lead + s[i..j] + trail;
    assert forall k :: 0 <= k < |trail| ==> trail[k] == s[j + k];
  }

  /** Stripping a second time removes nothing more. */
  lemma StripIdempotent(s: string, p: CharClass)
    ensures Strip(Strip(s, p), p) == Strip(s, p)
  {
    var r := Strip(s, p);
    if |r| > 0 {
      assert SpanLen(r, p) == 0;
      assert r[0..] == r;
      assert BackSpanLen(r, p) == 0;
      assert r[..|r|] == r;
    }
  }

  /** A string that starts and ends with kept characters is already stripped. */
  lemma StripUnchanged(s: string, p: CharClass)
    requires |s| > 0 && !In(s[0], p) && !In(s[|s| - 1], p)
    ensures Strip(s, p) == s
  {
    assert SpanLen(s, p) == 0;
    assert s[0..] == s;
    assert BackSpanLen(s, p) == 0;
    assert s[..|s|] == s;
  }

  /** Characters from the strip set around a kept core are removed, up to the core. */
  lemma StripPadded(lead: string, s: string, trail: string, p: CharClass)
    requires forall i :: 0 <= i < |lead| ==> In(lead[i], p)
    requires forall i :: 0 <= i < |trail| ==> In(trail[i], p)
    requires |s| > 0 && !In(s[0], p) && !In(s[|s| - 1], p)
    ensures Strip(lead + s + trail, p) == s
  {
    var x := lead + s + trail;
    assert x == lead + (s + trail);
    SpanPadded(lead, s + trail, p);
    assert x[|lead|..] == s + trail;
    BackSpanPadded(s, trail, p);
    assert (s + trail)[..|s|] == s;
  }

  /** The leading run stops where the pad ends. */
  lemma SpanPadded(lead: string, rest: string, p: CharClass)
    requires forall i :: 0 <= i < |lead| ==> In(lead[i], p)
    requires |rest| > 0 && !In(rest[0], p)
    ensures SpanLen(lead + rest, p) == |lead|
  {
    assert (lead + rest)[|lead|] == rest[0];
  }

  /** The trailing run stops where the pad begins. */
  lemma BackSpanPadded(s: string, trail: string, p: CharClass)
    requires forall i :: 0 <= i < |trail| ==> In(trail[i], p)
    requires |s| > 0 && !In(s[|s| - 1], p)
    ensures BackSpanLen(s + trail, p) == |trail|
  {
    var t := s + trail;
    assert t[|s| - 1] == s[|s| - 1];
    assert forall k :: |s| <= k < |t| ==> t[k] == trail[k - |s|];
  }

  /** `s.split(sep)`: always at least one piece, none containing `sep`. */
  function Split(s: string, sep: char): (r: seq<string>)
    ensures |r| > 0
    ensures forall k :: 0 <= k < |r| ==> sep !in r[k]
    decreases |s|
  {
    var n := SpanLen(s, AllBut(sep));
    if n == |s| then
      assert forall c :: c in s ==> c != sep;
      [s]
    else
      assert forall c :: c in s[..n] ==> c != sep;
      [s[..n]] + Split(s[n + 1..], sep)
  }

  /** Text without the separator splits into itself alone. */
  lemma SplitWithoutSeparator(s: string, sep: char)
    requires sep !in s
    ensures Split(s, sep) == [s]
  {
  }

  /** `sep.join(pieces)`. */
  function Join(pieces: seq<string>, sep: char): string
    requires |pieces| > 0
  {
    if |pieces| == 1 then pieces[0] else pieces[0] + [sep] + Join(pieces[1..], sep)
  }

  /** Splitting and joining back on the same separator is the identity. */
  lemma {:induction false} JoinSplit(s: string, sep: char)
    ensures Join(Split(s, sep), sep) == s
    decreases |s|
  {
    var n := SpanLen(s, AllBut(sep));
    if n < |s| {
      var rest := Split(s[n + 1..], sep);
      assert Split(s, sep) == [s[..n]] + rest;
      JoinSplit(s[n + 1..], sep);
      assert Join([s[..n]] + rest, sep) == s[..n] + [sep] + Join(rest, sep);
      assert s == s[..n] + [sep] + s[n + 1..];
    }
  }

  /** `str.lower()` restricted to ASCII letters. */
  function LowerChar(c: char): char {
    if 'A' <= c <= 'Z' then (c as int + 32) as char else c
  }

  function Lower(s: string): (r: string)
    ensures |r| == |s|
    ensures forall i :: 0 <= i < |s| ==> r[i] == LowerChar(s[i])
  {
    if |s| == 0 then "" else [LowerChar(s[0])] + Lower(s[1..])
  }
}
