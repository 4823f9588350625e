/**
 * The regular-expression pieces the annotation parser matches with, as
 * deterministic scanners that take the longest run. In the patterns for
 * routes, parameters and responses each run is followed by something its
 * class cannot match, so the longest run is the only one that can succeed
 * and no backtracking is needed. In `@(\w+)\s+(.*)` the blanks are
 * followed by `.*`, which could also take some of them; the regular
 * expression engine gives them to the greedy `\s+`, as the scanner does.
 */
module Scan {
  import opened Results
  import opened PyText

  /** `X+` for a character class `p`: the longest non-empty run, and what follows it. */
  function Run1(s: string, p: CharClass): (r: Option<(string, string)>)
    ensures r.None? <==> |s| == 0 || !In(s[0], p)
    ensures r.Some? ==>
              && r.value.0 + r.value.1 == s
              && |r.value.0| > 0
              && (forall i :: 0 <= i < |r.value.0| ==> In(r.value.0[i], p))
              && (|r.value.1| > 0 ==> !In(r.value.1[0], p))
  {
    var n := SpanLen(s, p);
    if n == 0 then None
    else
      assert s[..n] + s[n..] == s;
      Some((s[..n], s[n..]))
  }

  /** A literal character `c`: what follows it. */
  function Char(s: string, c: char): (r: Option<string>)
    ensures r.Some? <==> |s| > 0 && s[0] == c
    ensures r.Some? ==> s == [c] + r.value
  {
    if |s| > 0 && s[0] == c then Some(s[1..]) else None
  }

  /**
   * `(X+)\s+`: a run of class `p`, then at least one blank; the run, the
   * blanks, and what follows them.
   */
  function TokenGap(s: string, p: CharClass): (r: Option<(string, string, string)>)
    ensures r.Some? ==>
              && Token(r.value.0, p)
              && Token(r.value.1, Space)
              && s == r.value.0 + r.value.1 + r.value.2
    ensures r.Some? && |r.value.2| > 0 ==> !IsSpace(r.value.2[0])
  {
    var tok :- Run1(s, p);
    var gap :- Run1(tok.1, Space);
    Some((tok.0, gap.0, gap.1))
  }

  /** `"([^"]+)"`: a non-empty quoted run without inner quotes. */
  function Quoted(s: string): (r: Option<(string, string)>)
    ensures r.Some? ==> s == "\"" + r.value.0 + "\"" + r.value.1
                        && |r.value.0| > 0 && '"' !in r.value.0
  {
    var r1 :- Char(s, '"');
    var t :- Run1(r1, NotQuote);
    var r2 :- Char(t.1, '"');
    assert forall c :: c in t.0 ==> c != '"';
    Some((t.0, r2))
  }

  predicate All(s: string, p: CharClass) {
    forall i :: 0 <= i < |s| ==> In(s[i], p)
  }

  /** Something that starts with a character `\s` does not match. */
  predicate StartsSolid(s: string) {
    |s| > 0 && !IsSpace(s[0])
  }

  /** A non-empty run of class `p`: what `X+` matches. */
  predicate Token(s: string, p: CharClass) {
    |s| > 0 && All(s, p)
  }

  /** A maximal run is found exactly where it was written. */
  lemma Run1Concat(a: string, b: string, p: CharClass)
    requires Token(a, p)
    requires |b| > 0 ==> !In(b[0], p)
    ensures Run1(a + b, p) == Some((a, b))
  {
    assert (a + b)[..|a|] == a;
  }

  lemma CharConcat(c: char, b: string)
    ensures Char([c] + b, c) == Some(b)
  {
    assert ([c] + b)[1..] == b;
  }

  /** Reading back a quoted run. */
  lemma QuotedConcat(d: string, tail: string)
    requires |d| > 0 && '"' !in d
    ensures Quoted("\"" + d + "\"" + tail) == Some((d, tail))
  {
    var s := "\"" + d + "\"" + tail;
    assert s == ['"'] + (d + ("\"" + tail));
    CharConcat('"', d + ("\"" + tail));
    assert All(d, NotQuote);
    Run1Concat(d, "\"" + tail, NotQuote);
    assert "\"" + tail == ['"'] + tail;
    CharConcat('"', tail);
  }

  /** A token and its blanks are found exactly where they were written. */
  lemma TokenGapConcat(tok: string, gap: string, rest: string, p: CharClass)
    requires Token(tok, p)
    requires Token(gap, Space)
    requires !In(gap[0], p)
    requires |rest| > 0 ==> !IsSpace(rest[0])
    ensures TokenGap(tok + gap + rest, p) == Some((tok, gap, rest))
  {
    assert tok + gap + rest == tok + (gap + rest);
    Run1Concat(tok, gap + rest, p);
    Run1Concat(gap, rest, Space);
  }
}
