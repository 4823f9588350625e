/**
 * parse_annotations: turn the `// @Key value` comment block above a handler
 * into an endpoint record. Python dict keys that may be missing are `Option`
 * fields; the record is "empty" when no key was set.
 */
module Annotations {
  import opened Results
  import opened PyText
  import opened Scan
  import OrderedMap

  datatype Param = Param(name: string, location: string, required: bool,
                         description: string, schemaType: string)

  /** A response entry; its content is always a JSON object schema. */
  datatype Response = Response(description: string, mediaType: string, schemaType: string)

  function MakeResponse(description: string): (r: Response)
    ensures r.description == description
    ensures r.mediaType == "application/json" && r.schemaType == "object"
  {
    Response(description, "application/json", "object")
  }

  datatype Endpoint = Endpoint(
    summary: Option<string>,
    description: Option<string>,
    tags: Option<seq<string>>,
    path: Option<string>,
    verb: Option<string>,
    parameters: Option<seq<Param>>,
    responses: Option<OrderedMap.Dict<string, Response>>,
    produces: Option<string>)

  const Empty: Endpoint := Endpoint(None, None, None, None, None, None, None, None)

  /** `.*`: everything up to the first line break, which it stops at. */
  function UpToNewline(s: string): (r: string)
    ensures '\n' !in r
    ensures |r| <= |s| && r == s[..|r|]
    ensures |r| < |s| ==> s[|r|] == '\n'
  {
    var n := SpanLen(s, AllBut('\n'));
    assert forall c :: c in s[..n] ==> c != '\n';
    s[..n]
  }

  /** The spelling `@key gap rest` of an annotation. */
  function KeyValueText(key: string, gap: string, rest: string): string {
    "@" + (key + (gap + rest))
  }

  /**
   * `@(\w+)\s+(.*)` followed by `value.strip()`: the key and the stripped
   * value. A match is exactly a line spelled `@key`, blanks, and a rest that
   * does not start with a blank; the value is the rest up to the first line
   * break, stripped.
   */
  function MatchKeyValue(line: string): (r: Option<(string, string)>)
    ensures r.Some? ==> Token(r.value.0, Word)
    ensures r.Some? ==>
              exists gap, rest ::
                && Token(gap, Space)
                && (|rest| > 0 ==> !IsSpace(rest[0]))
                && line == KeyValueText(r.value.0, gap, rest)
                && r.value.1 == Strip(UpToNewline(rest), Space)
  {
    var afterAt :- Char(line, '@');
    var key :- Run1(afterAt, Word);
    var gap :- Run1(key.1, Space);
    assert line == KeyValueText(key.0, gap.0, gap.1);
    Some((key.0, Strip(UpToNewline(gap.1), Space)))
  }

  /** The spelling `path gap [verb]tail` of a route. */
  function RouteText(path: string, gap: string, verb: string, tail: string): string {
    path + gap + ("[" + (verb + ("]" + tail)))
  }

  /**
   * `(\S+)\s+\[(\w+)\]`: the route path and the bracketed method. A match is
   * exactly a value spelled as a blank-free path, blanks, and the method in
   * brackets, followed by anything.
   */
  function MatchRoute(value: string): (r: Option<(string, string)>)
    ensures r.Some? ==> Token(r.value.0, NotSpace) && Token(r.value.1, Word)
    ensures r.Some? ==>
              exists gap, tail :: Token(gap, Space) && value == RouteText(r.value.0, gap, r.value.1, tail)
  {
    var path :- TokenGap(value, NotSpace);
    var open :- Char(path.2, '[');
    var verb :- Run1(open, Word);
    var close :- Char(verb.1, ']');
    assert value == RouteText(path.0, path.1, verb.0, close);
    Some((path.0, verb.0))
  }

  datatype ParamFields = ParamFields(name: string, location: string, schemaType: string,
                                     required: string, description: string)

  /** Every word is a non-empty run of word characters. */
  predicate Words(words: seq<string>) {
    forall w :: w in words ==> Token(w, Word)
  }

  /** Every gap is a non-empty run of blanks. */
  predicate Gaps(gaps: seq<string>) {
    forall g :: g in gaps ==> Token(g, Space)
  }

  /** Words, each followed by its own run of blanks. */
  function Spaced(words: seq<string>, gaps: seq<string>): string
    requires |gaps| == |words|
    decreases |words|
  {
    if words == [] then [] else words[0] + gaps[0] + Spaced(words[1..], gaps[1..])
  }

  /**
   * `n` consecutive `(\w+)\s+` fields: the words, the runs of blanks after
   * them, and what follows the last run, which does not start with a blank.
   */
  function WordFields(s: string, n: nat): (r: Option<(seq<string>, seq<string>, string)>)
    ensures r.Some? ==> && |r.value.0| == n && |r.value.1| == n
                        && Words(r.value.0) && Gaps(r.value.1)
                        && s == Spaced(r.value.0, r.value.1) + r.value.2
    ensures r.Some? && n > 0 && |r.value.2| > 0 ==> !IsSpace(r.value.2[0])
  {
    if n == 0 then
      assert s == Spaced([], []) + s;
      Some(([], [], s))
    else
      var f :- TokenGap(s, Word);
      var more :- WordFields(f.2, n - 1);
      SpacedCons([f.0] + more.0, [f.1] + more.1, more.2);
      Some(([f.0] + more.0, [f.1] + more.1, more.2))
  }

  /** The spelling of a parameter line: four spaced words, then the quoted description. */
  function ParamText(f: ParamFields, gaps: seq<string>, tail: string): string
    requires |gaps| == 4
  {
    Spaced([f.name, f.location, f.schemaType, f.required], gaps)
      + ("\"" + f.description + "\"" + tail)
  }

  /**
   * `(\w+)\s+(\w+)\s+(\w+)\s+(\w+)\s+"([^"]+)"`. A match is exactly a value
   * spelled as four words, each followed by blanks, then a non-empty quoted
   * description, followed by anything.
   */
  function MatchParam(value: string): (r: Option<ParamFields>)
    ensures r.Some? ==> && Token(r.value.name, Word)
                        && Token(r.value.location, Word)
                        && Token(r.value.schemaType, Word)
                        && Token(r.value.required, Word)
                        && |r.value.description| > 0 && '"' !in r.value.description
    ensures r.Some? ==>
              exists gaps, tail :: |gaps| == 4 && Gaps(gaps) && value == ParamText(r.value, gaps, tail)
  {
    var fs :- WordFields(value, 4);
    var d :- Quoted(fs.2);
    var f := ParamFields(fs.0[0], fs.0[1], fs.0[2], fs.0[3], d.0);
    assert fs.0 == [f.name, f.location, f.schemaType, f.required];
    assert fs.0[0] in fs.0 && fs.0[1] in fs.0 && fs.0[2] in fs.0 && fs.0[3] in fs.0;
    assert value == ParamText(f, fs.1, d.1);
    Some(f)
  }

  /** The parameter object for matched fields; only the literal `true` makes it required. */
  function ParamEntry(f: ParamFields): Param {
    Param(f.name, f.location, f.required == "true", f.description, f.schemaType)
  }

  /** The parameter a `@Param` value contributes: one when it matches, none otherwise. */
  function ValueParams(value: string): seq<Param> {
    match MatchParam(value)
    case Some(f) => [ParamEntry(f)]
    case None => []
  }

  /** The spelling of a response line: status, `{kind}`, schema, quoted description. */
  function StatusText(status: string, g1: string, kind: string, g2: string, schema: string,
                      g3: string, description: string, tail: string): string
  {
    status + g1 + BracedText(kind, g2, SchemaText(schema, g3, description, tail))
  }

  /** The spelling `{kind}gap rest`. */
  function BracedText(kind: string, gap: string, rest: string): string {
    "{" + (kind + ("}" + (gap + rest)))
  }

  /** The spelling `schema gap "description"tail`. */
  function SchemaText(schema: string, gap: string, description: string, tail: string): string {
    schema + gap + ("\"" + description + "\"" + tail)
  }

  /** `\{(\w+)\}\s+`: the braced word, the blanks after it, and what follows them. */
  function MatchBraced(s: string): (r: Option<(string, string, string)>)
    ensures r.Some? ==> && Token(r.value.0, Word) && Token(r.value.1, Space)
                        && s == BracedText(r.value.0, r.value.1, r.value.2)
  {
    var open :- Char(s, '{');
    var kind :- Run1(open, Word);
    var close :- Char(kind.1, '}');
    var gap :- Run1(close, Space);
    Some((kind.0, gap.0, gap.1))
  }

  /** `(\S+)\s+"([^"]+)"`: the schema, the blanks after it, the description and what follows. */
  function MatchSchema(s: string): (r: Option<(string, string, string, string)>)
    ensures r.Some? ==> && Token(r.value.0, NotSpace) && Token(r.value.1, Space)
                        && |r.value.2| > 0 && '"' !in r.value.2
                        && s == SchemaText(r.value.0, r.value.1, r.value.2, r.value.3)
  {
    var schema :- TokenGap(s, NotSpace);
    var d :- Quoted(schema.2);
    Some((schema.0, schema.1, d.0, d.1))
  }

  /**
   * `(\d+)\s+\{(\w+)\}\s+(\S+)\s+"([^"]+)"`: the status code and the
   * description. A match is exactly a value spelled as digits, blanks, a
   * braced word, blanks, a blank-free schema, blanks and a non-empty quoted
   * description, followed by anything.
   */
  function MatchStatus(value: string): (r: Option<(string, string)>)
    ensures r.Some? ==> && Token(r.value.0, Digit)
                        && |r.value.1| > 0 && '"' !in r.value.1
    ensures r.Some? ==>
              exists g1, kind, g2, schema, g3, tail ::
                && Token(g1, Space) && Token(kind, Word) && Token(g2, Space)
                && Token(schema, NotSpace) && Token(g3, Space)
                && value == StatusText(r.value.0, g1, kind, g2, schema, g3, r.value.1, tail)
  {
    var status :- TokenGap(value, Digit);
    var braced :- MatchBraced(status.2);
    var rest :- MatchSchema(braced.2);
    assert value == StatusText(status.0, status.1, braced.0, braced.1, rest.0, rest.1, rest.2, rest.3);
    Some((status.0, rest.2))
  }

  /**
   * The key and value of an annotation line, when the line is one: the raw
   * line is `/` and blanks, then `@key`, blanks and a rest that does not
   * start with a blank, then `/` and blanks again; the value is the rest up
   * to the first line break, stripped. A line that does not start with `@`
   * once stripped of `/` and blanks is no annotation.
   */
  function Annotation(rawLine: string): (r: Option<(string, string)>)
    ensures r.Some? ==> Token(r.value.0, Word)
    ensures r.Some? && |r.value.1| > 0 ==>
              !IsSpace(r.value.1[0]) && !IsSpace(r.value.1[|r.value.1| - 1])
    ensures r.Some? ==>
              exists lead, gap, rest, trail ::
                && PaddedKeyValue(rawLine, lead, r.value.0, gap, rest, trail)
                && r.value.1 == Strip(UpToNewline(rest), Space)
    ensures var line := Strip(rawLine, SlashOrBlank);
            |line| == 0 || line[0] != '@' ==> r.None?
  {
    var line := Strip(rawLine, SlashOrBlank);
    if |line| == 0 || line[0] != '@' then None
    else
      var kv := MatchKeyValue(line);
      if kv.Some? then
        AnnotationSpelling(rawLine, kv.value.0, kv.value.1);
        assert |kv.value.1| > 0 ==> !IsSpace(kv.value.1[0]) && !IsSpace(kv.value.1[|kv.value.1| - 1]);
        kv
      else kv
  }

  /** Where a matched annotation sits inside its raw line. */
  lemma AnnotationSpelling(rawLine: string, key: string, value: string)
    requires MatchKeyValue(Strip(rawLine, SlashOrBlank)) == Some((key, value))
    ensures exists lead, gap, rest, trail ::
              && PaddedKeyValue(rawLine, lead, key, gap, rest, trail)
              && value == Strip(UpToNewline(rest), Space)
  {
    var line := Strip(rawLine, SlashOrBlank);
    var lead, trail := StripPads(rawLine, SlashOrBlank);
    var gap, rest :| && Token(gap, Space) && (|rest| > 0 ==> !IsSpace(rest[0]))
                     && line == KeyValueText(key, gap, rest)
                     && value == Strip(UpToNewline(rest), Space);
    KeyValueLast(key, gap, rest);
    assert PaddedKeyValue(rawLine, lead, key, gap, rest, trail);
  }

  /** An annotation spelling ends where its gap and rest end. */
  lemma KeyValueLast(key: string, gap: string, rest: string)
    requires |gap| > 0
    ensures var t := KeyValueText(key, gap, rest);
            |t| > 0 && t[|t| - 1] == (gap + rest)[|gap + rest| - 1]
  {
  }

  /**
   * `rawLine` spells `@key`, blanks and a rest that does not start with a
   * blank, padded on both sides with `/` and blanks that `strip('/ ')`
   * removes and no more.
   */
  predicate PaddedKeyValue(rawLine: string, lead: string, key: string, gap: string,
                           rest: string, trail: string) {
    && All(lead, SlashOrBlank) && All(trail, SlashOrBlank)
    && Token(gap, Space) && (|rest| > 0 ==> !IsSpace(rest[0]))
    && !IsSlashOrBlank((gap + rest)[|gap + rest| - 1])
    && rawLine == lead + KeyValueText(key, gap, rest) + trail
  }

  function KeyOf(rawLine: string): Option<string> {
    var kv :- Annotation(rawLine);
    Some(kv.0)
  }

  /** Every field recorded in `e` is still recorded in `r`. */
  predicate Extends(e: Endpoint, r: Endpoint) {
    && (e.summary.Some? ==> r.summary.Some?)
    && (e.description.Some? ==> r.description.Some?)
    && (e.tags.Some? ==> r.tags.Some?)
    && (e.path.Some? ==> r.path.Some?)
    && (e.verb.Some? ==> r.verb.Some?)
    && (e.parameters.Some? ==> r.parameters.Some?)
    && (e.responses.Some? ==> r.responses.Some?)
    && (e.produces.Some? ==> r.produces.Some?)
  }

  /**
   * Apply one `@Key value` pair to the endpoint record: the plain keys store
   * their value (`Tags` as a one-element list), a structured key whose value
   * does not match its pattern changes nothing, and no field is ever cleared.
   */
  function ApplyKey(e: Endpoint, key: string, value: string): (r: Endpoint)
    ensures key == "Summary" ==> r == e.(summary := Some(value))
    ensures key == "Description" ==> r == e.(description := Some(value))
    ensures key == "Tags" ==> r == e.(tags := Some([value]))
    ensures key == "Produce" ==> r == e.(produces := Some(value))
    ensures key == "Router" && MatchRoute(value).None? ==> r == e
    ensures key == "Param" && MatchParam(value).None? ==> r == e
    ensures (key == "Success" || key == "Failure") && MatchStatus(value).None? ==> r == e
    ensures r.summary == e.summary || key == "Summary"
    ensures r.description == e.description || key == "Description"
    ensures r.tags == e.tags || key == "Tags"
    ensures (r.path == e.path && r.verb == e.verb) || key == "Router"
    ensures r.parameters == e.parameters || key == "Param"
    ensures r.responses == e.responses || key == "Success" || key == "Failure"
    ensures r.produces == e.produces || key == "Produce"
    ensures Extends(e, r)
  {
    if key == "Summary" then e.(summary := Some(value))
    else if key == "Description" then e.(description := Some(value))
    else if key == "Tags" then e.(tags := Some([value]))
    else if key == "Router" then
      match MatchRoute(value)
      case Some(route) => e.(path := Some(route.0), verb := Some(Lower(route.1)))
      case None => e
    else if key == "Param" then
      match MatchParam(value)
      case Some(f) => e.(parameters := Some(e.parameters.GetOr([]) + [ParamEntry(f)]))
      case None => e
    else if key == "Success" || key == "Failure" then
      match MatchStatus(value)
      case Some(st) =>
        e.(responses := Some(OrderedMap.Put(e.responses.GetOr([]), st.0, MakeResponse(st.1))))
      case None => e
    else if key == "Produce" then e.(produces := Some(value))
    else e
  }

  /**
   * One line of the block: stripped of `/` and blanks, ignored unless it is
   * an `@Key value` annotation; each field changes only under its own key,
   * and no field is ever cleared.
   */
  function ParseLine(e: Endpoint, rawLine: string): (r: Endpoint)
    ensures var line := Strip(rawLine, SlashOrBlank);
            |line| == 0 || line[0] != '@' ==> r == e
    ensures KeyOf(rawLine).None? ==> r == e
    ensures r.summary == e.summary || KeyOf(rawLine) == Some("Summary")
    ensures r.description == e.description || KeyOf(rawLine) == Some("Description")
    ensures r.tags == e.tags || KeyOf(rawLine) == Some("Tags")
    ensures (r.path == e.path && r.verb == e.verb) || KeyOf(rawLine) == Some("Router")
    ensures r.parameters == e.parameters || KeyOf(rawLine) == Some("Param")
    ensures r.responses == e.responses
            || KeyOf(rawLine) == Some("Success") || KeyOf(rawLine) == Some("Failure")
    ensures r.produces == e.produces || KeyOf(rawLine) == Some("Produce")
    ensures Extends(e, r)
  {
    match Annotation(rawLine)
    case None => e
    case Some(kv) => ApplyKey(e, kv.0, kv.1)
  }

  /** Fold the lines over the record, first to last; a recorded field stays recorded. */
  function ParseLines(e: Endpoint, lines: seq<string>): (r: Endpoint)
    ensures Extends(e, r)
    decreases |lines|
  {
    if lines == [] then e else ParseLines(ParseLine(e, lines[0]), lines[1..])
  }

  /**
   * parse_annotations: strip the block, split it into lines, fold them. The
   * block is reported absent exactly when no line, parsed on its own,
   * records anything; otherwise the fold is the endpoint.
   */
  function ParseAnnotations(text: string): (r: Option<Endpoint>)
    ensures var lines := Split(Strip(text, Space), '\n');
            r.None? <==> forall l :: l in lines ==> ParseLine(Empty, l) == Empty
    ensures r.Some? ==> r.value == ParseLines(Empty, Split(Strip(text, Space), '\n'))
  {
    var lines := Split(Strip(text, Space), '\n');
    var e := ParseLines(Empty, lines);
    RecordedIff(Empty, lines);
    if e == Empty then None else Some(e)
  }

  /**
   * The fold records nothing exactly when it starts from the empty record and
   * no line records anything on its own.
   */
  lemma {:induction false} RecordedIff(e: Endpoint, lines: seq<string>)
    ensures ParseLines(e, lines) == Empty
            <==> e == Empty && forall l :: l in lines ==> ParseLine(Empty, l) == Empty
    decreases |lines|
  {
    if lines != [] {
      var e' := ParseLine(e, lines[0]);
      RecordedIff(e', lines[1..]);
      assert ParseLines(e, lines) == ParseLines(e', lines[1..]);
      LineRecords(e, lines[0]);
      assert forall l :: l in lines <==> l == lines[0] || l in lines[1..];
    }
  }

  /** A line leaves the record empty exactly when it was empty and the line records nothing. */
  lemma LineRecords(e: Endpoint, rawLine: string)
    ensures ParseLine(e, rawLine) == Empty <==> e == Empty && ParseLine(Empty, rawLine) == Empty
  {
    if e != Empty {
      ExtendsNonEmpty(e, ParseLine(e, rawLine));
    }
  }

  /** A record that extends a non-empty one is non-empty. */
  lemma ExtendsNonEmpty(e: Endpoint, r: Endpoint)
    requires Extends(e, r) && e != Empty
    ensures r != Empty
  {
  }

  /**
   * Reading back an annotation line: `@key`, blanks and a rest, between any
   * `/` and blanks at either end, yields the key and the rest's first line
   * stripped.
   */
  lemma AnnotationReadBack(lead: string, key: string, gap: string, rest: string, trail: string)
    requires All(lead, SlashOrBlank) && All(trail, SlashOrBlank)
    requires Token(key, Word)
    requires Token(gap, Space)
    requires |rest| > 0 ==> !IsSpace(rest[0])
    requires !IsSlashOrBlank((gap + rest)[|gap + rest| - 1])
    ensures Annotation(lead + KeyValueText(key, gap, rest) + trail)
            == Some((key, Strip(UpToNewline(rest), Space)))
  {
    var line := KeyValueText(key, gap, rest);
    KeyValueLast(key, gap, rest);
    StripPadded(lead, line, trail, SlashOrBlank);
    KeyValueReadBack(key, gap, rest);
  }

  /** A line spelled `@key value`, with one space and a stripped one-line value. */
  lemma PlainAnnotation(lead: string, key: string, value: string)
    requires All(lead, SlashOrBlank)
    requires Token(key, Word)
    requires |value| > 0 && '\n' !in value
    requires !IsSpace(value[0]) && !IsSpace(value[|value| - 1])
    requires !IsSlashOrBlank(value[|value| - 1])
    ensures Annotation(lead + ("@" + key + " " + value)) == Some((key, value))
  {
    assert Token(" ", Space);
    assert UpToNewline(value) == value;
    StripUnchanged(value, Space);
    PlainSpelling(lead, key, value);
    AnnotationReadBack(lead, key, " ", value, "");
  }

  /** The one-space spelling of an annotation line. */
  lemma PlainSpelling(lead: string, key: string, value: string)
    requires |value| > 0
    ensures lead + ("@" + key + " " + value) == lead + KeyValueText(key, " ", value) + ""
    ensures (" " + value)[|" " + value| - 1] == value[|value| - 1]
  {
  }

  /** `@(\w+)\s+(.*)` reads back the key and the stripped first line of the rest. */
  lemma KeyValueReadBack(key: string, gap: string, rest: string)
    requires Token(key, Word)
    requires Token(gap, Space)
    requires |rest| > 0 ==> !IsSpace(rest[0])
    ensures MatchKeyValue(KeyValueText(key, gap, rest)) == Some((key, Strip(UpToNewline(rest), Space)))
  {
    var line := KeyValueText(key, gap, rest);
    assert line == ['@'] + (key + (gap + rest));
    CharConcat('@', key + (gap + rest));
    assert (gap + rest)[0] == gap[0];
    Run1Concat(key, gap + rest, Word);
    Run1Concat(gap, rest, Space);
  }

  /** Reading back a route: the path and the bracketed method come out as written. */
  lemma RouteReadBack(path: string, gap: string, verb: string, tail: string)
    requires Token(path, NotSpace)
    requires Token(gap, Space)
    requires Token(verb, Word)
    ensures MatchRoute(RouteText(path, gap, verb, tail)) == Some((path, verb))
  {
    var r2 := verb + ("]" + tail);
    var r1 := "[" + r2;
    TokenGapConcat(path, gap, r1, NotSpace);
    assert r1 == ['['] + r2;
    CharConcat('[', r2);
    Run1Concat(verb, "]" + tail, Word);
    assert "]" + tail == [']'] + tail;
    CharConcat(']', tail);
  }

  /** Reading back a parameter line: the five fields come out as written. */
  lemma ParamReadBack(f: ParamFields, gaps: seq<string>, tail: string)
    requires Token(f.name, Word)
    requires Token(f.location, Word)
    requires Token(f.schemaType, Word)
    requires Token(f.required, Word)
    requires |gaps| == 4 && Gaps(gaps)
    requires |f.description| > 0 && '"' !in f.description
    ensures MatchParam(ParamText(f, gaps, tail)) == Some(f)
  {
    var words := [f.name, f.location, f.schemaType, f.required];
    var q := "\"" + f.description + "\"" + tail;
    assert StartsSolid(q) by {
      assert q[0] == '"';
    }
    QuotedConcat(f.description, tail);
    WordFieldsReadBack(words, gaps, q);
    MatchParamFrom(ParamText(f, gaps, tail), words, gaps, q, f.description, tail);
  }

  /** `MatchParam` once its four word fields and its quoted description are found. */
  lemma MatchParamFrom(value: string, words: seq<string>, gaps: seq<string>, q: string,
                       description: string, tail: string)
    requires |words| == 4 && WordFields(value, 4) == Some((words, gaps, q))
    requires Quoted(q) == Some((description, tail))
    ensures MatchParam(value) == Some(ParamFields(words[0], words[1], words[2], words[3], description))
  {
  }

  /** Spaced words are read back one field at a time, leaving what follows them. */
  lemma {:induction false} WordFieldsReadBack(words: seq<string>, gaps: seq<string>, rest: string)
    requires |gaps| == |words| && Words(words) && Gaps(gaps) && StartsSolid(rest)
    ensures WordFields(Spaced(words, gaps) + rest, |words|) == Some((words, gaps, rest))
    decreases |words|
  {
    if words == [] {
      WordFieldsNil(rest);
    } else {
      var tail := Spaced(words[1..], gaps[1..]) + rest;
      WordFieldsReadBack(words[1..], gaps[1..], rest);
      FirstWordField(words, gaps, rest);
      WordFieldsCons(Spaced(words, gaps) + rest, words, gaps, tail, rest);
    }
  }

  lemma WordFieldsNil(rest: string)
    ensures WordFields(Spaced([], []) + rest, 0) == Some(([], [], rest))
  {
    assert Spaced([], []) + rest == rest;
  }

  /** The first of the spaced words, and its gap, are the first field read. */
  lemma FirstWordField(words: seq<string>, gaps: seq<string>, rest: string)
    requires words != [] && |gaps| == |words| && Words(words) && Gaps(gaps) && StartsSolid(rest)
    ensures TokenGap(Spaced(words, gaps) + rest, Word)
            == Some((words[0], gaps[0], Spaced(words[1..], gaps[1..]) + rest))
  {
    var tail := Spaced(words[1..], gaps[1..]) + rest;
    SpacedStart(words[1..], gaps[1..], rest);
    assert words[0] in words;
    assert gaps[0] in gaps;
    WordField(words[0], gaps[0], tail);
    SpacedCons(words, gaps, rest);
  }

  /** One more field in front of fields already read. */
  lemma WordFieldsCons(s: string, words: seq<string>, gaps: seq<string>, tail: string, rest: string)
    requires words != [] && |gaps| == |words|
    requires TokenGap(s, Word) == Some((words[0], gaps[0], tail))
    requires WordFields(tail, |words| - 1) == Some((words[1..], gaps[1..], rest))
    ensures WordFields(s, |words|) == Some((words, gaps, rest))
  {
    assert [words[0]] + words[1..] == words;
    assert [gaps[0]] + gaps[1..] == gaps;
  }

  lemma SpacedCons(words: seq<string>, gaps: seq<string>, rest: string)
    requires words != [] && |gaps| == |words|
    ensures Spaced(words, gaps) + rest == words[0] + gaps[0] + (Spaced(words[1..], gaps[1..]) + rest)
  {
  }

  /** What follows a run of blanks in a spaced line never starts with a blank. */
  lemma SpacedStart(words: seq<string>, gaps: seq<string>, rest: string)
    requires |gaps| == |words| && Words(words) && StartsSolid(rest)
    ensures StartsSolid(Spaced(words, gaps) + rest)
  {
    if words != [] {
      assert words[0] in words;
      assert (Spaced(words, gaps) + rest)[0] == words[0][0];
    }
  }

  /** One `(\w+)\s+` field followed by something that does not start with a blank. */
  lemma WordField(tok: string, gap: string, rest: string)
    requires Token(tok, Word) && Token(gap, Space) && StartsSolid(rest)
    ensures TokenGap(tok + gap + rest, Word) == Some((tok, gap, rest))
  {
    assert !IsWord(gap[0]);
    TokenGapConcat(tok, gap, rest, Word);
  }

  /** Reading back a response line: the status and the description come out as written. */
  lemma StatusReadBack(status: string, g1: string, kind: string, g2: string, schema: string,
                       g3: string, description: string, tail: string)
    requires Token(status, Digit) && Token(g1, Space)
    requires Token(kind, Word) && Token(g2, Space)
    requires Token(schema, NotSpace) && Token(g3, Space)
    requires |description| > 0 && '"' !in description
    ensures MatchStatus(StatusText(status, g1, kind, g2, schema, g3, description, tail))
            == Some((status, description))
  {
    var rest := SchemaText(schema, g3, description, tail);
    var s1 := BracedText(kind, g2, rest);
    BracedReadBack(kind, g2, rest);
    SchemaReadBack(schema, g3, description, tail);
    TokenGapConcat(status, g1, s1, Digit);
  }

  lemma BracedReadBack(kind: string, gap: string, rest: string)
    requires Token(kind, Word) && Token(gap, Space) && StartsSolid(rest)
    ensures MatchBraced(BracedText(kind, gap, rest)) == Some((kind, gap, rest))
  {
    var r2 := "}" + (gap + rest);
    var r1 := kind + r2;
    assert BracedText(kind, gap, rest) == ['{'] + r1;
    CharConcat('{', r1);
    Run1Concat(kind, r2, Word);
    assert r2 == ['}'] + (gap + rest);
    CharConcat('}', gap + rest);
    Run1Concat(gap, rest, Space);
  }

  lemma SchemaReadBack(schema: string, gap: string, description: string, tail: string)
    requires Token(schema, NotSpace) && Token(gap, Space)
    requires |description| > 0 && '"' !in description
    ensures MatchSchema(SchemaText(schema, gap, description, tail)) == Some((schema, gap, description, tail))
  {
    var q := "\"" + description + "\"" + tail;
    TokenGapConcat(schema, gap, q, NotSpace);
    QuotedConcat(description, tail);
  }

  const RecognisedKeys: set<string> :=
    {"Summary", "Description", "Tags", "Router", "Param", "Success", "Failure", "Produce"}

  /** A key outside the recognised ones leaves the record as it was. */
  lemma UnknownKeyIgnored(e: Endpoint, key: string, value: string)
    requires key !in RecognisedKeys
    ensures ApplyKey(e, key, value) == e
  {
  }

  /** `// @Router /p [VERB]` sets the path and the lower-cased method, and nothing else. */
  lemma RouterLine(e: Endpoint, lead: string, path: string, verb: string)
    requires All(lead, SlashOrBlank)
    requires Token(path, NotSpace)
    requires Token(verb, Word)
    ensures ParseLine(e, lead + ("@Router " + (path + " [" + verb + "]")))
            == e.(path := Some(path), verb := Some(Lower(verb)))
  {
    var value := path + " [" + verb + "]";
    RouterAnnotation(lead, path, verb);
    RouteValue(path, verb);
    AnnotatedLine(e, lead + ("@Router " + value), "Router", value);
    RouterApply(e, value, path, verb);
  }

  lemma RouterAnnotation(lead: string, path: string, verb: string)
    requires All(lead, SlashOrBlank)
    requires Token(path, NotSpace)
    requires Token(verb, Word)
    ensures Annotation(lead + ("@Router " + (path + " [" + verb + "]")))
            == Some(("Router", path + " [" + verb + "]"))
  {
    var value := path + " [" + verb + "]";
    assert "@" + "Router" + " " == "@Router ";
    assert '\n' !in value by {
      assert forall c :: c in path ==> c != '\n';
      assert forall c :: c in verb ==> c != '\n';
    }
    PlainAnnotation(lead, "Router", value);
  }

  lemma RouteValue(path: string, verb: string)
    requires Token(path, NotSpace)
    requires Token(verb, Word)
    ensures MatchRoute(path + " [" + verb + "]") == Some((path, verb))
  {
    assert Token(" ", Space);
    RouteSpelling(path, verb);
    RouteReadBack(path, " ", verb, "");
  }

  lemma RouteSpelling(path: string, verb: string)
    ensures path + " [" + verb + "]" == RouteText(path, " ", verb, "")
  {
  }

  /** A `@Router` value that matches sets the path and the lower-cased method. */
  lemma RouterApply(e: Endpoint, value: string, path: string, verb: string)
    requires MatchRoute(value) == Some((path, verb))
    ensures ApplyKey(e, "Router", value) == e.(path := Some(path), verb := Some(Lower(verb)))
  {
  }

  /** An annotation line applies its key and value to the record. */
  lemma AnnotatedLine(e: Endpoint, rawLine: string, key: string, value: string)
    requires Annotation(rawLine) == Some((key, value))
    ensures ParseLine(e, rawLine) == ApplyKey(e, key, value)
  {
  }

  /** `// @Tags v` records the one-element tag list `[v]`. */
  lemma TagsLine(e: Endpoint, lead: string, tag: string)
    requires All(lead, SlashOrBlank)
    requires |tag| > 0 && '\n' !in tag
    requires !IsSpace(tag[0]) && !IsSpace(tag[|tag| - 1])
    requires !IsSlashOrBlank(tag[|tag| - 1])
    ensures ParseLine(e, lead + ("@Tags " + tag)) == e.(tags := Some([tag]))
  {
    assert "@Tags " + tag == "@" + "Tags" + " " + tag;
    assert Token("Tags", Word) by {
      TagsKey();
    }
    PlainAnnotation(lead, "Tags", tag);
    AnnotatedLine(e, lead + ("@Tags " + tag), "Tags", tag);
  }

  lemma TagsKey()
    ensures Token("Tags", Word)
  {
    var k := "Tags";
    assert k[0] == 'T' && k[1] == 'a' && k[2] == 'g' && k[3] == 's';
  }

  /** A block holding a single `// @Router /p [VERB]` line records that route and nothing else. */
  lemma RouterBlock(path: string, verb: string)
    requires Token(path, NotSpace)
    requires Token(verb, Word)
    ensures ParseAnnotations("// " + ("@Router " + (path + " [" + verb + "]")))
            == Some(Empty.(path := Some(path), verb := Some(Lower(verb))))
  {
    var text := "// " + ("@Router " + (path + " [" + verb + "]"));
    RouterText(path, verb);
    SingleLineBlock(text);
    CommentLead();
    RouterLine(Empty, "// ", path, verb);
  }

  /** The usual comment opener is made of strippable characters only. */
  lemma CommentLead()
    ensures All("// ", SlashOrBlank)
  {
    var lead := "// ";
    assert lead[0] == '/' && lead[1] == '/' && lead[2] == ' ';
  }

  /** The `@Router` line starts with a slash, ends with a bracket and has no line break. */
  lemma RouterText(path: string, verb: string)
    requires Token(path, NotSpace)
    requires Token(verb, Word)
    ensures var text := "// " + ("@Router " + (path + " [" + verb + "]"));
            text[0] == '/' && text[|text| - 1] == ']' && '\n' !in text
  {
    assert forall c :: c in path ==> c != '\n';
    assert forall c :: c in verb ==> c != '\n';
  }

  /** A block of one line that needs no stripping is parsed as that line alone. */
  lemma SingleLineBlock(text: string)
    requires |text| > 0 && !IsSpace(text[0]) && !IsSpace(text[|text| - 1])
    requires '\n' !in text
    ensures ParseLines(Empty, Split(Strip(text, Space), '\n')) == ParseLine(Empty, text)
  {
    StripUnchanged(text, Space);
    SplitWithoutSeparator(text, '\n');
    assert ParseLines(Empty, [text]) == ParseLines(ParseLine(Empty, text), []);
  }

  /** The parameter a line contributes, if it is a well-formed `@Param` line. */
  function LineParams(rawLine: string): seq<Param> {
    match Annotation(rawLine)
    case Some(kv) => if kv.0 == "Param" then ValueParams(kv.1) else []
    case None => []
  }

  /** Reference definition: the well-formed parameters of a block, in line order. */
  function ParamsOf(lines: seq<string>): seq<Param> {
    if lines == [] then [] else LineParams(lines[0]) + ParamsOf(lines[1..])
  }

  /**
   * Parameters are appended in line order and are the only thing `@Param`
   * lines contribute; the key appears only once one was appended.
   */
  lemma {:induction false} ParamsInOrder(e: Endpoint, lines: seq<string>)
    ensures ParseLines(e, lines).parameters.GetOr([]) == e.parameters.GetOr([]) + ParamsOf(lines)
    ensures ParseLines(e, lines).parameters.None? <==> e.parameters.None? && ParamsOf(lines) == []
    decreases |lines|
  {
    if lines != [] {
      var e' := ParseLine(e, lines[0]);
      LineParamsStep(e, lines[0]);
      ParamsInOrder(e', lines[1..]);
      assert ParseLines(e, lines) == ParseLines(e', lines[1..]);
      assert ParamsOf(lines) == LineParams(lines[0]) + ParamsOf(lines[1..]);
      ChainAppend(e.parameters, e'.parameters, ParseLines(e', lines[1..]).parameters,
                  LineParams(lines[0]), ParamsOf(lines[1..]));
    } else {
      assert e.parameters.GetOr([]) + [] == e.parameters.GetOr([]);
    }
  }

  /** Two appends in a row are one append of both. */
  lemma ChainAppend(p0: Option<seq<Param>>, p1: Option<seq<Param>>, p2: Option<seq<Param>>,
                    a1: seq<Param>, a2: seq<Param>)
    requires p1.GetOr([]) == p0.GetOr([]) + a1 && (p1.None? <==> p0.None? && a1 == [])
    requires p2.GetOr([]) == p1.GetOr([]) + a2 && (p2.None? <==> p1.None? && a2 == [])
    ensures p2.GetOr([]) == p0.GetOr([]) + (a1 + a2)
    ensures p2.None? <==> p0.None? && a1 + a2 == []
  {
    assert p0.GetOr([]) + a1 + a2 == p0.GetOr([]) + (a1 + a2);
  }

  /** One line adds exactly its own well-formed parameter, if any. */
  lemma LineParamsStep(e: Endpoint, rawLine: string)
    ensures ParseLine(e, rawLine).parameters.GetOr([]) == e.parameters.GetOr([]) + LineParams(rawLine)
    ensures ParseLine(e, rawLine).parameters.None? <==> e.parameters.None? && LineParams(rawLine) == []
  {
    match Annotation(rawLine)
    case None => PlainLine(e, rawLine);
    case Some(kv) =>
      if kv.0 == "Param" {
        ParamKeyLine(e, rawLine, kv.1);
      } else {
        OtherKeyLine(e, rawLine, kv.0, kv.1);
      }
    AppendParams(e.parameters, ParseLine(e, rawLine).parameters, LineParams(rawLine));
  }

  /** `parameters` after appending `added`: created on the first addition, untouched by none. */
  predicate Appended(before: Option<seq<Param>>, after: Option<seq<Param>>, added: seq<Param>) {
    after == if added == [] then before else Some(before.GetOr([]) + added)
  }

  lemma AppendParams(before: Option<seq<Param>>, after: Option<seq<Param>>, added: seq<Param>)
    requires Appended(before, after, added)
    ensures after.GetOr([]) == before.GetOr([]) + added
    ensures after.None? <==> before.None? && added == []
  {
    if added == [] {
      assert before.GetOr([]) + added == before.GetOr([]);
    }
  }

  /** A line that is not an annotation contributes nothing. */
  lemma PlainLine(e: Endpoint, rawLine: string)
    requires Annotation(rawLine).None?
    ensures Appended(e.parameters, ParseLine(e, rawLine).parameters, LineParams(rawLine))
  {
  }

  /** A `@Param` line contributes what its value matches. */
  lemma ParamKeyLine(e: Endpoint, rawLine: string, value: string)
    requires Annotation(rawLine) == Some(("Param", value))
    ensures Appended(e.parameters, ParseLine(e, rawLine).parameters, LineParams(rawLine))
  {
    AnnotatedLine(e, rawLine, "Param", value);
    assert LineParams(rawLine) == ValueParams(value);
    ParamValue(e, value);
  }

  lemma ParamValue(e: Endpoint, value: string)
    ensures Appended(e.parameters, ApplyKey(e, "Param", value).parameters, ValueParams(value))
  {
  }

  /** A line under any other key contributes no parameter and leaves `parameters` alone. */
  lemma OtherKeyLine(e: Endpoint, rawLine: string, key: string, value: string)
    requires Annotation(rawLine) == Some((key, value)) && key != "Param"
    ensures Appended(e.parameters, ParseLine(e, rawLine).parameters, LineParams(rawLine))
  {
    AnnotatedLine(e, rawLine, key, value);
  }

  /** The two keys that record a response. */
  predicate IsResponseKey(key: string) {
    key == "Success" || key == "Failure"
  }

  /**
   * Two response lines for the same status: the later description wins and
   * the status keeps the place it was first given.
   */
  lemma LaterResponseWins(e: Endpoint, key1: string, value1: string, key2: string, value2: string,
                          status: string, d1: string, d2: string)
    requires IsResponseKey(key1) && IsResponseKey(key2)
    requires MatchStatus(value1) == Some((status, d1)) && MatchStatus(value2) == Some((status, d2))
    ensures var first := ApplyKey(e, key1, value1);
            var second := ApplyKey(first, key2, value2);
            && first.responses.Some? && second.responses.Some?
            && OrderedMap.Get(second.responses.value, status) == Some(MakeResponse(d2))
            && OrderedMap.Keys(second.responses.value) == OrderedMap.Keys(first.responses.value)
  {
    var first := ApplyKey(e, key1, value1);
    ResponseKey(e, key1, value1, status, d1);
    ResponseKey(first, key2, value2, status, d2);
    ReplaceResponse(e.responses.GetOr([]), status, MakeResponse(d1), MakeResponse(d2));
  }

  /** Writing a status twice: the second response is kept, at the place of the first. */
  lemma ReplaceResponse(d: OrderedMap.Dict<string, Response>, status: string, r1: Response, r2: Response)
    ensures OrderedMap.Get(OrderedMap.Put(OrderedMap.Put(d, status, r1), status, r2), status) == Some(r2)
    ensures OrderedMap.Keys(OrderedMap.Put(OrderedMap.Put(d, status, r1), status, r2))
            == OrderedMap.Keys(OrderedMap.Put(d, status, r1))
  {
    var d1 := OrderedMap.Put(d, status, r1);
    OrderedMap.GetPut(d1, status, r2, status);
    OrderedMap.GetPut(d, status, r1, status);
    OrderedMap.PutExistingKeepsKeys(d1, status, r2);
  }

  /** `@Success` and `@Failure` both write the response for their status, and nothing else. */
  lemma ResponseKey(e: Endpoint, key: string, value: string, status: string, description: string)
    requires IsResponseKey(key)
    requires MatchStatus(value) == Some((status, description))
    ensures ApplyKey(e, key, value)
            == e.(responses := Some(OrderedMap.Put(e.responses.GetOr([]), status, MakeResponse(description))))
  {
    var r := e.(responses := Some(OrderedMap.Put(e.responses.GetOr([]), status, MakeResponse(description))));
    if key == "Success" {
      assert ApplyKey(e, "Success", value) == r;
    } else {
      assert ApplyKey(e, "Failure", value) == r;
    }
  }

  /** A block whose lines record nothing is reported as absent. */
  lemma {:induction false} NothingRecorded(e: Endpoint, lines: seq<string>)
    requires forall i :: 0 <= i < |lines| ==>
               KeyOf(lines[i]).None? || KeyOf(lines[i]).value !in RecognisedKeys
    ensures ParseLines(e, lines) == e
    decreases |lines|
  {
    if lines != [] {
      assert ParseLine(e, lines[0]) == e;
      NothingRecorded(e, lines[1..]);
    }
  }
}
