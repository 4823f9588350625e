/**
 * ExecuteQuery: run a jq filter over a JSON document and shape the results.
 * The jq library is an oracle: `parse` compiles the filter or fails,
 * `decode` stands for `json.Unmarshal`, and `run` yields the finite stream of
 * items the evaluator emits, each a value or an error.
 */
module Query {
  import opened Results
  import opened GoJson
  import GoText

  /** One item drawn from the evaluator's iterator. */
  datatype Item = Emit(v: Json) | Raise(msg: string)

  datatype QueryError =
    | ParseFailed(cause: string)
    | InputInvalid(cause: string)
    | ExecutionFailed(cause: string)
  {
    function Message(): string {
      match this
      case ParseFailed(c) => "failed to parse jq query: " + c
      case InputInvalid(c) => "failed to parse input JSON: " + c
      case ExecutionFailed(c) => "query execution error: " + c
    }
  }

  /**
   * Drain the iterator from position `i`, appending each value to `acc` and
   * stopping at the first error item.
   */
  function Drain(items: seq<Item>, i: nat, acc: GoSlice): (r: Result<GoSlice, string>)
    requires i <= |items|
    ensures r.Ok? <==> forall j :: i <= j < |items| ==> items[j].Emit?
    ensures r.Ok? ==>
              && |r.value.elems| == |acc.elems| + |items| - i
              && r.value.elems[..|acc.elems|] == acc.elems
              && forall j :: i <= j < |items| ==> r.value.elems[|acc.elems| + j - i] == items[j].v
    ensures r.Ok? ==> (r.value.isNil <==> acc.isNil && i == |items|)
    ensures r.Err? ==>
              exists k :: i <= k < |items| && items[k] == Raise(r.error)
                          && forall j :: i <= j < k ==> items[j].Emit?
    decreases |items| - i
  {
    if i == |items| then Ok(acc)
    else match items[i]
      case Raise(m) => Err(m)
      case Emit(v) => Drain(items, i + 1, Append(acc, v))
  }

  /** Drain the whole stream into a fresh (nil) slice. */
  function Collect(items: seq<Item>): (r: Result<GoSlice, string>)
    ensures r.Ok? <==> forall j :: 0 <= j < |items| ==> items[j].Emit?
    ensures r.Ok? ==> |r.value.elems| == |items|
                      && forall j :: 0 <= j < |items| ==> r.value.elems[j] == items[j].v
    ensures r.Ok? ==> (r.value.isNil <==> |items| == 0)
    ensures r.Err? ==>
              exists k :: 0 <= k < |items| && items[k] == Raise(r.error)
                          && forall j :: 0 <= j < k ==> items[j].Emit?
  {
    Drain(items, 0, NilSlice)
  }

  /** The value returned for the src package: a single result is unwrapped. */
  function Unwrap(results: GoSlice): (v: GoValue)
    ensures |results.elems| == 1 ==> Encode(v) == results.elems[0]
    ensures |results.elems| != 1 ==> Encode(v) == (if results.isNil then JNull else JArray(results.elems))
  {
    if |results.elems| == 1 then Value(results.elems[0]) else SliceValue(results)
  }

  /** Every item is a value; the values, in emission order. */
  predicate AllValues(items: seq<Item>) {
    forall j :: 0 <= j < |items| ==> items[j].Emit?
  }

  /**
   * The common prefix of both variants: parse the filter, decode the input,
   * drain the results.
   */
  function Evaluate<P>(query: string, data: GoText.Bytes,
                       parse: string -> Result<P, string>,
                       decode: GoText.Bytes -> Result<Json, string>,
                       run: (P, Json) -> seq<Item>): (r: Result<GoSlice, QueryError>)
    ensures parse(query).Err? ==> r == Err(ParseFailed(parse(query).error))
    ensures parse(query).Ok? && decode(data).Err? ==> r == Err(InputInvalid(decode(data).error))
    ensures r.Ok? <==> parse(query).Ok? && decode(data).Ok?
                       && AllValues(run(parse(query).value, decode(data).value))
    ensures r.Ok? ==>
              var items := run(parse(query).value, decode(data).value);
              && |r.value.elems| == |items|
              && (forall j :: 0 <= j < |items| ==> r.value.elems[j] == items[j].v)
              && (r.value.isNil <==> |items| == 0)
    ensures parse(query).Ok? && decode(data).Ok? && r.Err? ==> r.error.ExecutionFailed?
    ensures r.Err? && r.error.ExecutionFailed? ==>
              && parse(query).Ok? && decode(data).Ok?
              && var items := run(parse(query).value, decode(data).value);
                 exists k :: 0 <= k < |items| && items[k] == Raise(r.error.cause)
                             && forall j :: 0 <= j < k ==> items[j].Emit?
  {
    match parse(query)
    case Err(e) => Err(ParseFailed(e))
    case Ok(program) =>
      match decode(data)
      case Err(e) => Err(InputInvalid(e))
      case Ok(input) =>
        match Collect(run(program, input))
        case Err(m) => Err(ExecutionFailed(m))
        case Ok(results) => Ok(results)
  }

  /**
   * ExecuteQuery of the src package: one result is returned alone, zero
   * results encode as `null` (the slice was never appended to) and two or
   * more as an array in emission order.
   */
  function ExecuteQuery<P>(query: string, data: GoText.Bytes,
                           parse: string -> Result<P, string>,
                           decode: GoText.Bytes -> Result<Json, string>,
                           run: (P, Json) -> seq<Item>): (r: Result<Json, QueryError>)
    ensures parse(query).Err? ==> r == Err(ParseFailed(parse(query).error))
    ensures parse(query).Ok? && decode(data).Err? ==> r == Err(InputInvalid(decode(data).error))
    ensures r.Ok? <==> parse(query).Ok? && decode(data).Ok?
                       && AllValues(run(parse(query).value, decode(data).value))
    ensures r.Ok? ==>
              var items := run(parse(query).value, decode(data).value);
              && (|items| == 0 ==> r.value == JNull)
              && (|items| == 1 ==> r.value == items[0].v)
              && (|items| >= 2 ==> r.value.JArray? && |r.value.elems| == |items|
                                   && forall j :: 0 <= j < |items| ==> r.value.elems[j] == items[j].v)
    ensures parse(query).Ok? && decode(data).Ok? && r.Err? ==> r.error.ExecutionFailed?
    ensures r.Err? && r.error.ExecutionFailed? ==>
              && parse(query).Ok? && decode(data).Ok?
              && var items := run(parse(query).value, decode(data).value);
                 exists k :: 0 <= k < |items| && items[k] == Raise(r.error.cause)
                             && forall j :: 0 <= j < k ==> items[j].Emit?
  {
    match Evaluate(query, data, parse, decode, run)
    case Err(e) => Err(e)
    case Ok(results) => Ok(Encode(Unwrap(results)))
  }

  /**
   * ExecuteQuery of the root package: the result list is always kept, even
   * for one result; zero results still encode as `null`.
   */
  function ExecuteQueryList<P>(query: string, data: GoText.Bytes,
                               parse: string -> Result<P, string>,
                               decode: GoText.Bytes -> Result<Json, string>,
                               run: (P, Json) -> seq<Item>): (r: Result<Json, QueryError>)
    ensures parse(query).Err? ==> r == Err(ParseFailed(parse(query).error))
    ensures parse(query).Ok? && decode(data).Err? ==> r == Err(InputInvalid(decode(data).error))
    ensures r.Ok? <==> parse(query).Ok? && decode(data).Ok?
                       && AllValues(run(parse(query).value, decode(data).value))
    ensures r.Ok? ==>
              var items := run(parse(query).value, decode(data).value);
              && (|items| == 0 ==> r.value == JNull)
              && (|items| >= 1 ==> r.value.JArray? && |r.value.elems| == |items|
                                   && forall j :: 0 <= j < |items| ==> r.value.elems[j] == items[j].v)
    ensures parse(query).Ok? && decode(data).Ok? && r.Err? ==> r.error.ExecutionFailed?
    ensures r.Err? && r.error.ExecutionFailed? ==>
              && parse(query).Ok? && decode(data).Ok?
              && var items := run(parse(query).value, decode(data).value);
                 exists k :: 0 <= k < |items| && items[k] == Raise(r.error.cause)
                             && forall j :: 0 <= j < k ==> items[j].Emit?
  {
    match Evaluate(query, data, parse, decode, run)
    case Err(e) => Err(e)
    case Ok(results) => Ok(Encode(SliceValue(results)))
  }

  /** A filter that does not parse fails the same way whatever the input, decoder or evaluator. */
  lemma ParseErrorIgnoresInput<P>(query: string, data1: GoText.Bytes, data2: GoText.Bytes,
                                  parse: string -> Result<P, string>,
                                  decode1: GoText.Bytes -> Result<Json, string>,
                                  decode2: GoText.Bytes -> Result<Json, string>,
                                  run1: (P, Json) -> seq<Item>, run2: (P, Json) -> seq<Item>)
    requires parse(query).Err?
    ensures ExecuteQuery(query, data1, parse, decode1, run1)
            == ExecuteQuery(query, data2, parse, decode2, run2)
  {
  }

  /** Input that does not decode fails before the evaluator is consulted. */
  lemma InputErrorSkipsEvaluation<P>(query: string, data: GoText.Bytes,
                                     parse: string -> Result<P, string>,
                                     decode: GoText.Bytes -> Result<Json, string>,
                                     run1: (P, Json) -> seq<Item>, run2: (P, Json) -> seq<Item>)
    requires parse(query).Ok? && decode(data).Err?
    ensures ExecuteQuery(query, data, parse, decode, run1)
            == ExecuteQuery(query, data, parse, decode, run2)
            == Err(InputInvalid(decode(data).error))
  {
  }

  /**
   * The two package variants agree on every input except a stream of
   * exactly one value, where src returns the value and root a one-element array.
   */
  lemma VariantsDifferOnlyOnSingleton<P>(query: string, data: GoText.Bytes,
                                         parse: string -> Result<P, string>,
                                         decode: GoText.Bytes -> Result<Json, string>,
                                         run: (P, Json) -> seq<Item>)
    ensures var a := ExecuteQuery(query, data, parse, decode, run);
            var b := ExecuteQueryList(query, data, parse, decode, run);
            && (a != b <==> a.Ok? && b.Ok? && |run(parse(query).value, decode(data).value)| == 1)
            && (a != b ==> b.value == JArray([a.value]))
  {
    var a := ExecuteQuery(query, data, parse, decode, run);
    var b := ExecuteQueryList(query, data, parse, decode, run);
    if a.Ok? {
      var items := run(parse(query).value, decode(data).value);
      if |items| == 1 {
        assert b.value.elems == [a.value];
      } else if |items| >= 2 {
        assert a.value.elems == b.value.elems;
      }
    }
  }
}
