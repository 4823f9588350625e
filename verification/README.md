# q2git in Dafny

q2git is a small wasmCloud service. It fetches a JSON document from a
configured source, runs a jq filter over it, and commits the result to a
GitHub repository through the git-data REST API: it reads the branch
head, creates a blob, a tree and a commit, then moves the branch. A
companion Python script reads swag-style `// @Key value` comments above
the HTTP handlers and builds an OpenAPI 3.0.3 document from them.

This project models the core of that system as pure Dafny functions, and
proves properties of them:

- **Config** merges the secrets document into the configuration. A
  non-empty secret overrides its field. Decoding errors come first, the
  configuration before the secrets. The YAML decoding itself is an input.
- **Fetch** builds the source request, with basic authentication only
  when both credentials are set. It also classifies the reply: only
  status 200 yields the body.
- **Query** covers both variants of ExecuteQuery. The src package returns
  a single result unwrapped. The root package always returns the list.
  In both, zero results encode as `null`, because Go's nil slice is never
  appended to. The jq parser, the evaluator's item stream and the JSON
  decoder are function parameters.
- **GitApi** fixes the headers of every REST call. It also sets the
  status rule: any status outside [200, 300) is an error carrying the
  status and the body, and a body is decoded only when the caller asked
  for it.
- **GitCommit** is the six-step commit transaction, written as a step
  machine `Run`. The ids each step reads are threaded into the later
  calls. `Plan` lists the six calls a fully successful run would issue.
  It builds each call with the same `RequestAt` as `Run`. So the proofs
  that tie `Run` to `Plan` are about the order of the calls and the ids
  they carry. The contents of each call are pinned down separately, by
  `GitCommit.RequestAt` and `GitCommit.PlanCalls`. The wall clock (as an already formatted
  timestamp), base64 encoding and each reply are inputs.
- **Annotations** is `parse_annotations`. Python's regular expressions
  become deterministic scanners (module **Scan**), and Python's `str`
  helpers live in module **PyText**. Read-back lemmas show that
  well-formed annotation lines are parsed into what they say.
- **OpenApi** is `generate_openapi_spec`. It has the fixed header, and a
  `paths` table that keeps insertion order like a Python `dict` (module
  **OrderedMap**).

When a query yields no results, src/query.go:47 and config.go:163 marshal
a slice that was never appended to. Go's nil slice encodes as `null`, not
`[]`. `GoJson.NilAndEmptyDiffer` states the difference.

The root package (`config.go`) repeats three functions of the src
package line for line: LoadConfig (config.go:69-94), CommitToGit
(config.go:167-277) and githubAPIRequest (config.go:280-326). Each is
modelled once, and the rows below cite the src copy. Every contract stated
for `Config.LoadConfig`, `GitApi.CallOutcome` and the `GitCommit` members
holds for the root copy as well.

## Model

| member | source | states |
|---|---|---|
| Query.Drain | src/query.go:25-36 | draining succeeds iff every remaining item is a value; the values are appended after the accumulator in emission order; an error item ends the drain with the first error; the slice stays nil iff nothing was appended |
| Query.Collect | src/query.go:25-36 | the collected slice holds exactly the stream's values in order, is nil iff the stream was empty, and otherwise the first error is reported |
| Query.Evaluate | src/query.go:13-36 | a parse error wins over everything; then a decode error; otherwise success iff the evaluator emits only values, holding them in order |
| Query.ExecuteQuery | src/query.go:11-48 | the error order parse, decode, execution; once the filter parses and the input decodes, every error is an execution error carrying the first error the evaluator raised, after only values; on success zero results give `null`, one result is returned unwrapped, and two or more give an array of the results in order |
| Query.ExecuteQueryList | config.go:135-164 | the same error order, and an error after a successful parse and decode is an execution error carrying the evaluator's first error; on success zero results give `null` and one or more results always give an array of them in order |
| Query.Unwrap | src/query.go:38-44 | a single result encodes as itself; any other number of results encodes as the slice would, `null` when never appended to and an array otherwise |
| Query.ParseErrorIgnoresInput | src/query.go:13-16 | a filter that does not parse fails identically whatever the input, decoder or evaluator |
| Query.InputErrorSkipsEvaluation | src/query.go:19-22 | undecodable input fails with the decode error before the evaluator is consulted |
| Query.VariantsDifferOnlyOnSingleton | src/query.go:38-44 | the two variants give different answers exactly when the stream holds one value, where the root variant wraps it in a one-element array |
| GoJson.Append | src/query.go:35 | an appended slice is never nil and ends with the new value |
| GoJson.Encode | src/query.go:47 | a nil slice encodes as `null`, a non-nil slice as an array of its elements, a plain value as itself |
| GoJson.NilAndEmptyDiffer | src/query.go:25-47 | the nil slice and the empty non-nil slice hold the same elements but encode as `null` and `[]` |
| Config.Override | src/config.go:65-67 | a non-empty secret replaces the field, an empty one keeps it |
| Config.MergeSecrets | src/config.go:65-73 | username, password and token are each overridden only by a non-empty secret; every other field is unchanged |
| Config.MergeIdempotent | src/config.go:65-73 | merging the same secrets twice equals merging once |
| Config.MergeEmptySecrets | src/config.go:65-73 | with no secret set the configuration comes back unchanged |
| Config.LoadConfig | src/config.go:54-76 | a config decode error comes first, then a secrets decode error; success iff both decode, and the result is the merge |
| Config.ConfigErrorFirst | src/config.go:56-58 | a config decode error is reported, with its message, whatever the secrets document holds |
| Fetch.BuildRequest | src/fetcher.go:12-24 | basic auth is attached iff both username and password are non-empty, with those credentials; method, URL and headers are passed through |
| Fetch.BuildConfiguredRequest | config.go:97-111 | the root variant requests the configured URL; basic auth is attached iff both username and password are non-empty, with those credentials; method and headers are passed through |
| Fetch.FetchResult | config.go:98-131 | the body is returned iff the reply arrived with status 200; any other status is an `HTTP error <status>: <body>` error; a request that cannot be built fails with `failed to create request: ` and a transport failure with `failed to fetch data: `, each followed by the cause |
| Fetch.NonOkIsError | config.go:126-129 | a 201 reply, though successful in HTTP terms, is a fetch error |
| GitApi.RequestHeaders | src/git.go:145-150 | three headers, or four with a payload, the bearer token first |
| GitApi.HeaderSet | src/git.go:145-150 | the bearer token, the GitHub JSON media type and the API version are always set, a JSON content type iff there is a payload, and no header name is set twice |
| GitApi.MakeRequest | src/git.go:130-150 | a request carries the given method, URL and payload and the headers for that token and payload |
| GitApi.CallOutcome | src/git.go:159-175 | a call succeeds iff a reply arrived with a 2xx status and, when a target was asked for, its body decoded; a non-2xx status gives `HTTP <status>: <body>` |
| GitApi.UndecodedBodyIgnored | src/git.go:171-175 | without a target, any 2xx reply succeeds whatever its body holds |
| GitCommit.Outcomes | src/git.go:32-122 | a step only succeeds on a 2xx reply, and the final branch update succeeds iff its reply is 2xx, whatever the body |
| GitCommit.CommitToGit | src/git.go:17-127 | an empty token fails before any call; calls follow the method order GET, GET, POST, POST, POST, PATCH; the commit succeeds iff every step succeeds, issuing all six calls; a failure names the last step issued, whose outcome is the error, after all earlier steps succeeded, and its message is that step's context prefix followed by the outcome's error |
| GitCommit.RequestAt | src/git.go:32-122 | the call at each step uses that step's HTTP method, sends a payload iff it is one of the four writes, and carries the headers for the token and payload |
| GitCommit.Run | src/git.go:22-126 | a run from a step issues at most the remaining calls; a failure is a step failure after at least one call; a success issues every remaining call |
| GitCommit.RunMethods | src/git.go:32-122 | the calls issued from any step on follow the fixed method order |
| GitCommit.RunMethodsFromStart | src/git.go:22-124 | a whole run issues its calls in the fixed method order |
| GitCommit.RunSucceeds | src/git.go:22-126 | a run succeeds iff every remaining step succeeds, and then issues all of them |
| GitCommit.RunAborts | src/git.go:32-124 | a failed run stops at the first failing step: its call is the last issued and its outcome is the reported error |
| GitCommit.RunFollowsPlan | src/git.go:22-124 | every call the stepwise run issues equals the reference plan's call at the same position |
| GitCommit.PlanCalls | src/git.go:23-120 | the plan's URLs and payloads: the ref and the base commit fetched without a body, the base64 blob posted to `git/blobs`, a tree over the base tree with one `100644` blob entry posted to `git/trees`, a commit with the new tree and the base commit as its only parent posted to `git/commits`, and an unforced ref update to the new commit |
| GitCommit.CommitFollowsPlan | src/git.go:17-127 | the calls of CommitToGit are a prefix of the reference plan |
| GitCommit.CommitCall | src/git.go:17-127 | call k of a commit is the plan's call k, and every earlier step succeeded and supplied its id |
| GitCommit.ParentIsBranchHead | src/git.go:36-103 | the commit read from the branch is the one fetched at step 2 and the sole parent of the new commit, which points at the new tree and carries the filled-in message |
| GitCommit.TreeReplacesOnePath | src/git.go:53-83 | the blob carries the base64 content; the tree is based on the fetched commit's tree and holds one regular-file entry for the output path pointing at the new blob |
| GitCommit.RefUpdateLast | src/git.go:113-124 | the branch is moved only as the sixth call, after all five earlier steps succeeded, to the new commit and without force |
| GitCommit.CallsAuthorized | src/git.go:145 | every call of a commit carries the configured token as its bearer credential |
| GitCommit.MessageFillsPlaceholder | src/git.go:97 | a template with one `{{.Timestamp}}` gets the timestamp in its place and is otherwise kept |
| GitCommit.MessageFillsEvery | src/git.go:97 | every placeholder is replaced: a template cut at its placeholders gives the same pieces joined by the timestamp |
| GitCommit.PlaceholderBorderFree | src/git.go:97 | no proper suffix of `{{.Timestamp}}` is also a prefix of it, so two occurrences never overlap |
| GitCommit.CommitMessage | src/git.go:97 | a template without the placeholder is used verbatim |
| GoText.ReplaceAllAbsent | src/git.go:97 | replacing a pattern that does not occur changes nothing |
| GoText.ReplaceAllFirst | src/git.go:97 | an occurrence after text in which no occurrence starts is replaced, and the scan resumes right after it |
| GoText.ReplaceAllSelf | src/git.go:97 | replacing a pattern by itself changes nothing |
| GoText.NatDigits | src/git.go:168 | `%d` of a natural number is a string of decimal digits that denotes the number, with no leading zero, one digit exactly below ten |
| GoText.NatDigitsThree | src/git.go:168 | a three-digit status code prints as its three digits |
| PyText.Strip | scripts/generate_openapi.py:39 | the result is a slice of the input, everything cut from either end is in the strip set, and the result neither starts nor ends with a strip character |
| PyText.StripIdempotent | scripts/generate_openapi.py:46 | stripping twice equals stripping once |
| PyText.StripUnchanged | scripts/generate_openapi.py:46 | a string that starts and ends with kept characters is already stripped |
| PyText.StripPadded | scripts/generate_openapi.py:38 | `/` and blanks on both sides of a core that starts and ends with a kept character are all removed, and the core is kept whole |
| PyText.StripPads | scripts/generate_openapi.py:38 | what `strip` removes is a run of the strip set on each side of its result |
| PyText.Split | scripts/generate_openapi.py:37 | splitting gives at least one piece, and no piece contains the separator |
| PyText.JoinSplit | scripts/generate_openapi.py:37 | joining the pieces back with the separator restores the text |
| PyText.SplitWithoutSeparator | scripts/generate_openapi.py:37 | text without the separator splits into itself alone |
| PyText.Lower | scripts/generate_openapi.py:58 | lower-casing keeps the length and maps each character on its own |
| Scan.Run1 | scripts/generate_openapi.py:44 | `X+` matches iff the first character is in the class; the match is the longest run, and the rest does not continue it |
| Scan.Char | scripts/generate_openapi.py:55 | a literal character matches iff it comes first |
| Scan.TokenGap | scripts/generate_openapi.py:60 | `(X+)\s+` splits the input into a non-empty run of the class, a non-empty run of blanks, and a rest that does not start with a blank |
| Scan.Quoted | scripts/generate_openapi.py:60 | `"([^"]+)"` yields a non-empty quote-free text that was written between two quotes |
| Scan.QuotedConcat | scripts/generate_openapi.py:60 | a quoted description is read back as written |
| Scan.TokenGapConcat | scripts/generate_openapi.py:55 | a token followed by blanks is read back as written |
| Annotations.MakeResponse | scripts/generate_openapi.py:78-85 | a response entry keeps the description with a JSON object schema |
| Annotations.UpToNewline | scripts/generate_openapi.py:44 | `.*` takes a line-break-free prefix of the text and stops only at a line break or the end |
| Annotations.MatchKeyValue | scripts/generate_openapi.py:44-46 | a match is a line spelled `@`, a word-run key, blanks, and a rest not starting with a blank; the value is that rest up to the first line break, stripped |
| Annotations.MatchRoute | scripts/generate_openapi.py:55 | a match is a value spelled as a blank-free path, blanks, and a word-run method in brackets, followed by anything |
| Annotations.WordFields | scripts/generate_openapi.py:60 | n `(\w+)\s+` fields split the input into n word runs, each with its own run of blanks, and a rest that does not start with a blank |
| Annotations.MatchParam | scripts/generate_openapi.py:60 | a match is a value spelled as four word runs, each followed by blanks, then a non-empty quote-free description in quotes, followed by anything |
| Annotations.MatchStatus | scripts/generate_openapi.py:73 | a match is a value spelled as a digit run, blanks, a braced word run, blanks, a blank-free schema, blanks and a non-empty quote-free description in quotes |
| Annotations.MatchBraced | scripts/generate_openapi.py:73 | `\{(\w+)\}\s+` splits the input into a braced word run, a run of blanks and the rest |
| Annotations.MatchSchema | scripts/generate_openapi.py:73 | `(\S+)\s+"([^"]+)"` splits the input into a blank-free schema, blanks, a non-empty quote-free description in quotes, and the rest |
| Annotations.Annotation | scripts/generate_openapi.py:38-45 | a line that does not start with `@` once stripped of `/` and blanks is no annotation; an annotation's raw line is `/` and blanks, `@`, a word-run key, blanks, a rest not starting with a blank, then `/` and blanks again, and its value is that rest up to the first line break, stripped, so it neither starts nor ends with a blank |
| Annotations.AnnotationSpelling | scripts/generate_openapi.py:38-45 | where the matched `@key value` sits inside the raw line, with the padding `strip('/ ')` removed on each side |
| Annotations.ApplyKey | scripts/generate_openapi.py:48-101 | `Summary`, `Description` and `Produce` store the value, `Tags` stores `[value]`; a `Router`, `Param`, `Success` or `Failure` value that does not match its pattern changes nothing; each field changes only under its own key; no field is ever cleared |
| Annotations.ParseLine | scripts/generate_openapi.py:38-46 | a line that does not start with `@` once stripped of `/` and blanks changes nothing, nor does any other line that is not an `@Key value` annotation; otherwise each field changes only under its own key; no field is ever cleared |
| Annotations.ParseLines | scripts/generate_openapi.py:38-101 | folding the lines never clears a recorded field |
| Annotations.ParseAnnotations | scripts/generate_openapi.py:33-103 | the block is absent iff no line of the stripped, split block records anything on its own; otherwise it is the fold of the lines |
| Annotations.RecordedIff | scripts/generate_openapi.py:35-103 | the fold ends empty iff it started empty and no line records anything on its own |
| Annotations.LineRecords | scripts/generate_openapi.py:38-101 | a line leaves the record empty iff it was empty and the line records nothing |
| Annotations.SingleLineBlock | scripts/generate_openapi.py:37-41 | a one-line block with nothing to strip is parsed as that line alone |
| Annotations.RouterBlock | scripts/generate_openapi.py:33-103 | a block holding only `// @Router /p [VERB]` yields an endpoint with that path and the lower-cased method and nothing else |
| Annotations.AnnotationReadBack | scripts/generate_openapi.py:38-45 | any line spelled `@key`, blanks and a rest, between `/` and blanks on either side, is read back as the key and the rest's first line stripped: the converse of `Annotations.Annotation` |
| Annotations.KeyValueReadBack | scripts/generate_openapi.py:43-45 | `@key`, any run of blanks and a rest not starting with a blank is matched as the key and the rest's first line stripped: the converse of `Annotations.MatchKeyValue` |
| Annotations.RouteReadBack | scripts/generate_openapi.py:55 | a value spelled as path, blanks and `[verb]` is matched as that path and verb, whatever follows; with MatchRoute, the spellings and the matches correspond exactly |
| Annotations.ParamReadBack | scripts/generate_openapi.py:60-62 | four word runs, each with its own run of blanks, and a quoted description are matched as those five fields, whatever follows |
| Annotations.WordFieldsReadBack | scripts/generate_openapi.py:60 | words, each followed by its own run of blanks, are read back as those words and gaps, leaving what follows |
| Annotations.StatusReadBack | scripts/generate_openapi.py:73-75 | a response line with any runs of blanks between its four parts is matched as its status and description |
| Annotations.BracedReadBack | scripts/generate_openapi.py:73 | a braced word and blanks before something solid are read back as written |
| Annotations.SchemaReadBack | scripts/generate_openapi.py:73 | a schema, blanks and a quoted description are read back as written |
| Annotations.UnknownKeyIgnored | scripts/generate_openapi.py:48-101 | a key outside the eight recognised ones leaves the endpoint unchanged |
| Annotations.RouterApply | scripts/generate_openapi.py:54-58 | a matching route sets the path and the lower-cased method, and nothing else |
| Annotations.RouterLine | scripts/generate_openapi.py:54-58 | a `// @Router /p [VERB]` line sets the path and the lower-cased method, and nothing else |
| Annotations.TagsLine | scripts/generate_openapi.py:52-53 | a `// @Tags t` line records the one-element tag list `[t]`, for any value that survives stripping |
| Annotations.ParamsInOrder | scripts/generate_openapi.py:59-71 | parameters are the well-formed `@Param` lines' parameters in line order, appended to any already there, and the key appears only once one was added |
| Annotations.LineParamsStep | scripts/generate_openapi.py:59-71 | one line adds exactly its own well-formed parameter, if any |
| Annotations.ResponseKey | scripts/generate_openapi.py:72-99 | `Success` and `Failure` both store the response for their status, and change nothing else |
| Annotations.ReplaceResponse | scripts/generate_openapi.py:78 | writing a status twice keeps the second response at the place of the first |
| Annotations.LaterResponseWins | scripts/generate_openapi.py:72-99 | of two response lines for the same status the later description wins, and the status order is unchanged |
| Annotations.NothingRecorded | scripts/generate_openapi.py:103 | a block whose lines carry no recognised key leaves the endpoint as it was |
| OpenApi.GenerateSpec | scripts/generate_openapi.py:106-151 | the header is OpenAPI 3.0.3 with the full info (title, description, version, contact name), the local server and its description, and the three tags with their descriptions; the paths are the generated table, free of repeats |
| OpenApi.AddEndpointEffect | scripts/generate_openapi.py:129-149 | one endpoint changes only its own path and method entry, and its path is present afterwards |
| OpenApi.LastEndpointWins | scripts/generate_openapi.py:129-151 | each path and method holds the operation of the last complete endpoint declaring them, a path is present iff some complete endpoint declares it, and incomplete endpoints are skipped |
| OpenApi.AddEndpointKeepsWellFormed | scripts/generate_openapi.py:136-149 | adding an endpoint keeps paths, and methods under each path, free of repeats |
| OpenApi.GeneratePaths | scripts/generate_openapi.py:129-149 | the generated table repeats no path, and no method under a path |
| OpenApi.AddEndpoint | scripts/generate_openapi.py:129-149 | an endpoint without path or method is skipped; otherwise its operation is found under its path and method, and a new path is appended to the path order |
| OpenApi.OperationOf | scripts/generate_openapi.py:139-147 | each missing key becomes its empty default, and parameters are carried over only when present |
| OpenApi.BareEndpointDefaults | scripts/generate_openapi.py:139-147 | an endpoint with only a route gets empty summary, description, tags and responses, and no parameters |
| OpenApi.RouterOnlyHandler | scripts/generate_openapi.py:129-149 | from comment block to document: a handler annotated only with a route is documented under that path and the lower-cased method with an operation of empty defaults |
| OpenApi.PathsInDeclarationOrder | scripts/generate_openapi.py:136-137 | paths appear in the order they were first declared by a complete endpoint |
| OrderedMap.Get | scripts/generate_openapi.py:140-143 | a value is found iff the key is present, and it is the one stored with the key |
| OrderedMap.Put | scripts/generate_openapi.py:149 | writing a new key appends it; writing an existing key keeps the key order; other entries are untouched |
| OrderedMap.PutKeepsUnique | scripts/generate_openapi.py:149 | writing keeps keys unique, and the key is present afterwards |
| OrderedMap.GetPut | scripts/generate_openapi.py:149 | the written key reads back the new value, and every other key reads as before |
| OrderedMap.KeysPut | scripts/generate_openapi.py:136-137 | a key is present iff it is among the keys, and writing appends it to the keys only when it is new |

## Left out

- HTTP transport: building and sending requests, the 30-second connect timeout, and reading bodies. Each reply, and each failure to build or send a request, is an input.
- Query.ExecuteQuery: `json.MarshalIndent` fails on NaN or infinite numbers (src/query.go:47, config.go:163). JSON numbers here are reals, so that error is not modelled. Query.ExecuteQueryList leaves out the same error.
- JSON marshalling of the REST payloads. It cannot fail for these payloads and is not modelled, so a payload is a datatype. Indentation by `MarshalIndent` is also left out: the query result is a JSON value, not its text.
- Library calls are function parameters or inputs: the jq parser and evaluator, `json.Unmarshal`, the YAML decoder and base64 encoding.
- GitApi.CallOutcome: a decoded body is the `sha` the target record holds, or the decoder's error. The record shapes themselves are not modelled, and an absent `sha` field decodes as the empty id.
- GitCommit.CommitToGit: the wall clock is an input, as an already formatted RFC 3339 timestamp.
- Request header canonicalisation, and the random iteration order of Go maps over the configured headers. Headers are an ordered list, or a map for the source request.
- JSON numbers are `real`; float64 rounding is not modelled.
- PyText.IsWord, PyText.IsDigit and PyText.Lower cover ASCII only. Python's `\w`, `\d` and `lower()` also cover other Unicode letters and digits.
- Annotations.RouterLine: fixes a single blank between path and method. RouteReadBack covers any run of blanks, and any trailing text after the method.
- `parse_handler_annotations` is not modelled: the regular expression that finds comment blocks above `func`, and the file reading. Nor is the script's `main`, with its YAML dump and printing.
- Handlers and program entry points are not part of this model: main.go, src/main.go and src/handlers.go.
- The src/fetcher.go and root `FetchData` differ only in where the URL comes from. Fetch.BuildRequest takes the URL, and Fetch.BuildConfiguredRequest passes the configured one.
- Error messages are strings. Contracts state the HTTP status errors of both clients, the two fetch prefixes, the configuration errors and the step-context prefix of a failed commit. The three query error texts are written out in `Query.QueryError.Message`, but no contract states them. Go's `%w` wrapping chain is not modelled.
