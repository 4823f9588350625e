/**
 * githubAPIRequest: the headers every call to the git-hosting REST API
 * carries, and the rule that turns a reply into a decoded id or an error.
 * The transport itself is left out; each reply is an input.
 */
module GitApi {
  import opened Results
  import GoText

  /** One entry of a tree object. */
  datatype TreeEntry = TreeEntry(path: string, mode: string, kind: string, sha: string)

  /** The JSON bodies the commit transaction sends. */
  datatype Payload =
    | BlobPayload(content: string, encoding: string)
    | TreePayload(baseTree: string, tree: seq<TreeEntry>)
    | CommitPayload(message: string, treeSha: string, parents: seq<string>)
    | RefUpdatePayload(sha: string, force: bool)

  datatype ApiRequest = ApiRequest(
    httpMethod: string,
    url: string,
    headers: seq<(string, string)>,
    payload: Option<Payload>)

  /**
   * What came back for one call. `decoded` is the outcome of decoding the
   * reply body into the call's target record: the `sha` it holds (empty when
   * the field is absent) or the decoder's error.
   */
  datatype ApiReply =
    | NotSent(cause: string)
    | Reply(status: int, body: string, decoded: Result<string, string>)

  const ApiVersion: string := "2022-11-28"

  /** Bearer token, media type and API version always; a content type only with a body. */
  function RequestHeaders(token: string, hasPayload: bool): (h: seq<(string, string)>)
    ensures |h| == if hasPayload then 4 else 3
    ensures h[0] == ("Authorization", "Bearer " + token)
  {
    [("Authorization", "Bearer " + token),
     ("Accept", "application/vnd.github+json"),
     ("X-GitHub-Api-Version", ApiVersion)]
    + (if hasPayload then [("Content-Type", "application/json")] else [])
  }

  /**
   * The headers set on a call: the bearer token, the GitHub JSON media type
   * and the API version, plus a JSON content type exactly when there is a
   * body, and no header name twice.
   */
  lemma HeaderSet(token: string, hasPayload: bool)
    ensures var h := RequestHeaders(token, hasPayload);
      && ("Authorization", "Bearer " + token) in h
      && ("Accept", "application/vnd.github+json") in h
      && ("X-GitHub-Api-Version", ApiVersion) in h
      && (("Content-Type", "application/json") in h <==> hasPayload)
      && forall i, j :: 0 <= i < j < |h| ==> h[i].0 != h[j].0
  {
    var h := RequestHeaders(token, hasPayload);
    assert h[1] == ("Accept", "application/vnd.github+json");
    assert h[2] == ("X-GitHub-Api-Version", ApiVersion);
  }

  function MakeRequest(httpMethod: string, url: string, token: string, payload: Option<Payload>)
    : (r: ApiRequest)
    ensures r.httpMethod == httpMethod && r.url == url && r.payload == payload
    ensures r.headers == RequestHeaders(token, payload.Some?)
  {
    ApiRequest(httpMethod, url, RequestHeaders(token, payload.Some?), payload)
  }

  predicate IsSuccessStatus(status: int) {
    200 <= status < 300
  }

  /**
   * The outcome of one call: any status outside [200, 300) is an error
   * carrying the status and body; the body is decoded only on success and
   * only when the caller asked for a target, otherwise the id is empty.
   */
  function CallOutcome(reply: ApiReply, wantsTarget: bool): (r: Result<string, string>)
    ensures reply.Reply? && !IsSuccessStatus(reply.status) ==>
              r == Err("HTTP " + GoText.Itoa(reply.status) + ": " + reply.body)
    ensures r.Ok? <==> reply.Reply? && IsSuccessStatus(reply.status)
                        && (wantsTarget ==> reply.decoded.Ok?)
    ensures r.Ok? && wantsTarget ==> r.value == reply.decoded.value
    ensures r.Ok? && !wantsTarget ==> r.value == ""
  {
    match reply
    case NotSent(c) => Err(c)
    case Reply(status, body, decoded) =>
      if status < 200 || status >= 300 then Err("HTTP " + GoText.Itoa(status) + ": " + body)
      else if wantsTarget then decoded
      else Ok("")
  }

  /** Without a target, a 2xx reply succeeds whatever its body says. */
  lemma UndecodedBodyIgnored(status: int, body: string, d1: Result<string, string>, d2: Result<string, string>)
    requires IsSuccessStatus(status)
    ensures CallOutcome(Reply(status, body, d1), false) == CallOutcome(Reply(status, body, d2), false) == Ok("")
  {
  }
}
