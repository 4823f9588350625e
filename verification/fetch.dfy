/**
 * FetchData: building the outbound source request and classifying its
 * reply. Sending the request is left to the transport; its outcome is an input.
 */
module Fetch {
  import opened Results
  import opened Config
  import GoText

  datatype BasicAuth = BasicAuth(username: string, password: string)

  /** The request FetchData sends: method, URL, the configured headers and optional basic auth. */
  datatype SourceRequest = SourceRequest(
    httpMethod: string,
    url: string,
    headers: map<string, string>,
    basicAuth: Option<BasicAuth>)

  /** What came back from building and sending the request. */
  datatype SourceReply =
    | BadRequest(cause: string)          // http.NewRequest refused the method or URL
    | TransportFailure(cause: string)    // client.Do failed
    | Received(status: int, body: string)

  const StatusOK: int := 200

  /**
   * Basic authentication is attached only when both the username and the
   * password are configured.
   */
  function BuildRequest(cfg: SourceConfig, url: string): (r: SourceRequest)
    ensures r.basicAuth.Some? <==> cfg.auth.username != "" && cfg.auth.password != ""
    ensures r.basicAuth.Some? ==> r.basicAuth.value == BasicAuth(cfg.auth.username, cfg.auth.password)
    ensures r.headers == cfg.headers && r.httpMethod == cfg.httpMethod && r.url == url
  {
    SourceRequest(cfg.httpMethod, url, cfg.headers,
      if cfg.auth.username != "" && cfg.auth.password != ""
      then Some(BasicAuth(cfg.auth.username, cfg.auth.password))
      else None)
  }

  /** Only a 200 reply yields the body; every other status is an error carrying it. */
  function FetchResult(reply: SourceReply): (r: Result<string, string>)
    ensures r.Ok? <==> reply.Received? && reply.status == StatusOK
    ensures r.Ok? ==> r.value == reply.body
    ensures reply.Received? && reply.status != StatusOK ==>
              r == Err("HTTP error " + GoText.Itoa(reply.status) + ": " + reply.body)
    ensures reply.BadRequest? ==> r == Err("failed to create request: " + reply.cause)
    ensures reply.TransportFailure? ==> r == Err("failed to fetch data: " + reply.cause)
  {
    match reply
    case BadRequest(c) => Err("failed to create request: " + c)
    case TransportFailure(c) => Err("failed to fetch data: " + c)
    case Received(status, body) =>
      if status != StatusOK then Err("HTTP error " + GoText.Itoa(status) + ": " + body)
      else Ok(body)
  }

  /** The request built from the configured source URL, as the root package does. */
  function BuildConfiguredRequest(cfg: SourceConfig): (r: SourceRequest)
    ensures r.url == cfg.url
    ensures r.basicAuth.Some? <==> cfg.auth.username != "" && cfg.auth.password != ""
    ensures r.basicAuth.Some? ==> r.basicAuth.value == BasicAuth(cfg.auth.username, cfg.auth.password)
    ensures r.headers == cfg.headers && r.httpMethod == cfg.httpMethod
  {
    BuildRequest(cfg, cfg.url)
  }

  /** A 201 or any other 2xx that is not 200 is still a fetch error. */
  lemma NonOkIsError(body: string)
    ensures FetchResult(Received(201, body)) == Err("HTTP error 201: " + body)
  {
    GoText.NatDigitsThree(201);
    assert GoText.DigitChar(2) == '2' && GoText.DigitChar(0) == '0' && GoText.DigitChar(1) == '1';
    assert GoText.Itoa(201) == "201";
    assert "HTTP error " + "201" + ": " == "HTTP error 201: ";
  }
}
