/**
 * The service configuration and the merge of the secrets document into it
 * (LoadConfig). Decoding the two YAML documents is done by a YAML library;
 * here its two outcomes are inputs.
 */
module Config {
  import opened Results

  datatype AuthConfig = AuthConfig(username: string, password: string)

  datatype SourceConfig = SourceConfig(
    url: string,
    httpMethod: string,
    headers: map<string, string>,
    auth: AuthConfig)

  datatype GitConfig = GitConfig(
    apiUrl: string,
    owner: string,
    repo: string,
    branch: string,
    outputPath: string,
    commitMessage: string,
    token: string)

  datatype Config = Config(source: SourceConfig, query: string, git: GitConfig)

  /** The secrets document: credentials that override the main document. */
  datatype Secrets = Secrets(username: string, password: string, token: string)

  datatype ConfigError = ConfigParse(cause: string) | SecretsParse(cause: string) {
    function Message(): string {
      match this
      case ConfigParse(c) => "failed to parse embedded config: " + c
      case SecretsParse(c) => "failed to parse embedded secrets: " + c
    }
  }

  /** A non-empty secret replaces its config field; an empty one is ignored. */
  function Override(current: string, secret: string): (r: string)
    ensures secret != "" ==> r == secret
    ensures secret == "" ==> r == current
  {
    if secret != "" then secret else current
  }

  /** Merge the secrets into an already decoded config. */
  function MergeSecrets(c: Config, s: Secrets): (r: Config)
    ensures r.source.auth.username == (if s.username != "" then s.username else c.source.auth.username)
    ensures r.source.auth.password == (if s.password != "" then s.password else c.source.auth.password)
    ensures r.git.token == (if s.token != "" then s.token else c.git.token)
    ensures r.query == c.query
    ensures r.source.url == c.source.url && r.source.httpMethod == c.source.httpMethod
    ensures r.source.headers == c.source.headers
    ensures r.git.(token := c.git.token) == c.git
  {
    var auth := AuthConfig(Override(c.source.auth.username, s.username),
                           Override(c.source.auth.password, s.password));
    c.(source := c.source.(auth := auth),
       git := c.git.(token := Override(c.git.token, s.token)))
  }

  /** Merging the same secrets twice gives the same config as merging once. */
  lemma MergeIdempotent(c: Config, s: Secrets)
    ensures MergeSecrets(MergeSecrets(c, s), s) == MergeSecrets(c, s)
  {
  }

  /** With no secret set, the config is returned untouched. */
  lemma MergeEmptySecrets(c: Config)
    ensures MergeSecrets(c, Secrets("", "", "")) == c
  {
  }

  /**
   * LoadConfig: the config document is decoded first, then the secrets
   * document, then the secrets are merged in.
   */
  function LoadConfig(configDoc: Result<Config, string>, secretsDoc: Result<Secrets, string>)
    : (r: Result<Config, ConfigError>)
    ensures configDoc.Err? ==> r == Err(ConfigParse(configDoc.error))
    ensures configDoc.Ok? && secretsDoc.Err? ==> r == Err(SecretsParse(secretsDoc.error))
    ensures r.Ok? <==> configDoc.Ok? && secretsDoc.Ok?
    ensures r.Ok? ==> r.value == MergeSecrets(configDoc.value, secretsDoc.value)
  {
    if configDoc.Err? then Err(ConfigParse(configDoc.error))
    else if secretsDoc.Err? then Err(SecretsParse(secretsDoc.error))
    else Ok(MergeSecrets(configDoc.value, secretsDoc.value))
  }

  /** A config parse error wins whatever the secrets document holds. */
  lemma ConfigErrorFirst(e: string, s1: Result<Secrets, string>, s2: Result<Secrets, string>)
    ensures LoadConfig(Err(e), s1) == LoadConfig(Err(e), s2)
    ensures LoadConfig(Err(e), s1).Err? && LoadConfig(Err(e), s1).error.Message()
            == "failed to parse embedded config: " + e
  {
  }
}
