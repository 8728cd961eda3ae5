/** The remote fetchers `getGithubRepos` and `getNpmPackages`, with the
    three-field copy of `getLatestConfig` they use. The HTTP call itself is
    outside the model: each fetcher returns the request it would send (or
    none) together with the result envelope it builds from the reply, which
    is an input. */
module Api {
  import opened JsValues
  import GetConfig

  /** The record the three-field `getLatestConfig` returns. */
  datatype ApiConfig = ApiConfig(githubUsername: string, githubToken: string, npmUsername: string)

  /** The three-field `getLatestConfig`: agrees with the four-field accessor
      on every shared field, for every read. */
  function GetApiLatestConfig(read: GetConfig.ConfigRead): (c: ApiConfig)
    ensures var full := GetConfig.GetLatestConfig(read);
      c == ApiConfig(full.githubUsername, full.githubToken, full.npmUsername)
  {
    match read
    case Threw => ApiConfig("", "", "")
    case Absent => ApiConfigOf(map[])
    case Present(m) => ApiConfigOf(m)
  }

  function ApiConfigOf(m: map<string, string>): ApiConfig
  {
    ApiConfig(
      GetConfig.Resolve(m, "githubUsername", "VITE_GITHUB_USERNAME"),
      GetConfig.Resolve(m, "githubToken", "VITE_GITHUB_TOKEN"),
      GetConfig.Resolve(m, "npmUsername", "VITE_NPM_USERNAME"))
  }

  /** An outgoing GET: its URL, its headers and its timeout, if any. */
  datatype Request = Request(url: string, headers: map<string, string>, timeoutMs: Option<nat>)

  /** What an HTTP client error carries: the response status if a response
      arrived, the error code ("" when none) and the message ("" when none). */
  datatype HttpError = HttpError(status: Option<int>, code: string, message: string)

  /** The outcome of the request: the parsed response body, or an error. */
  datatype Reply<+B> = Response(body: B) | Error(error: HttpError)

  /** One fetcher call: the request it sent, if any, and what it returned. */
  datatype Call<+T> = Call(sent: Option<Request>, result: Envelope<T>)

  // ---------------------------------------------------------------- GitHub

  const GithubReposPrefix: string := "https://api.github.com/users/"
  const GithubReposSuffix: string := "/repos"
  const TokenScheme: string := "token "
  const GithubAccept: string := "application/vnd.github.v3+json"
  const GithubTimeoutMs: nat := 10000

  const GithubConfigIncomplete: string := "GitHub 配置未完善，请先在设置页面填写用户名和 Token"
  const GithubDefaultError: string := "获取 GitHub 仓库失败"
  const GithubRateLimited: string := "GitHub API 频率超限/Token 无效，请检查 Token 或稍后再试"
  const GithubUserNotFound: string := "GitHub 用户名不存在，请核对用户名"
  const RequestTimedOut: string := "请求超时，请检查网络连接"
  const TimeoutCode: string := "ECONNABORTED"

  /** The user named in a repository-list URL and the token in its
      `Authorization` header, when the request has that shape. */
  function GithubCredentials(q: Request): Option<(string, string)>
  {
    var url := q.url;
    if && |url| >= |GithubReposPrefix| + |GithubReposSuffix|
       && url[..|GithubReposPrefix|] == GithubReposPrefix
       && url[|url| - |GithubReposSuffix|..] == GithubReposSuffix
       && "Authorization" in q.headers
       && |q.headers["Authorization"]| >= |TokenScheme|
       && q.headers["Authorization"][..|TokenScheme|] == TokenScheme
    then Some((url[|GithubReposPrefix|..|url| - |GithubReposSuffix|],
               q.headers["Authorization"][|TokenScheme|..]))
    else None
  }

  /** The repository-list request for a user, authenticated with a token: it
      carries the user in its URL and the token after "token " in its
      `Authorization` header, so both can be read back from it; the user is
      also the user agent, and the request gives up after ten seconds. */
  function GithubRequest(username: string, token: string): (q: Request)
    ensures GithubCredentials(q) == Some((username, token))
    ensures q.headers.Keys == {"Authorization", "User-Agent", "Accept"}
    ensures q.headers["User-Agent"] == username && q.headers["Accept"] == GithubAccept
    ensures q.timeoutMs == Some(GithubTimeoutMs)
  {
    Request(GithubReposPrefix + username + GithubReposSuffix,
            map["Authorization" := TokenScheme + token,
                "User-Agent" := username,
                "Accept" := GithubAccept],
            Some(GithubTimeoutMs))
  }

  /** Different credentials never produce the same request. */
  lemma GithubRequestInjective(u1: string, t1: string, u2: string, t2: string)
    requires GithubRequest(u1, t1) == GithubRequest(u2, t2)
    ensures u1 == u2 && t1 == t2
  {
  }

  /** The message for a failed GitHub request: a 403 status first, then a 404
      status, then a timeout code, then the error's own message, then the
      default. */
  function GithubErrorMessage(e: HttpError): (msg: string)
    ensures e.status == Some(403) ==> msg == GithubRateLimited
    ensures e.status == Some(404) ==> msg == GithubUserNotFound
    ensures e.status != Some(403) && e.status != Some(404) && e.code == TimeoutCode ==> msg == RequestTimedOut
    ensures e.status != Some(403) && e.status != Some(404) && e.code != TimeoutCode ==>
      msg == (if e.message != "" then e.message else GithubDefaultError)
    ensures msg != ""
  {
    if e.status == Some(403) then GithubRateLimited
    else if e.status == Some(404) then GithubUserNotFound
    else if e.code == TimeoutCode then RequestTimedOut
    else if e.message != "" then e.message
    else GithubDefaultError
  }

  /** `getGithubRepos`: no request without both a user name and a token;
      otherwise the body of a successful reply unchanged, or the mapped
      error message. */
  function GetGithubRepos(read: GetConfig.ConfigRead, reply: Reply<Json>): (c: Call<Json>)
    ensures var cfg := GetApiLatestConfig(read);
      && (c.sent.None? <==> cfg.githubUsername == "" || cfg.githubToken == "")
      && (c.sent.None? ==> c.result == Failure(GithubConfigIncomplete))
      && (c.sent.Some? ==> c.sent.value == GithubRequest(cfg.githubUsername, cfg.githubToken))
      && (c.sent.Some? && reply.Response? ==> c.result == Success(reply.body))
      && (c.sent.Some? && reply.Error? ==> c.result == Failure(GithubErrorMessage(reply.error)))
  {
    var cfg := GetApiLatestConfig(read);
    if cfg.githubUsername == "" || cfg.githubToken == "" then
      Call(None, Failure(GithubConfigIncomplete))
    else
      var q := GithubRequest(cfg.githubUsername, cfg.githubToken);
      match reply
      case Response(body) => Call(Some(q), Success(body))
      case Error(e) => Call(Some(q), Failure(GithubErrorMessage(e)))
  }

  /** A configuration that could not be read sends no GitHub request. */
  lemma UnreadableConfigSendsNothing(reply: Reply<Json>)
    ensures GetGithubRepos(GetConfig.Threw, reply) == Call(None, Failure(GithubConfigIncomplete))
  {
  }

  /** Whatever the reply, a failed GitHub call always explains itself. */
  lemma GithubFailuresHaveMessages(read: GetConfig.ConfigRead, reply: Reply<Json>)
    ensures GetGithubRepos(read, reply).result.Failure? ==> GetGithubRepos(read, reply).result.message != ""
  {
  }

  /** A response status outranks the error code: a 404 that also timed out is
      reported as an unknown user. */
  lemma StatusOutranksTimeoutCode(message: string)
    ensures GithubErrorMessage(HttpError(Some(404), TimeoutCode, message)) == GithubUserNotFound
    ensures GithubErrorMessage(HttpError(None, TimeoutCode, message)) == RequestTimedOut
    ensures GithubErrorMessage(HttpError(Some(500), "", "")) == GithubDefaultError
  {
  }

  // ------------------------------------------------------------------- NPM

  const NpmSearchPrefix: string := "https://registry.npmjs.org/-/v1/search?text=author:"

  /** The author a search request asks for, when it has that shape. */
  function NpmAuthor(q: Request): Option<string>
  {
    if |q.url| >= |NpmSearchPrefix| && q.url[..|NpmSearchPrefix|] == NpmSearchPrefix
    then Some(q.url[|NpmSearchPrefix|..])
    else None
  }

  /** The package search by author: it names its author, and only that
      author; no headers, no timeout. */
  function NpmRequest(username: string): (q: Request)
    ensures NpmAuthor(q) == Some(username)
    ensures q.headers == map[] && q.timeoutMs.None?
  {
    Request(NpmSearchPrefix + username, map[], None)
  }

  /** `body.objects`: reading a property of null or undefined throws a
      TypeError; any other value yields the property or undefined. */
  function ObjectsOf(body: Json): (r: Completion<Json>)
    ensures r.Throws? <==> body.Undefined? || body.Null?
    ensures body.Obj? && "objects" in body.fields ==> r == Returns(body.fields["objects"])
    ensures !body.Obj? || "objects" !in body.fields ==> r.Throws? || r == Returns(Undefined)
  {
    match body
    case Undefined => Throws("Cannot read properties of undefined (reading 'objects')")
    case Null => Throws("Cannot read properties of null (reading 'objects')")
    case Obj(fields) => Returns(if "objects" in fields then fields["objects"] else Undefined)
    case _ => Returns(Undefined)
  }

  /** `getNpmPackages`: always sends the search, even for an empty user
      name; returns the body's `objects`, or the error's message as it is. */
  function GetNpmPackages(read: GetConfig.ConfigRead, reply: Reply<Json>): (c: Call<Json>)
    ensures c.sent == Some(NpmRequest(GetApiLatestConfig(read).npmUsername))
    ensures reply.Error? ==> c.result == Failure(reply.error.message)
    ensures reply.Response? ==> c.result == match ObjectsOf(reply.body)
                                           case Returns(o) => Success(o)
                                           case Throws(m) => Failure(m)
  {
    var q := NpmRequest(GetApiLatestConfig(read).npmUsername);
    match reply
    case Error(e) => Call(Some(q), Failure(e.message))
    case Response(body) =>
      match ObjectsOf(body)
      case Returns(objects) => Call(Some(q), Success(objects))
      case Throws(message) => Call(Some(q), Failure(message))
  }

  /** With no user name configured (none stored, or the read failed) the
      search is still sent, for the empty author. */
  lemma NpmSearchesWithoutUsername(read: GetConfig.ConfigRead, reply: Reply<Json>)
    requires GetApiLatestConfig(read).npmUsername == ""
    ensures GetNpmPackages(read, reply).sent == Some(Request(NpmSearchPrefix, map[], None))
  {
    assert NpmSearchPrefix + "" == NpmSearchPrefix;
  }

  /** Unlike GitHub's, an NPM failure passes the error's message through even
      when it is empty. */
  lemma NpmFailureMessageMayBeEmpty(read: GetConfig.ConfigRead, status: Option<int>, code: string)
    ensures GetNpmPackages(read, Error(HttpError(status, code, ""))).result == Failure("")
  {
  }
}
