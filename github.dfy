/**
 * The GitHub REST surface the tool talks to: the JSON shapes it decodes, the
 * requests it builds, and the remote API itself as an oracle.
 */
module GitHub {

  /** An installation access token (`installationToken`). */
  datatype InstallationToken = InstallationToken(token: string, expiresAt: string)

  /** Go's zero value of `installationToken`. */
  const NoToken := InstallationToken("", "")

  /** One entry of the `GET /app/installations` listing (`installation`). */
  datatype Installation = Installation(id: int, accessTokensUrl: string, repositoriesUrl: string)

  /** One entry of an installation's repository listing: its name and `owner.login`. */
  datatype Repository = Repository(name: string, ownerLogin: string)

  datatype Verb = Get | Post

  /** An HTTP request as `httpJSON` builds it: method, URL and the two headers it sets. */
  datatype Request = Request(verb: Verb, url: string, authorization: string, accept: string)

  /** The media type sent in the `Accept` header of every request. */
  const AcceptMediaType := "application/vnd.github.machine-man-preview+json"

  /**
   * A response body, decoded into each of the three shapes a caller may ask
   * for. A body that does not decode into a shape yields whatever Go leaves in
   * the target: its zero value, or the fields that did decode.
   */
  datatype Body = Body(asToken: InstallationToken, asInstallations: seq<Installation>, asRepositories: seq<Repository>)

  /** What one call of `httpJSON` ends in: a body, or a fatal transport error. */
  datatype Reply = Delivered(body: Body) | Failed(reason: string)

  /** The remote API: the reply it gives to each request. */
  type Server = Request -> Reply

  const DefaultApiUrl := "https://api.github.com"

  /** The request `httpJSON(method, url, authorization, ...)` sends. */
  function HttpRequest(verb: Verb, url: string, authorization: string): Request {
    Request(verb, url, authorization, AcceptMediaType)
  }

  /** The `Authorization` value that presents the app's JWT. */
  function Bearer(jwt: string): string {
    "Bearer " + jwt
  }

  /** The `Authorization` value that presents an installation token. */
  function TokenAuth(token: string): string {
    "token " + token
  }

  /** `apiURL + "/app/installations"`. */
  function InstallationsUrl(apiUrl: string): string {
    apiUrl + "/app/installations"
  }

  /** `fmt.Sprintf("%s/app/installations/%s/access_tokens", apiURL, installationID)`. */
  function AccessTokensUrl(apiUrl: string, installationId: string): string {
    apiUrl + "/app/installations/" + installationId + "/access_tokens"
  }
}
