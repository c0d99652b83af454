/**
 * The two flows that exchange the app's JWT for an installation token: by
 * installation ID (`getInstallationToken`) and by searching the app's
 * installations for a repository (`getInstallationTokenForRepo`).
 */
module Resolver {
  import opened Wrappers
  import opened GitHub

  /**
   * How a flow ends: it returns a token and possibly an error, as the Go
   * functions do, or a transport failure inside `httpJSON` aborts the process.
   */
  datatype Outcome = Returned(token: InstallationToken, err: Option<string>) | Aborted(reason: string)

  /** The outcome of sending `req` to `server` when the caller decodes a token. */
  function TokenReply(server: Server, req: Request): Outcome {
    match server(req)
    case Delivered(body) => Returned(body.asToken, None)
    case Failed(reason) => Aborted(reason)
  }

  /**
   * `getInstallationToken`: one POST to the installation's access-tokens
   * endpoint, authorised by the JWT; the token is the one in that reply.
   */
  function TokenForInstallation(server: Server, apiUrl: string, jwt: string, installationId: string): (r: (Outcome, seq<Request>))
    ensures |r.1| == 1
    ensures r.1[0].verb == Post
    ensures r.1[0].url == apiUrl + "/app/installations/" + installationId + "/access_tokens"
    ensures r.1[0].authorization == "Bearer " + jwt
    ensures r.1[0].accept == "application/vnd.github.machine-man-preview+json"
    ensures server(r.1[0]).Delivered? ==> r.0 == Returned(server(r.1[0]).body.asToken, None)
    ensures server(r.1[0]).Failed? ==> r.0 == Aborted(server(r.1[0]).reason)
  {
    var req := HttpRequest(Post, AccessTokensUrl(apiUrl, installationId), Bearer(jwt));
    (TokenReply(server, req), [req])
  }

  // ---------------------------------------------------------------------------
  // The repository search, described installation by installation.

  /** The request for an access token of `inst`, authorised by the JWT. */
  function TokenRequest(jwt: string, inst: Installation): Request {
    HttpRequest(Post, inst.accessTokensUrl, Bearer(jwt))
  }

  /** The request for the repositories of `inst`, authorised by its token. */
  function ReposRequest(inst: Installation, token: InstallationToken): Request {
    HttpRequest(Get, inst.repositoriesUrl, TokenAuth(token.token))
  }

  /** The token `inst` is given (the zero token when the request fails). */
  function TokenOf(server: Server, jwt: string, inst: Installation): InstallationToken {
    match server(TokenRequest(jwt, inst))
    case Delivered(body) => body.asToken
    case Failed(_) => NoToken
  }

  /** What probing one installation gives: a failure, or its token and listing. */
  datatype Probe = TokenFailed(reason: string) | ListingFailed(reason: string) | Listed(token: InstallationToken, repos: seq<Repository>)

  function ProbeOf(server: Server, jwt: string, inst: Installation): Probe {
    match server(TokenRequest(jwt, inst))
    case Failed(reason) => TokenFailed(reason)
    case Delivered(body) =>
      match server(ReposRequest(inst, body.asToken))
      case Failed(reason) => ListingFailed(reason)
      case Delivered(listing) => Listed(body.asToken, listing.asRepositories)
  }

  /** The requests probing one installation issues: one if the token request fails, else two. */
  function ProbeRequests(server: Server, jwt: string, inst: Installation): seq<Request> {
    if server(TokenRequest(jwt, inst)).Failed? then [TokenRequest(jwt, inst)]
    else [TokenRequest(jwt, inst), ReposRequest(inst, TokenOf(server, jwt, inst))]
  }

  /** Some entry of the listing has exactly this owner login and name (case-sensitive). */
  predicate Lists(repos: seq<Repository>, owner: string, repo: string) {
    exists i :: 0 <= i < |repos| && repos[i].ownerLogin == owner && repos[i].name == repo
  }

  /** The search moves past `inst`: both requests succeed and its listing lacks the repository. */
  predicate Passes(server: Server, jwt: string, inst: Installation, owner: string, repo: string) {
    var p := ProbeOf(server, jwt, inst);
    p.Listed? && !Lists(p.repos, owner, repo)
  }

  /** Token request then repositories request, for each installation in order. */
  function Pairs(server: Server, jwt: string, insts: seq<Installation>): (r: seq<Request>)
    ensures |r| == 2 * |insts|
    decreases |insts|
  {
    if insts == [] then []
    else
      var last := insts[|insts| - 1];
      Pairs(server, jwt, insts[..|insts| - 1]) + [TokenRequest(jwt, last), ReposRequest(last, TokenOf(server, jwt, last))]
  }

  /** Request `2j` of the pairs is installation `j`'s token request, `2j + 1` its repositories request. */
  lemma {:induction false} PairsAt(server: Server, jwt: string, insts: seq<Installation>, j: nat)
    requires j < |insts|
    ensures Pairs(server, jwt, insts)[2 * j] == TokenRequest(jwt, insts[j])
    ensures Pairs(server, jwt, insts)[2 * j + 1] == ReposRequest(insts[j], TokenOf(server, jwt, insts[j]))
    decreases |insts|
  {
    if j < |insts| - 1 {
      PairsAt(server, jwt, insts[..|insts| - 1], j);
    }
  }

  /** Every request of the pairs asks for the API's media type. */
  lemma {:induction false} PairsAccept(server: Server, jwt: string, insts: seq<Installation>)
    ensures forall i :: 0 <= i < |Pairs(server, jwt, insts)| ==> Pairs(server, jwt, insts)[i].accept == AcceptMediaType
    decreases |insts|
  {
    if insts != [] {
      PairsAccept(server, jwt, insts[..|insts| - 1]);
    }
  }

  /** Visiting one more installation appends its token and repositories requests. */
  lemma PairsExtend(server: Server, jwt: string, insts: seq<Installation>, i: nat)
    requires i < |insts|
    ensures Pairs(server, jwt, insts[..i + 1])
      == Pairs(server, jwt, insts[..i]) + [TokenRequest(jwt, insts[i]), ReposRequest(insts[i], TokenOf(server, jwt, insts[i]))]
  {
    assert insts[..i + 1][..i] == insts[..i];
  }

  /**
   * Where the search stops: the first installation it does not move past, or
   * the length of the list when it moves past all of them.
   */
  function FirstStop(server: Server, jwt: string, insts: seq<Installation>, owner: string, repo: string): (k: nat)
    ensures k <= |insts|
    ensures forall j :: 0 <= j < k ==> Passes(server, jwt, insts[j], owner, repo)
    ensures k < |insts| ==> !Passes(server, jwt, insts[k], owner, repo)
    decreases |insts|
  {
    if insts == [] || !Passes(server, jwt, insts[0], owner, repo) then 0
    else 1 + FirstStop(server, jwt, insts[1..], owner, repo)
  }

  /** The conditions in `FirstStop`'s contract single out one index. */
  lemma {:induction false} FirstStopIs(server: Server, jwt: string, insts: seq<Installation>, owner: string, repo: string, k: nat)
    requires k <= |insts|
    requires forall j :: 0 <= j < k ==> Passes(server, jwt, insts[j], owner, repo)
    requires k < |insts| ==> !Passes(server, jwt, insts[k], owner, repo)
    ensures FirstStop(server, jwt, insts, owner, repo) == k
    decreases k
  {
    if k > 0 {
      assert Passes(server, jwt, insts[0], owner, repo);
      assert forall j :: 0 <= j < k - 1 ==> insts[1..][j] == insts[j + 1];
      FirstStopIs(server, jwt, insts[1..], owner, repo, k - 1);
    }
  }

  /** Moving past installation `i` means the search stops later. */
  lemma MovesPast(server: Server, jwt: string, insts: seq<Installation>, owner: string, repo: string, i: nat)
    requires i < |insts| && i <= FirstStop(server, jwt, insts, owner, repo)
    requires ProbeOf(server, jwt, insts[i]).Listed? && !Lists(ProbeOf(server, jwt, insts[i]).repos, owner, repo)
    ensures i + 1 <= FirstStop(server, jwt, insts, owner, repo)
  {
  }

  /** The error the search reports when no installation lists the repository. */
  function NotFoundMessage(owner: string, repo: string, appId: string): (m: string)
    ensures Contains(m, owner + "/" + repo) && Contains(m, appId)
  {
    var text := "Unable to find repository " + owner + "/" + repo + " in installations of app ID ";
    var m := text + appId;
    assert m[|"Unable to find repository "|..|"Unable to find repository "| + |owner + "/" + repo|] == owner + "/" + repo;
    assert m[|text|..|text| + |appId|] == appId;
    m
  }

  /** `t` occurs in `s` as a contiguous piece. */
  predicate Contains(s: string, t: string) {
    exists i, j :: 0 <= i <= j <= |s| && s[i..j] == t
  }

  /** The request listing the app's installations, authorised by the JWT. */
  function InstallationsRequest(apiUrl: string, jwt: string): Request {
    HttpRequest(Get, InstallationsUrl(apiUrl), Bearer(jwt))
  }

  /**
   * What `getInstallationTokenForRepo` does, stated by where the search stops:
   * the requests are the listing, one token-and-repositories pair per
   * installation moved past, and the probe of the installation it stops at.
   * It stops with that installation's token when its listing matches, aborts
   * when one of its requests failed, and reports the not-found error with the
   * empty token when it moved past every installation.
   */
  function SearchSpec(server: Server, apiUrl: string, jwt: string, appId: string, owner: string, repo: string): (Outcome, seq<Request>) {
    var listReq := InstallationsRequest(apiUrl, jwt);
    match server(listReq)
    case Failed(reason) => (Aborted(reason), [listReq])
    case Delivered(body) =>
      var insts := body.asInstallations;
      var k := FirstStop(server, jwt, insts, owner, repo);
      if k == |insts| then
        (Returned(NoToken, Some(NotFoundMessage(owner, repo, appId))), [listReq] + Pairs(server, jwt, insts))
      else
        (Stopped(ProbeOf(server, jwt, insts[k])), [listReq] + Pairs(server, jwt, insts[..k]) + ProbeRequests(server, jwt, insts[k]))
  }

  /** The outcome of stopping at an installation with this probe. */
  function Stopped(p: Probe): Outcome {
    match p
    case TokenFailed(reason) => Aborted(reason)
    case ListingFailed(reason) => Aborted(reason)
    case Listed(token, _) => Returned(token, None)
  }

  /** The search stops at the first installation it cannot move past. */
  lemma SearchStopsAt(server: Server, apiUrl: string, jwt: string, appId: string, owner: string, repo: string, i: nat)
    requires server(InstallationsRequest(apiUrl, jwt)).Delivered?
    requires var insts := server(InstallationsRequest(apiUrl, jwt)).body.asInstallations;
      && i < |insts|
      && i <= FirstStop(server, jwt, insts, owner, repo)
      && !Passes(server, jwt, insts[i], owner, repo)
    ensures var insts := server(InstallationsRequest(apiUrl, jwt)).body.asInstallations;
      SearchSpec(server, apiUrl, jwt, appId, owner, repo)
      == (Stopped(ProbeOf(server, jwt, insts[i])),
          [InstallationsRequest(apiUrl, jwt)] + Pairs(server, jwt, insts[..i]) + ProbeRequests(server, jwt, insts[i]))
  {
    var insts := server(InstallationsRequest(apiUrl, jwt)).body.asInstallations;
    assert FirstStop(server, jwt, insts, owner, repo) == i;
  }

  /** Stopping at installation `i` because its token request failed. */
  lemma StopsAtFailedToken(server: Server, apiUrl: string, jwt: string, appId: string, owner: string, repo: string, i: nat)
    requires server(InstallationsRequest(apiUrl, jwt)).Delivered?
    requires var insts := server(InstallationsRequest(apiUrl, jwt)).body.asInstallations;
      && i < |insts|
      && i <= FirstStop(server, jwt, insts, owner, repo)
      && server(TokenRequest(jwt, insts[i])).Failed?
    ensures var insts := server(InstallationsRequest(apiUrl, jwt)).body.asInstallations;
      SearchSpec(server, apiUrl, jwt, appId, owner, repo)
      == (Aborted(server(TokenRequest(jwt, insts[i])).reason),
          [InstallationsRequest(apiUrl, jwt)] + Pairs(server, jwt, insts[..i]) + [TokenRequest(jwt, insts[i])])
  {
    SearchStopsAt(server, apiUrl, jwt, appId, owner, repo, i);
  }

  /** Stopping at installation `i` because its repositories request failed. */
  lemma StopsAtFailedListing(server: Server, apiUrl: string, jwt: string, appId: string, owner: string, repo: string, i: nat)
    requires server(InstallationsRequest(apiUrl, jwt)).Delivered?
    requires var insts := server(InstallationsRequest(apiUrl, jwt)).body.asInstallations;
      && i < |insts|
      && i <= FirstStop(server, jwt, insts, owner, repo)
      && server(TokenRequest(jwt, insts[i])).Delivered?
      && server(ReposRequest(insts[i], TokenOf(server, jwt, insts[i]))).Failed?
    ensures var insts := server(InstallationsRequest(apiUrl, jwt)).body.asInstallations;
      SearchSpec(server, apiUrl, jwt, appId, owner, repo)
      == (Aborted(server(ReposRequest(insts[i], TokenOf(server, jwt, insts[i]))).reason),
          [InstallationsRequest(apiUrl, jwt)] + Pairs(server, jwt, insts[..i])
          + [TokenRequest(jwt, insts[i]), ReposRequest(insts[i], TokenOf(server, jwt, insts[i]))])
  {
    SearchStopsAt(server, apiUrl, jwt, appId, owner, repo, i);
  }

  /** Stopping at installation `i` because its listing holds the repository. */
  lemma StopsAtMatch(server: Server, apiUrl: string, jwt: string, appId: string, owner: string, repo: string, i: nat)
    requires server(InstallationsRequest(apiUrl, jwt)).Delivered?
    requires var insts := server(InstallationsRequest(apiUrl, jwt)).body.asInstallations;
      && i < |insts|
      && i <= FirstStop(server, jwt, insts, owner, repo)
      && server(TokenRequest(jwt, insts[i])).Delivered?
      && server(ReposRequest(insts[i], TokenOf(server, jwt, insts[i]))).Delivered?
      && Lists(server(ReposRequest(insts[i], TokenOf(server, jwt, insts[i]))).body.asRepositories, owner, repo)
    ensures var insts := server(InstallationsRequest(apiUrl, jwt)).body.asInstallations;
      SearchSpec(server, apiUrl, jwt, appId, owner, repo)
      == (Returned(TokenOf(server, jwt, insts[i]), None),
          [InstallationsRequest(apiUrl, jwt)] + Pairs(server, jwt, insts[..i])
          + [TokenRequest(jwt, insts[i]), ReposRequest(insts[i], TokenOf(server, jwt, insts[i]))])
  {
    SearchStopsAt(server, apiUrl, jwt, appId, owner, repo, i);
  }

  /** Moving past installation `i`, whose listing lacks the repository. */
  lemma MovesPastListing(server: Server, jwt: string, insts: seq<Installation>, owner: string, repo: string, i: nat)
    requires i < |insts| && i <= FirstStop(server, jwt, insts, owner, repo)
    requires server(TokenRequest(jwt, insts[i])).Delivered?
    requires server(ReposRequest(insts[i], TokenOf(server, jwt, insts[i]))).Delivered?
    requires !Lists(server(ReposRequest(insts[i], TokenOf(server, jwt, insts[i]))).body.asRepositories, owner, repo)
    ensures i + 1 <= FirstStop(server, jwt, insts, owner, repo)
  {
    MovesPast(server, jwt, insts, owner, repo, i);
  }

  /** The scan of one listing for an entry with exactly this owner login and name. */
  method ListsRepository(repos: seq<Repository>, owner: string, repo: string) returns (found: bool)
    ensures found <==> Lists(repos, owner, repo)
  {
    var j := 0;
    while j < |repos|
      invariant j <= |repos|
      invariant forall m :: 0 <= m < j ==> !(repos[m].ownerLogin == owner && repos[m].name == repo)
    {
      if owner == repos[j].ownerLogin && repo == repos[j].name {
        return true;
      }
      j := j + 1;
    }
    return false;
  }

  /**
   * `getInstallationTokenForRepo`: lists the installations, then for each in
   * turn gets a token and lists its repositories with it, returning the token
   * of the first installation whose listing holds `owner`/`repo`.
   */
  method GetInstallationTokenForRepo(server: Server, apiUrl: string, jwt: string, appId: string, owner: string, repo: string)
    returns (outcome: Outcome, sent: seq<Request>)
    ensures (outcome, sent) == SearchSpec(server, apiUrl, jwt, appId, owner, repo)
  {
    var listReq := HttpRequest(Get, apiUrl + "/app/installations", Bearer(jwt));
    assert listReq == InstallationsRequest(apiUrl, jwt);
    sent := [listReq];
    var listReply := server(listReq);
    if listReply.Failed? {
      return Aborted(listReply.reason), sent;
    }
    var installations := listReply.body.asInstallations;
    ghost var k := FirstStop(server, jwt, installations, owner, repo);
    var i := 0;
    while i < |installations|
      invariant i <= k
      invariant sent == [listReq] + Pairs(server, jwt, installations[..i])
    {
      ghost var before := sent;
      var installation := installations[i];
      var tokenReq := HttpRequest(Post, installation.accessTokensUrl, Bearer(jwt));
      assert tokenReq == TokenRequest(jwt, installation);
      sent := sent + [tokenReq];
      var tokenReply := server(tokenReq);
      if tokenReply.Failed? {
        StopsAtFailedToken(server, apiUrl, jwt, appId, owner, repo, i);
        return Aborted(tokenReply.reason), sent;
      }
      var token := tokenReply.body.asToken;
      assert token == TokenOf(server, jwt, installation);
      var reposReq := HttpRequest(Get, installation.repositoriesUrl, TokenAuth(token.token));
      assert reposReq == ReposRequest(installation, token);
      sent := sent + [reposReq];
      assert sent == before + [tokenReq, reposReq];
      var reposReply := server(reposReq);
      if reposReply.Failed? {
        StopsAtFailedListing(server, apiUrl, jwt, appId, owner, repo, i);
        return Aborted(reposReply.reason), sent;
      }
      var repos := reposReply.body.asRepositories;
      var found := ListsRepository(repos, owner, repo);
      if found {
        StopsAtMatch(server, apiUrl, jwt, appId, owner, repo, i);
        return Returned(token, None), sent;
      }
      PairsExtend(server, jwt, installations, i);
      assert sent == [listReq] + (Pairs(server, jwt, installations[..i]) + [tokenReq, reposReq]);
      MovesPastListing(server, jwt, installations, owner, repo, i);
      i := i + 1;
    }
    assert installations[..i] == installations;
    return Returned(NoToken, Some(NotFoundMessage(owner, repo, appId))), sent;
  }
}

/** What the repository search promises, proved of its specification. */
module SearchProperties {
  import opened Wrappers
  import opened GitHub
  import opened Resolver

  /**
   * When installation `k` is the first whose listing holds the repository (all
   * before it answered and did not), the search returns `k`'s token after
   * exactly 1 + 2(k + 1) requests: the listing, then a token request and a
   * repositories request for each of installations 0..k, and nothing after.
   */
  lemma SearchFindsFirstMatch(server: Server, apiUrl: string, jwt: string, appId: string, owner: string, repo: string, k: nat)
    requires server(InstallationsRequest(apiUrl, jwt)).Delivered?
    requires var insts := server(InstallationsRequest(apiUrl, jwt)).body.asInstallations;
      && k < |insts|
      && (forall j :: 0 <= j < k ==> Passes(server, jwt, insts[j], owner, repo))
      && ProbeOf(server, jwt, insts[k]).Listed?
      && Lists(ProbeOf(server, jwt, insts[k]).repos, owner, repo)
    ensures var insts := server(InstallationsRequest(apiUrl, jwt)).body.asInstallations;
      var (outcome, sent) := SearchSpec(server, apiUrl, jwt, appId, owner, repo);
      && outcome == Returned(TokenOf(server, jwt, insts[k]), None)
      && sent == [InstallationsRequest(apiUrl, jwt)] + Pairs(server, jwt, insts[..k + 1])
      && |sent| == 1 + 2 * (k + 1)
  {
    var insts := server(InstallationsRequest(apiUrl, jwt)).body.asInstallations;
    FirstStopIs(server, jwt, insts, owner, repo, k);
    SearchStopsAt(server, apiUrl, jwt, appId, owner, repo, k);
    PairsExtend(server, jwt, insts, k);
  }

  /**
   * Conversely, a token returned without error is the token of the first
   * installation that answered with a listing holding the repository.
   */
  lemma SearchFoundIsFirstMatch(server: Server, apiUrl: string, jwt: string, appId: string, owner: string, repo: string)
    requires var outcome := SearchSpec(server, apiUrl, jwt, appId, owner, repo).0;
      outcome.Returned? && outcome.err.None?
    ensures server(InstallationsRequest(apiUrl, jwt)).Delivered?
    ensures var insts := server(InstallationsRequest(apiUrl, jwt)).body.asInstallations;
      var k := FirstStop(server, jwt, insts, owner, repo);
      && k < |insts|
      && (forall j :: 0 <= j < k ==> Passes(server, jwt, insts[j], owner, repo))
      && ProbeOf(server, jwt, insts[k]).Listed?
      && Lists(ProbeOf(server, jwt, insts[k]).repos, owner, repo)
      && SearchSpec(server, apiUrl, jwt, appId, owner, repo).0.token == ProbeOf(server, jwt, insts[k]).token
  {
  }

  /**
   * The search fails with the not-found error exactly when the installations
   * were listed and every one of them answered with a listing that lacks the
   * repository, an empty list included. It then returns the empty token, has
   * made 1 + 2n requests for n installations, and its message names
   * `owner/repo` and the app ID.
   */
  lemma SearchNotFound(server: Server, apiUrl: string, jwt: string, appId: string, owner: string, repo: string)
    ensures var outcome := SearchSpec(server, apiUrl, jwt, appId, owner, repo).0;
      (outcome.Returned? && outcome.err.Some?)
      <==>
      (&& server(InstallationsRequest(apiUrl, jwt)).Delivered?
       && var insts := server(InstallationsRequest(apiUrl, jwt)).body.asInstallations;
          forall j :: 0 <= j < |insts| ==> Passes(server, jwt, insts[j], owner, repo))
    ensures var (outcome, sent) := SearchSpec(server, apiUrl, jwt, appId, owner, repo);
      outcome.Returned? && outcome.err.Some? ==>
        var insts := server(InstallationsRequest(apiUrl, jwt)).body.asInstallations;
        && outcome.token == NoToken
        && |sent| == 1 + 2 * |insts|
        && Contains(outcome.err.value, owner + "/" + repo)
        && Contains(outcome.err.value, appId)
  {
    var listReq := InstallationsRequest(apiUrl, jwt);
    if server(listReq).Delivered? {
      var insts := server(listReq).body.asInstallations;
      var k := FirstStop(server, jwt, insts, owner, repo);
      if k < |insts| {
        assert !Passes(server, jwt, insts[k], owner, repo);
      }
    }
  }

  /**
   * Request 2j + 1 of `sent` asks for installation j's token with the JWT, it
   * was answered, and request 2j + 2 lists installation j's repositories with
   * `"token " +` the token in that answer.
   */
  predicate ChainedAt(server: Server, jwt: string, insts: seq<Installation>, sent: seq<Request>, j: nat)
    requires j < |insts| && 2 * j + 2 < |sent|
  {
    && sent[2 * j + 1] == HttpRequest(Post, insts[j].accessTokensUrl, "Bearer " + jwt)
    && server(sent[2 * j + 1]).Delivered?
    && sent[2 * j + 2] == HttpRequest(Get, insts[j].repositoriesUrl, "token " + server(sent[2 * j + 1]).body.asToken.token)
  }

  /**
   * Every repositories request is authorised by the token that the request
   * just before it obtained for the same installation: request 2j + 2 lists
   * installation j's repositories with `"token " +` the token in the reply to
   * request 2j + 1, which asked for installation j's token with the JWT.
   */
  lemma ListingsUseTheirOwnToken(server: Server, apiUrl: string, jwt: string, appId: string, owner: string, repo: string, j: nat)
    requires 2 * j + 2 < |SearchSpec(server, apiUrl, jwt, appId, owner, repo).1|
    ensures server(InstallationsRequest(apiUrl, jwt)).Delivered?
    ensures var insts := server(InstallationsRequest(apiUrl, jwt)).body.asInstallations;
      && j < |insts|
      && ChainedAt(server, jwt, insts, SearchSpec(server, apiUrl, jwt, appId, owner, repo).1, j)
  {
    var insts := server(InstallationsRequest(apiUrl, jwt)).body.asInstallations;
    if FirstStop(server, jwt, insts, owner, repo) == |insts| {
      ChainedWhenExhausted(server, apiUrl, jwt, appId, owner, repo, j);
    } else {
      ChainedWhenStopped(server, apiUrl, jwt, appId, owner, repo, j);
    }
  }

  lemma ChainedWhenExhausted(server: Server, apiUrl: string, jwt: string, appId: string, owner: string, repo: string, j: nat)
    requires server(InstallationsRequest(apiUrl, jwt)).Delivered?
    requires var insts := server(InstallationsRequest(apiUrl, jwt)).body.asInstallations;
      FirstStop(server, jwt, insts, owner, repo) == |insts|
    requires 2 * j + 2 < |SearchSpec(server, apiUrl, jwt, appId, owner, repo).1|
    ensures var insts := server(InstallationsRequest(apiUrl, jwt)).body.asInstallations;
      && j < |insts|
      && ChainedAt(server, jwt, insts, SearchSpec(server, apiUrl, jwt, appId, owner, repo).1, j)
  {
    var listReq := InstallationsRequest(apiUrl, jwt);
    var insts := server(listReq).body.asInstallations;
    assert SearchSpec(server, apiUrl, jwt, appId, owner, repo).1 == [listReq] + Pairs(server, jwt, insts) + [];
    PairOfPassed(server, jwt, insts, owner, repo, [listReq], [], j);
  }

  lemma ChainedWhenStopped(server: Server, apiUrl: string, jwt: string, appId: string, owner: string, repo: string, j: nat)
    requires server(InstallationsRequest(apiUrl, jwt)).Delivered?
    requires var insts := server(InstallationsRequest(apiUrl, jwt)).body.asInstallations;
      FirstStop(server, jwt, insts, owner, repo) < |insts|
    requires 2 * j + 2 < |SearchSpec(server, apiUrl, jwt, appId, owner, repo).1|
    ensures var insts := server(InstallationsRequest(apiUrl, jwt)).body.asInstallations;
      && j < |insts|
      && ChainedAt(server, jwt, insts, SearchSpec(server, apiUrl, jwt, appId, owner, repo).1, j)
  {
    var listReq := InstallationsRequest(apiUrl, jwt);
    var insts := server(listReq).body.asInstallations;
    var k := FirstStop(server, jwt, insts, owner, repo);
    SearchStopsAt(server, apiUrl, jwt, appId, owner, repo, k);
    var sent := SearchSpec(server, apiUrl, jwt, appId, owner, repo).1;
    if j < k {
      PairOfPassed(server, jwt, insts[..k], owner, repo, [listReq], ProbeRequests(server, jwt, insts[k]), j);
    } else {
      PairOfStop(server, jwt, insts[k], [listReq] + Pairs(server, jwt, insts[..k]), sent);
    }
  }

  /** Within a trace, the pair of requests for an installation the search moved past. */
  lemma PairOfPassed(server: Server, jwt: string, insts: seq<Installation>, owner: string, repo: string,
                     head: seq<Request>, tail: seq<Request>, j: nat)
    requires j < |insts| && Passes(server, jwt, insts[j], owner, repo) && |head| == 1
    ensures var sent := head + Pairs(server, jwt, insts) + tail;
      && sent[2 * j + 1] == HttpRequest(Post, insts[j].accessTokensUrl, "Bearer " + jwt)
      && server(sent[2 * j + 1]).Delivered?
      && sent[2 * j + 2] == HttpRequest(Get, insts[j].repositoriesUrl, "token " + server(sent[2 * j + 1]).body.asToken.token)
  {
    var pairs := Pairs(server, jwt, insts);
    PairsAt(server, jwt, insts, j);
    var sent := head + pairs + tail;
    assert sent[2 * j + 1] == pairs[2 * j] && sent[2 * j + 2] == pairs[2 * j + 1];
  }

  /** Within a trace, the two requests probing the installation the search stopped at. */
  lemma PairOfStop(server: Server, jwt: string, inst: Installation, head: seq<Request>, sent: seq<Request>)
    requires sent == head + ProbeRequests(server, jwt, inst)
    requires |head| + 1 < |sent|
    ensures && sent[|head|] == HttpRequest(Post, inst.accessTokensUrl, "Bearer " + jwt)
            && server(sent[|head|]).Delivered?
            && sent[|head| + 1] == HttpRequest(Get, inst.repositoriesUrl, "token " + server(sent[|head|]).body.asToken.token)
  {
  }

  /**
   * The search aborts exactly when the last request it issued was not
   * answered, and with that failure's reason: a transport failure ends it at
   * once.
   */
  lemma SearchAbortsAtFailedRequest(server: Server, apiUrl: string, jwt: string, appId: string, owner: string, repo: string)
    ensures var (outcome, sent) := SearchSpec(server, apiUrl, jwt, appId, owner, repo);
      && |sent| >= 1
      && (outcome.Aborted? <==> server(sent[|sent| - 1]).Failed?)
      && (outcome.Aborted? ==> outcome.reason == server(sent[|sent| - 1]).reason)
  {
    var listReq := InstallationsRequest(apiUrl, jwt);
    if server(listReq).Delivered? {
      var insts := server(listReq).body.asInstallations;
      if FirstStop(server, jwt, insts, owner, repo) == |insts| {
        AbortsWhenExhausted(server, apiUrl, jwt, appId, owner, repo);
      } else {
        AbortsWhenStopped(server, apiUrl, jwt, appId, owner, repo);
      }
    }
  }

  lemma AbortsWhenExhausted(server: Server, apiUrl: string, jwt: string, appId: string, owner: string, repo: string)
    requires server(InstallationsRequest(apiUrl, jwt)).Delivered?
    requires var insts := server(InstallationsRequest(apiUrl, jwt)).body.asInstallations;
      FirstStop(server, jwt, insts, owner, repo) == |insts|
    ensures var (outcome, sent) := SearchSpec(server, apiUrl, jwt, appId, owner, repo);
      |sent| >= 1 && outcome.Returned? && server(sent[|sent| - 1]).Delivered?
  {
    var listReq := InstallationsRequest(apiUrl, jwt);
    var insts := server(listReq).body.asInstallations;
    var n := |insts|;
    if n > 0 {
      PairOfPassed(server, jwt, insts, owner, repo, [listReq], [], n - 1);
    }
  }

  lemma AbortsWhenStopped(server: Server, apiUrl: string, jwt: string, appId: string, owner: string, repo: string)
    requires server(InstallationsRequest(apiUrl, jwt)).Delivered?
    requires var insts := server(InstallationsRequest(apiUrl, jwt)).body.asInstallations;
      FirstStop(server, jwt, insts, owner, repo) < |insts|
    ensures var (outcome, sent) := SearchSpec(server, apiUrl, jwt, appId, owner, repo);
      && |sent| >= 1
      && (outcome.Aborted? <==> server(sent[|sent| - 1]).Failed?)
      && (outcome.Aborted? ==> outcome.reason == server(sent[|sent| - 1]).reason)
  {
    var listReq := InstallationsRequest(apiUrl, jwt);
    var insts := server(listReq).body.asInstallations;
    var k := FirstStop(server, jwt, insts, owner, repo);
    SearchStopsAt(server, apiUrl, jwt, appId, owner, repo, k);
  }

  /**
   * Every request the search sends, the listing included, carries
   * `Accept: application/vnd.github.machine-man-preview+json`.
   */
  lemma SearchSendsMediaType(server: Server, apiUrl: string, jwt: string, appId: string, owner: string, repo: string)
    ensures var sent := SearchSpec(server, apiUrl, jwt, appId, owner, repo).1;
      forall i :: 0 <= i < |sent| ==> sent[i].accept == "application/vnd.github.machine-man-preview+json"
  {
    var listReq := InstallationsRequest(apiUrl, jwt);
    if server(listReq).Delivered? {
      var insts := server(listReq).body.asInstallations;
      var k := FirstStop(server, jwt, insts, owner, repo);
      if k == |insts| {
        PairsAccept(server, jwt, insts);
      } else {
        PairsAccept(server, jwt, insts[..k]);
      }
    }
  }

  /**
   * A remote API with two installations, of which only the second can see
   * `octo/hello-world`.
   */
  function TwoInstallations(): Server {
    (req: Request) =>
      if req.url == InstallationsUrl(DefaultApiUrl) then
        Delivered(Body(NoToken, [Installation(1, "T1", "R1"), Installation(2, "T2", "R2")], []))
      else if req.url == "T1" then Delivered(Body(InstallationToken("one", ""), [], []))
      else if req.url == "T2" then Delivered(Body(InstallationToken("two", ""), [], []))
      else if req.url == "R1" then Delivered(Body(NoToken, [], [Repository("hello-world", "someone")]))
      else if req.url == "R2" then Delivered(Body(NoToken, [], [Repository("other", "octo"), Repository("hello-world", "octo")]))
      else Failed("404")
  }

  /** How the two installations of that API answer. */
  predicate AnswersAsTwoInstallations(server: Server) {
    && server(InstallationsRequest(DefaultApiUrl, "J")) == Delivered(Body(NoToken, [Installation(1, "T1", "R1"), Installation(2, "T2", "R2")], []))
    && TokenOf(server, "J", Installation(1, "T1", "R1")) == InstallationToken("one", "")
    && TokenOf(server, "J", Installation(2, "T2", "R2")) == InstallationToken("two", "")
    && ProbeOf(server, "J", Installation(1, "T1", "R1")) == Listed(InstallationToken("one", ""), [Repository("hello-world", "someone")])
    && ProbeOf(server, "J", Installation(2, "T2", "R2")) == Listed(InstallationToken("two", ""), [Repository("other", "octo"), Repository("hello-world", "octo")])
  }

  lemma TwoInstallationsAnswers()
    ensures AnswersAsTwoInstallations(TwoInstallations())
  {
    assert InstallationsUrl(DefaultApiUrl) == "https://api.github.com/app/installations";
    assert ReposRequest(Installation(1, "T1", "R1"), InstallationToken("one", "")).url == "R1";
    assert ReposRequest(Installation(2, "T2", "R2"), InstallationToken("two", "")).url == "R2";
  }

  /**
   * Against that API the search returns the second installation's token after
   * five requests, in this order: the listing, then token and repositories for
   * the first installation, then for the second.
   */
  lemma SecondOfTwoInstallationsMatches()
    ensures var (outcome, sent) := SearchSpec(TwoInstallations(), DefaultApiUrl, "J", "7", "octo", "hello-world");
      && outcome == Returned(InstallationToken("two", ""), None)
      && sent == [HttpRequest(Get, DefaultApiUrl + "/app/installations", "Bearer J"),
                  HttpRequest(Post, "T1", "Bearer J"), HttpRequest(Get, "R1", "token one"),
                  HttpRequest(Post, "T2", "Bearer J"), HttpRequest(Get, "R2", "token two")]
  {
    TwoInstallationsAnswers();
    SecondOfTwoMatches(TwoInstallations());
  }

  lemma SecondOfTwoMatches(server: Server)
    requires AnswersAsTwoInstallations(server)
    ensures var (outcome, sent) := SearchSpec(server, DefaultApiUrl, "J", "7", "octo", "hello-world");
      && outcome == Returned(InstallationToken("two", ""), None)
      && sent == [HttpRequest(Get, DefaultApiUrl + "/app/installations", "Bearer J"),
                  HttpRequest(Post, "T1", "Bearer J"), HttpRequest(Get, "R1", "token one"),
                  HttpRequest(Post, "T2", "Bearer J"), HttpRequest(Get, "R2", "token two")]
  {
    var insts := [Installation(1, "T1", "R1"), Installation(2, "T2", "R2")];
    assert ProbeOf(server, "J", insts[1]).repos[1] == Repository("hello-world", "octo");
    SearchFindsFirstMatch(server, DefaultApiUrl, "J", "7", "octo", "hello-world", 1);
    assert Pairs(server, "J", insts[..0]) == [] by {
      assert insts[..0] == [];
    }
    PairsExtend(server, "J", insts, 0);
    PairsExtend(server, "J", insts, 1);
    assert insts[..2] == insts;
    assert TokenRequest("J", insts[0]) == HttpRequest(Post, "T1", "Bearer J");
    assert TokenRequest("J", insts[1]) == HttpRequest(Post, "T2", "Bearer J");
    assert ReposRequest(insts[0], InstallationToken("one", "")) == HttpRequest(Get, "R1", "token one");
    assert ReposRequest(insts[1], InstallationToken("two", "")) == HttpRequest(Get, "R2", "token two");
  }
}
