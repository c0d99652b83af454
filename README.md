# gha-token, modelled in Dafny

`gha-token` is a command-line tool that prints a token for a GitHub App. It
signs a JSON Web Token (JWT) for the app. It then does one of three things:

- prints the JWT itself;
- exchanges the JWT for an installation access token, given an installation ID;
- searches the app's installations for one that can see a repository
  `owner/repo`, and returns that installation's token.

The model covers:

- the command-line checks in `parseFlags`, including the `owner/repo` split
  done with Go's `strings.Split`;
- the claims of the JWT;
- the URLs and `Authorization` headers of the requests;
- the three-way flow choice in `main`;
- the first-match search loop of `getInstallationTokenForRepo`.

The environment comes in as parameters:

- The remote API is a stateless oracle, `GitHub.Server`, mapping a request to
  a reply.
- Signing is an oracle, `Jwt.Signer`. It stands for reading the key file,
  parsing the PEM key and the RS256 signature.
- The clock is an integer `now`, in nanoseconds since the Unix epoch.

Every flow returns the requests `httpJSON` was called with, in order, so the
contracts state which requests are sent and how many.

Modules:

- `Wrappers`: `Option`, `Result`.
- `Strings`: `Split`, and `Join` as its inverse.
- `GitHub`: wire types, request building, the API oracle.
- `Jwt`: claims.
- `Resolver`: the two token flows, with the search specified by `SearchSpec`.
- `SearchProperties`: what the search promises.
- `Cli`: `parseFlags` and `main`.

Two consequences of the code that are easy to miss:

- The selector is accepted when `strings.Split` gives exactly two parts, even
  if a part is empty (`a/`, `/x`, `/`).
- With two installations the search sends 1 + 2·2 = 5 requests: the listing,
  then a token request and a repositories request per installation.

## Model

| member | source | states |
|---|---|---|
| Strings.Split | gha-token.go:99 | `strings.Split` on one separator gives one more piece than there are separators, and no piece contains the separator |
| Strings.JoinSplit | gha-token.go:99 | joining the pieces of a split with the separator gives back the original string |
| Strings.JoinInjective | gha-token.go:99 | two non-empty lists of separator-free pieces that join to the same string are equal |
| Strings.SplitJoin | gha-token.go:99 | splitting the join of separator-free pieces gives back exactly those pieces |
| Jwt.NewClaims | gha-token.go:120-127 | issuer is the app ID; `iat` is the Unix second holding `now`; `exp - iat` is exactly 600 seconds |
| Resolver.TokenForInstallation | gha-token.go:172-177 | the installation-ID flow sends exactly one POST to `apiURL + "/app/installations/" + id + "/access_tokens"` with `"Bearer " + jwt` and `Accept: application/vnd.github.machine-man-preview+json`; it returns that reply's token, or aborts with the transport failure |
| Resolver.FirstStop | gha-token.go:184-195 | characterises the index where the search stops: every earlier installation answered both requests with a listing that lacks the repository, and the stopping installation (if any) does not |
| Resolver.FirstStopIs | gha-token.go:184-195 | any index with that characterisation is the stopping index |
| Resolver.PairsAt | gha-token.go:184-189 | in the per-installation trace, request 2j is installation j's token request and 2j+1 its repositories request, made with the token it obtained |
| Resolver.PairsAccept | gha-token.go:141-144 | every token and repositories request of the search asks for the `application/vnd.github.machine-man-preview+json` media type |
| Resolver.PairsExtend | gha-token.go:184-189 | moving on to one more installation appends exactly its token request and then its repositories request |
| Resolver.NotFoundMessage | gha-token.go:197-198 | the not-found message contains `owner/repo` and the app ID |
| Resolver.SearchStopsAt | gha-token.go:184-195 | an installation reached by the search that it cannot move past ends the search, after the listing, the pairs before it and its own probe |
| Resolver.StopsAtFailedToken | gha-token.go:186-187 | a failed token request ends the search at once, with that failure, as the last request sent |
| Resolver.StopsAtFailedListing | gha-token.go:189-190 | a failed repositories request ends the search at once, with that failure |
| Resolver.StopsAtMatch | gha-token.go:192-194 | a listing holding the repository ends the search with that installation's token and no error |
| Resolver.MovesPast | gha-token.go:184-195 | an installation whose listing lacks the repository is moved past |
| Resolver.MovesPastListing | gha-token.go:184-195 | the same, stated over the replies the loop sees |
| Resolver.ListsRepository | gha-token.go:191-195 | the inner scan finds a match exactly when some entry has `Owner.Login == owner` and `Name == repo`, compared case-sensitively |
| Resolver.GetInstallationTokenForRepo | gha-token.go:180-199 | the search loop's outcome and request trace are exactly `SearchSpec`, which the lemmas below characterise |
| SearchProperties.SearchFindsFirstMatch | gha-token.go:184-195 | if installation k is the first match, the token of k is returned after exactly 1 + 2(k+1) requests: the listing, then a token-then-repositories pair for installations 0..k, and nothing for later installations |
| SearchProperties.SearchFoundIsFirstMatch | gha-token.go:184-195 | conversely, a token returned without error belongs to the first installation whose listing holds the repository, and every earlier one was moved past |
| SearchProperties.SearchNotFound | gha-token.go:182-198 | the not-found error occurs exactly when the listing arrived and every installation (none, possibly) was moved past; the token is then empty, 1 + 2n requests were sent, and the message names `owner/repo` and the app ID |
| SearchProperties.ListingsUseTheirOwnToken | gha-token.go:186-189 | request 2j+2 lists installation j's repositories with `"token " +` the token in the reply to request 2j+1, which asked for installation j's token with `"Bearer " + jwt` |
| SearchProperties.ChainedWhenExhausted | gha-token.go:186-189 | the same, when the search moved past every installation |
| SearchProperties.ChainedWhenStopped | gha-token.go:186-189 | the same, when the search stopped at an installation |
| SearchProperties.PairOfPassed | gha-token.go:186-189 | an installation the search moved past contributes a token request and then a repositories request made with that token |
| SearchProperties.PairOfStop | gha-token.go:186-189 | the installation the search stops at contributes its token request, then (if that was answered) its repositories request made with that token |
| SearchProperties.SearchAbortsAtFailedRequest | gha-token.go:182-190 | the search aborts exactly when the last request sent was not answered, and with that failure's reason |
| SearchProperties.AbortsWhenExhausted | gha-token.go:182-198 | after moving past every installation, the last request was answered and the search does not abort |
| SearchProperties.AbortsWhenStopped | gha-token.go:182-195 | at the stopping installation, the search aborts exactly when its last request failed |
| SearchProperties.SearchSendsMediaType | gha-token.go:141-144 | every request the search sends, the installations listing included, carries `Accept: application/vnd.github.machine-man-preview+json` |
| SearchProperties.TwoInstallationsAnswers | gha-token.go:182-189 | how each request is answered by a concrete API with two installations |
| SearchProperties.SecondOfTwoMatches | gha-token.go:180-199 | against any API answering that way, with only the second installation listing `octo/hello-world`, the search returns the second token |
| SearchProperties.SecondOfTwoInstallationsMatches | gha-token.go:180-199 | against that concrete API, the search returns token `two` after exactly five requests: the listing, `T1`, `R1` with `token one`, `T2`, `R2` with `token two` |
| Cli.SelectorShape | gha-token.go:98-104 | a non-empty selector is accepted exactly when `strings.Split` gives two parts, and exactly when it is a slash-free owner, `/` and a slash-free name |
| Cli.ParsedUnique | gha-token.go:98-104 | an accepted command line determines its configuration uniquely |
| Cli.ConfigOf | gha-token.go:74-107 | the configuration of an accepted command line: the default API URL when none is given, the other flags copied, and `repoOwner + "/" + repoName` equal to the selector |
| Cli.SelectorRoundTrip | gha-token.go:98-104 | `owner/name`, with slash-free halves that may be empty, is accepted and read back as exactly `owner` and `name` |
| Cli.TrailingSlashAccepted | gha-token.go:98-104 | `a/` is accepted as owner `a` and the empty name |
| Cli.NoSlashRejected | gha-token.go:98-102 | a non-empty selector without a slash is rejected with `repo argument value must be owner/repo but was: ` followed by the selector |
| Cli.ParseFlags | gha-token.go:74-107 | it fails exactly on an unacceptable command line, with the message of the first failed check (no arguments, then `appId is required`, then `keyPath is required`, then the selector); otherwise it returns the configuration `ConfigOf` |
| Cli.SelectFlow | gha-token.go:57-69 | the bare JWT is chosen exactly when `installID` and `repoOwner` are empty; a non-empty `installID` takes precedence; the repository flow is chosen exactly when `installID` is empty and `repoOwner` is not |
| Cli.EmptyOwnerSelectsBareJwt | gha-token.go:57-69 | a selector `/name` with a slash-free, possibly empty name is accepted with an empty owner; without an installation ID it selects the bare-JWT flow, and a run that signs the JWT prints it and sends no request |
| Cli.Run | gha-token.go:49-72 | a rejected command line ends with its usage message, sending no request and signing nothing. Otherwise: a signing failure is fatal before any request; the bare-JWT flow prints the JWT; the installation flow sends its one request; the repository flow behaves as `SearchSpec`, and a transport failure or the not-found error is fatal |

## Left out

- RS256 signing, PEM key parsing and reading the key file are foreign library and file-system calls. They are the `Jwt.Signer` oracle, applied to the key path and the claims.
- The HTTP transport, request and response dumps, and reading the body in `httpJSON` are network I/O. They are the `GitHub.Server` oracle.
- JSON decoding is not modelled. A reply carries its body already decoded into each shape. A body that does not decode gives whatever value the oracle puts there, including Go's zero values.
- A request that `http.NewRequest` rejects, such as one whose URL holds `%zz` or a space from `--apiUrl`, is fatal before anything reaches the network. The model has no such check. It lists the request among those sent and lets the oracle answer it, so the fatal exit follows only when the oracle answers `Failed`, and the trace then holds a request that was never sent.
- The API oracle is stateless. A reply cannot depend on earlier requests.
- Only the first page of each listing is read, as in the source. Pagination is therefore absent from both.
- `time.Now()` is the parameter `now`, in nanoseconds. `Unix()` is floor division by 10^9.
- The flag library's parsing, and `len(os.Args) == 1`, are given as the `Cli.Flags` value. `hasArguments` stands for the arguments check. A flag that was not given is its default value.
- `usage` printing, `os.Exit` and `logger.Fatalln` are `Cli.Exit` values. The exit status 1 is not carried.
- The `--verbose` flag and `log` are observability only and are not modelled.
- Jwt.GetJwtToken: carries no contract of its own. It only passes `NewClaims` to the signing oracle, and its use is stated through `Cli.Run`.
