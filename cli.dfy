/**
 * The command-line driver: flag validation (`parseFlags`), the choice between
 * the three ways of producing a token, and the run as a whole (`main`).
 */
module Cli {
  import opened Wrappers
  import opened Strings
  import opened GitHub
  import opened Jwt
  import opened Resolver

  /**
   * The command line after the flag library has read it. `hasArguments` is
   * false when the program was started with no arguments at all; an absent
   * string flag reads as its default, which is the empty string for all but
   * `--apiUrl`.
   */
  datatype Flags = Flags(hasArguments: bool, apiUrl: Option<string>, appId: string, keyPath: string, installId: string, repo: string)

  /** The validated configuration (`config`). */
  datatype Config = Config(apiUrl: string, appId: string, keyPath: string, installId: string, repoOwner: string, repoName: string)

  /** `owner` and `name` are the two slash-free halves of `repo` around its slash. */
  predicate SplitsAt(repo: string, owner: string, name: string) {
    '/' !in owner && '/' !in name && owner + "/" + name == repo
  }

  /** A repository selector is accepted when absent or when it holds exactly one slash. */
  predicate SelectorAccepted(repo: string) {
    repo == "" || Occurrences(repo, '/') == 1
  }

  /** The command line passes every check `parseFlags` makes. */
  predicate Acceptable(flags: Flags) {
    flags.hasArguments && flags.appId != "" && flags.keyPath != "" && SelectorAccepted(flags.repo)
  }

  /** The message `usage` prints for the first check the command line fails. */
  function UsageMessage(flags: Flags): string
    requires !Acceptable(flags)
  {
    if !flags.hasArguments then ""
    else if flags.appId == "" then "appId is required"
    else if flags.keyPath == "" then "keyPath is required"
    else "repo argument value must be owner/repo but was: " + flags.repo
  }

  /**
   * A selector is accepted exactly when `strings.Split` cuts it into two
   * pieces, and exactly when it is some slash-free owner, a slash and some
   * slash-free name; either half may be empty.
   */
  lemma SelectorShape(repo: string)
    requires repo != ""
    ensures SelectorAccepted(repo) <==> |Split(repo, '/')| == 2
    ensures SelectorAccepted(repo) <==> exists owner, name :: SplitsAt(repo, owner, name)
  {
    var parts := Split(repo, '/');
    JoinSplit(repo, '/');
    if |parts| == 2 {
      assert Join(parts[1..], '/') == parts[1];
      assert SplitsAt(repo, parts[0], parts[1]);
    }
    forall owner, name | SplitsAt(repo, owner, name)
      ensures Occurrences(repo, '/') == 1
    {
      assert multiset(repo) == multiset(owner) + multiset("/") + multiset(name);
    }
  }

  /** The configuration the checks produce from an acceptable command line. */
  predicate Parsed(flags: Flags, cfg: Config) {
    && cfg.apiUrl == flags.apiUrl.GetOr(DefaultApiUrl)
    && cfg.appId == flags.appId
    && cfg.keyPath == flags.keyPath
    && cfg.installId == flags.installId
    && (if flags.repo == "" then cfg.repoOwner == "" && cfg.repoName == ""
        else SplitsAt(flags.repo, cfg.repoOwner, cfg.repoName))
  }

  /** There is at most one such configuration. */
  lemma ParsedUnique(flags: Flags, c1: Config, c2: Config)
    requires Parsed(flags, c1) && Parsed(flags, c2)
    ensures c1 == c2
  {
    if flags.repo != "" {
      FirstSeparator(c1.repoOwner, c1.repoName, c2.repoOwner, c2.repoName, '/');
    }
  }

  /** The configuration `parseFlags` returns for an acceptable command line. */
  function ConfigOf(flags: Flags): (cfg: Config)
    requires Acceptable(flags)
    ensures Parsed(flags, cfg)
  {
    var parts := Split(flags.repo, '/');
    if flags.repo == "" then
      Config(flags.apiUrl.GetOr(DefaultApiUrl), flags.appId, flags.keyPath, flags.installId, "", "")
    else
      JoinSplit(flags.repo, '/');
      assert Join(parts[1..], '/') == parts[1];
      Config(flags.apiUrl.GetOr(DefaultApiUrl), flags.appId, flags.keyPath, flags.installId, parts[0], parts[1])
  }

  /** Owner and name are read back from `owner/name` unchanged, empty halves included. */
  lemma SelectorRoundTrip(flags: Flags, owner: string, name: string)
    requires flags.hasArguments && flags.appId != "" && flags.keyPath != ""
    requires SplitsAt(flags.repo, owner, name)
    ensures Acceptable(flags)
    ensures ConfigOf(flags).repoOwner == owner && ConfigOf(flags).repoName == name
  {
    SelectorShape(flags.repo);
    var cfg := Config(flags.apiUrl.GetOr(DefaultApiUrl), flags.appId, flags.keyPath, flags.installId, owner, name);
    ParsedUnique(flags, cfg, ConfigOf(flags));
  }

  /** Empty halves are not rejected: `a/` names owner `a` and the empty repository name. */
  lemma TrailingSlashAccepted(flags: Flags)
    requires flags.hasArguments && flags.appId != "" && flags.keyPath != ""
    requires flags.repo == "a/"
    ensures Acceptable(flags)
    ensures ConfigOf(flags).repoOwner == "a" && ConfigOf(flags).repoName == ""
  {
    SelectorRoundTrip(flags, "a", "");
  }

  /** A selector without a slash is rejected, and the message quotes it. */
  lemma NoSlashRejected(flags: Flags)
    requires flags.hasArguments && flags.appId != "" && flags.keyPath != ""
    requires flags.repo != "" && '/' !in flags.repo
    ensures !Acceptable(flags)
    ensures UsageMessage(flags) == "repo argument value must be owner/repo but was: " + flags.repo
  {
    assert '/' !in multiset(flags.repo);
  }

  /**
   * `parseFlags`: fills in the configuration, and ends the run with a usage
   * message at the first check that fails: no arguments, no app ID, no key
   * path, a selector that does not split into owner and name.
   */
  method ParseFlags(flags: Flags) returns (r: Result<Config, string>)
    ensures r.Failure? <==> !Acceptable(flags)
    ensures r.Failure? ==> r.error == UsageMessage(flags)
    ensures r.Success? ==> Parsed(flags, r.value) && r.value == ConfigOf(flags)
  {
    var cfg := Config(flags.apiUrl.GetOr(DefaultApiUrl), flags.appId, flags.keyPath, flags.installId, "", "");
    if !flags.hasArguments {
      return Failure("");
    }
    if cfg.appId == "" {
      return Failure("appId is required");
    }
    if cfg.keyPath == "" {
      return Failure("keyPath is required");
    }
    if flags.repo != "" {
      var repoInfo := Split(flags.repo, '/');
      if |repoInfo| != 2 {
        return Failure("repo argument value must be owner/repo but was: " + flags.repo);
      }
      cfg := cfg.(repoOwner := repoInfo[0], repoName := repoInfo[1]);
    }
    assert cfg == ConfigOf(flags);
    return Success(cfg);
  }

  /** The three ways `main` can produce the token. */
  datatype Flow = BareJwt | ByInstallation(installId: string) | ByRepository(owner: string, name: string)

  /**
   * The flow `main` takes: an installation ID wins over a selector, the
   * selector is used only when its owner is non-empty, and otherwise the JWT
   * itself is the token.
   */
  function SelectFlow(cfg: Config): (f: Flow)
    ensures f == BareJwt <==> cfg.installId == "" && cfg.repoOwner == ""
    ensures f.ByInstallation? <==> cfg.installId != ""
    ensures f.ByInstallation? ==> f.installId == cfg.installId
    ensures f.ByRepository? <==> cfg.installId == "" && cfg.repoOwner != ""
    ensures f.ByRepository? ==> f.owner == cfg.repoOwner && f.name == cfg.repoName
  {
    if cfg.installId == "" && cfg.repoOwner == "" then BareJwt
    else if cfg.installId != "" then ByInstallation(cfg.installId)
    else ByRepository(cfg.repoOwner, cfg.repoName)
  }

  /**
   * A selector `/name` with a slash-free name has an empty owner half. It is
   * accepted, but without an installation ID it does not select the
   * repository flow: a run that signs the JWT prints it and sends nothing.
   */
  lemma EmptyOwnerSelectsBareJwt(flags: Flags, name: string, env: Env, exit: Exit, sent: seq<Request>)
    requires flags.hasArguments && flags.appId != "" && flags.keyPath != "" && flags.installId == ""
    requires flags.repo == "/" + name && '/' !in name
    ensures Acceptable(flags)
    ensures SelectFlow(ConfigOf(flags)) == BareJwt
    ensures var jwt := GetJwtToken(flags.appId, flags.keyPath, env.now, env.sign);
      Behaves(ConfigOf(flags), env, exit, sent) && jwt.Success? ==> exit == Printed(jwt.value) && sent == []
  {
    assert SplitsAt(flags.repo, "", name);
    SelectorRoundTrip(flags, "", name);
  }

  /** Where the environment comes in: the clock, the key and signature, and the remote API. */
  datatype Env = Env(now: int, sign: Signer, server: Server)

  /** How a run ends: the token on standard output, or exit status 1 with a message. */
  datatype Exit = Printed(output: string) | UsageExit(message: string) | Fatal(message: string)

  /** What `main` makes of a flow's outcome: `handleErrorIfAny`, then printing the token. */
  function Report(o: Outcome): Exit {
    match o
    case Aborted(reason) => Fatal(reason)
    case Returned(_, Some(e)) => Fatal(e)
    case Returned(token, None) => Printed(token.token)
  }

  /**
   * A run on an acceptable command line: a signing failure is fatal before any
   * request; the bare-JWT flow prints the signed JWT and sends nothing; the
   * installation flow sends its one request; the repository flow runs the search.
   */
  predicate Behaves(cfg: Config, env: Env, exit: Exit, sent: seq<Request>) {
    var jwt := GetJwtToken(cfg.appId, cfg.keyPath, env.now, env.sign);
    if jwt.Failure? then exit == Fatal(jwt.error) && sent == []
    else
      match SelectFlow(cfg)
      case BareJwt => exit == Printed(jwt.value) && sent == []
      case ByInstallation(id) =>
        var (outcome, requests) := TokenForInstallation(env.server, cfg.apiUrl, jwt.value, id);
        exit == Report(outcome) && sent == requests
      case ByRepository(owner, name) =>
        var (outcome, requests) := SearchSpec(env.server, cfg.apiUrl, jwt.value, cfg.appId, owner, name);
        exit == Report(outcome) && sent == requests
  }

  /**
   * `main`: validate the command line, sign the JWT, take one of the three
   * flows and print the token. A rejected command line ends in the usage
   * message before the key is read or any request is sent.
   */
  method Run(flags: Flags, env: Env) returns (exit: Exit, sent: seq<Request>)
    ensures !Acceptable(flags) ==> exit == UsageExit(UsageMessage(flags)) && sent == []
    ensures Acceptable(flags) ==> Behaves(ConfigOf(flags), env, exit, sent)
  {
    var parsed := ParseFlags(flags);
    if parsed.Failure? {
      return UsageExit(parsed.error), [];
    }
    var cfg := parsed.value;
    var jwtToken := GetJwtToken(cfg.appId, cfg.keyPath, env.now, env.sign);
    if jwtToken.Failure? {
      return Fatal(jwtToken.error), [];
    }
    var token: string;
    if cfg.installId == "" && cfg.repoOwner == "" {
      token := jwtToken.value;
      sent := [];
    } else if cfg.installId != "" {
      var (installToken, requests) := TokenForInstallation(env.server, cfg.apiUrl, jwtToken.value, cfg.installId);
      sent := requests;
      if installToken.Aborted? {
        return Fatal(installToken.reason), sent;
      }
      token := installToken.token.token;
    } else {
      var installToken;
      installToken, sent := GetInstallationTokenForRepo(env.server, cfg.apiUrl, jwtToken.value, cfg.appId, cfg.repoOwner, cfg.repoName);
      if installToken.Aborted? {
        return Fatal(installToken.reason), sent;
      }
      if installToken.err.Some? {
        return Fatal(installToken.err.value), sent;
      }
      token := installToken.token.token;
    }
    return Printed(token), sent;
  }
}
