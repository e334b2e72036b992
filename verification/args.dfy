/** Post-processing of the parsed command line in `parceArgs`: option
    defaults, the collection-link check, credentials taken from the
    environment when absent, and the commit flag with the update-query
    parameters it produces.

    The command-line library itself is not modelled: its outcome (the options
    it found, or a usage error) is the input `CommandLine`.  The process
    environment is a map; a missing variable reads as "", as `os.Getenv` does. */
module Args {
  import opened Wrappers
  import Link

  /** Names of the environment variables that supply missing credentials. */
  const UserEnv := "SOLRUSER"
  const PasswEnv := "SOLRPASSW"

  /** Option defaults. */
  const DefaultHttpTimeout := 180
  const DefaultQueries := 8
  const DefaultSrcDir := "."

  type Env = map<string, string>

  /** The options found on the command line; `None` when an option was not given. */
  datatype CommandLine = CommandLine(
    collLink: string,
    nQueries: Option<int>,
    srcDir: Option<string>,
    nocommit: bool,
    user: Option<string>,
    passw: Option<string>,
    httpTimeout: Option<int>)

  /** The run configuration, shared read-only by every worker. */
  datatype Params = Params(
    collLink: string,
    srcDir: string,
    user: string,
    passw: string,
    nQueries: int,
    httpTimeout: int,
    commit: bool)

  datatype ArgError =
    | Usage(text: string)      // the parser rejected the command line
    | WrongLink(link: string)  // the collection link does not have the expected shape
    | NoWorkers(nQueries: int) // fewer than one parallel query requested

  const WrongLinkPrefix := "wrong http link to a solr collection \""

  /** The message `main` prints before exiting with status 1: the parser's usage
      text as it is, or a line quoting the rejected link verbatim. */
  function ErrorText(e: ArgError): (text: string)
    ensures e.Usage? ==> text == e.text
    ensures e.WrongLink? ==>
      && |text| == |WrongLinkPrefix| + |e.link| + 2
      && text[..|WrongLinkPrefix|] == WrongLinkPrefix
      && text[|WrongLinkPrefix|..|text| - 2] == e.link
      && text[|text| - 2..] == "\"\n"
    ensures !e.Usage? ==> |text| > 0 && text[|text| - 1] == '\n'
  {
    match e
    case Usage(text) => text
    case WrongLink(link) => WrongLinkPrefix + link + "\"\n"
    case NoWorkers(_) => "the number of parallel queries must be at least 1\n"
  }

  function Getenv(env: Env, key: string): (r: string)
    ensures key !in env ==> r == ""
  {
    if key in env then env[key] else ""
  }

  function OrElse<T>(o: Option<T>, default: T): (r: T)
    ensures o.Some? ==> r == o.value
    ensures o.None? ==> r == default
  {
    if o.Some? then o.value else default
  }

  /** A credential given on the command line wins; an empty one is taken from
      the environment. */
  function ResolveCredential(given: string, env: Env, key: string): (r: string)
    ensures given != "" ==> r == given
    ensures given == "" ==> r == Getenv(env, key)
    ensures r == "" <==> given == "" && Getenv(env, key) == ""
  {
    if given == "" then Getenv(env, key) else given
  }

  /** Commits are requested unless `--nocommit` occurred. */
  function CommitRequested(cmd: CommandLine): (commit: bool)
    ensures commit <==> !cmd.nocommit
  {
    !cmd.nocommit
  }

  /** The query parameters of every update request: `commit=true` when
      committing, nothing otherwise. */
  function UpdateQuery(commit: bool): (q: map<string, seq<string>>)
    ensures "commit" in q <==> commit
    ensures commit ==> q["commit"] == ["true"]
    ensures forall k :: k in q ==> k == "commit"
  {
    if commit then map["commit" := ["true"]] else map[]
  }

  /** `parceArgs` as written: a usage error, then the link check, then the
      configuration with credentials and commit flag resolved. */
  function ParseArgs(parsed: Result<CommandLine, string>, env: Env): (r: Result<Params, ArgError>)
    ensures parsed.Failure? ==> r == Failure(Usage(parsed.error))
    ensures parsed.Success? && !Link.IsValidLink(parsed.value.collLink) ==>
              r == Failure(WrongLink(parsed.value.collLink))
    ensures r.Success? <==> parsed.Success? && Link.IsValidLink(parsed.value.collLink)
    ensures r.Success? ==>
              var cmd := parsed.value;
              && r.value.collLink == cmd.collLink
              && r.value.srcDir == OrElse(cmd.srcDir, DefaultSrcDir)
              && r.value.nQueries == OrElse(cmd.nQueries, DefaultQueries)
              && r.value.httpTimeout == OrElse(cmd.httpTimeout, DefaultHttpTimeout)
              && r.value.user == ResolveCredential(OrElse(cmd.user, ""), env, UserEnv)
              && r.value.passw == ResolveCredential(OrElse(cmd.passw, ""), env, PasswEnv)
              && (r.value.commit <==> !cmd.nocommit)
  {
    match parsed
    case Failure(usage) => Failure(Usage(usage))
    case Success(cmd) =>
      if !Link.IsValidLink(cmd.collLink) then Failure(WrongLink(cmd.collLink))
      else
        Success(Params(
          collLink := cmd.collLink,
          srcDir := OrElse(cmd.srcDir, DefaultSrcDir),
          user := ResolveCredential(OrElse(cmd.user, ""), env, UserEnv),
          passw := ResolveCredential(OrElse(cmd.passw, ""), env, PasswEnv),
          nQueries := OrElse(cmd.nQueries, DefaultQueries),
          httpTimeout := OrElse(cmd.httpTimeout, DefaultHttpTimeout),
          commit := CommitRequested(cmd)))
  }

  /** `parceArgs` with the missing check: at least one parallel query. */
  function ParseArgsChecked(parsed: Result<CommandLine, string>, env: Env): (r: Result<Params, ArgError>)
    ensures r.Success? ==> r.value.nQueries >= 1
    ensures r.Success? <==> ParseArgs(parsed, env).Success? && ParseArgs(parsed, env).value.nQueries >= 1
    ensures r.Success? ==> r == ParseArgs(parsed, env)
    ensures ParseArgs(parsed, env).Failure? ==> r == ParseArgs(parsed, env)
    ensures ParseArgs(parsed, env).Success? && ParseArgs(parsed, env).value.nQueries < 1 ==>
              r == Failure(NoWorkers(ParseArgs(parsed, env).value.nQueries))
  {
    var p :- ParseArgs(parsed, env);
    if p.nQueries < 1 then Failure(NoWorkers(p.nQueries)) else Success(p)
  }

  // ---------------------------------------------------------------------------
  // Properties relating several calls.
  // ---------------------------------------------------------------------------

  /** Resolving a credential a second time changes nothing. */
  lemma ResolveIdempotent(given: string, env: Env, key: string)
    ensures ResolveCredential(ResolveCredential(given, env, key), env, key) == ResolveCredential(given, env, key)
  {
  }

  /** The user name does not depend on the password option or on the password
      variable, and vice versa: each credential is resolved on its own. */
  lemma CredentialsIndependent(cmd: CommandLine, env: Env, passw': Option<string>, pv: string)
    requires Link.IsValidLink(cmd.collLink)
    ensures
      var env' := env[PasswEnv := pv];
      ParseArgs(Success(cmd.(passw := passw')), env').value.user == ParseArgs(Success(cmd), env).value.user
  {
    var env' := env[PasswEnv := pv];
    assert Getenv(env', UserEnv) == Getenv(env, UserEnv);
  }

  lemma PasswordIndependent(cmd: CommandLine, env: Env, user': Option<string>, uv: string)
    requires Link.IsValidLink(cmd.collLink)
    ensures
      var env' := env[UserEnv := uv];
      ParseArgs(Success(cmd.(user := user')), env').value.passw == ParseArgs(Success(cmd), env).value.passw
  {
    var env' := env[UserEnv := uv];
    assert Getenv(env', PasswEnv) == Getenv(env, PasswEnv);
  }

  /** The update requests carry `commit=true` exactly when `--nocommit` was not given. */
  lemma CommitParameterIff(parsed: Result<CommandLine, string>, env: Env)
    requires ParseArgs(parsed, env).Success?
    ensures "commit" in UpdateQuery(ParseArgs(parsed, env).value.commit) <==> !parsed.value.nocommit
    ensures UpdateQuery(ParseArgs(parsed, env).value.commit) == map[] <==> parsed.value.nocommit
  {
  }
}
