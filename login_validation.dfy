/**
 * `LoginCommand.loginvalidation`: fills missing credentials from the
 * configuration file, asks for a password when only a user name is known,
 * adopts the credentials into the command object and chooses the URL.
 *
 * The configuration lookups (`config.get_username()` and so on) and the
 * interactive `getpass.getpass()` answer are parameters: `Config` holds what
 * the lookups return and `entered` what the user would type.
 */
module Login {
  import opened Wrappers
  import opened Errors
  import opened Text

  /** The URL used when neither an argument nor the configuration names one: the local interface. */
  const DefaultUrl: string := "blobstore://."

  /** The scheme a URL argument must contain. */
  const HttpsScheme: string := "https://"

  /** What the configuration file returns for `get_username`, `get_password`, `get_bios_password` and `get_url`. */
  datatype Config = Config(username: Option<string>, password: Option<string>,
                           biosPassword: Option<string>, url: Option<string>)

  /** The credential options `user`, `password` and `biospassword`, as values. */
  datatype Credentials = Credentials(user: Option<string>, password: Option<string>, biosPassword: Option<string>)

  /** The fields `url`, `username`, `password` and `biospassword` of the command, as values. */
  datatype Session = Session(url: Option<string>, username: Option<string>,
                             password: Option<string>, biosPassword: Option<string>)

  /** What one validation leaves behind: the options, the command's fields, and whether it raised. */
  datatype Validation = Validation(options: Credentials, session: Session, outcome: Outcome<Error>)

  // ----- the specification, step by step -----

  /** Each credential option that is unset or empty takes the configuration's value. */
  function FillFromConfig(c: Credentials, cfg: Config): Credentials {
    Credentials(
      if Truthy(c.user) then c.user else cfg.username,
      if Truthy(c.password) then c.password else cfg.password,
      if Truthy(c.biosPassword) then c.biosPassword else cfg.biosPassword)
  }

  /** A user name without a password asks for one; an empty answer is an error. */
  function PromptPassword(c: Credentials, entered: string): (r: Result<Credentials, Error>)
    ensures r.Err? <==> Truthy(c.user) && !Truthy(c.password) && entered == ""
    ensures r.Err? ==> r.error == InvalidCommandLineError(EmptyPasswordMessage)
    ensures r.Ok? ==> r.value.user == c.user && r.value.biosPassword == c.biosPassword
    ensures r.Ok? && Truthy(c.password) ==> r.value.password == c.password
    ensures r.Ok? && Truthy(c.user) ==> Truthy(r.value.password)
  {
    if Truthy(c.user) && !Truthy(c.password) then
      if entered != "" then Ok(c.(password := Some(entered)))
      else Err(InvalidCommandLineError(EmptyPasswordMessage))
    else
      Ok(c)
  }

  /** Each field takes the option's value only when that value is set and non-empty. */
  function Adopt(s: Session, c: Credentials): Session {
    s.(username := if Truthy(c.user) then c.user else s.username,
       password := if Truthy(c.password) then c.password else s.password,
       biosPassword := if Truthy(c.biosPassword) then c.biosPassword else s.biosPassword)
  }

  /** A URL argument gets the `https://` scheme in front unless `https://` occurs in it anywhere. */
  function NormalizeUrl(u: string): (r: string)
    ensures Contains(r, HttpsScheme)
    ensures Contains(u, HttpsScheme) ==> r == u
    ensures !Contains(u, HttpsScheme) ==> r == HttpsScheme + u
    ensures |u| <= |r| && r[|r| - |u|..] == u
  {
    ContainsPrefixed(HttpsScheme, u);
    if Contains(u, HttpsScheme) then u else HttpsScheme + u
  }

  /** The whole of `loginvalidation`, from the command's fields `s` and the options `opts` on entry. */
  function Validate(s: Session, opts: Credentials, args: seq<string>, cfg: Config, entered: string): (v: Validation)
    ensures v.outcome.Fail? ==>
      v.outcome.error == InvalidCommandLineError(EmptyPasswordMessage) ||
      v.outcome.error == InvalidCommandLineError(EmptyCredentialsMessage)
    ensures v.outcome.Pass? ==> v.session.url.Some?
    ensures v.outcome.Pass? && |args| > 0 ==> Truthy(v.session.username) && Truthy(v.session.password)
  {
    var filled := FillFromConfig(opts, cfg);
    match PromptPassword(filled, entered)
    case Err(e) => Validation(filled, s, Fail(e))
    case Ok(c) =>
      var adopted := Adopt(s, c);
      if |args| > 0 then
        var withUrl := adopted.(url := Some(NormalizeUrl(args[0])));
        if !Truthy(withUrl.username) || !Truthy(withUrl.password) then
          Validation(c, withUrl, Fail(InvalidCommandLineError(EmptyCredentialsMessage)))
        else
          Validation(c, withUrl, Pass)
      else
        Validation(c, adopted.(url := Some(if Truthy(cfg.url) then cfg.url.value else DefaultUrl)), Pass)
  }

  /** Normalising a URL that is already normalised changes nothing. */
  lemma NormalizeUrlIdempotent(u: string)
    ensures NormalizeUrl(NormalizeUrl(u)) == NormalizeUrl(u)
  {
  }

  // ----- what loginvalidation promises -----

  /**
   * A credential given on the command line is kept; one that is unset or
   * empty comes from the configuration file (the password from the
   * interactive entry instead when neither gives one and a user is known).
   */
  lemma CommandLineCredentialsKept(s: Session, opts: Credentials, args: seq<string>, cfg: Config, entered: string)
    ensures var v := Validate(s, opts, args, cfg, entered);
      (Truthy(opts.user) ==> v.options.user == opts.user) &&
      (!Truthy(opts.user) ==> v.options.user == cfg.username) &&
      (Truthy(opts.password) ==> v.options.password == opts.password) &&
      (!Truthy(opts.password) && Truthy(cfg.password) ==> v.options.password == cfg.password) &&
      (!Truthy(opts.password) && !Truthy(cfg.password) && !Truthy(v.options.user) ==>
        v.options.password == cfg.password) &&
      (Truthy(opts.biosPassword) ==> v.options.biosPassword == opts.biosPassword) &&
      (!Truthy(opts.biosPassword) ==> v.options.biosPassword == cfg.biosPassword)
  {
  }

  /**
   * When a user name but no password is known after consulting the
   * configuration, an empty interactive entry is rejected and leaves the
   * command's fields untouched; a non-empty entry becomes the password.
   */
  lemma PasswordPrompt(s: Session, opts: Credentials, args: seq<string>, cfg: Config, entered: string)
    requires Truthy(FillFromConfig(opts, cfg).user) && !Truthy(FillFromConfig(opts, cfg).password)
    ensures var v := Validate(s, opts, args, cfg, entered);
      (entered == "" <==> v.outcome == Fail(InvalidCommandLineError(EmptyPasswordMessage))) &&
      (entered == "" ==> v.session == s) &&
      (entered != "" ==> v.options.password == Some(entered) && v.session.password == Some(entered))
  {
  }

  /** In every other case the interactive entry is not consulted at all. */
  lemma NoPromptOtherwise(s: Session, opts: Credentials, args: seq<string>, cfg: Config, entered: string, other: string)
    requires !(Truthy(FillFromConfig(opts, cfg).user) && !Truthy(FillFromConfig(opts, cfg).password))
    ensures Validate(s, opts, args, cfg, entered) == Validate(s, opts, args, cfg, other)
    ensures Validate(s, opts, args, cfg, entered).outcome != Fail(InvalidCommandLineError(EmptyPasswordMessage))
  {
  }

  /**
   * Each of the command's credential fields either keeps its previous value
   * or takes the non-empty option value; once past the password entry it
   * takes the option value exactly when that value is non-empty.
   */
  lemma FieldsTakeOnlyNonEmptyCredentials(s: Session, opts: Credentials, args: seq<string>, cfg: Config, entered: string)
    ensures var v := Validate(s, opts, args, cfg, entered);
      (v.session.username == s.username || (Truthy(v.options.user) && v.session.username == v.options.user)) &&
      (v.session.password == s.password || (Truthy(v.options.password) && v.session.password == v.options.password)) &&
      (v.session.biosPassword == s.biosPassword ||
        (Truthy(v.options.biosPassword) && v.session.biosPassword == v.options.biosPassword))
    ensures var v := Validate(s, opts, args, cfg, entered);
      v.outcome != Fail(InvalidCommandLineError(EmptyPasswordMessage)) ==>
        (Truthy(v.options.user) ==> v.session.username == v.options.user) &&
        (!Truthy(v.options.user) ==> v.session.username == s.username) &&
        (Truthy(v.options.password) ==> v.session.password == v.options.password) &&
        (!Truthy(v.options.password) ==> v.session.password == s.password) &&
        (Truthy(v.options.biosPassword) ==> v.session.biosPassword == v.options.biosPassword) &&
        (!Truthy(v.options.biosPassword) ==> v.session.biosPassword == s.biosPassword)
  {
  }

  /**
   * Without a positional argument there is no URL check: the validation fails
   * only at the password entry, and otherwise the URL is the configured one
   * if there is one, else exactly `blobstore://.`, with no scheme added.
   */
  lemma UrlWithoutArgument(s: Session, opts: Credentials, cfg: Config, entered: string)
    ensures var v := Validate(s, opts, [], cfg, entered);
      (v.outcome.Fail? <==> PromptPassword(FillFromConfig(opts, cfg), entered).Err?) &&
      (v.outcome.Pass? && Truthy(cfg.url) ==> v.session.url == cfg.url) &&
      (v.outcome.Pass? && !Truthy(cfg.url) ==> v.session.url == Some(DefaultUrl))
  {
  }

  /**
   * With a positional argument the URL is the argument, prefixed with
   * `https://` unless that already occurs in it, so it always contains
   * `https://` and normalising it again changes nothing; the validation then
   * fails exactly when the command holds no username or no password.
   */
  lemma UrlArgument(s: Session, opts: Credentials, args: seq<string>, cfg: Config, entered: string)
    requires |args| > 0
    requires PromptPassword(FillFromConfig(opts, cfg), entered).Ok?
    ensures var v := Validate(s, opts, args, cfg, entered);
      v.session.url.Some? && Contains(v.session.url.value, HttpsScheme) &&
      NormalizeUrl(v.session.url.value) == v.session.url.value &&
      (Contains(args[0], HttpsScheme) ==> v.session.url == Some(args[0])) &&
      (!Contains(args[0], HttpsScheme) ==> v.session.url == Some(HttpsScheme + args[0]))
    ensures var v := Validate(s, opts, args, cfg, entered);
      (v.outcome.Fail? <==> !Truthy(v.session.username) || !Truthy(v.session.password)) &&
      (v.outcome.Fail? ==> v.outcome == Fail(InvalidCommandLineError(EmptyCredentialsMessage)))
  {
  }

  /**
   * The URL check reads the command's fields, not the options: a username and
   * password kept from an earlier validation let a URL through even when
   * neither the command line nor the configuration supplies them.
   */
  lemma EarlierCredentialsSatisfyUrlCheck(s: Session, args: seq<string>, cfg: Config, entered: string)
    requires |args| > 0 && Truthy(s.username) && Truthy(s.password)
    requires !Truthy(cfg.username) && !Truthy(cfg.password)
    ensures Validate(s, Credentials(None, None, None), args, cfg, entered).outcome == Pass
  {
  }

  // ----- the objects -----

  /** The parsed command-line options whose credential fields `loginvalidation` rewrites. */
  class LoginOptions {
    var user: Option<string>
    var password: Option<string>
    var biospassword: Option<string>

    constructor (user: Option<string>, password: Option<string>, biospassword: Option<string>)
      ensures Values() == Credentials(user, password, biospassword)
    {
      this.user := user;
      this.password := password;
      this.biospassword := biospassword;
    }

    function Values(): Credentials
      reads this
    {
      Credentials(user, password, biospassword)
    }

    /** The first block of `loginvalidation`: unset or empty credentials are read from the configuration file. */
    method FillMissingFromConfig(cfg: Config)
      modifies this
      ensures Values() == FillFromConfig(old(Values()), cfg)
    {
      if !Truthy(user) {
        user := cfg.username;
      }
      if !Truthy(password) {
        password := cfg.password;
      }
      if !Truthy(biospassword) {
        biospassword := cfg.biosPassword;
      }
    }
  }

  /** The login command with the session fields it keeps between calls. */
  class LoginCommand {
    var url: Option<string>
    var username: Option<string>
    var password: Option<string>
    var biospassword: Option<string>

    /** A new command holds no URL and no credentials. */
    constructor ()
      ensures State() == Session(None, None, None, None)
    {
      url, username, password, biospassword := None, None, None, None;
    }

    function State(): Session
      reads this
    {
      Session(url, username, password, biospassword)
    }

    /** The middle block of `loginvalidation`: each credential that is set and non-empty is copied into this command. */
    method AdoptCredentials(options: LoginOptions)
      modifies this
      ensures State() == Adopt(old(State()), options.Values())
    {
      if Truthy(options.user) {
        username := options.user;
      }
      if Truthy(options.password) {
        password := options.password;
      }
      if Truthy(options.biospassword) {
        biospassword := options.biospassword;
      }
    }

    /**
     * `loginvalidation(options, args)`: updates `options` and this command's
     * fields as `Validate` says, and reports the exception it raises, if any.
     */
    method LoginValidation(options: LoginOptions, args: seq<string>, cfg: Config, entered: string)
        returns (outcome: Outcome<Error>)
      modifies this, options
      ensures var v := Validate(old(State()), old(options.Values()), args, cfg, entered);
        options.Values() == v.options && State() == v.session && outcome == v.outcome
    {
      ghost var entryOptions, entryState := options.Values(), State();

      options.FillMissingFromConfig(cfg);
      ghost var filled := options.Values();

      // a user name without a password: the interactive entry
      if Truthy(options.user) && !Truthy(options.password) {
        if entered != "" {
          options.password := Some(entered);
        } else {
          return Fail(InvalidCommandLineError(EmptyPasswordMessage));
        }
      }
      ghost var prompted := options.Values();
      assert PromptPassword(filled, entered) == Ok(prompted);

      AdoptCredentials(options);
      ghost var adopted := State();

      url := Some(DefaultUrl);
      if |args| > 0 {
        url := Some(args[0]);
        if !Contains(url.value, HttpsScheme) {
          url := Some(HttpsScheme + url.value);
        }
        assert url == Some(NormalizeUrl(args[0]));
        if !Truthy(username) || !Truthy(password) {
          return Fail(InvalidCommandLineError(EmptyCredentialsMessage));
        }
      } else {
        if Truthy(cfg.url) {
          url := cfg.url;
        }
      }
      assert Validate(entryState, entryOptions, args, cfg, entered) == Validation(prompted, State(), Pass);
      return Pass;
    }
  }
}
