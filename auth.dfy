/** The local/external token store of backend/auth.py: four maps keyed by the
    locally issued token, the one-hour expiry rule, the normalisation of the
    Authorization header, and the decision between pass-through, cached
    token, refresh and 401. The clock, the random token and the upstream
    login are parameters. */
module Auth {
  import opened Wrappers
  import opened JsonValues
  import opened Text
  import opened Errors
  import opened ExternalApi

  /** Instants in microseconds, the resolution of `datetime`. */
  type Instant = int

  const MicrosPerSecond: int := 1_000_000
  const ExternalTokenExpiryHours: int := 1
  const ExpiryMicros: int := ExternalTokenExpiryHours * 3600 * MicrosPerSecond

  type Credentials = (string, string)

  /** The upstream login endpoint: the answer to a username and a password. */
  type LoginService = (string, string) -> HttpOutcome

  /** `response.get("access_token")` when it is usable as a token: a
      non-empty JSON string. A body that is not an object makes `.get` raise,
      and the refresh swallows that. */
  function AccessToken(body: Json): (r: Option<string>)
    ensures r.Some? ==> r.value != ""
    ensures r.Some? <==> body.JObj? && "access_token" in body.fields
                         && body.fields["access_token"].JStr? && body.fields["access_token"].s != ""
  {
    match body
    case JObj(fields) =>
      (match Lookup(fields, "access_token")
       case Some(JStr(s)) => if s != "" then Some(s) else None
       case _ => None)
    case _ => None
  }

  class TokenStore {
    var validTokens: map<string, string>        // local token -> username
    var externalTokens: map<string, string>     // local token -> external token
    var timestamps: map<string, Instant>        // local token -> when last stored
    var credentials: map<string, Credentials>   // local token -> (username, password)

    /** Every map is keyed by issued tokens, and every issued token has a timestamp. */
    ghost predicate Valid()
      reads this
    {
      && timestamps.Keys == validTokens.Keys
      && externalTokens.Keys <= validTokens.Keys
      && credentials.Keys <= validTokens.Keys
    }

    constructor ()
      ensures Valid()
      ensures validTokens == map[] && externalTokens == map[]
      ensures timestamps == map[] && credentials == map[]
    {
      validTokens, externalTokens, timestamps, credentials := map[], map[], map[], map[];
    }

    /** `create_token`, with `token` the fresh random token and `now` the clock. */
    method CreateToken(token: string, username: string, externalApiToken: Option<string>,
                       creds: Option<Credentials>, now: Instant) returns (t: string)
      requires Valid()
      requires token !in validTokens
      modifies this
      ensures Valid()
      ensures t == token
      ensures validTokens == old(validTokens)[token := username]
      ensures timestamps == old(timestamps)[token := now]
      ensures externalTokens == if Given(externalApiToken) then old(externalTokens)[token := externalApiToken.value]
                                else old(externalTokens)
      ensures credentials == if creds.Some? then old(credentials)[token := creds.value] else old(credentials)
    {
      validTokens := validTokens[token := username];
      timestamps := timestamps[token := now];
      if Given(externalApiToken) {
        externalTokens := externalTokens[token := externalApiToken.value];
      }
      if creds.Some? {
        credentials := credentials[token := creds.value];
      }
      t := token;
    }

    /** `set_external_api_token`: only for an issued token; overwrites the one
        external token and restarts its hour. */
    method SetExternalApiToken(localToken: string, externalApiToken: string, now: Instant)
      requires Valid()
      modifies this
      ensures Valid()
      ensures validTokens == old(validTokens) && credentials == old(credentials)
      ensures localToken in old(validTokens) ==>
                externalTokens == old(externalTokens)[localToken := externalApiToken]
                && timestamps == old(timestamps)[localToken := now]
      ensures localToken !in old(validTokens) ==>
                externalTokens == old(externalTokens) && timestamps == old(timestamps)
    {
      if localToken in validTokens {
        externalTokens := externalTokens[localToken := externalApiToken];
        timestamps := timestamps[localToken := now];
      }
    }

    /** `get_external_api_token`. */
    function GetExternalApiToken(localToken: string): (r: Option<string>)
      reads this
      ensures r.Some? <==> localToken in externalTokens
      ensures r.Some? ==> r.value == externalTokens[localToken]
    {
      if localToken in externalTokens then Some(externalTokens[localToken]) else None
    }

    /** `is_token_expired`: no timestamp counts as expired; otherwise expired
        from one hour after the timestamp on, that instant included. */
    function IsTokenExpired(localToken: string, now: Instant): (r: bool)
      reads this
      ensures localToken !in timestamps ==> r
      ensures localToken in timestamps ==> (r <==> now - timestamps[localToken] >= ExpiryMicros)
    {
      if localToken !in timestamps then true
      else now >= timestamps[localToken] + ExpiryMicros
    }

    /** `get_current_user`: 401 for a missing header or an unknown token,
        otherwise the username of the normalised token. */
    function CurrentUser(authorization: Option<string>): (r: Result<string, HttpError>)
      reads this
      ensures r.Ok? <==> Given(authorization) && NormalizeAuthorization(authorization.value) in validTokens
      ensures r.Ok? ==> r.value == validTokens[NormalizeAuthorization(authorization.value)]
      ensures !Given(authorization) ==> r == Err(HttpError(401, MissingToken))
      ensures Given(authorization) && NormalizeAuthorization(authorization.value) !in validTokens
              ==> r == Err(HttpError(401, InvalidToken))
    {
      if !Given(authorization) then Err(HttpError(401, MissingToken))
      else
        var token := NormalizeAuthorization(authorization.value);
        if token !in validTokens then Err(HttpError(401, InvalidToken))
        else Ok(validTokens[token])
    }

    /** What `refresh_external_api_token` returns: nothing without stored
        credentials (the login is then not consulted); otherwise the access
        token of a successful login, and nothing when the login raises or
        yields no usable token. */
    function RefreshedToken(localToken: string, login: LoginService): (r: Option<string>)
      reads this
      ensures localToken !in credentials ==> r.None?
      ensures r.Some? ==> r.value != ""
      ensures localToken in credentials ==>
                var response := Classify(login(credentials[localToken].0, credentials[localToken].1));
                r == if response.Ok? then AccessToken(response.value) else None
    {
      if localToken !in credentials then None
      else
        var (username, password) := credentials[localToken];
        match Classify(login(username, password))
        case Ok(body) => AccessToken(body)
        case Err(_) => None
    }

    /** `refresh_external_api_token`: a refreshed token is stored through
        `set_external_api_token`, which restarts its hour. */
    method RefreshExternalApiToken(localToken: string, now: Instant, login: LoginService)
      returns (r: Option<string>)
      requires Valid()
      modifies this
      ensures Valid()
      ensures r == old(RefreshedToken(localToken, login))
      ensures validTokens == old(validTokens) && credentials == old(credentials)
      ensures r.Some? ==> externalTokens == old(externalTokens)[localToken := r.value]
                          && timestamps == old(timestamps)[localToken := now]
      ensures r.None? ==> externalTokens == old(externalTokens) && timestamps == old(timestamps)
    {
      if localToken !in credentials {
        return None;
      }
      var (username, password) := credentials[localToken];
      var response := Classify(login(username, password));
      if response.Err? {
        return None;
      }
      var externalToken := AccessToken(response.value);
      if externalToken.Some? {
        SetExternalApiToken(localToken, externalToken.value, now);
        return externalToken;
      }
      return None;
    }

    /** What `get_external_api_authorization` returns, decided on the state
        it starts from. */
    function Authorization(authorization: Option<string>, now: Instant, login: LoginService)
      : (r: Result<string, HttpError>)
      reads this
      ensures r.Err? ==> r.error.status == 401
      ensures !Given(authorization) ==> r == Err(HttpError(401, MissingToken))
      ensures Given(authorization) ==>
                var token := NormalizeAuthorization(authorization.value);
                && (token !in validTokens ==> r == Ok(BearerPrefix + token))
                && (token in validTokens && IsTokenExpired(token, now) ==>
                      r == match RefreshedToken(token, login)
                           case Some(t) => Ok(BearerPrefix + t)
                           case None => Err(HttpError(401, ExpiredNotRefreshable)))
                && (token in validTokens && !IsTokenExpired(token, now) ==>
                      r == if token in externalTokens && externalTokens[token] != ""
                           then Ok(BearerPrefix + externalTokens[token])
                           else Err(HttpError(401, NoExternalToken)))
    {
      if !Given(authorization) then Err(HttpError(401, MissingToken))
      else
        var token := NormalizeAuthorization(authorization.value);
        if token !in validTokens then Ok(BearerPrefix + token)
        else if IsTokenExpired(token, now) then
          match RefreshedToken(token, login)
          case Some(t) => Ok(BearerPrefix + t)
          case None => Err(HttpError(401, ExpiredNotRefreshable))
        else
          match GetExternalApiToken(token)
          case Some(t) => if t != "" then Ok(BearerPrefix + t) else Err(HttpError(401, NoExternalToken))
          case None => Err(HttpError(401, NoExternalToken))
    }

    /** The (local token, external token) pair that resolving the header
        stores: only on the refresh branch, and only when the refresh yields a token. */
    ghost function RefreshWrite(authorization: Option<string>, now: Instant, login: LoginService)
      : Option<(string, string)>
      reads this
    {
      if !Given(authorization) then None
      else
        var token := NormalizeAuthorization(authorization.value);
        if token in validTokens && IsTokenExpired(token, now) && RefreshedToken(token, login).Some?
        then Some((token, RefreshedToken(token, login).value))
        else None
    }

    /** The store after resolving the header from the state before: only the
        refresh branch writes, through `set_external_api_token`. */
    twostate predicate Resolved(authorization: Option<string>, now: Instant, login: LoginService)
      reads this
    {
      && validTokens == old(validTokens) && credentials == old(credentials)
      && match old(RefreshWrite(authorization, now, login))
         case Some((t, e)) => externalTokens == old(externalTokens)[t := e]
                              && timestamps == old(timestamps)[t := now]
         case None => externalTokens == old(externalTokens) && timestamps == old(timestamps)
    }

    /** `get_external_api_authorization`: a token that is not issued here is
        passed through; an expired one is refreshed; otherwise the cached
        external token is used. */
    method GetExternalApiAuthorization(authorization: Option<string>, now: Instant, login: LoginService)
      returns (r: Result<string, HttpError>)
      requires Valid()
      modifies this
      ensures Valid()
      ensures r == old(Authorization(authorization, now, login))
      ensures Resolved(authorization, now, login)
    {
      if !Given(authorization) {
        return Err(HttpError(401, MissingToken));
      }
      var token := NormalizeAuthorization(authorization.value);
      if token !in validTokens {
        return Ok(BearerPrefix + token);
      }
      if IsTokenExpired(token, now) {
        var refreshed := RefreshExternalApiToken(token, now, login);
        if refreshed.Some? && refreshed.value != "" {
          return Ok(BearerPrefix + refreshed.value);
        }
        return Err(HttpError(401, ExpiredNotRefreshable));
      }
      var externalToken := GetExternalApiToken(token);
      if externalToken.Some? && externalToken.value != "" {
        return Ok(BearerPrefix + externalToken.value);
      }
      return Err(HttpError(401, NoExternalToken));
    }

    /** `get_external_api_authorization_optional`: None wherever the strict
        version raises, with the same effect on the store. */
    method GetExternalApiAuthorizationOptional(authorization: Option<string>, now: Instant,
                                               login: LoginService) returns (r: Option<string>)
      requires Valid()
      modifies this
      ensures Valid()
      ensures r == old(Authorization(authorization, now, login)).ToOption()
      ensures Resolved(authorization, now, login)
    {
      if !Given(authorization) {
        return None;
      }
      var strict := GetExternalApiAuthorization(authorization, now, login);
      return strict.ToOption();
    }
  }

  /** A token stored at `t0` is still valid at 59 minutes 59 seconds and
      expired at one hour. */
  lemma ExpiryBoundary(store: TokenStore, token: string, t0: Instant)
    requires token in store.timestamps && store.timestamps[token] == t0
    ensures !store.IsTokenExpired(token, t0 + (59 * 60 + 59) * MicrosPerSecond)
    ensures store.IsTokenExpired(token, t0 + 60 * 60 * MicrosPerSecond)
  {
  }

  /** Without stored credentials an expired token ends in 401, whatever the
      login service would have answered. */
  lemma ExpiredWithoutCredentials(store: TokenStore, authorization: Option<string>, now: Instant,
                                  login: LoginService)
    requires Given(authorization)
    requires var token := NormalizeAuthorization(authorization.value);
             token in store.validTokens && token !in store.credentials && store.IsTokenExpired(token, now)
    ensures store.Authorization(authorization, now, login) == Err(HttpError(401, ExpiredNotRefreshable))
    ensures store.RefreshWrite(authorization, now, login).None?
  {
  }

  /** The characters of `secrets.token_urlsafe`: letters, digits, '-' and '_'. */
  predicate UrlSafe(token: string) {
    forall i :: 0 <= i < |token| ==>
      ('a' <= token[i] <= 'z') || ('A' <= token[i] <= 'Z') || ('0' <= token[i] <= '9')
      || token[i] == '-' || token[i] == '_'
  }

  /** A URL-safe token has no space, so it never contains "Bearer ". */
  lemma UrlSafeHasNoBearer(token: string)
    requires UrlSafe(token)
    ensures !Contains(token, BearerPrefix)
  {
    forall i | 0 <= i <= |token| ensures !OccursAt(token, BearerPrefix, i) {
      if i + |BearerPrefix| <= |token| {
        assert token[i..i + |BearerPrefix|][6] == token[i + 6] != ' ';
      }
    }
  }

  /** A URL-safe token is its own normal form, bare or after "Bearer ". */
  lemma UrlSafeNormalizes(token: string)
    requires UrlSafe(token)
    ensures NormalizeAuthorization(token) == token
    ensures NormalizeAuthorization(BearerPrefix + token) == token
  {
    UrlSafeHasNoBearer(token);
    if token != [] {
      assert !IsSpace(token[0]) && !IsSpace(token[|token| - 1]);
    }
    NormalizeCleanToken(token);
  }

  /** An issued token, sent bare or as "Bearer <token>", resolves to the cached
      external token within its hour. */
  lemma IssuedTokenResolves(store: TokenStore, token: string, now: Instant, login: LoginService)
    requires UrlSafe(token) && token != ""
    requires token in store.timestamps && now < store.timestamps[token] + ExpiryMicros
    requires token in store.validTokens && token in store.externalTokens
    requires store.externalTokens[token] != ""
    ensures store.Authorization(Some(token), now, login) == Ok(BearerPrefix + store.externalTokens[token])
    ensures store.Authorization(Some(BearerPrefix + token), now, login)
            == Ok(BearerPrefix + store.externalTokens[token])
  {
    UrlSafeNormalizes(token);
    assert !store.IsTokenExpired(token, now);
    assert Given(Some(token)) && Given(Some(BearerPrefix + token));
  }

  /** Configured default credentials (backend/config.py defaults). */
  datatype Settings = Settings(defaultUsername: string, defaultPassword: string)

  const DefaultSettings: Settings := Settings("admin", "40")

  /** `verify_credentials` as written: the pair ("", "123456") is first
      replaced by the defaults. */
  function VerifyCredentials(settings: Settings, username: string, password: string): (ok: bool)
    ensures ok <==> (username == settings.defaultUsername && password == settings.defaultPassword)
                    || (username == "" && password == "123456")
  {
    var (u, p) := if username == "" && password == "123456"
                  then (settings.defaultUsername, settings.defaultPassword)
                  else (username, password);
    u == settings.defaultUsername && p == settings.defaultPassword
  }

  /** With the default settings, the staff pair is refused and the empty
      username with the staff password is accepted. */
  lemma StaffAliasMissed()
    ensures !VerifyCredentials(DefaultSettings, "uni_staff", "123456")
    ensures VerifyCredentials(DefaultSettings, "", "123456")
  {
  }

  /** The alias the source's comment and its login proxy
      (backend/routers/auth.py) describe: "uni_staff" with "123456". */
  function VerifyCredentialsIntended(settings: Settings, username: string, password: string): (ok: bool)
    ensures ok <==> (username == settings.defaultUsername && password == settings.defaultPassword)
                    || (username == "uni_staff" && password == "123456")
  {
    var (u, p) := if username == "uni_staff" && password == "123456"
                  then (settings.defaultUsername, settings.defaultPassword)
                  else (username, password);
    u == settings.defaultUsername && p == settings.defaultPassword
  }

  lemma StaffAliasAccepted()
    ensures VerifyCredentialsIntended(DefaultSettings, "uni_staff", "123456")
    ensures !VerifyCredentialsIntended(DefaultSettings, "", "123456")
  {
  }
}
