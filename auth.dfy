/** A model of the custom identity provider of an AWS Transfer Family server.

    On every connection attempt the transfer service calls `handler` with a
    username and either a password or an empty password (meaning "public-key
    authentication is requested").  The provider reads one credential record
    from Secrets Manager, under the name prefix + username, and answers either
    with an empty response (deny) or with the attributes of the session: the
    role to assume, a logical home directory mapping "/" to the user's home
    directory and, for public-key authentication only, the stored keys that
    the transfer service then matches the presented key against.

    The Secrets Manager call is a value here: a `SecretStore` that either
    fails for this call or holds secrets by name.  The log lines the source
    prints are reduced to their `action` tag and its reason or auth type.
 */
module Auth {

  datatype Option<+T> = None | Some(value: T)

  /** The JSON object stored in a user's secret.  A field that is absent (or
      JSON null) is `None`; `roleArn` and `homeDirectory` are required. */
  datatype CredentialRecord = CredentialRecord(
    password: Option<string>,
    publicKeys: Option<seq<string>>,
    roleArn: string,
    homeDirectory: string)

  /** What `json.loads` makes of a secret's SecretString: a record, the JSON
      literal `null` (which parses to Python's None), or an error. */
  datatype SecretString = Parsed(record: CredentialRecord) | ParsedNull | Unparseable(error: string)

  /** Secrets Manager as one `get_secret_value` call sees it: `failure` is an
      error the call raises whatever the name (throttling, access denied, the
      network), otherwise `secrets` holds the stored secrets by name. */
  datatype SecretStore = SecretStore(secrets: map<string, SecretString>, failure: Option<string>)

  /** The outcome of `_fetch_secret`: no such secret, an exception, or a record. */
  datatype Lookup = NotFound | Fault(message: string) | Found(record: CredentialRecord)

  /** The fields of the invocation event that take part in the decision;
      `None` is a key missing from the event. */
  datatype Request = Request(username: Option<string>, password: Option<string>)

  /** One element of HomeDirectoryDetails. */
  datatype HomeEntry = HomeEntry(entry: string, target: string)

  /** The response to the transfer service: the empty dict, or the session
      attributes; `publicKeys` is `None` when the key PublicKeys is absent. */
  datatype Response =
    | Deny
    | Success(role: string, homeDirectoryType: string,
              homeDirectoryDetails: seq<HomeEntry>, publicKeys: Option<seq<string>>)

  datatype AuthType = Password | PublicKey

  datatype FailReason = UserNotFound | InvalidPassword | NoPublicKeysConfigured

  /** The `action` of a log line, with its reason or auth type. */
  datatype Event =
    | AuthAttempt(attemptType: AuthType)
    | AuthError(message: string)
    | AuthFail(reason: FailReason)
    | AuthSuccess(successType: AuthType)

  /** What one invocation returns, together with the log lines it emits in order. */
  datatype Outcome = Outcome(response: Response, events: seq<Event>)

  const LogicalHomeDirectoryType: string := "LOGICAL"
  const RootEntry: string := "/"

  /** `event.get("username", "")`. */
  function Username(req: Request): string {
    match req.username
    case Some(u) => u
    case None => ""
  }

  /** `event.get("password", "")`: the empty string means no password was presented. */
  function PresentedPassword(req: Request): string {
    match req.password
    case Some(p) => p
    case None => ""
  }

  /** The auth type the attempt is logged with. */
  function AttemptType(req: Request): (t: AuthType)
    ensures t == Password <==> PresentedPassword(req) != ""
  {
    if PresentedPassword(req) != "" then Password else PublicKey
  }

  // ---------------------------------------------------------------------------
  // The provider's documented rules (its module docstring), stated
  // independently of the decision procedure
  // ---------------------------------------------------------------------------

  /** The record admits the presented password: a password was presented and
      the record stores exactly that password.  An empty presented password
      selects public-key authentication, which the record admits when it
      lists at least one key. */
  ghost predicate Admits(rec: CredentialRecord, presented: string) {
    if presented != "" then rec.password == Some(presented)
    else exists keys :: rec.publicKeys == Some(keys) && keys != []
  }

  /** A record that no method can authenticate against. */
  ghost predicate HasNoCredential(rec: CredentialRecord) {
    (rec.password == None || rec.password == Some(""))
    && (rec.publicKeys == None || rec.publicKeys == Some([]))
  }

  /** `r` is a session for `rec`: its role, a logical home directory, and a
      single mapping of the root to the record's home directory. */
  ghost predicate IsSessionFor(r: Response, rec: CredentialRecord) {
    && r.Success?
    && r.role == rec.roleArn
    && r.homeDirectoryType == LogicalHomeDirectoryType
    && |r.homeDirectoryDetails| == 1
    && r.homeDirectoryDetails[0].entry == RootEntry
    && r.homeDirectoryDetails[0].target == rec.homeDirectory
  }

  // ---------------------------------------------------------------------------
  // The secret lookup
  // ---------------------------------------------------------------------------

  /** The name of a user's secret: the configured prefix, then the username. */
  function SecretName(prefix: string, username: string): (name: string)
    ensures |name| == |prefix| + |username|
    ensures name[..|prefix|] == prefix && name[|prefix|..] == username
  {
    prefix + username
  }

  /** `_fetch_secret`: a missing secret is `NotFound`, and so is a secret whose
      JSON is `null`, since both come back as None; every other exception,
      including one from parsing the secret's JSON, is a `Fault`. */
  function FetchSecret(store: SecretStore, prefix: string, username: string): (r: Lookup)
    ensures store.failure.Some? ==> r == Fault(store.failure.value)
    ensures r.NotFound? <==> store.failure == None
                             && (SecretName(prefix, username) !in store.secrets
                                 || store.secrets[SecretName(prefix, username)] == ParsedNull)
    ensures r.Found? <==> store.failure == None && SecretName(prefix, username) in store.secrets
                          && store.secrets[SecretName(prefix, username)].Parsed?
    ensures r.Found? ==> Parsed(r.record) == store.secrets[SecretName(prefix, username)]
    ensures store.failure == None && SecretName(prefix, username) in store.secrets
            && store.secrets[SecretName(prefix, username)].Unparseable? ==>
              r == Fault(store.secrets[SecretName(prefix, username)].error)
  {
    var name := SecretName(prefix, username);
    if store.failure.Some? then Fault(store.failure.value)
    else if name !in store.secrets then NotFound
    else match store.secrets[name]
      case Parsed(rec) => Found(rec)
      case ParsedNull => NotFound
      case Unparseable(error) => Fault(error)
  }

  // ---------------------------------------------------------------------------
  // The decision
  // ---------------------------------------------------------------------------

  /** `_auth_response`: the session attributes common to both methods. */
  function AuthResponse(rec: CredentialRecord): (r: Response)
    ensures IsSessionFor(r, rec) && r.publicKeys == None
  {
    Success(rec.roleArn, LogicalHomeDirectoryType, [HomeEntry(RootEntry, rec.homeDirectory)], None)
  }

  /** The body of `handler` after the lookup: the response and the log lines. */
  function Decide(req: Request, lookup: Lookup): (o: Outcome)
    // one attempt line, then exactly one terminal line
    ensures |o.events| == 2 && o.events[0] == AuthAttempt(AttemptType(req))
    // success exactly when the record admits what was presented
    ensures o.response.Success? <==> lookup.Found? && Admits(lookup.record, PresentedPassword(req))
    ensures o.response.Success? ==> IsSessionFor(o.response, lookup.record)
    // keys only on the key path, and then the stored list itself
    ensures o.response.Success? ==>
              o.response.publicKeys == (if PresentedPassword(req) != "" then None
                                        else lookup.record.publicKeys)
    // the terminal line matches the branch taken
    ensures o.response.Success? <==> o.events[1] == AuthSuccess(AttemptType(req))
    ensures lookup.Fault? ==> o.events[1] == AuthError(lookup.message)
    ensures lookup.NotFound? ==> o.events[1] == AuthFail(UserNotFound)
    ensures lookup.Found? && !o.response.Success? ==>
              o.events[1] == AuthFail(if PresentedPassword(req) != "" then InvalidPassword
                                      else NoPublicKeysConfigured)
  {
    var password := PresentedPassword(req);
    var attempt := AuthAttempt(AttemptType(req));
    match lookup
    case Fault(message) => Outcome(Deny, [attempt, AuthError(message)])
    case NotFound => Outcome(Deny, [attempt, AuthFail(UserNotFound)])
    case Found(secret) =>
      if password != "" then
        var stored := match secret.password case Some(p) => p case None => "";
        if stored == "" || password != stored then
          Outcome(Deny, [attempt, AuthFail(InvalidPassword)])
        else
          Outcome(AuthResponse(secret), [attempt, AuthSuccess(Password)])
      else
        var keys := match secret.publicKeys case Some(ks) => ks case None => [];
        if keys == [] then
          Outcome(Deny, [attempt, AuthFail(NoPublicKeysConfigured)])
        else
          Outcome(AuthResponse(secret).(publicKeys := Some(keys)), [attempt, AuthSuccess(PublicKey)])
  }

  /** `handler`: look up the secret named after the request's username, then decide. */
  function Handler(store: SecretStore, prefix: string, req: Request): (o: Outcome)
    ensures |o.events| == 2 && o.events[0] == AuthAttempt(AttemptType(req))
    ensures o.response.Success? ==>
              && store.failure == None
              && SecretName(prefix, Username(req)) in store.secrets
              && var s := store.secrets[SecretName(prefix, Username(req))];
                 s.Parsed? && Admits(s.record, PresentedPassword(req)) && IsSessionFor(o.response, s.record)
    ensures store.failure.Some? ==> o.response == Deny && o.events[1] == AuthError(store.failure.value)
    ensures store.failure == None
            && (SecretName(prefix, Username(req)) !in store.secrets
                || store.secrets[SecretName(prefix, Username(req))] == ParsedNull) ==>
              o.response == Deny && o.events[1] == AuthFail(UserNotFound)
  {
    Decide(req, FetchSecret(store, prefix, Username(req)))
  }

  // ---------------------------------------------------------------------------
  // Properties relating several calls
  // ---------------------------------------------------------------------------

  /** Fail-closed: a record with neither a password nor a key admits nobody. */
  lemma FailClosed(rec: CredentialRecord, req: Request)
    requires HasNoCredential(rec)
    ensures Decide(req, Found(rec)).response == Deny
  {
  }

  /** Precedence: once a password is presented, the stored keys play no part. */
  lemma PasswordIgnoresStoredKeys(req: Request, rec: CredentialRecord, keys: Option<seq<string>>)
    requires PresentedPassword(req) != ""
    ensures Decide(req, Found(rec)) == Decide(req, Found(rec.(publicKeys := keys)))
  {
  }

  /** Without a presented password, the stored password plays no part. */
  lemma KeyPathIgnoresStoredPassword(req: Request, rec: CredentialRecord, password: Option<string>)
    requires PresentedPassword(req) == ""
    ensures Decide(req, Found(rec)) == Decide(req, Found(rec.(password := password)))
  {
  }

  /** A user with both a password and keys can connect either way, and which
      way is chosen by the request alone. */
  lemma BothConfiguredEitherWay(rec: CredentialRecord)
    requires rec.password.Some? && rec.password.value != ""
    requires rec.publicKeys.Some? && rec.publicKeys.value != []
    ensures exists req :: Decide(req, Found(rec)).response == AuthResponse(rec)
    ensures exists req :: Decide(req, Found(rec)).response
                          == AuthResponse(rec).(publicKeys := rec.publicKeys)
  {
    var byPassword := Request(None, rec.password);
    var byKey := Request(None, None);
    assert Decide(byPassword, Found(rec)).response == AuthResponse(rec);
    assert Decide(byKey, Found(rec)).response == AuthResponse(rec).(publicKeys := rec.publicKeys);
  }

  /** Under one prefix, distinct usernames name distinct secrets. */
  lemma SecretNameInjective(prefix: string, u: string, v: string)
    requires SecretName(prefix, u) == SecretName(prefix, v)
    ensures u == v
  {
    // both are what follows the prefix in the one name (SecretName's contract)
  }

  /** Replacing, adding or corrupting another user's secret does not change
      the answer for this request. */
  lemma OtherUsersSecretsIrrelevant(store: SecretStore, prefix: string, req: Request,
                                    other: string, s: SecretString)
    requires other != Username(req)
    ensures Handler(store.(secrets := store.secrets[SecretName(prefix, other) := s]), prefix, req)
            == Handler(store, prefix, req)
  {
    // SecretName's contract makes the two names differ (the fact stated as
    // SecretNameInjective), so the lookup is untouched
  }
}
