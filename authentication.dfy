/** The authentication controller: the login decision, registration, and the
    claim sets handed to the token signer. The password hasher and checker
    (bcrypt), the signer and verifier (JWT), the random salt and the clock
    are parameters: the model fixes what they are given, not what they do. */
module Authentication {
  import opened Common
  import opened Users

  /** A bcrypt salt: cost factor, version prefix, and the random bytes drawn
      when it is generated. */
  datatype Salt = Salt(rounds: int, prefix: string, entropy: seq<bv8>)

  datatype JwtSettings = JwtSettings(privateKey: Option<string>, publicKey: Option<string>, algorithm: string)

  datatype AuthenticationSettings = AuthenticationSettings(
    saltRounds: int, saltPrefix: string, adminEmail: string, jwt: JwtSettings)

  /** Unconfigured keys, HMAC with SHA-256. */
  const DefaultJwtSettings: JwtSettings := JwtSettings(None, None, "HS256")

  /** Cost factor 12, bcrypt version "2b", no admin email. */
  const DefaultSettings: AuthenticationSettings := AuthenticationSettings(12, "2b", "", DefaultJwtSettings)

  /** A claim value: the tokens carry integers and strings. */
  datatype Claim = IntClaim(number: int) | TextClaim(text: string)

  type Claims = map<string, Claim>

  /** bcrypt's hash of a password under a salt. */
  type Hasher = (string, Salt) -> string

  /** bcrypt's check of a plaintext against a stored hash: none when bcrypt
      refuses the stored value because it is not a bcrypt hash ("Invalid salt"). */
  type Checker = (string, string) -> Option<bool>

  /** The JWT signer: claims, signing key and algorithm to a compact token. */
  type Signer = (Claims, Option<string>, string) -> string

  /** The JWT verifier: token, key and algorithm to the claims, if it verifies. */
  type Verifier = (string, Option<string>, string) -> Option<Claims>

  /** How a controller call ends: it returns a value, or bcrypt raises ValueError. */
  datatype Outcome<T> = Returned(value: T) | Raised

  /** bcrypt's `gensalt` accepts a cost factor from 4 to 31 and the version
      prefixes "2a" and "2b"; it raises ValueError for anything else. */
  predicate GensaltAccepts(rounds: int, prefix: string)
  {
    4 <= rounds <= 31 && (prefix == "2a" || prefix == "2b")
  }

  /** `authenticate_user`: the user found by name, provided the password
      checks against that user's stored hash; otherwise none. bcrypt's
      refusal of a stored value that is not a hash propagates. */
  function AuthenticateUser(users: seq<User>, name: string, password: string, checkpw: Checker): (r: Outcome<Option<User>>)
    ensures r.Returned? && r.value.Some? ==>
      && r.value.value in users && r.value.value.username == name
      && checkpw(password, r.value.value.password) == Some(true)
      && r.value == GetByName(users, name)
    ensures r == Returned(None) <==>
      GetByName(users, name).None? || checkpw(password, GetByName(users, name).value.password) == Some(false)
    ensures r.Raised? <==>
      GetByName(users, name).Some? && checkpw(password, GetByName(users, name).value.password).None?
  {
    var user := GetByName(users, name);
    if user.None? then Returned(None)
    else match checkpw(password, user.value.password)
      case None => Raised
      case Some(matches) => if matches then Returned(user) else Returned(None)
  }

  /** An unknown name and a wrong password for a known name are answered
      alike, provided bcrypt can read the known user's stored hash. */
  lemma FailuresIndistinguishable(users: seq<User>, unknown: string, known: string, password: string, wrong: string, checkpw: Checker)
    requires forall u :: u in users ==> u.username != unknown
    requires exists u :: u in users && u.username == known
    requires forall u :: u in users && u.username == known ==> checkpw(wrong, u.password) == Some(false)
    ensures AuthenticateUser(users, unknown, password, checkpw) == Returned(None)
    ensures AuthenticateUser(users, known, wrong, checkpw) == Returned(None)
    ensures AuthenticateUser(users, unknown, password, checkpw) == AuthenticateUser(users, known, wrong, checkpw)
  {

  }

  /** When the known user's stored password is not a bcrypt hash, the call
      raises instead, and so tells that name apart from an unknown one. */
  lemma MalformedStoredHashRaises(users: seq<User>, unknown: string, known: string, password: string, checkpw: Checker)
    requires forall u :: u in users ==> u.username != unknown
    requires GetByName(users, known).Some?
    requires checkpw(password, GetByName(users, known).value.password).None?
    ensures AuthenticateUser(users, unknown, password, checkpw) == Returned(None)
    ensures AuthenticateUser(users, known, password, checkpw) == Raised
  {

  }

  /** The stored form of a password: its hash under a salt with the
      configured cost factor and version prefix. */
  function HashedPassword(settings: AuthenticationSettings, password: string, entropy: seq<bv8>, hashpw: Hasher): (hash: string)
  {
    hashpw(password, Salt(settings.saltRounds, settings.saltPrefix, entropy))
  }

  /** `register_user`: stores a new user whose password is the salted hash,
      never the plaintext, with the configured cost and prefix; when `gensalt`
      refuses the configured cost or prefix, it raises and stores nothing. */
  method RegisterUser(store: UserStore, name: string, password: string, email: string,
                      settings: AuthenticationSettings, entropy: seq<bv8>, hashpw: Hasher)
    returns (outcome: Outcome<()>)
    requires store.Valid()
    modifies store
    ensures store.Valid()
    ensures outcome.Returned? <==> GensaltAccepts(settings.saltRounds, settings.saltPrefix)
    ensures outcome.Returned? ==>
      && store.users == old(store.users) + [User(old(store.nextUserId), name, HashedPassword(settings, password, entropy, hashpw), email, None)]
      && store.nextUserId == old(store.nextUserId) + 1
    ensures outcome.Raised? ==> store.users == old(store.users) && store.nextUserId == old(store.nextUserId)
    ensures store.roles == old(store.roles)
  {
    if !GensaltAccepts(settings.saltRounds, settings.saltPrefix) {
      return Raised;
    }
    var created := store.Create(name, HashedPassword(settings, password, entropy, hashpw), email);
    outcome := Returned(());
  }

  /** The claims `create_token` signs: the given ones and a `created`
      timestamp, which wins over a caller's own `created`. */
  function WithCreated(data: Claims, now: int): (r: Claims)
    ensures r.Keys == data.Keys + {"created"}
    ensures r["created"] == IntClaim(now)
    ensures forall k :: k in data && k != "created" ==> r[k] == data[k]
  {
    data + map["created" := IntClaim(now)]
  }

  /** `create_token`: signs the caller's claims, with `created` set to the
      call's timestamp, using the configured key and algorithm. */
  function CreateToken(data: Claims, now: int, settings: AuthenticationSettings, sign: Signer): (token: string)
    ensures token == sign(data["created" := IntClaim(now)], settings.jwt.privateKey, settings.jwt.algorithm)
  {
    assert WithCreated(data, now) == data["created" := IntClaim(now)];
    sign(WithCreated(data, now), settings.jwt.privateKey, settings.jwt.algorithm)
  }

  /** `create_user_access_token`: the signer receives exactly the user's id,
      the user's name and the creation time. */
  function CreateUserAccessToken(user: User, now: int, settings: AuthenticationSettings, sign: Signer): (token: string)
    ensures token == sign(map["user_id" := IntClaim(user.id), "username" := TextClaim(user.username), "created" := IntClaim(now)],
                          settings.jwt.privateKey, settings.jwt.algorithm)
  {
    var data := map["user_id" := IntClaim(user.id), "username" := TextClaim(user.username)];
    assert WithCreated(data, now) == data["created" := IntClaim(now)];
    CreateToken(data, now, settings, sign)
  }

  /** `create_email_access_token`: the signer receives exactly the name, the
      email and the creation time. */
  function CreateEmailAccessToken(username: string, email: string, now: int, settings: AuthenticationSettings, sign: Signer): (token: string)
    ensures token == sign(map["username" := TextClaim(username), "email" := TextClaim(email), "created" := IntClaim(now)],
                          settings.jwt.privateKey, settings.jwt.algorithm)
  {
    var data := map["username" := TextClaim(username), "email" := TextClaim(email)];
    assert WithCreated(data, now) == data["created" := IntClaim(now)];
    CreateToken(data, now, settings, sign)
  }

  /** With the default settings a password is hashed at cost 12 with prefix
      "2b", and tokens are signed with HS256. */
  lemma DefaultsUseBcrypt2bAndHs256(password: string, entropy: seq<bv8>, hashpw: Hasher, data: Claims, now: int, sign: Signer)
    ensures GensaltAccepts(DefaultSettings.saltRounds, DefaultSettings.saltPrefix)
    ensures HashedPassword(DefaultSettings, password, entropy, hashpw) == hashpw(password, Salt(12, "2b", entropy))
    ensures CreateToken(data, now, DefaultSettings, sign) == sign(WithCreated(data, now), None, "HS256")
  {
  }

  /** A freshly registered user logs in with the password given at
      registration, and the session token issued to that user verifies to
      claims naming the user. Premises: the name was not taken, bcrypt
      accepts a password against its own hash, and the verifier inverts the
      signer for the configured key and algorithm. */
  lemma RegisteredUserAuthenticatesAndTokenNamesUser(
    users: seq<User>, id: int, name: string, password: string, email: string,
    settings: AuthenticationSettings, entropy: seq<bv8>, hashpw: Hasher, checkpw: Checker,
    now: int, sign: Signer, verify: Verifier)
    requires forall u :: u in users ==> u.username != name
    requires checkpw(password, HashedPassword(settings, password, entropy, hashpw)) == Some(true)
    requires forall c :: verify(sign(c, settings.jwt.privateKey, settings.jwt.algorithm), settings.jwt.privateKey, settings.jwt.algorithm) == Some(c)
    ensures var registered := users + [User(id, name, HashedPassword(settings, password, entropy, hashpw), email, None)];
            var login := AuthenticateUser(registered, name, password, checkpw);
            && login.Returned? && login.value.Some?
            && login.value.value.username == name && login.value.value.id == id
            && var claims := verify(CreateUserAccessToken(login.value.value, now, settings, sign), settings.jwt.privateKey, settings.jwt.algorithm);
               && claims.Some?
               && claims.value == map["user_id" := IntClaim(id), "username" := TextClaim(name), "created" := IntClaim(now)]
  {

  }
}
