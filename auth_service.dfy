/**
 * Authentication rules: registration with a username-conflict check and a
 * password policy, credential validation, refresh tokens kept in a table
 * keyed by their hash with an expiry, access tokens bound to a refresh hash,
 * and revocation of every token issued before a user's last reset.
 *
 * bcrypt, SHA-256 and JWT signing are opaque functions held in a `Crypto`
 * record; the clock, the random salt and the fresh user id are parameters.
 */
module AuthService {
  import opened Base
  import opened Entities
  import opened Text

  // ---------------------------------------------------------------- primitives

  /** The claims of a JWT: subject, issued-at and expiry in seconds, and the
      refresh hash that access tokens carry. */
  datatype Claims = Claims(sub: string, iat: int, exp: int, refreshHash: Option<string>)

  /** bcrypt (`hash` with a random salt, `compare`), SHA-256 in base64, and
      JWT signing with a secret and decoding without verification. */
  datatype Crypto = Crypto(
    bcryptHash: (string, string) -> string,
    bcryptCompare: (string, string) -> bool,
    sha256: string -> string,
    sign: (string, Claims) -> string,
    decode: string -> Option<Claims>)

  /** What the rules rely on: a password matches its own hash, and a signed
      token decodes to its claims. */
  ghost predicate Sound(c: Crypto) {
    && (forall p, salt :: c.bcryptCompare(p, c.bcryptHash(p, salt)))
    && (forall key, claims :: c.decode(c.sign(key, claims)) == Some(claims))
  }

  /** The token settings: secrets and lifetimes (in seconds). */
  datatype Config = Config(refreshSecret: string, accessSecret: string, refreshTtlSec: int, accessTtlSec: int)

  /** A row of the refresh-token table, keyed by the token's hash. */
  datatype TokenRecord = TokenRecord(userId: Id, expiresAtMs: int)

  datatype RegisterDto = RegisterDto(username: string, password: string)
  datatype LoginDto = LoginDto(username: string, password: string)
  datatype TokenPair = TokenPair(accessToken: string, refreshToken: string)

  // ---------------------------------------------------------------- users

  /** The user table: each record under its own id, usernames unique. */
  predicate Keyed(users: map<Id, User>) {
    && (forall id :: id in users ==> users[id].id == id)
    && (forall a, b :: a in users && b in users && users[a].username == users[b].username ==> a == b)
  }

  /** `findByUsername`: the unique user with that name, if any. */
  function UserNamed(users: map<Id, User>, name: string): (r: Option<User>)
    requires Keyed(users)
    ensures r.None? <==> forall id :: id in users ==> users[id].username != name
    ensures forall id :: id in users && users[id].username == name ==> r == Some(users[id])
  {
    if exists id :: id in users && users[id].username == name then
      var id :| id in users && users[id].username == name;
      Some(users[id])
    else None
  }

  predicate IsLineTerminator(c: char) {
    c == '\n' || c == '\r' || c == '\U{2028}' || c == '\U{2029}'
  }

  /** The register password pattern: at least 8 UTF-16 code units, none a
      line terminator, with an ASCII upper-case letter, an ASCII lower-case
      letter and a decimal digit somewhere. */
  predicate PasswordPolicy(p: string) {
    && Utf16Length(p) >= 8
    && (forall i :: 0 <= i < |p| ==> !IsLineTerminator(p[i]))
    && (exists i :: 0 <= i < |p| && 'A' <= p[i] <= 'Z')
    && (exists i :: 0 <= i < |p| && 'a' <= p[i] <= 'z')
    && (exists i :: 0 <= i < |p| && '0' <= p[i] <= '9')
  }

  /** The example password of the API passes the policy. */
  lemma PasswordAccepted()
    ensures PasswordPolicy("Stringst1#")
  {
    var good := "Stringst1#";
    Utf16LengthBounds(good);
    assert 'A' <= good[0] <= 'Z' && 'a' <= good[1] <= 'z' && '0' <= good[8] <= '9';
  }

  /** Every password without an ASCII upper-case letter fails it. */
  lemma PasswordNeedsUpper(p: string)
    requires forall i :: 0 <= i < |p| ==> !('A' <= p[i] <= 'Z')
    ensures !PasswordPolicy(p)
  {
  }

  /** Every password without an ASCII lower-case letter fails it. */
  lemma PasswordNeedsLower(p: string)
    requires forall i :: 0 <= i < |p| ==> !('a' <= p[i] <= 'z')
    ensures !PasswordPolicy(p)
  {
  }

  /** Every password without a decimal digit fails it. */
  lemma PasswordNeedsDigit(p: string)
    requires forall i :: 0 <= i < |p| ==> !('0' <= p[i] <= '9')
    ensures !PasswordPolicy(p)
  {
  }

  /** Every password shorter than 8 code units fails it; so does every one of
      fewer than 4 characters, and every one of fewer than 8 characters from
      the Basic Multilingual Plane. */
  lemma PasswordNeedsLength(p: string)
    requires Utf16Length(p) < 8 || |p| < 4 || (|p| < 8 && forall i :: 0 <= i < |p| ==> p[i] as int <= 0xFFFF)
    ensures !PasswordPolicy(p)
  {
    Utf16LengthBounds(p);
  }

  /** Conversely, any 8 characters or more, none a line terminator, with an
      ASCII upper-case letter, an ASCII lower-case letter and a digit, pass. */
  lemma PasswordSufficient(p: string, upper: nat, lower: nat, digit: nat)
    requires |p| >= 8 && forall i :: 0 <= i < |p| ==> !IsLineTerminator(p[i])
    requires upper < |p| && 'A' <= p[upper] <= 'Z'
    requires lower < |p| && 'a' <= p[lower] <= 'z'
    requires digit < |p| && '0' <= p[digit] <= '9'
    ensures PasswordPolicy(p)
  {
    Utf16LengthBounds(p);
  }

  /** `validateUser`: the user, when the name exists and the password matches
      the stored hash. */
  function ValidateUser(crypto: Crypto, users: map<Id, User>, dto: LoginDto): (r: Option<User>)
    requires Keyed(users)
    ensures r.Some? <==> (exists id :: id in users && users[id].username == dto.username
                                && crypto.bcryptCompare(dto.password, users[id].passwordHash))
    ensures r.Some? ==> r.value.id in users && users[r.value.id] == r.value && r.value.username == dto.username
  {
    var u := UserNamed(users, dto.username);
    if u.Some? && crypto.bcryptCompare(dto.password, u.value.passwordHash) then u else None
  }

  // ---------------------------------------------------------------- tokens

  /** The two payload schemas: a token entity (subject a UUID, integer
      issued-at and expiry), and an auth entity, which also needs a refresh
      hash. */
  datatype Schema = TokenSchema | AuthSchema

  /** Schema parsing of a decoded payload: a failure is an unmapped error;
      unknown keys are stripped, so the token schema drops the refresh hash. */
  function Parse(schema: Schema, payload: Option<Claims>): (r: Result<Claims>)
    ensures r.Ok? <==>
      payload.Some? && ValidId(payload.value.sub) && (schema == AuthSchema ==> payload.value.refreshHash.Some?)
    ensures r.Err? ==> r.error == Internal
    ensures r.Ok? ==>
      r.value.sub == payload.value.sub && r.value.iat == payload.value.iat && r.value.exp == payload.value.exp
    ensures r.Ok? && schema == AuthSchema ==> r.value.refreshHash == payload.value.refreshHash
    ensures r.Ok? && schema == TokenSchema ==> r.value.refreshHash.None?
  {
    match payload
    case None => Err(Internal)
    case Some(c) =>
      if !ValidId(c.sub) then Err(Internal)
      else
        match schema
        case TokenSchema => Ok(c.(refreshHash := None))
        case AuthSchema => if c.refreshHash.None? then Err(Internal) else Ok(c)
  }

  /** The claims a JWT gets when signed at `nowMs` with a lifetime: issued-at
      is the clock in whole seconds (rounded down). */
  function Issue(sub: Id, nowMs: int, ttlSec: int, refreshHash: Option<string>): (c: Claims)
    ensures c.sub == sub && c.refreshHash == refreshHash
    ensures c.iat * 1000 <= nowMs < c.iat * 1000 + 1000
    ensures c.exp == c.iat + ttlSec
  {
    Claims(sub, nowMs / 1000, nowMs / 1000 + ttlSec, refreshHash)
  }

  /** `validateRefreshToken`: the hash must have a record whose expiry has not
      passed; the expiry instant itself is still accepted. */
  function CheckRefresh(tokens: map<string, TokenRecord>, hash: string, nowMs: int): (r: Outcome)
    ensures r == Pass <==> hash in tokens && nowMs <= tokens[hash].expiresAtMs
    ensures r != Pass ==> r == Fail(Forbidden)
  {
    if hash !in tokens || nowMs > tokens[hash].expiresAtMs then Fail(Forbidden) else Pass
  }

  /** `refresh`: once the refresh token's hash validates, an access token for
      the user that carries that hash. The clock is read twice: at `checkMs`
      by the expiry check, and at `signMs` when the access token is signed. */
  function Refresh(crypto: Crypto, config: Config, tokens: map<string, TokenRecord>, user: User, rawToken: string, checkMs: int, signMs: int): (r: Result<string>)
    ensures r.Ok? <==> CheckRefresh(tokens, crypto.sha256(rawToken), checkMs) == Pass
    ensures r.Err? ==> r.error == Forbidden
    ensures r.Ok? ==> r.value == crypto.sign(config.accessSecret, Issue(user.id, signMs, config.accessTtlSec, Some(crypto.sha256(rawToken))))
  {
    var hash := crypto.sha256(rawToken);
    match CheckRefresh(tokens, hash, checkMs)
    case Fail(e) => Err(e)
    case Pass => Ok(crypto.sign(config.accessSecret, Issue(user.id, signMs, config.accessTtlSec, Some(hash))))
  }

  /** An upsert with an empty update: the record is created when the key is
      new, and an existing one is left as it is. */
  function Upsert(tokens: map<string, TokenRecord>, hash: string, rec: TokenRecord): (r: map<string, TokenRecord>)
    ensures hash in r && r.Keys == tokens.Keys + {hash}
    ensures hash in tokens ==> r == tokens
    ensures hash !in tokens ==> r[hash] == rec
    ensures forall k :: k in tokens ==> r[k] == tokens[k]
  {
    if hash in tokens then tokens else tokens[hash := rec]
  }

  /** `validatePayload`: the payload must parse, name an existing user (a
      missing one is Unauthorized) and be issued no earlier than the user's
      last token reset (an earlier one is revoked, Unauthorized too). */
  function ValidatePayload(users: map<Id, User>, schema: Schema, payload: Option<Claims>): (r: Result<User>)
    ensures Parse(schema, payload).Err? ==> r == Err(Internal)
    ensures Parse(schema, payload).Ok? ==>
      var auth := Parse(schema, payload).value;
      && (auth.sub !in users ==> r == Err(Unauthorized))
      && (auth.sub in users ==>
            r == if users[auth.sub].lastTokenResetMs > auth.iat * 1000 then Err(Unauthorized) else Ok(users[auth.sub]))
  {
    match Parse(schema, payload)
    case Err(e) => Err(e)
    case Ok(auth) =>
      if auth.sub !in users then Err(Unauthorized)
      else if users[auth.sub].lastTokenResetMs > auth.iat * 1000 then Err(Unauthorized)
      else Ok(users[auth.sub])
  }

  /** Revocation: a payload passes only for a user whose last reset is not
      after the token's issue time, and a reset after the issue time revokes it. */
  lemma Revocation(users: map<Id, User>, schema: Schema, c: Claims, resetMs: int)
    requires Parse(schema, Some(c)).Ok? && c.sub in users
    ensures ValidatePayload(users, schema, Some(c)).Ok? <==> users[c.sub].lastTokenResetMs <= c.iat * 1000
    ensures resetMs > c.iat * 1000 ==>
      ValidatePayload(users[c.sub := users[c.sub].(lastTokenResetMs := resetMs)], schema, Some(c)) == Err(Unauthorized)
  {
  }

  /** A refresh token signed at `signMs` and stored under its hash is
      accepted by a check at `checkMs` exactly when the check is no later than
      its expiry, the signing second plus the lifetime. Since the signing
      second is rounded down, that holds whenever the check comes at most the
      lifetime less one second after signing. */
  lemma FreshRecordAccepted(tokens: map<string, TokenRecord>, hash: string, id: Id, signMs: int, checkMs: int, ttlSec: int)
    ensures CheckRefresh(tokens[hash := TokenRecord(id, Issue(id, signMs, ttlSec, None).exp * 1000)], hash, checkMs) == Pass <==>
      checkMs <= (signMs / 1000 + ttlSec) * 1000
    ensures checkMs <= signMs + 1000 * (ttlSec - 1) ==>
      CheckRefresh(tokens[hash := TokenRecord(id, Issue(id, signMs, ttlSec, None).exp * 1000)], hash, checkMs) == Pass
  {
    var c := Issue(id, signMs, ttlSec, None);
    assert c.exp * 1000 == c.iat * 1000 + ttlSec * 1000;
  }

  /** An access token handed out by `refresh` passes `validatePayload` on the
      auth schema exactly when its user has not reset their tokens since. */
  lemma AccessTokenValidates(crypto: Crypto, config: Config, tokens: map<string, TokenRecord>, users: map<Id, User>, user: User, rawToken: string, checkMs: int, signMs: int)
    requires Sound(crypto) && ValidId(user.id) && user.id in users
    requires Refresh(crypto, config, tokens, user, rawToken, checkMs, signMs).Ok?
    ensures var payload := crypto.decode(Refresh(crypto, config, tokens, user, rawToken, checkMs, signMs).value);
      ValidatePayload(users, AuthSchema, payload) ==
        if users[user.id].lastTokenResetMs > Issue(user.id, signMs, config.accessTtlSec, None).iat * 1000 then Err(Unauthorized)
        else Ok(users[user.id])
  {
    var c := Issue(user.id, signMs, config.accessTtlSec, Some(crypto.sha256(rawToken)));
    assert crypto.decode(crypto.sign(config.accessSecret, c)) == Some(c);
  }

  // ---------------------------------------------------------------- the stores

  class AuthStore {
    var users: map<Id, User>
    var tokens: map<string, TokenRecord>
    const crypto: Crypto
    const config: Config
    /** The permissions the database gives a new user. */
    const defaultPermissions: set<Permission>

    ghost predicate Valid()
      reads this
    {
      && Keyed(users)
      && (forall id :: id in users ==> ValidId(id))
    }

    constructor(crypto: Crypto, config: Config, defaultPermissions: set<Permission>)
      ensures Valid()
      ensures users == map[] && tokens == map[]
      ensures this.crypto == crypto && this.config == config && this.defaultPermissions == defaultPermissions
    {
      users := map[];
      tokens := map[];
      this.crypto := crypto;
      this.config := config;
      this.defaultPermissions := defaultPermissions;
    }

    /** `register`: a taken username is a Conflict (checked first), a password
        outside the policy is BadRequest; otherwise exactly one user is added,
        with the bcrypt hash of the password, and it can then log in. */
    method Register(dto: RegisterDto, salt: string, newId: Id, nowMs: int) returns (r: Result<User>)
      requires Valid() && ValidId(newId) && newId !in users
      modifies this`users
      ensures Valid()
      ensures UserNamed(old(users), dto.username).Some? ==> r == Err(Conflict) && users == old(users)
      ensures UserNamed(old(users), dto.username).None? && !PasswordPolicy(dto.password) ==>
        r == Err(BadRequest) && users == old(users)
      ensures UserNamed(old(users), dto.username).None? && PasswordPolicy(dto.password) ==>
        && r == Ok(User(newId, dto.username, crypto.bcryptHash(dto.password, salt), defaultPermissions, nowMs))
        && users == old(users)[newId := r.value]
      ensures r.Ok? && Sound(crypto) ==> ValidateUser(crypto, users, LoginDto(dto.username, dto.password)) == Some(r.value)
    {
      var existing := UserNamed(users, dto.username);
      if existing.Some? {
        return Err(Conflict);
      }
      if !PasswordPolicy(dto.password) {
        return Err(BadRequest);
      }
      var pwdHash := crypto.bcryptHash(dto.password, salt);
      var u := User(newId, dto.username, pwdHash, defaultPermissions, nowMs);
      users := users[newId := u];
      r := Ok(u);
      assert users[newId].username == dto.username;
    }

    /** `login`: an unknown username is Unauthorized. Otherwise a refresh
        token is signed at `signMs`, its record (owner, expiry) is upserted
        under its hash without touching an existing one, and `refresh` checks
        it at `checkMs` and signs the access token at `accessMs`. With sound
        primitives, a new refresh token logs in exactly when the check comes
        no later than its expiry, which holds whenever the check comes at most
        the lifetime less one second after signing. */
    method Login(dto: LoginDto, signMs: int, checkMs: int, accessMs: int) returns (r: Result<TokenPair>)
      requires Valid()
      modifies this`tokens
      ensures Valid() && users == old(users)
      ensures UserNamed(users, dto.username).None? ==> r == Err(Unauthorized) && tokens == old(tokens)
      ensures UserNamed(users, dto.username).Some? ==>
        var u := UserNamed(users, dto.username).value;
        var token := crypto.sign(config.refreshSecret, Issue(u.id, signMs, config.refreshTtlSec, None));
        var hash := crypto.sha256(token);
        var parsed := Parse(TokenSchema, crypto.decode(token));
        && (parsed.Err? ==> r == Err(Internal) && tokens == old(tokens))
        && (parsed.Ok? ==>
              && tokens == Upsert(old(tokens), hash, TokenRecord(u.id, parsed.value.exp * 1000))
              && var access := Refresh(crypto, config, tokens, u, token, checkMs, accessMs);
                 r == if access.Ok? then Ok(TokenPair(access.value, token)) else Err(access.error))
      ensures UserNamed(users, dto.username).Some? && Sound(crypto) ==>
        var u := UserNamed(users, dto.username).value;
        var token := crypto.sign(config.refreshSecret, Issue(u.id, signMs, config.refreshTtlSec, None));
        crypto.sha256(token) !in old(tokens) ==>
          && (r.Ok? <==> checkMs <= (signMs / 1000 + config.refreshTtlSec) * 1000)
          && (r.Ok? ==> r.value.refreshToken == token)
          && (checkMs <= signMs + 1000 * (config.refreshTtlSec - 1) ==> r.Ok?)
    {
      var user := UserNamed(users, dto.username);
      if user.None? {
        return Err(Unauthorized);
      }
      var u := user.value;
      var claims := Issue(u.id, signMs, config.refreshTtlSec, None);
      var token := crypto.sign(config.refreshSecret, claims);
      var hash := crypto.sha256(token);
      var parsed := Parse(TokenSchema, crypto.decode(token));
      if parsed.Err? {
        return Err(Internal);
      }
      if hash !in tokens {
        tokens := tokens[hash := TokenRecord(u.id, parsed.value.exp * 1000)];
      }
      if Sound(crypto) && hash !in old(tokens) {
        assert crypto.decode(token) == Some(claims);
        FreshRecordAccepted(old(tokens), hash, u.id, signMs, checkMs, config.refreshTtlSec);
      }
      var access := Refresh(crypto, config, tokens, u, token, checkMs, accessMs);
      if access.Err? {
        return Err(access.error);
      }
      r := Ok(TokenPair(access.value, token));
    }

    /** `logout`: the access token's payload must parse on the auth schema
        (else an unmapped error) and its refresh hash must have a record (a
        delete of a missing record is an unmapped error too); exactly that
        record is removed, so the refresh token no longer validates. */
    method Logout(rawToken: string) returns (r: Outcome)
      requires Valid()
      modifies this`tokens
      ensures Valid() && users == old(users)
      ensures var auth := Parse(AuthSchema, crypto.decode(rawToken));
        && (auth.Err? ==> r == Fail(Internal) && tokens == old(tokens))
        && (auth.Ok? && auth.value.refreshHash.value !in old(tokens) ==> r == Fail(Internal) && tokens == old(tokens))
        && (auth.Ok? && auth.value.refreshHash.value in old(tokens) ==>
              r == Pass && tokens == old(tokens) - {auth.value.refreshHash.value})
      ensures r == Pass ==> forall nowMs :: CheckRefresh(tokens, Parse(AuthSchema, crypto.decode(rawToken)).value.refreshHash.value, nowMs) == Fail(Forbidden)
    {
      var auth := Parse(AuthSchema, crypto.decode(rawToken));
      if auth.Err? {
        return Fail(Internal);
      }
      var hash := auth.value.refreshHash.value;
      if hash !in tokens {
        return Fail(Internal);
      }
      tokens := tokens - {hash};
      r := Pass;
    }
  }
}
