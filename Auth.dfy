/**
  Account bookkeeping over the Users table: registration guarded by the
  username and email uniqueness the table's indexes enforce, login as a lookup
  followed by a password check, and a forgot-password lookup that changes
  nothing. Times are integer seconds passed in by the caller.
 */
module Auth {
  import opened Wrappers
  import opened Queries
  import opened PasswordHelper

  /** How long an issued token stays valid: one hour. */
  const TokenLifetime: int := 3600

  /** A row of the Users table. */
  datatype User = User(id: int, username: string, email: string, passwordHash: string, createdAt: int)

  /** What a successful login returns. */
  datatype AuthResponse = AuthResponse(token: string, username: string, expiration: int)

  /** What the forgot-password flow does: nothing for an unknown email, else it logs the reset for that account. */
  datatype ResetRequest = NoSuchAccount | ResetLogged(username: string, email: string)

  /**
    The service's configuration: the password helper's library calls, and the
    signed-token writer GenerateJwtToken calls, given the user's id, username
    and the token's expiry.
   */
  datatype Config = Config(lib: CryptoLibrary, jwt: (int, string, int) -> string)

  /** The registration conflict test: either the username or the email is already in use. */
  function SameLogin(username: string, email: string): User -> bool
  {
    (u: User) => u.username == username || u.email == email
  }

  /** The login lookup. */
  function ByUsername(username: string): User -> bool
  {
    (u: User) => u.username == username
  }

  /** The forgot-password lookup. */
  function ByEmail(email: string): User -> bool
  {
    (u: User) => u.email == email
  }

  /** The unique indexes on Username and Email. */
  ghost predicate UniqueLogins(users: seq<User>)
  {
    forall i, j :: 0 <= i < j < |users| ==> users[i].username != users[j].username && users[i].email != users[j].email
  }

  /** The token issued to a user at time now, and its expiry. */
  function IssueToken(config: Config, user: User, now: int): (r: AuthResponse)
    ensures r.username == user.username
    ensures r.expiration == now + TokenLifetime
  {
    AuthResponse(config.jwt(user.id, user.username, now + TokenLifetime), user.username, now + TokenLifetime)
  }

  class AuthService {
    const config: Config
    var users: seq<User>
    /** The identity column's next value. */
    var nextId: int

    /**
      The table invariant: unique usernames and emails, ids below the next
      identity value and pairwise distinct, every stored hash one that
      VerifyPassword can split, and the library guarantees.
     */
    ghost predicate Valid()
      reads this
    {
      && Lawful(config.lib)
      && UniqueLogins(users)
      && (forall i :: 0 <= i < |users| ==> users[i].id < nextId)
      && (forall i, j :: 0 <= i < j < |users| ==> users[i].id < users[j].id)
      && (forall i :: 0 <= i < |users| ==> WellFormedHash(config.lib, users[i].passwordHash))
    }

    constructor(config: Config)
      requires Lawful(config.lib)
      ensures this.config == config && users == [] && nextId == 1
      ensures Valid()
    {
      this.config := config;
      users := [];
      nextId := 1;
    }

    /**
      RegisterAsync with the salt the random generator drew and the current
      time: a conflict on username or email returns None and changes nothing;
      otherwise exactly one user is appended, holding the hash of the password.
     */
    method Register(username: string, email: string, password: string, salt: seq<byte>, now: int) returns (r: Option<User>)
      requires Valid()
      requires |salt| == SaltSize
      modifies this
      ensures Valid()
      ensures Any(old(users), SameLogin(username, email)) ==>
        r.None? && users == old(users) && nextId == old(nextId)
      ensures !Any(old(users), SameLogin(username, email)) ==>
        && r == Some(User(old(nextId), username, email, StoredHash(config.lib, password, salt), now))
        && users == old(users) + [r.value]
        && nextId == old(nextId) + 1
    {
      if Any(users, SameLogin(username, email)) {
        return None;
      }
      var hash := HashPassword(config.lib, password, salt);
      var user := User(nextId, username, email, hash, now);
      StoredHashLayout(config.lib, password, salt);
      users := users + [user];
      nextId := nextId + 1;
      r := Some(user);
    }

    /**
      LoginAsync at time now: the user with that username, if the password
      verifies against the stored hash, gets a token expiring an hour later.
     */
    function Login(username: string, password: string, now: int): (r: Option<AuthResponse>)
      reads this
      requires Valid()
      ensures r.Some? <==> exists i :: 0 <= i < |users| && users[i].username == username
                                     && PasswordCheck(config.lib, password, users[i].passwordHash) == Success(true)
      ensures r.Some? ==> exists i :: 0 <= i < |users| && users[i].username == username
                                     && r.value == IssueToken(config, users[i], now)
    {
      // Under Valid() neither SingleOrDefault nor VerifyPassword can throw: the
      // index makes the match unique and every stored hash splits.
      CountAtMostOne(users, ByUsername(username));
      var found := SingleIndex(users, ByUsername(username));
      if found.Failure? || found.value.None? then None
      else
        var user := users[found.value.value];
        CheckFailsExactlyOnMalformed(config.lib, password, user.passwordHash);
        if PasswordCheck(config.lib, password, user.passwordHash) == Success(true)
        then Some(IssueToken(config, user, now))
        else None
    }

    /**
      ForgotPasswordAsync: the account with that email, if any, has its reset
      logged; nothing is returned to the caller either way and nothing changes.
     */
    function ForgotPassword(email: string): (r: ResetRequest)
      reads this
      requires Valid()
      ensures r == NoSuchAccount <==> forall i :: 0 <= i < |users| ==> users[i].email != email
      ensures r.ResetLogged? ==>
        r.email == email && exists i :: 0 <= i < |users| && users[i].email == email && users[i].username == r.username
    {
      // Under Valid() the email index makes SingleOrDefault's match unique.
      CountAtMostOne(users, ByEmail(email));
      var found := SingleIndex(users, ByEmail(email));
      if found.Failure? || found.value.None? then NoSuchAccount
      else ResetLogged(users[found.value.value].username, email)
    }
  }

  /** A registered user logs in with the password they registered with. */
  lemma RegisteredUserLogsIn(service: AuthService, i: nat, password: string, salt: seq<byte>, now: int)
    requires service.Valid()
    requires i < |service.users| && |salt| == SaltSize
    requires service.users[i].passwordHash == StoredHash(service.config.lib, password, salt)
    ensures service.Login(service.users[i].username, password, now) == Some(IssueToken(service.config, service.users[i], now))
  {
    VerifyRoundTrip(service.config.lib, password, salt);
    var r := service.Login(service.users[i].username, password, now);
    var j :| 0 <= j < |service.users| && service.users[j].username == service.users[i].username
             && r.value == IssueToken(service.config, service.users[j], now);
    assert i == j;
  }

  /** A password whose derived key differs from the registered one's is refused. */
  lemma WrongPasswordRefused(service: AuthService, i: nat, attempt: string, password: string, salt: seq<byte>, now: int)
    requires service.Valid()
    requires i < |service.users| && |salt| == SaltSize
    requires service.users[i].passwordHash == StoredHash(service.config.lib, password, salt)
    requires DerivedKey(service.config.lib, attempt, salt) != DerivedKey(service.config.lib, password, salt)
    ensures service.Login(service.users[i].username, attempt, now).None?
  {
    VerifyAgainstStored(service.config.lib, attempt, password, salt);
    forall j | 0 <= j < |service.users| && service.users[j].username == service.users[i].username
      ensures PasswordCheck(service.config.lib, attempt, service.users[j].passwordHash) != Success(true)
    {
      assert j == i;
    }
  }
}
