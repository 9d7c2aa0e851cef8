/**
 * The session store: the bearer token, the user's e-mail and role list,
 * mirrored into the browser's key/value storage under three keys; the two
 * derived getters; login, which extracts the identity from the token and
 * commits it or clears everything; and the cleanup used on logout.
 */
module Auth {
  import opened Wrappers
  import RoleJson

  const TokenKey := "token"
  const EmailKey := "userEmail"
  const RolesKey := "userRoles"
  const SessionKeys: set<string> := {TokenKey, EmailKey, RolesKey}

  const AdminRole := "Admin"
  /** The unprivileged role given when the token names none. */
  const DefaultRole := "Usuario"
  const FallbackMessage := "Error al iniciar sesión. Verifique sus credenciales."

  const AdminHome := "/app/admin"
  const PosHome := "/app/pos"
  const LoginPath := "/login"

  /** The value of the role claim (the namespaced `.../identity/claims/role`
      key): an array of role names, a single name, or anything else,
      including a missing claim. */
  datatype RoleClaim = RoleArray(roles: seq<string>) | RoleString(role: string) | RoleOther

  /** The claims of a decoded token that login reads. */
  datatype Claims = Claims(roleClaim: RoleClaim, email: Option<string>, sub: Option<string>)

  /** What the token decoder gives for the issued token. */
  datatype Decoding = DecodeFailed | Decoded(claims: Claims)

  datatype Credentials = Credentials(email: Option<string>)

  /** What the authentication call gives: a response whose body may hold a
      token, or a rejection whose response body may hold a message. */
  datatype LoginResponse = Answered(token: Option<string>) | Rejected(message: Option<string>)

  /** The redirect login asks the router for, or the error it throws. */
  datatype LoginOutcome = Redirect(path: string) | LoginError(message: string)

  /** The store's state. */
  datatype Session = Session(token: Option<string>, userEmail: Option<string>, userRoles: seq<string>)

  const SignedOut := Session(None, None, [])

  /** JavaScript truthiness of an optional string. */
  predicate Truthy(o: Option<string>) { o.Some? && o.value != "" }

  /** The `isAuthenticated` getter: `!!state.token`. */
  predicate IsAuthenticated(s: Session) { Truthy(s.token) }

  /** The `isAdmin` getter. */
  predicate IsAdmin(s: Session) { AdminRole in s.userRoles }

  /** The roles a role claim gives. */
  function RolesFromClaim(claim: RoleClaim): seq<string>
  {
    match claim
    case RoleArray(roles) => roles
    case RoleString(role) => [role]
    case RoleOther => [DefaultRole]
  }

  /** `a || b || c` on optional strings. */
  function FirstTruthy(a: Option<string>, b: Option<string>, c: Option<string>): Option<string>
  {
    if Truthy(a) then a else if Truthy(b) then b else c
  }

  /** The roles and e-mail that login extracts for an issued token. */
  function Identity(decoding: Decoding, credentials: Credentials): (seq<string>, Option<string>)
  {
    match decoding
    case DecodeFailed => ([DefaultRole], credentials.email)
    case Decoded(claims) =>
      (RolesFromClaim(claims.roleClaim), FirstTruthy(claims.email, claims.sub, credentials.email))
  }

  /** Where a fresh session is sent: the admin screen when the roles hold
      "Admin", the point of sale otherwise. */
  function HomeFor(roles: seq<string>): string
  {
    if AdminRole in roles then AdminHome else PosHome
  }

  /** One login attempt as a value: the session to commit, or the message of
      the error thrown. */
  function AttemptLogin(credentials: Credentials, response: LoginResponse, decoding: Decoding): (r: Result<Session, string>)
    // no token, an empty token or a rejection: failure, with the server's message if it sent one
    ensures r.Failure? <==> response.Rejected? || !Truthy(response.token)
    ensures r.Failure? ==>
      r.error == if response.Rejected? && Truthy(response.message) then response.message.value else FallbackMessage
    // on success the session holds the issued token and is authenticated
    ensures r.Success? ==> r.value.token == response.token && IsAuthenticated(r.value)
    // roles by cases of the claim; a decode failure gives the default role
    ensures r.Success? && decoding.DecodeFailed? ==>
      r.value.userRoles == [DefaultRole] && r.value.userEmail == credentials.email
    ensures r.Success? && decoding.Decoded? ==>
      match decoding.claims.roleClaim
      case RoleArray(roles) => r.value.userRoles == roles
      case RoleString(role) => r.value.userRoles == [role]
      case RoleOther => r.value.userRoles == [DefaultRole]
    // the e-mail is the first truthy of the e-mail claim, the subject claim and the credentials
    ensures r.Success? && decoding.Decoded? ==>
      var c := decoding.claims;
      && (Truthy(c.email) ==> r.value.userEmail == c.email)
      && (!Truthy(c.email) && Truthy(c.sub) ==> r.value.userEmail == c.sub)
      && (!Truthy(c.email) && !Truthy(c.sub) ==> r.value.userEmail == credentials.email)
  {
    match response
    case Rejected(message) =>
      Failure(if Truthy(message) then message.value else FallbackMessage)
    case Answered(token) =>
      if !Truthy(token) then Failure(FallbackMessage)
      else
        var (roles, email) := Identity(decoding, credentials);
        Success(Session(token, email, roles))
  }

  /** What `localStorage.setItem` stores for an optional string: a missing
      value is converted to the text "undefined". */
  function StoredText(o: Option<string>): string
  {
    match o
    case None => "undefined"
    case Some(s) => s
  }

  /** `getItem(key) || null`: a missing or empty entry reads as no value. */
  function ReadItem(storage: map<string, string>, key: string): (r: Option<string>)
    ensures r.Some? <==> key in storage && storage[key] != ""
    ensures r.Some? ==> r.value == storage[key]
  {
    if key in storage && storage[key] != "" then Some(storage[key]) else None
  }

  /** Storage after a session is committed: the three keys are written, the
      roles as their JSON text, and every other key is kept. */
  function Committed(storage: map<string, string>, s: Session): (r: map<string, string>)
    requires s.token.Some?
    ensures r.Keys == storage.Keys + SessionKeys
    ensures r[TokenKey] == s.token.value && r[EmailKey] == StoredText(s.userEmail)
    ensures r[RolesKey] == RoleJson.Serialize(s.userRoles)
    ensures forall k | k in storage && k !in SessionKeys :: r[k] == storage[k]
  {
    storage[TokenKey := s.token.value][EmailKey := StoredText(s.userEmail)][RolesKey := RoleJson.Serialize(s.userRoles)]
  }

  /** Storage after the three session keys are removed; every other key is kept. */
  function Cleared(storage: map<string, string>): (r: map<string, string>)
    ensures r.Keys == storage.Keys - SessionKeys
    ensures forall k | k in r :: r[k] == storage[k]
  {
    storage - SessionKeys
  }

  /** The initial state the store reads from storage. The roles text (or "[]"
      when missing or empty) goes through an unguarded `JSON.parse`. `None`
      here is a ParseRoles failure: malformed text, on which the source throws,
      or JSON outside the compact form, which the source reads without
      throwing. */
  function Restore(storage: map<string, string>): (r: Option<Session>)
    // token and e-mail are read with `|| null`
    ensures r.Some? ==> r.value.token == ReadItem(storage, TokenKey) && r.value.userEmail == ReadItem(storage, EmailKey)
    // missing or empty roles text reads as no roles
    ensures RolesKey !in storage || storage[RolesKey] == "" ==>
      r == Some(Session(ReadItem(storage, TokenKey), ReadItem(storage, EmailKey), []))
    // otherwise the stored text is parsed, and a parse failure is the only failure
    ensures RolesKey in storage && storage[RolesKey] != "" ==>
      (r.None? <==> RoleJson.ParseRoles(storage[RolesKey]).None?)
      && (r.Some? ==> RoleJson.ParseRoles(storage[RolesKey]) == Some(r.value.userRoles))
  {
    assert RoleJson.ParseRoles("[]") == Some([]) by {
      assert "[]"[1..] == "]";
    }
    var rolesText := if RolesKey in storage && storage[RolesKey] != "" then storage[RolesKey] else "[]";
    match RoleJson.ParseRoles(rolesText)
    case None => None
    case Some(roles) => Some(Session(ReadItem(storage, TokenKey), ReadItem(storage, EmailKey), roles))
  }

  /** A committed session is read back on the next start. Only the e-mail can
      differ: an empty one reads back as missing, a missing one as the text
      "undefined". */
  lemma RestoreAfterCommit(storage: map<string, string>, s: Session)
    requires IsAuthenticated(s)
    ensures Restore(Committed(storage, s)) ==
      Some(Session(s.token, ReadItem(map[EmailKey := StoredText(s.userEmail)], EmailKey), s.userRoles))
    ensures Truthy(s.userEmail) ==> Restore(Committed(storage, s)) == Some(s)
  {
    var c := Committed(storage, s);
    RoleJson.RolesRoundTrip(s.userRoles);
    assert c[RolesKey] != "" by {
      assert RoleJson.Serialize(s.userRoles)[0] == '[';
    }
  }

  /** After cleanup the store starts signed out. */
  lemma RestoreAfterCleared(storage: map<string, string>)
    ensures Restore(Cleared(storage)) == Some(SignedOut)
  {
  }

  /** Cleaning up twice is cleaning up once. */
  lemma ClearedIdempotent(storage: map<string, string>)
    ensures Cleared(Cleared(storage)) == Cleared(storage)
  {
  }

  /** Cleanup is idempotent, and undoes a commit completely: login followed by
      cleanup leaves storage as cleanup alone would. */
  lemma ClearedAfterCommit(storage: map<string, string>, s: Session)
    requires s.token.Some?
    ensures Cleared(Committed(storage, s)) == Cleared(storage)
    ensures Cleared(Cleared(storage)) == Cleared(storage)
    ensures SessionKeys !! Cleared(Committed(storage, s)).Keys
  {
    assert Cleared(Committed(storage, s)).Keys == Cleared(storage).Keys;
    ClearedIdempotent(storage);
  }

  /** The store: its three state fields and the browser storage it mirrors
      them into. */
  class AuthStore {
    var token: Option<string>
    var userEmail: Option<string>
    var userRoles: seq<string>
    var storage: map<string, string>

    function State(): Session
      reads this
    {
      Session(token, userEmail, userRoles)
    }

    /** The store as created at start-up from what storage holds. The roles
        must parse, since the source does not guard that parse. */
    constructor (stored: map<string, string>)
      requires Restore(stored).Some?
      ensures State() == Restore(stored).value && storage == stored
    {
      var rolesText := if RolesKey in stored && stored[RolesKey] != "" then stored[RolesKey] else "[]";
      token := ReadItem(stored, TokenKey);
      userEmail := ReadItem(stored, EmailKey);
      userRoles := RoleJson.ParseRoles(rolesText).value;
      storage := stored;
    }

    /** Clears the three fields and removes the three keys. */
    method LogoutCleanup()
      modifies this
      ensures State() == SignedOut
      ensures storage == Cleared(old(storage))
    {
      token := None;
      userEmail := None;
      userRoles := [];
      storage := storage - {TokenKey};
      storage := storage - {EmailKey};
      storage := storage - {RolesKey};
    }

    /** Cleanup, then the login screen. */
    method Logout() returns (path: string)
      modifies this
      ensures State() == SignedOut && storage == Cleared(old(storage))
      ensures path == LoginPath
    {
      LogoutCleanup();
      path := LoginPath;
    }

    /** One login: on success the fields and the three keys hold the new
        session and the result is the redirect its roles call for; on any
        failure everything is cleared and the result is the error message. */
    method Login(credentials: Credentials, response: LoginResponse, decoding: Decoding)
      returns (outcome: LoginOutcome)
      modifies this
      ensures match AttemptLogin(credentials, response, decoding)
        case Success(s) =>
          && State() == s
          && storage == Committed(old(storage), s)
          && outcome == Redirect(HomeFor(s.userRoles))
        case Failure(message) =>
          && State() == SignedOut
          && storage == Cleared(old(storage))
          && outcome == LoginError(message)
    {
      if response.Rejected? {
        LogoutCleanup();
        var message := response.message;
        return LoginError(if Truthy(message) then message.value else FallbackMessage);
      }
      var issued := response.token;
      if !Truthy(issued) {
        // "no token received" is thrown, but only a server message is surfaced
        LogoutCleanup();
        return LoginError(FallbackMessage);
      }
      var roles: seq<string> := [];
      var email: Option<string> := Some("");
      match decoding {
        case DecodeFailed =>
          roles := [DefaultRole];
          email := credentials.email;
        case Decoded(claims) =>
          match claims.roleClaim {
            case RoleArray(rs) => roles := rs;
            case RoleString(role) => roles := [role];
            case RoleOther => roles := [DefaultRole];
          }
          email := FirstTruthy(claims.email, claims.sub, credentials.email);
      }
      ghost var s := Session(issued, email, roles);
      assert (roles, email) == Identity(decoding, credentials);
      assert AttemptLogin(credentials, response, decoding) == Success(s);
      token := issued;
      userEmail := email;
      userRoles := roles;
      storage := storage[TokenKey := issued.value];
      storage := storage[EmailKey := StoredText(email)];
      storage := storage[RolesKey := RoleJson.Serialize(roles)];
      assert State() == s;
      if IsAdmin(State()) {
        outcome := Redirect(AdminHome);
      } else {
        outcome := Redirect(PosHome);
      }
    }
  }

  /** A store created from `stored`, a login, then cleanup: storage ends as
      `stored` without the three session keys, whatever the login did. */
  method LoginThenCleanup(stored: map<string, string>, credentials: Credentials,
                          response: LoginResponse, decoding: Decoding)
    returns (after: map<string, string>, session: Session)
    requires Restore(stored).Some?
    ensures after == Cleared(stored) && session == SignedOut
    ensures SessionKeys !! after.Keys
  {
    var store := new AuthStore(stored);
    var _ := store.Login(credentials, response, decoding);
    match AttemptLogin(credentials, response, decoding) {
      case Success(s) => ClearedAfterCommit(stored, s);
      case Failure(_) => ClearedIdempotent(stored);
    }
    store.LogoutCleanup();
    after, session := store.storage, store.State();
  }
}
