/**
 * Sign-in (`app/lib/auth.ts`): the credentials check and the callbacks that
 * decide the role carried by the token and the session. Password hashing
 * is the predicate `passwordMatches(plain, hash)`; the user table is a map
 * from e-mail to the stored user.
 */
module Auth {
  import opened Common

  const Pending := "PENDING"
  const Student := "STUDENT"

  /** A stored user; the role is one of the role names. */
  datatype StoredUser = StoredUser(id: nat, email: string, name: Option<string>, password: Option<string>, role: string)

  /** The credentials form; an absent field is `None`. */
  datatype Credentials = Credentials(email: Option<string>, password: Option<string>)

  /** What `authorize` hands back: the id as text and the user's own fields. */
  datatype AuthorizedUser = AuthorizedUser(id: string, email: string, name: Option<string>, role: string)

  /** A JavaScript string value is truthy when present and non-empty. */
  predicate Truthy(s: Option<string>) {
    s.Some? && s.value != ""
  }

  /**
   * `authorize`: `None` for a missing e-mail or password, an unknown user,
   * a user without a stored password, or a password that does not match.
   */
  function Authorize(credentials: Option<Credentials>, users: map<string, StoredUser>,
                     passwordMatches: (string, string) -> bool): (r: Option<AuthorizedUser>)
    ensures credentials.None? || !Truthy(credentials.value.email) || !Truthy(credentials.value.password) ==> r.None?
    ensures r.Some? <==>
      && credentials.Some? && Truthy(credentials.value.email) && Truthy(credentials.value.password)
      && credentials.value.email.value in users
      && Truthy(users[credentials.value.email.value].password)
      && passwordMatches(credentials.value.password.value, users[credentials.value.email.value].password.value)
    ensures r.Some? ==>
      var u := users[credentials.value.email.value];
      && AllDigits(r.value.id) && DecimalValue(r.value.id) == u.id
      && r.value.email == u.email && r.value.name == u.name && r.value.role == u.role
  {
    if credentials.None? || !Truthy(credentials.value.email) || !Truthy(credentials.value.password) then None
    else if credentials.value.email.value !in users then None
    else
      var user := users[credentials.value.email.value];
      if !Truthy(user.password) then None
      else if !passwordMatches(credentials.value.password.value, user.password.value) then None
      else Some(AuthorizedUser(NatToString(user.id), user.email, user.name, user.role))
  }

  /** `signIn`: every sign-in is allowed. */
  function SignIn(provider: Option<string>): (allowed: bool)
    ensures allowed
  {
    true
  }

  /** `redirect`: the requested URL is ignored; every sign-in lands on the dashboard. */
  function Redirect(url: string, baseUrl: string): (r: string)
    ensures |r| == |baseUrl| + |"/CommonDashboard"|
    ensures r[..|baseUrl|] == baseUrl && r[|baseUrl|..] == "/CommonDashboard"
  {
    baseUrl + "/CommonDashboard"
  }

  /** The sign-in provider named by the callback's `account`. */
  datatype Account = Account(provider: string)

  /** The signed-in user the `jwt` callback receives on first sign-in. */
  datatype CallbackUser = CallbackUser(role: Option<string>)

  /** The token's role after `jwt`: Google marks it pending, then a user's own role (or pending) wins. */
  function JwtRole(role: Option<string>, account: Option<Account>, user: Option<CallbackUser>): Option<string> {
    var afterProvider := if account.Some? && account.value.provider == "google" then Some(Pending) else role;
    if user.Some? then Some(if Truthy(user.value.role) then user.value.role.value else Pending)
    else afterProvider
  }

  /**
   * With a user present, the token's role is that user's role, or PENDING
   * when it is empty; without one, a Google sign-in gives PENDING and any
   * other call keeps the role it had.
   */
  lemma JwtRoleCases(role: Option<string>, account: Option<Account>, user: Option<CallbackUser>)
    ensures user.Some? && Truthy(user.value.role) ==> JwtRole(role, account, user) == user.value.role
    ensures user.Some? && !Truthy(user.value.role) ==> JwtRole(role, account, user) == Some(Pending)
    ensures user.None? && account == Some(Account("google")) ==> JwtRole(role, account, user) == Some(Pending)
    ensures user.None? && (account.None? || account.value.provider != "google") ==> JwtRole(role, account, user) == role
    ensures user.Some? ==> Truthy(JwtRole(role, account, user))
  {
  }

  /** The JWT being issued or refreshed. */
  class Token {
    var sub: Option<string>
    var role: Option<string>

    constructor (sub: Option<string>, role: Option<string>)
      ensures this.sub == sub && this.role == role
    {
      this.sub := sub;
      this.role := role;
    }

    /** `jwt`: assigns the role in place, in the two steps of the callback. */
    method Jwt(account: Option<Account>, user: Option<CallbackUser>)
      modifies this`role
      ensures role == JwtRole(old(role), account, user)
    {
      if account.Some? && account.value.provider == "google" {
        role := Some(Pending);
      }
      if user.Some? {
        role := Some(if Truthy(user.value.role) then user.value.role.value else Pending);
      }
    }
  }

  /** The role the session shows: the token's, or STUDENT when the token has none. */
  function SessionRole(tokenRole: Option<string>): (r: string)
    ensures r != ""
    ensures Truthy(tokenRole) ==> r == tokenRole.value
    ensures !Truthy(tokenRole) ==> r == Student
  {
    if Truthy(tokenRole) then tokenRole.value else Student
  }

  /** The `user` part of the session handed to the client. */
  class SessionUser {
    var id: Option<string>
    var role: string

    constructor (id: Option<string>, role: string)
      ensures this.id == id && this.role == role
    {
      this.id := id;
      this.role := role;
    }

    /** `session`: copies the token's subject when it has one, and always sets the role. */
    method Session(token: Token)
      modifies this
      ensures Truthy(token.sub) ==> id == token.sub
      ensures !Truthy(token.sub) ==> id == old(id)
      ensures role == SessionRole(token.role)
    {
      if Truthy(token.sub) {
        id := token.sub;
      }
      role := SessionRole(token.role);
    }
  }

  /**
   * A role set by `jwt` for a signed-in user reaches the session unchanged;
   * an empty one shows as PENDING there, never as STUDENT.
   */
  lemma SignedInRoleReachesSession(role: Option<string>, account: Option<Account>, user: CallbackUser)
    ensures Truthy(user.role) ==> SessionRole(JwtRole(role, account, Some(user))) == user.role.value
    ensures !Truthy(user.role) ==> SessionRole(JwtRole(role, account, Some(user))) == Pending
  {
  }
}
