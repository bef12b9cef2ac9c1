/**
 * Account creation (`POST /api/signup`): the duplicate check and the record
 * written for a new user. The database connection, the lookup by e-mail and
 * password hashing are parameters: `connected` says whether connecting
 * succeeded, `existing` holds the e-mails already registered, `hash` is the
 * password hash.
 */
module Signup {
  import opened Common

  /** The request body's fields; an absent field is `None`. */
  datatype SignupBody = SignupBody(
    firstName: Option<string>,
    lastName: Option<string>,
    email: Option<string>,
    password: Option<string>,
    role: Option<string>)

  /** The row written for the new user. */
  datatype NewUser = NewUser(email: string, name: string, password: string, role: string)

  datatype SignupResult =
    | Created(user: NewUser)
    | Failed(status: nat, error: string)

  const ConnectionFailed := "Database connection failed"
  const AlreadyExists := "User already exists"
  const CreateFailed := "Failed to create user"

  /** How a value is written into a template literal: an absent one reads `undefined`. */
  function TemplateText(s: Option<string>): string {
    if s.Some? then s.value else "undefined"
  }

  /** The stored name: first name, one space, last name. */
  function FullName(firstName: Option<string>, lastName: Option<string>): (r: string)
    ensures |r| == |TemplateText(firstName)| + 1 + |TemplateText(lastName)|
    ensures r[..|TemplateText(firstName)|] == TemplateText(firstName)
    ensures r[|TemplateText(firstName)|] == ' '
    ensures r[|TemplateText(firstName)| + 1..] == TemplateText(lastName)
  {
    TemplateText(firstName) + " " + TemplateText(lastName)
  }

  /** TEACHER exactly for the role field "teacher"; everything else signs up a STUDENT. */
  function StoredRole(role: Option<string>): (r: string)
    ensures r == "TEACHER" <==> role == Some("teacher")
    ensures r != "TEACHER" ==> r == "STUDENT"
  {
    if role == Some("teacher") then "TEACHER" else "STUDENT"
  }

  /** The stored password: the hash of a non-empty password, else the empty string. */
  function StoredPassword(password: Option<string>, hash: string -> string): (r: string)
    ensures password.Some? && password.value != "" ==> r == hash(password.value)
    ensures password.None? || password.value == "" ==> r == ""
  {
    if password.Some? && password.value != "" then hash(password.value) else ""
  }

  /**
   * `POST`: 500 when the database cannot be reached (before any lookup),
   * 500 when there is no e-mail to look up, 400 for a registered e-mail,
   * and otherwise the new row, answered with 201.
   */
  function SignupUser(body: SignupBody, connected: bool, existing: set<string>, hash: string -> string): SignupResult {
    if !connected then Failed(500, ConnectionFailed)
    else if body.email.None? then Failed(500, CreateFailed)
    else if body.email.value in existing then Failed(400, AlreadyExists)
    else Created(NewUser(body.email.value, FullName(body.firstName, body.lastName),
                         StoredPassword(body.password, hash), StoredRole(body.role)))
  }

  /** The HTTP status of an outcome. */
  function Status(r: SignupResult): nat {
    if r.Created? then 201 else r.status
  }

  /**
   * A registered e-mail is refused with 400 and nothing is created; a
   * failed connection gives 500 whatever is registered; a created user has
   * a fresh e-mail, so the registered e-mails grow by exactly one.
   */
  lemma SignupOutcomes(body: SignupBody, connected: bool, existing: set<string>, hash: string -> string)
    ensures !connected ==> SignupUser(body, connected, existing, hash) == Failed(500, ConnectionFailed)
    ensures connected && body.email.Some? && body.email.value in existing ==>
      SignupUser(body, connected, existing, hash) == Failed(400, AlreadyExists)
    ensures SignupUser(body, connected, existing, hash).Created? <==>
      connected && body.email.Some? && body.email.value !in existing
    ensures SignupUser(body, connected, existing, hash).Created? ==>
      var u := SignupUser(body, connected, existing, hash).user;
      && Status(SignupUser(body, connected, existing, hash)) == 201
      && u.email == body.email.value
      && |existing + {u.email}| == |existing| + 1
      && u.name == FullName(body.firstName, body.lastName)
      && u.password == StoredPassword(body.password, hash)
      && u.role == StoredRole(body.role)
  {
  }
}
