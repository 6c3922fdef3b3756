/** Role normalisation and the register/login decisions of the authentication controller
    (Back-end/.../security/controller/AuthController.java). Authentication itself, password
    hashing and token signing are foreign: the name the authentication manager accepted is
    an argument, and the password encoder is a function argument. */
module Auth {
  import opened Wrappers

  const RolePrefix := "ROLE_"
  const DefaultRole := "ROLE_USER"

  predicate HasRolePrefix(s: string) {
    |s| >= |RolePrefix| && s[..|RolePrefix|] == RolePrefix
  }

  /** `String.toUpperCase` on ASCII letters. */
  function Upper(s: string): (r: string)
    ensures |r| == |s|
    ensures forall k :: 0 <= k < |s| ==> (if 'a' <= s[k] <= 'z' then r[k] == (s[k] as int - 32) as char else r[k] == s[k])
  {
    if |s| == 0 then ""
    else [if 'a' <= s[0] <= 'z' then (s[0] as int - 32) as char else s[0]] + Upper(s[1..])
  }

  /** `Character.isWhitespace`: the Unicode space separators other than the no-break ones,
      the line and paragraph separators, and the ASCII controls tab to carriage return and
      file to unit separator. */
  predicate IsJavaWhitespace(c: char) {
    || ('\t' <= c <= '\r') || ('\U{001C}' <= c <= ' ')
    || c == '\U{1680}' || ('\U{2000}' <= c <= '\U{2006}') || ('\U{2008}' <= c <= '\U{200A}')
    || c == '\U{2028}' || c == '\U{2029}' || c == '\U{205F}' || c == '\U{3000}'
  }

  /** `String.isBlank`. */
  predicate IsBlank(s: string) {
    forall k :: 0 <= k < |s| ==> IsJavaWhitespace(s[k])
  }

  /** The role `login` puts in the token: a stored role already prefixed "ROLE_" is kept
      as it is (not upper-cased); `null` becomes "ROLE_USER"; anything else, the empty
      string included, becomes "ROLE_" followed by its upper-cased form. */
  function LoginRole(role: Option<string>): (r: string)
    ensures HasRolePrefix(r)
    ensures role.Some? && HasRolePrefix(role.value) ==> r == role.value
    ensures role.None? ==> r == DefaultRole
    ensures role.Some? && !HasRolePrefix(role.value) ==> r[|RolePrefix|..] == Upper(role.value)
  {
    if role.Some? && HasRolePrefix(role.value) then role.value
    else if role.Some? then RolePrefix + Upper(role.value)
    else DefaultRole
  }

  /** The role `register` stores: `null` or blank becomes "ROLE_USER", a prefixed role is
      kept, any other becomes "ROLE_" followed by its upper-cased form. */
  function RegisterRole(role: Option<string>): (r: string)
    ensures HasRolePrefix(r) && !IsBlank(r)
    ensures role.None? || IsBlank(role.value) ==> r == DefaultRole
    ensures role.Some? && !IsBlank(role.value) && HasRolePrefix(role.value) ==> r == role.value
    ensures role.Some? && !IsBlank(role.value) && !HasRolePrefix(role.value) ==> r[|RolePrefix|..] == Upper(role.value)
  {
    var r := if role.None? || IsBlank(role.value) then DefaultRole
             else if HasRolePrefix(role.value) then role.value
             else RolePrefix + Upper(role.value);
    assert r[0] == 'R';
    r
  }

  /** Normalising an already normalised role changes nothing, for both rules. */
  lemma NormalisationIdempotent(role: Option<string>)
    ensures LoginRole(Some(LoginRole(role))) == LoginRole(role)
    ensures RegisterRole(Some(RegisterRole(role))) == RegisterRole(role)
  {
  }

  /** The two rules agree except on a blank role (`register` tests `isBlank`, `login` only
      `null`): there `register` falls back to "ROLE_USER" while `login` yields "ROLE_"
      followed by the blank itself, "ROLE_" exactly for the empty role. */
  lemma RulesAgreeUnlessBlank(role: Option<string>)
    ensures role.None? || !IsBlank(role.value) ==> LoginRole(role) == RegisterRole(role)
    ensures role.Some? && IsBlank(role.value) ==>
              LoginRole(role) == RolePrefix + Upper(role.value) && RegisterRole(role) == DefaultRole
  {
    if role.Some? && IsBlank(role.value) && |role.value| >= |RolePrefix| {
      assert !IsJavaWhitespace(RolePrefix[0]);
      assert role.value[0] != RolePrefix[0];
    }
  }

  /** A stored account. */
  datatype Usuario = Usuario(username: string, email: string, password: string, role: Option<string>)

  datatype RegisterRequest = RegisterRequest(username: string, email: string, password: string, role: Option<string>)

  datatype AuthError = BadCredentials | UserNotFound | UsernameTaken | EmailTaken

  /** The fields of the login/register response the controller computes (the token is
      signed by a foreign component over exactly these two). */
  datatype Session = Session(username: string, role: string)

  /** `findByUsername`: the first stored account with that name. */
  function FindUser(users: seq<Usuario>, name: string): (r: Option<Usuario>)
    ensures r.Some? <==> exists i :: 0 <= i < |users| && users[i].username == name
    ensures r.Some? ==> r.value in users && r.value.username == name
    decreases |users|
  {
    if |users| == 0 then None
    else if users[0].username == name then Some(users[0])
    else
      var r := FindUser(users[1..], name);
      assert forall i :: 1 <= i < |users| ==> users[i] == users[1..][i - 1];
      r
  }

  /** `login`: `authenticated` is the name the authentication manager accepted, or `None`
      when it rejected the credentials. The answer carries the account's normalised role. */
  function Login(users: seq<Usuario>, authenticated: Option<string>): (r: Result<Session, AuthError>)
    ensures authenticated.None? ==> r == Err(BadCredentials)
    ensures authenticated.Some? ==>
              (r == Err(UserNotFound) <==> forall u :: u in users ==> u.username != authenticated.value)
    ensures r.Ok? <==> authenticated.Some? && UsernameExists(users, authenticated.value)
    ensures r.Err? ==> r.error == BadCredentials || r.error == UserNotFound
    ensures r.Ok? ==> authenticated.Some? && r.value.username == authenticated.value
                      && HasRolePrefix(r.value.role)
                      && exists u :: u in users && u.username == authenticated.value && r.value.role == LoginRole(u.role)
  {
    if authenticated.None? then Err(BadCredentials)
    else
      match FindUser(users, authenticated.value)
      case None => Err(UserNotFound)
      case Some(u) => Ok(Session(u.username, LoginRole(u.role)))
  }

  predicate UsernameExists(users: seq<Usuario>, name: string) {
    exists u :: u in users && u.username == name
  }

  predicate EmailExists(users: seq<Usuario>, email: string) {
    exists u :: u in users && u.email == email
  }

  /** `register`: the username is checked before the email; either duplicate throws and
      nothing is saved; otherwise exactly one account is appended, with the encoded password
      and the normalised role, and the response carries that role. */
  function Register(users: seq<Usuario>, req: RegisterRequest, encode: string -> string): (r: Result<(seq<Usuario>, Session), AuthError>)
    ensures r == Err(UsernameTaken) <==> UsernameExists(users, req.username)
    ensures r == Err(EmailTaken) <==> !UsernameExists(users, req.username) && EmailExists(users, req.email)
    ensures r.Ok? <==> !UsernameExists(users, req.username) && !EmailExists(users, req.email)
    ensures r.Ok? ==>
              && r.value.0 == users + [Usuario(req.username, req.email, encode(req.password), Some(RegisterRole(req.role)))]
              && r.value.1 == Session(req.username, RegisterRole(req.role))
  {
    if UsernameExists(users, req.username) then Err(UsernameTaken)
    else if EmailExists(users, req.email) then Err(EmailTaken)
    else
      var role := RegisterRole(req.role);
      Ok((users + [Usuario(req.username, req.email, encode(req.password), Some(role))], Session(req.username, role)))
  }

  /** Logging in right after registering yields the role registration stored. */
  lemma RegisterThenLogin(users: seq<Usuario>, req: RegisterRequest, encode: string -> string)
    requires Register(users, req, encode).Ok?
    ensures Login(Register(users, req, encode).value.0, Some(req.username)) == Ok(Session(req.username, RegisterRole(req.role)))
  {
    var users' := Register(users, req, encode).value.0;
    var found := FindUser(users', req.username);
    assert users'[|users|].username == req.username;
    assert found.value == users'[|users|] by {
      FindUserAppended(users, users'[|users|], req.username);
    }
  }

  /** Looking up a name no earlier account has finds the appended account. */
  lemma {:induction false} FindUserAppended(users: seq<Usuario>, u: Usuario, name: string)
    requires !UsernameExists(users, name) && u.username == name
    ensures FindUser(users + [u], name) == Some(u)
    decreases |users|
  {
    if |users| > 0 {
      assert users[0] in users;
      assert (users + [u])[1..] == users[1..] + [u];
      forall v | v in users[1..] ensures v.username != name {
        assert v in users;
      }
      FindUserAppended(users[1..], u, name);
    }
  }
}
