/** LoginCommandHandler.Handle: the credential check and the choice of
    roles that go into the issued token. */
module Authentication {
  import opened Wrappers
  import opened Models
  import opened DotNetText

  /** The login request; either field may arrive as null. */
  datatype LoginCommand = LoginCommand(username: Option<string>, password: Option<string>)

  /** The login response. */
  datatype LoginResponse = LoginResponse(token: string, username: string, roles: seq<string>)

  /** GenerateJwtToken, given the user name and the roles: the token, or the
      exception it threw (a signing key that is empty or too short, for
      instance). Signing, the token id and the clock stay behind this
      function. */
  type TokenGenerator = (string, seq<string>) -> Result<string, Fault>

  const InvalidCredentials: string := "Invalid credentials"
  const AdminUsername: string := "admin"
  const AdminRole: string := "Admin"
  const UserRole: string := "User"

  /** The mock user check: the one user name that is an administrator,
      compared ordinally, gets the Admin role; every other user name gets
      the User role. */
  function RolesFor(username: string): (roles: seq<string>)
    ensures |roles| == 1
    ensures AdminRole in roles <==> username == AdminUsername
    ensures UserRole in roles <==> username != AdminUsername
  {
    if username == AdminUsername then [AdminRole] else [UserRole]
  }

  /** The credential check: both the user name and the password are non-null
      and non-empty. Nothing else about them is checked. */
  predicate CredentialsPresent(request: LoginCommand)
    ensures CredentialsPresent(request) ==> request.username.Some? && request.password.Some?
  {
    !IsNullOrEmpty(request.username) && !IsNullOrEmpty(request.password)
  }

  /** Handle: throws UnauthorizedAccessException("Invalid credentials") when
      the user name or the password is null or empty, and lets an exception
      from the token generator through; otherwise answers with the request's
      user name, its roles and the token made from the two. */
  method Handle(request: LoginCommand, generateJwtToken: TokenGenerator) returns (r: Result<LoginResponse, Fault>)
    ensures !CredentialsPresent(request) ==> r == Failure(UnauthorizedAccess(InvalidCredentials))
    ensures CredentialsPresent(request) ==>
              var username := request.username.value;
              var token := generateJwtToken(username, RolesFor(username));
              (token.Failure? ==> r == Failure(token.error)) &&
              (token.Success? ==> r == Success(LoginResponse(token.value, username, RolesFor(username))))
    ensures r.Success? ==> CredentialsPresent(request) && r.value.username == request.username.value
                           && r.value.roles == RolesFor(r.value.username)
  {
    if IsNullOrEmpty(request.username) || IsNullOrEmpty(request.password) {
      return Failure(UnauthorizedAccess(InvalidCredentials));
    }
    var username := request.username.value;

    var roles: seq<string> := [];
    if username == AdminUsername {
      roles := roles + [AdminRole];
    } else {
      roles := roles + [UserRole];
    }
    assert roles == RolesFor(username);

    var token := generateJwtToken(username, roles);
    if token.Failure? {
      return Failure(token.error);
    }
    return Success(LoginResponse(token.value, username, roles));
  }

  /** The comparison with "admin" is ordinal: other spellings are ordinary
      users. */
  lemma AdminMatchIsCaseSensitive()
    ensures RolesFor("Admin") == [UserRole]
    ensures RolesFor("ADMIN") == [UserRole]
    ensures RolesFor("admin ") == [UserRole]
  {
    assert "Admin" != AdminUsername by { assert "Admin"[0] != AdminUsername[0]; }
    assert "ADMIN" != AdminUsername by { assert "ADMIN"[0] != AdminUsername[0]; }
    assert "admin " != AdminUsername by { assert |"admin "| != |AdminUsername|; }
  }

  /** A user name made only of white space passes the check, since the check
      is for null or empty and not for white space. */
  lemma WhitespaceUsernameAccepted(password: string)
    requires password != []
    ensures IsNullOrWhiteSpace(Some(" "))
    ensures CredentialsPresent(LoginCommand(Some(" "), Some(password)))
    ensures RolesFor(" ") == [UserRole]
  {
    assert IsWhiteSpace(" "[0]);
  }

  /** Any non-empty password is accepted, whatever its content. */
  lemma AnyPasswordAccepted(username: string, password: string)
    requires username != [] && password != []
    ensures CredentialsPresent(LoginCommand(Some(username), Some(password)))
  {
  }
}
