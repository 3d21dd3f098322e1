/** The auth service's `AuthController`: role selection at registration,
    login with refresh-token issue, the `me` header check, token refresh
    and logout. Password hashing, token signing and token parsing are
    passed in as functions. */
module Auth {
  import opened Common
  import opened Text
  import opened ErrorResponses
  import opened AuthApi
  import opened Users
  import opened TokenTable
  import opened RefreshTokens

  const RoleCustomer := "ROLE_CUSTOMER"
  const RoleShopOwner := "ROLE_SHOP_OWNER"

  /** Requested roles, after trimming and lower-casing, that select the
      customer role. */
  predicate IsCustomerAlias(norm: string) {
    norm == "customer" || norm == "musteri" || norm == "müşteri" || norm == "role_customer" || norm == "role_user"
  }

  /** Requested roles, after trimming and lower-casing, that select the
      shop-owner role. */
  predicate IsShopOwnerAlias(norm: string) {
    || norm == "shop" || norm == "shop_owner" || norm == "store" || norm == "dukkan" || norm == "dükkan"
    || norm == "satici" || norm == "satıcı" || norm == "role_shop_owner"
  }

  const BadCredentialsMessage := "Invalid username or password"
  const RegisteredStatus := "registered"
  const LoggedOutMessage := "Logged out successfully"
  const InvalidRefreshTokenMessage := "Invalid refresh token"
  const BearerPrefix := "Bearer "

  /** How a requested role is compared with the aliases. */
  function Normalize(role: string): string {
    ToLower(Trim(role))
  }

  /** `isValidRole`: the exact role names, case and blanks included. A
      name it accepts already normalises to an alias, so the alias lists
      decide first. */
  function IsValidRole(role: Option<string>): (valid: bool)
    ensures valid ==> role.Some? && (IsCustomerAlias(Normalize(role.value)) || IsShopOwnerAlias(Normalize(role.value)))
  {
    if role == Some(RoleCustomer) || role == Some(RoleShopOwner) then
      ExactRoleNamesAreAliases(role.value);
      true
    else false
  }

  /** `determineUserRole`: a customer alias gives the customer role, a shop
      alias the shop-owner role, an exact role name itself, and anything
      else (a missing role included) the customer role. The username plays
      no part. */
  function DetermineUserRole(username: string, requestedRole: Option<string>): (role: string)
    ensures role == RoleCustomer || role == RoleShopOwner
    ensures requestedRole.None? ==> role == RoleCustomer
  {
    if requestedRole.Some? then
      var requested := requestedRole.value;
      var norm := Normalize(requested);
      if IsCustomerAlias(norm) then RoleCustomer
      else if IsShopOwnerAlias(norm) then RoleShopOwner
      else if IsValidRole(requestedRole) then requested
      else RoleCustomer
    else RoleCustomer
  }

  /** The shop-owner role is given exactly for a shop alias, and the
      customer role for a customer alias and for everything unrecognised. */
  lemma RoleFollowsAliases(username: string, requestedRole: Option<string>)
    ensures DetermineUserRole(username, requestedRole) == RoleShopOwner <==>
              requestedRole.Some? && IsShopOwnerAlias(Normalize(requestedRole.value))
    ensures requestedRole.Some? && IsCustomerAlias(Normalize(requestedRole.value)) ==>
              DetermineUserRole(username, requestedRole) == RoleCustomer
  {
    if requestedRole.Some? {
      var norm := Normalize(requestedRole.value);
      ExactRoleNamesAreAliases(requestedRole.value);
      if IsCustomerAlias(norm) {
        assert !IsShopOwnerAlias(norm);
      }
    }
  }

  lemma CustomerRoleIsAlias(role: string)
    requires role == RoleCustomer
    ensures Normalize(role) == "role_customer"
  {
    TrimmedLowerCaseOf(role, "role_customer");
  }

  lemma ShopOwnerRoleIsAlias(role: string)
    requires role == RoleShopOwner
    ensures Normalize(role) == "role_shop_owner"
  {
    TrimmedLowerCaseOf(role, "role_shop_owner");
  }

  /** The two role names normalise to aliases of themselves. */
  lemma ExactRoleNamesAreAliases(role: string)
    ensures role == RoleCustomer ==> IsCustomerAlias(Normalize(role))
    ensures role == RoleShopOwner ==> IsShopOwnerAlias(Normalize(role))
  {
    if role == RoleCustomer {
      CustomerRoleIsAlias(role);
    } else if role == RoleShopOwner {
      ShopOwnerRoleIsAlias(role);
    }
  }

  /** The exact-name branch of `determineUserRole` never decides: a valid
      role name is already caught by the alias lists. */
  lemma ExactNameBranchIsDead(requestedRole: Option<string>)
    requires IsValidRole(requestedRole)
    ensures IsCustomerAlias(Normalize(requestedRole.value)) || IsShopOwnerAlias(Normalize(requestedRole.value))
    ensures DetermineUserRole("", requestedRole) == requestedRole.value
  {
    ExactRoleNamesAreAliases(requestedRole.value);
    RoleFollowsAliases("", requestedRole);
  }

  /** The role depends on the requested text only through its trimmed,
      lower-cased form. */
  lemma RoleDependsOnNormalFormOnly(username: string, a: string, b: string)
    requires Normalize(a) == Normalize(b)
    ensures DetermineUserRole(username, Some(a)) == DetermineUserRole(username, Some(b))
  {
    RoleFollowsAliases(username, Some(a));
    RoleFollowsAliases(username, Some(b));
  }

  /** Blanks around the requested role and the case of its letters never
      change the outcome: any padded, mixed-case spelling gets the role of
      its lower-case core. */
  lemma PaddedCaseVariantGetsSameRole(username: string, pre: string, core: string, post: string)
    requires AllTrimmable(pre) && AllTrimmable(post)
    requires core != [] && !IsTrimmable(core[0]) && !IsTrimmable(core[|core| - 1])
    ensures DetermineUserRole(username, Some(pre + core + post)) == DetermineUserRole(username, Some(ToLower(core)))
  {
    PaddedCaseVariantNormalizes(pre, core, post);
    RoleDependsOnNormalFormOnly(username, pre + core + post, ToLower(core));
  }

  lemma PaddedCaseVariantNormalizes(pre: string, core: string, post: string)
    requires AllTrimmable(pre) && AllTrimmable(post)
    requires core != [] && !IsTrimmable(core[0]) && !IsTrimmable(core[|core| - 1])
    ensures Normalize(pre + core + post) == Normalize(ToLower(core))
  {
    var lower := ToLower(core);
    TrimOfPadded(pre, core, post);
    TrimOfUnpadded(lower);
    ToLowerIdempotent(core);
  }

  /** The claims `parseToken` yields, when it yields any. */
  datatype Claims = Claims(subject: Option<string>, role: Option<string>)

  /** The body of a successful `me`. */
  datatype Identity = Identity(username: string, role: string)

  /** `me`: `None` is the bare 401. The header must be present and start
      with "Bearer " exactly; the token is what follows those seven
      characters; a token that does not parse, or whose subject or role
      claim is missing, is also refused. */
  function Me(authorization: Option<string>, parse: string -> Option<Claims>): (r: Option<Identity>)
    ensures authorization.None? ==> r.None?
    ensures authorization.Some? && !StartsWith(authorization.value, BearerPrefix) ==> r.None?
    ensures r.Some? ==>
              && authorization.Some? && StartsWith(authorization.value, BearerPrefix)
              && parse(authorization.value[|BearerPrefix|..]) == Some(Claims(Some(r.value.username), Some(r.value.role)))
  {
    if authorization.None? || !StartsWith(authorization.value, BearerPrefix) then None
    else
      match parse(authorization.value[7..])
      case None => None
      case Some(claims) =>
        if claims.subject.None? || claims.role.None? then None
        else Some(Identity(claims.subject.value, claims.role.value))
  }

  /** A "Bearer " header answers exactly what its token's claims say. */
  lemma {:induction false} MeReadsTheBearerToken(token: string, parse: string -> Option<Claims>)
    ensures Me(Some(BearerPrefix + token), parse).Some? <==>
              parse(token).Some? && parse(token).value.subject.Some? && parse(token).value.role.Some?
    ensures Me(Some(BearerPrefix + token), parse).Some? ==>
              Me(Some(BearerPrefix + token), parse).value ==
                Identity(parse(token).value.subject.value, parse(token).value.role.value)
  {
    var header := BearerPrefix + token;
    assert StartsWith(header, BearerPrefix) by {
      assert header[..|BearerPrefix|] == BearerPrefix;
    }
    assert header[7..] == token;
  }

  /** The prefix is case-sensitive: a lower-case scheme is refused whatever
      the token. */
  lemma {:induction false} MePrefixIsCaseSensitive(token: string, parse: string -> Option<Claims>)
    ensures Me(Some("bearer " + token), parse) == None
  {
    var header := "bearer " + token;
    assert header[0] == 'b';
    assert !StartsWith(header, BearerPrefix);
  }

  /** Why an auth request failed, as the exception handler sees it. */
  datatype AuthFailure =
    | Invalid(errors: seq<FieldError>)
    | BadCredentials(message: string)
    | UserAlreadyExists(message: string)
    | Unexpected(message: string)

  datatype Registered = Registered(status: string, role: string)
  datatype LoginTokens = LoginTokens(accessToken: string, refreshToken: string, tokenType: string)

  /** What `refresh` answers when its request is well-formed: the new
      access token, or the 401 body for every failure. */
  datatype RefreshReply = Granted(grant: AccessGrant) | Refused(error: string)

  function TakenMessage(username: string): string {
    "Username '" + username + "' is already taken"
  }

  class AuthController {
    var users: map<string, User>
    const refreshTokens: RefreshTokenService

    /** Users sit under their own names and hold one of the two roles. */
    ghost predicate Valid()
      reads this, refreshTokens
    {
      && refreshTokens.Valid()
      && forall u :: u in users ==>
           users[u].username == u && (users[u].role == RoleCustomer || users[u].role == RoleShopOwner)
    }

    constructor(tokens: RefreshTokenService)
      requires tokens.Valid()
      ensures Valid()
      ensures users == map[] && refreshTokens == tokens
    {
      users := map[];
      refreshTokens := tokens;
    }

    /** `register`: a blank username or password is refused, a taken name
        is refused and nothing is stored; otherwise exactly one user is
        added with the encoded password and the determined role. */
    method Register(req: RegisterRequest, encode: string -> string) returns (r: Result<Registered, AuthFailure>)
      requires Valid()
      modifies this
      ensures Valid()
      ensures RegisterViolations(req) != [] ==> r == Err(Invalid(RegisterViolations(req))) && users == old(users)
      ensures RegisterViolations(req) == [] && req.username.value in old(users) ==>
                r == Err(UserAlreadyExists(TakenMessage(req.username.value))) && users == old(users)
      ensures RegisterViolations(req) == [] && req.username.value !in old(users) ==>
                var role := DetermineUserRole(req.username.value, req.role);
                && users == old(users)[req.username.value := User(req.username.value, encode(req.password.value), role)]
                && r == Ok(Registered(RegisteredStatus, role))
    {
      var errors := RegisterViolations(req);
      if errors != [] {
        return Err(Invalid(errors));
      }
      var username := req.username.value;
      if username in users {
        return Err(UserAlreadyExists(TakenMessage(username)));
      }
      var role := DetermineUserRole(username, req.role);
      users := users[username := User(username, encode(req.password.value), role)];
      r := Ok(Registered(RegisteredStatus, role));
    }

    /** `login`: an unknown user and a wrong password are refused alike and
        issue nothing; otherwise the user's older refresh tokens are
        revoked and one new one is issued beside a signed access token.
        `matches` is the password check, `sign` the access-token signer and
        `newToken` the random string of the new refresh token. */
    method Login(req: LoginRequest, matches: (string, string) -> bool, sign: (string, string) -> string,
                 newToken: string, now: int)
      returns (r: Result<LoginTokens, AuthFailure>)
      requires Valid()
      requires newToken !in refreshTokens.tokens
      modifies refreshTokens
      ensures Valid()
      ensures LoginViolations(req) != [] ==>
                r == Err(Invalid(LoginViolations(req))) && refreshTokens.tokens == old(refreshTokens.tokens)
      ensures LoginViolations(req) == [] &&
              (req.username.value !in users || !matches(req.password.value, users[req.username.value].passwordHash)) ==>
                r == Err(BadCredentials(BadCredentialsMessage)) && refreshTokens.tokens == old(refreshTokens.tokens)
      ensures r.Ok? <==>
                LoginViolations(req) == [] && req.username.value in users
                && matches(req.password.value, users[req.username.value].passwordHash)
      ensures r.Ok? ==>
                var u := req.username.value;
                && LoginViolations(req) == [] && u in users && matches(req.password.value, users[u].passwordHash)
                && r.value == LoginTokens(sign(u, users[u].role), newToken, BearerType)
                && refreshTokens.tokens == Issued(old(refreshTokens.tokens), u, newToken, now, refreshTokens.expirationDays)
    {
      var errors := LoginViolations(req);
      if errors != [] {
        return Err(Invalid(errors));
      }
      var username := req.username.value;
      if username !in users || !matches(req.password.value, users[username].passwordHash) {
        return Err(BadCredentials(BadCredentialsMessage));
      }
      var user := users[username];
      var accessToken := sign(user.username, user.role);
      var refreshToken := refreshTokens.CreateRefreshToken(user.username, newToken, now);
      r := Ok(LoginTokens(accessToken, refreshToken.token, BearerType));
    }

    /** `refresh`: every failure of the service, whatever its message,
        becomes the same 401 body; nothing is stored. */
    method Refresh(req: RefreshTokenRequest, now: int, sign: (string, string) -> string)
      returns (r: Result<RefreshReply, AuthFailure>)
      requires Valid()
      ensures RefreshViolations(req) != [] ==> r == Err(Invalid(RefreshViolations(req)))
      ensures RefreshViolations(req) == [] ==> r.Ok?
      ensures r.Ok? && r.value.Refused? ==> r.value.error == InvalidRefreshTokenMessage
      ensures r.Ok? && r.value.Granted? <==>
                && RefreshViolations(req) == []
                && (var t := req.refreshToken.value;
                    && t in refreshTokens.tokens && !IsExpired(refreshTokens.tokens[t], now)
                    && refreshTokens.tokens[t].username in users)
      ensures r.Ok? && r.value.Granted? ==>
                var u := users[refreshTokens.tokens[req.refreshToken.value].username];
                r.value.grant == AccessGrant(sign(u.username, u.role), BearerType)
    {
      var errors := RefreshViolations(req);
      if errors != [] {
        return Err(Invalid(errors));
      }
      var outcome := refreshTokens.RefreshAccessToken(req.refreshToken.value, users, now, sign);
      if outcome.Ok? {
        r := Ok(Granted(outcome.value));
      } else {
        r := Ok(Refused(InvalidRefreshTokenMessage));
      }
    }

    /** `logout`: revokes the token if it is known and succeeds either way. */
    method Logout(req: LogoutRequest) returns (r: Result<string, AuthFailure>)
      requires Valid()
      modifies refreshTokens
      ensures Valid()
      ensures LogoutViolations(req) != [] ==>
                r == Err(Invalid(LogoutViolations(req))) && refreshTokens.tokens == old(refreshTokens.tokens)
      ensures LogoutViolations(req) == [] ==>
                var t := req.refreshToken.value;
                && r == Ok(LoggedOutMessage)
                && refreshTokens.tokens.Keys == old(refreshTokens.tokens).Keys
                && (t in old(refreshTokens.tokens) ==>
                      refreshTokens.tokens == old(refreshTokens.tokens)[t := old(refreshTokens.tokens)[t].(revoked := true)])
                && (t !in old(refreshTokens.tokens) ==> refreshTokens.tokens == old(refreshTokens.tokens))
    {
      var errors := LogoutViolations(req);
      if errors != [] {
        return Err(Invalid(errors));
      }
      refreshTokens.RevokeToken(req.refreshToken.value);
      r := Ok(LoggedOutMessage);
    }
  }
}
