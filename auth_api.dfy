/** The auth endpoints' request records and their `@NotBlank` constraints.
    Every field may arrive as null. */
module AuthApi {
  import opened Common
  import opened Text
  import opened ErrorResponses

  /** `role` carries no constraint and may be null. */
  datatype RegisterRequest = RegisterRequest(username: Option<string>, password: Option<string>, role: Option<string>)
  datatype LoginRequest = LoginRequest(username: Option<string>, password: Option<string>)
  datatype RefreshTokenRequest = RefreshTokenRequest(refreshToken: Option<string>)
  datatype LogoutRequest = LogoutRequest(refreshToken: Option<string>)

  const NotBlankMessage := "must not be blank"

  /** The field error `@NotBlank` reports for one field, if any. */
  function NotBlank(field: string, value: Option<string>): (errors: seq<FieldError>)
    ensures errors == [] <==> !IsBlank(value)
    ensures errors != [] ==> errors == [FieldError(field, NotBlankMessage)]
  {
    if IsBlank(value) then [FieldError(field, NotBlankMessage)] else []
  }

  function RegisterViolations(req: RegisterRequest): (errors: seq<FieldError>)
    ensures errors == [] <==> !IsBlank(req.username) && !IsBlank(req.password)
    ensures forall e :: e in errors ==> e.field in {"username", "password"}
  {
    NotBlank("username", req.username) + NotBlank("password", req.password)
  }

  function LoginViolations(req: LoginRequest): (errors: seq<FieldError>)
    ensures errors == [] <==> !IsBlank(req.username) && !IsBlank(req.password)
    ensures forall e :: e in errors ==> e.field in {"username", "password"}
  {
    NotBlank("username", req.username) + NotBlank("password", req.password)
  }

  function RefreshViolations(req: RefreshTokenRequest): (errors: seq<FieldError>)
    ensures errors == [] <==> !IsBlank(req.refreshToken)
  {
    NotBlank("refreshToken", req.refreshToken)
  }

  function LogoutViolations(req: LogoutRequest): (errors: seq<FieldError>)
    ensures errors == [] <==> !IsBlank(req.refreshToken)
  {
    NotBlank("refreshToken", req.refreshToken)
  }
}

/** The user entity, reduced to the fields the auth controller reads and
    writes. */
module Users {
  datatype User = User(username: string, passwordHash: string, role: string)
}
