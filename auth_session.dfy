/**
 * The client's authentication context (src/contexts/AuthContext.tsx): the
 * signed-in user, the loading flag, the token and user kept in device
 * storage, and the default `Authorization` header; plus the two chains that
 * turn a failed request into the message of the error thrown to the screen.
 *
 * A request's outcome is a parameter: the token and user of a 2xx body, or
 * the error axios raises (no response at all, or a response with a status
 * and a body whose `details` and `message` fields are read). Storage is
 * modelled as two fields; `JSON.stringify` followed by `JSON.parse` is the
 * identity on the stored user.
 */
module AuthSession {
  import opened Common
  import AuthRoutes

  const InvalidInputMessage := "Invalid input data"
  const ServerErrorMessage := "Server error. Please try again later."
  const NetworkErrorMessage := "Network error. Please check your connection."
  const SignUpFailedMessage := "Failed to sign up. Please try again."
  const InvalidLoginMessage := "Invalid email or password"
  const SignInFailedMessage := "Failed to sign in. Please try again."
  const OutsideProviderMessage := "useAuth must be used within an AuthProvider"
  const BearerPrefix := "Bearer "
  const DetailsSeparator := ", "

  /** The `details` field of an error body: absent, an array of strings, or any other object. */
  datatype Details = NoDetails | DetailsList(items: seq<string>) | DetailsObject

  /** The error axios raises: no response, or a response with its status and body fields. */
  datatype AxiosError = NoResponse | WithResponse(status: int, details: Details, message: Option<string>)

  /** A request outcome: the token and user of a 2xx body, or the error raised. */
  datatype Outcome = Succeeded(token: string, user: AuthRoutes.PublicUser) | Failed(error: AxiosError)

  /** The error thrown to the caller: one with a message, or the TypeError of calling `join` on a non-array. */
  datatype Thrown = Thrown(message: string) | JoinIsNotAFunction

  /** `useAuth`: the context, or the error raised outside a provider. */
  datatype Hook<T> = Provided(value: T) | Raised(message: string)

  /** `items.join(sep)`. */
  function Join(items: seq<string>, sep: string): (r: string)
    ensures items == [] ==> r == ""
    ensures |items| == 1 ==> r == items[0]
    ensures |items| >= 1 ==> StartsWith(r, items[0])
    decreases |items|
  {
    if items == [] then ""
    else if |items| == 1 then items[0]
    else
      assert (items[0] + sep + Join(items[1..], sep))[..|items[0]|] == items[0];
      items[0] + sep + Join(items[1..], sep)
  }

  /**
   * The part of `signUp`'s error chain after `details`: the body's message,
   * then status 400, then status 500, then no response, then a generic message.
   */
  function SignUpFallback(e: AxiosError): (r: string)
    ensures e.NoResponse? ==> r == NetworkErrorMessage
    ensures e.WithResponse? && Truthy(e.message) ==> r == e.message.value
    ensures e.WithResponse? && !Truthy(e.message) && e.status == 400 ==> r == InvalidInputMessage
    ensures e.WithResponse? && !Truthy(e.message) && e.status == 500 ==> r == ServerErrorMessage
    ensures e.WithResponse? && !Truthy(e.message) && e.status != 400 && e.status != 500 ==> r == SignUpFailedMessage
  {
    match e
    case NoResponse => NetworkErrorMessage
    case WithResponse(status, _, message) =>
      if Truthy(message) then message.value
      else if status == 400 then InvalidInputMessage
      else if status == 500 then ServerErrorMessage
      else SignUpFailedMessage
  }

  /**
   * `signUp`'s error chain as written: any present `details` is joined with
   * ", ", so an object there raises a TypeError instead of a message.
   */
  function SignUpErrorAsWritten(e: AxiosError): (r: Thrown)
    ensures r == JoinIsNotAFunction <==> e.WithResponse? && e.details.DetailsObject?
    ensures e.WithResponse? && e.details.DetailsList? ==> r == Thrown(Join(e.details.items, DetailsSeparator))
    ensures (e.NoResponse? || e.details.NoDetails?) ==> r == Thrown(SignUpFallback(e))
  {
    match e
    case WithResponse(_, DetailsList(items), _) => Thrown(Join(items, DetailsSeparator))
    case WithResponse(_, DetailsObject, _) => JoinIsNotAFunction
    case _ => Thrown(SignUpFallback(e))
  }

  /** `signUp`'s error chain with `details` joined only when it is an array; every outcome has a message. */
  function SignUpError(e: AxiosError): (r: Thrown)
    ensures r.Thrown?
    ensures e.WithResponse? && e.details.DetailsList? ==> r == Thrown(Join(e.details.items, DetailsSeparator))
    ensures !(e.WithResponse? && e.details.DetailsList?) ==> r == Thrown(SignUpFallback(e))
  {
    match e
    case WithResponse(_, DetailsList(items), _) => Thrown(Join(items, DetailsSeparator))
    case _ => Thrown(SignUpFallback(e))
  }

  /** The corrected chain agrees with the chain as written wherever the latter yields a message. */
  lemma SignUpErrorAgrees(e: AxiosError)
    ensures SignUpErrorAsWritten(e).Thrown? ==> SignUpError(e) == SignUpErrorAsWritten(e)
    ensures SignUpErrorAsWritten(e).Thrown? <==> !(e.WithResponse? && e.details.DetailsObject?)
  {
  }

  /**
   * When `save()` fails Mongoose validation, the backend's reply carries the
   * validation error's `errors` object as `details`: as written the screen
   * gets a TypeError, not the reply's message. (A save failing in any other
   * way has no `errors`, the key is dropped from the JSON, and
   * `SignUpFailureShown` applies.)
   */
  lemma SaveFailureAsWritten()
    ensures SignUpErrorAsWritten(WithResponse(500, DetailsObject, Some(AuthRoutes.SaveErrorMessage)))
         == JoinIsNotAFunction
  {
  }

  /** With the corrected chain the same validation-failure reply reaches the screen as "Error saving user". */
  lemma SaveFailureCorrected()
    ensures SignUpError(WithResponse(500, DetailsObject, Some(AuthRoutes.SaveErrorMessage)))
         == Thrown(AuthRoutes.SaveErrorMessage)
  {
  }

  /** `signIn`'s error chain: the body's message, then status 401, then no response, then a generic message. */
  function SignInError(e: AxiosError): (r: string)
    ensures e.NoResponse? ==> r == NetworkErrorMessage
    ensures e.WithResponse? && Truthy(e.message) ==> r == e.message.value
    ensures e.WithResponse? && !Truthy(e.message) && e.status == 401 ==> r == InvalidLoginMessage
    ensures e.WithResponse? && !Truthy(e.message) && e.status != 401 ==> r == SignInFailedMessage
  {
    match e
    case NoResponse => NetworkErrorMessage
    case WithResponse(status, _, message) =>
      if Truthy(message) then message.value
      else if status == 401 then InvalidLoginMessage
      else SignInFailedMessage
  }

  /** A failure reply of the backend's credential routes as axios raises it. */
  function AsRaised(r: AuthRoutes.AuthReply): AxiosError
    requires r.Failure?
  {
    WithResponse(r.status, NoDetails, Some(r.message))
  }

  /**
   * Every failure `POST /login` can send reaches the screen as the backend's
   * own message, so the client's "Invalid email or password" fallback is
   * never shown for it.
   */
  lemma LoginFailureShown(r: AuthRoutes.AuthReply)
    requires r.Failure?
    requires r.status == 401 ==> r.message == AuthRoutes.InvalidCredentialsMessage
    requires r.status != 401 ==> r == AuthRoutes.Failure(500, AuthRoutes.LoginErrorMessage)
    ensures SignInError(AsRaised(r)) == r.message
    ensures SignInError(AsRaised(r)) != InvalidLoginMessage
  {
    assert |AuthRoutes.InvalidCredentialsMessage| != |InvalidLoginMessage|;
    assert |AuthRoutes.LoginErrorMessage| != |InvalidLoginMessage|;
  }

  /** A signup failure without `details` reaches the screen as the backend's message whenever it has one. */
  lemma SignUpFailureShown(r: AuthRoutes.AuthReply)
    requires r.Failure? && r.message != ""
    ensures SignUpErrorAsWritten(AsRaised(r)) == Thrown(r.message)
  {
  }

  /** `useAuth`: outside a provider there is no context and it raises. */
  function UseAuth<T>(context: Option<T>): (r: Hook<T>)
    ensures r.Raised? <==> context.None?
    ensures r.Raised? ==> r.message == OutsideProviderMessage
    ensures r.Provided? ==> r.value == context.value
  {
    match context
    case None => Raised(OutsideProviderMessage)
    case Some(c) => Provided(c)
  }

  class Session {
    var user: Option<AuthRoutes.PublicUser>
    var loading: bool
    var storedToken: Option<string>
    var storedUser: Option<AuthRoutes.PublicUser>
    var authHeader: Option<string>

    /** The provider as it mounts, over whatever device storage holds: no user yet, still loading. */
    constructor (token: Option<string>, saved: Option<AuthRoutes.PublicUser>)
      ensures user == None && loading && authHeader == None
      ensures storedToken == token && storedUser == saved
    {
      user := None;
      loading := true;
      storedToken := token;
      storedUser := saved;
      authHeader := None;
    }

    /**
     * `loadStoredUser`: the stored user and the bearer header are restored
     * only when both a stored user and a non-empty stored token exist;
     * loading ends false either way.
     */
    method LoadStoredUser()
      modifies this
      ensures !loading
      ensures storedToken == old(storedToken) && storedUser == old(storedUser)
      ensures storedUser.Some? && Truthy(storedToken) ==>
        user == storedUser && authHeader == Some(BearerPrefix + storedToken.value)
      ensures !(storedUser.Some? && Truthy(storedToken)) ==>
        user == old(user) && authHeader == old(authHeader)
    {
      if storedUser.Some? && Truthy(storedToken) {
        user := storedUser;
        authHeader := Some(BearerPrefix + storedToken.value);
      }
      loading := false;
    }

    /** The common success step of `signUp` and `signIn`: store token and user, set the user and the header. */
    method Establish(token: string, u: AuthRoutes.PublicUser)
      modifies this
      ensures storedToken == Some(token) && storedUser == Some(u)
      ensures user == Some(u) && authHeader == Some(BearerPrefix + token)
      ensures loading == old(loading)
    {
      storedToken := Some(token);
      storedUser := Some(u);
      user := Some(u);
      authHeader := Some(BearerPrefix + token);
    }

    /** `signUp`: success establishes the session; failure changes nothing and throws the as-written chain's error. */
    method SignUp(o: Outcome) returns (thrown: Option<Thrown>)
      modifies this
      ensures loading == old(loading)
      ensures o.Succeeded? ==>
        && thrown == None
        && storedToken == Some(o.token) && storedUser == Some(o.user)
        && user == Some(o.user) && authHeader == Some(BearerPrefix + o.token)
      ensures o.Failed? ==>
        && thrown == Some(SignUpErrorAsWritten(o.error))
        && user == old(user) && authHeader == old(authHeader)
        && storedToken == old(storedToken) && storedUser == old(storedUser)
    {
      match o {
        case Succeeded(token, u) =>
          Establish(token, u);
          thrown := None;
        case Failed(e) =>
          thrown := Some(SignUpErrorAsWritten(e));
      }
    }

    /** `signIn`: success establishes the session; failure changes nothing and throws the chain's message. */
    method SignIn(o: Outcome) returns (thrown: Option<string>)
      modifies this
      ensures loading == old(loading)
      ensures o.Succeeded? ==>
        && thrown == None
        && storedToken == Some(o.token) && storedUser == Some(o.user)
        && user == Some(o.user) && authHeader == Some(BearerPrefix + o.token)
      ensures o.Failed? ==>
        && thrown == Some(SignInError(o.error))
        && user == old(user) && authHeader == old(authHeader)
        && storedToken == old(storedToken) && storedUser == old(storedUser)
    {
      match o {
        case Succeeded(token, u) =>
          Establish(token, u);
          thrown := None;
        case Failed(e) =>
          thrown := Some(SignInError(e));
      }
    }

    /** `logout`: both stored entries removed, no user, no default header. */
    method Logout()
      modifies this
      ensures storedToken == None && storedUser == None && user == None && authHeader == None
      ensures loading == old(loading)
    {
      storedToken := None;
      storedUser := None;
      user := None;
      authHeader := None;
    }
  }

  /** A sign-in survives a restart: a provider mounted over the same storage restores the user and the header. */
  method SignInSurvivesRestart(s: Session, token: string, u: AuthRoutes.PublicUser) returns (next: Session)
    requires token != ""
    modifies s
    ensures next.user == Some(u) && next.authHeader == Some(BearerPrefix + token) && !next.loading
  {
    var thrown := s.SignIn(Succeeded(token, u));
    next := new Session(s.storedToken, s.storedUser);
    next.LoadStoredUser();
  }

  /** After a logout a restart restores nothing: the new provider has no user and no header. */
  method LogoutSurvivesRestart(s: Session) returns (next: Session)
    modifies s
    ensures next.user == None && next.authHeader == None && !next.loading
  {
    s.Logout();
    next := new Session(s.storedToken, s.storedUser);
    next.LoadStoredUser();
  }
}
