/**
 * The `auth` slice of the frontend store: the session token, the signed-in user, and the
 * loading and error flags of the auth forms, with the `selectIsAuth` selector.
 */
module AuthSlice {
  import opened Wrappers

  /** The user record the backend returns, without its password. */
  datatype SafeUser = SafeUser(
    id: string,
    name: string,
    username: string,
    email: string,
    createdAt: int,
    updatedAt: int)

  /** The `loginSuccess` payload. */
  datatype LoginResponse = LoginResponse(token: string, user: SafeUser)

  /** `selectIsAuth`, on the token alone: `!!token`, so an empty token signs nobody in. */
  predicate IsAuthToken(token: Option<string>)
  {
    token.Some? && token.value != ""
  }

  class AuthSlice {
    var token: Option<string>
    var isLoading: bool
    var error: Option<string>
    var user: Option<SafeUser>

    /** `initialState`: nobody signed in, nothing loading, no error. */
    predicate IsInitial()
      reads this
    {
      token.None? && !isLoading && error.None? && user.None?
    }

    /** `selectIsAuth`. */
    predicate IsAuth()
      reads this
      ensures IsAuth() <==> IsAuthToken(token)
    {
      IsAuthToken(token)
    }

    constructor ()
      ensures IsInitial() && !IsAuth()
    {
      token, isLoading, error, user := None, false, None, None;
    }

    method SetToken(t: Option<string>)
      modifies this
      ensures token == t
      ensures isLoading == old(isLoading) && error == old(error) && user == old(user)
    {
      token := t;
    }

    method SetLoading(loading: bool)
      modifies this
      ensures isLoading == loading
      ensures token == old(token) && error == old(error) && user == old(user)
    {
      isLoading := loading;
    }

    method SetError(e: Option<string>)
      modifies this
      ensures error == e
      ensures token == old(token) && isLoading == old(isLoading) && user == old(user)
    {
      error := e;
    }

    method SetUser(u: Option<SafeUser>)
      modifies this
      ensures user == u
      ensures token == old(token) && isLoading == old(isLoading) && error == old(error)
    {
      user := u;
    }

    /** `logoutSuccess`: back to the initial state, so nobody is signed in. */
    method LogoutSuccess()
      modifies this
      ensures IsInitial() && !IsAuth()
    {
      token := None;
      isLoading := false;
      user := None;
      error := None;
    }

    /** `loginSuccess`: token and user from the payload, loading off, the error kept as it is. */
    method LoginSuccess(payload: LoginResponse)
      modifies this
      ensures token == Some(payload.token) && user == Some(payload.user) && !isLoading
      ensures error == old(error)
      ensures IsAuth() <==> payload.token != ""
    {
      token := Some(payload.token);
      user := Some(payload.user);
      isLoading := false;
    }
  }
}
