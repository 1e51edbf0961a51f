/**
 * The authentication slice of `src3/store/slices/authSlice.ts`: the signed-in
 * user with its flags, and the reducers of `setUser`, `clearError` and of the
 * `signUp`, `login`, `logout` and `checkAuthState` thunks. The thunks
 * themselves only await the authentication service, which is not part of
 * this model; their outcomes arrive here as reducer payloads.
 */
module AuthSlice {
  import opened TaskTypes

  /** The user record the authentication service answers; email and name may be null. */
  datatype User = User(uid: string, email: Option<string>, displayName: Option<string>)

  /** `AuthState`, which the reducers update in place. */
  class AuthState {
    var user: Option<User>
    var loading: bool
    var error: Option<string>
    var isAuthenticated: bool

    /** The flag says exactly whether a user is signed in. */
    predicate Valid()
      reads this
    {
      isAuthenticated <==> user.Some?
    }

    /** `initialState`. */
    constructor ()
      ensures Valid()
      ensures user == None && !loading && error == None && !isAuthenticated
    {
      user := None;
      loading := false;
      error := None;
      isAuthenticated := false;
    }

    /** `setUser`: the user, authenticated exactly when it is non-null. */
    method SetUser(payload: Option<User>)
      modifies this`user, this`isAuthenticated
      ensures Valid()
      ensures user == payload && isAuthenticated == payload.Some?
    {
      user := payload;
      isAuthenticated := payload.Some?;
    }

    /** `clearError`. */
    method ClearError()
      requires Valid()
      modifies this`error
      ensures Valid()
      ensures error == None
    {
      error := None;
    }

    /** `signUp.pending` and `login.pending`. */
    method SignInPending()
      requires Valid()
      modifies this`loading, this`error
      ensures Valid()
      ensures loading && error == None
    {
      loading := true;
      error := None;
    }

    /** `signUp.fulfilled` and `login.fulfilled`: the payload is a user, never null. */
    method SignInFulfilled(payload: User)
      modifies this`loading, this`user, this`isAuthenticated
      ensures Valid()
      ensures !loading && user == Some(payload) && isAuthenticated
    {
      loading := false;
      user := Some(payload);
      isAuthenticated := true;
    }

    /** `signUp.rejected` and `login.rejected`: the user and the flag stay. */
    method SignInRejected(message: string)
      requires Valid()
      modifies this`loading, this`error
      ensures Valid()
      ensures !loading && error == Some(message)
    {
      loading := false;
      error := Some(message);
    }

    /** `logout.pending`: only `loading` changes. */
    method LogoutPending()
      requires Valid()
      modifies this`loading
      ensures Valid()
      ensures loading
    {
      loading := true;
    }

    /** `logout.fulfilled`: back to the signed-out state. */
    method LogoutFulfilled()
      modifies this`loading, this`user, this`isAuthenticated, this`error
      ensures Valid()
      ensures !loading && user == None && !isAuthenticated && error == None
    {
      loading := false;
      user := None;
      isAuthenticated := false;
      error := None;
    }

    /** `logout.rejected`: the user stays signed in. */
    method LogoutRejected(message: string)
      requires Valid()
      modifies this`loading, this`error
      ensures Valid()
      ensures !loading && error == Some(message)
    {
      loading := false;
      error := Some(message);
    }

    /** `checkAuthState.fulfilled`: the stored user, or null; `loading` stays. */
    method CheckAuthStateFulfilled(payload: Option<User>)
      modifies this`user, this`isAuthenticated
      ensures Valid()
      ensures user == payload && isAuthenticated == payload.Some?
    {
      SetUser(payload);
    }
  }
}
