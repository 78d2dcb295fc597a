/**
 * The client's session controller: a reducer over `AuthState` and the
 * provider's action sequences that drive it and the persisted `token` and
 * `user` keys.
 */
module AuthContext {
  import opened Wrappers
  import opened AuthTypes

  datatype AuthAction =
    | LoginSuccess(user: User, token: string)
    | Logout
    | SetLoading(loading: bool)
    | SetError(message: string)

  /** `authReducer`. */
  function AuthReducer(state: AuthState, action: AuthAction): (r: AuthState)
    ensures SessionConsistent(state) ==> SessionConsistent(r)
    ensures action.LoginSuccess? || action.Logout? ==> !r.isLoading && r.error.None?
    ensures action.SetLoading? || action.SetError? ==>
      r.user == state.user && r.token == state.token && r.isAuthenticated == state.isAuthenticated
  {
    match action
    case LoginSuccess(user, token) =>
      state.(user := Some(user), token := Some(token), isAuthenticated := true, isLoading := false, error := None)
    case Logout =>
      state.(user := None, token := None, isAuthenticated := false, isLoading := false, error := None)
    case SetLoading(loading) =>
      state.(isLoading := loading, error := None)
    case SetError(message) =>
      state.(error := Some(message), isLoading := false)
  }

  /** `initialState`. */
  function InitialState(): (s: AuthState)
    ensures s.user.None? && s.token.None? && !s.isAuthenticated && s.isLoading && s.error.None?
  {
    AuthState(None, None, false, true, None)
  }

  /** The session invariant: authenticated exactly when both a user and a token are held. */
  predicate SessionConsistent(s: AuthState)
  {
    s.isAuthenticated <==> s.user.Some? && s.token.Some?
  }

  /** The state after dispatching `actions` in order, starting from `s`. */
  function Run(s: AuthState, actions: seq<AuthAction>): AuthState
    decreases |actions|
  {
    if actions == [] then s else Run(AuthReducer(s, actions[0]), actions[1..])
  }

  /** `LOGIN_SUCCESS` installs the session from its payload and clears loading and error. */
  lemma LoginSuccessInstalls(s: AuthState, user: User, token: string)
    ensures var r := AuthReducer(s, LoginSuccess(user, token));
      r.user == Some(user) && r.token == Some(token) && r.isAuthenticated && !r.isLoading && r.error.None?
  {
  }

  /** `LOGOUT` gives one and the same signed-out state, whatever the state before. */
  lemma LogoutForgets(s: AuthState, t: AuthState)
    ensures AuthReducer(s, Logout) == AuthReducer(t, Logout)
    ensures AuthReducer(s, Logout) == AuthState(None, None, false, false, None)
  {
  }

  /** `SET_LOADING` sets only the loading flag, and clears the error. */
  lemma SetLoadingOnly(s: AuthState, loading: bool)
    ensures AuthReducer(s, SetLoading(loading)) == s.(isLoading := loading, error := None)
  {
  }

  /** `SET_ERROR` records the message and stops loading; the session itself is kept. */
  lemma SetErrorOnly(s: AuthState, message: string)
    ensures var r := AuthReducer(s, SetError(message));
      r.error == Some(message) && !r.isLoading
      && r.user == s.user && r.token == s.token && r.isAuthenticated == s.isAuthenticated
  {
  }

  /** Every sequence of actions from a consistent state ends in a consistent state. */
  lemma {:induction false} RunKeepsConsistent(s: AuthState, actions: seq<AuthAction>)
    requires SessionConsistent(s)
    ensures SessionConsistent(Run(s, actions))
    decreases |actions|
  {
    if actions != [] {
      RunKeepsConsistent(AuthReducer(s, actions[0]), actions[1..]);
    }
  }

  /** Every state reachable from `initialState` is consistent. */
  lemma ReachableConsistent(actions: seq<AuthAction>)
    ensures SessionConsistent(Run(InitialState(), actions))
  {
    RunKeepsConsistent(InitialState(), actions);
  }

  /** The abstract result of the login or signup request. */
  datatype ApiOutcome =
    | ApiSuccess(user: User, token: string)
      /** `message` is the thrown `Error`'s message, `None` when what was thrown is not an `Error`. */
    | ApiFailure(message: Option<string>)

  /** A stored value passes the `if (token && user)` test: present and, for a string, not "". */
  predicate Truthy(token: Option<string>)
  {
    token.Some? && token.value != ""
  }

  /** The state after the mount effect read `token` and `user` from storage. */
  function Rehydrated(s: AuthState, token: Option<string>, user: Option<User>): (r: AuthState)
    ensures SessionConsistent(s) ==> SessionConsistent(r)
    ensures !r.isLoading && r.error.None?
    ensures Truthy(token) && user.Some? ==> r.isAuthenticated && r.user == user && r.token == token
    ensures !(Truthy(token) && user.Some?) ==>
      r.user == s.user && r.token == s.token && r.isAuthenticated == s.isAuthenticated
  {
    if Truthy(token) && user.Some? then AuthReducer(s, LoginSuccess(user.value, token.value))
    else AuthReducer(s, SetLoading(false))
  }

  /** The message dispatched on failure, with the given fallback for a non-`Error`. */
  function FailureMessage(message: Option<string>, fallback: string): string
  {
    message.GetOr(fallback)
  }

  /** The state after a login or signup attempt: `SET_LOADING true`, then the outcome's action. */
  function Attempted(s: AuthState, outcome: ApiOutcome, fallback: string): (r: AuthState)
    ensures SessionConsistent(s) ==> SessionConsistent(r)
    ensures !r.isLoading
    ensures outcome.ApiSuccess? ==>
      r.isAuthenticated && r.user == Some(outcome.user) && r.token == Some(outcome.token) && r.error.None?
    ensures outcome.ApiFailure? ==>
      && r.error == Some(FailureMessage(outcome.message, fallback))
      && r.user == s.user && r.token == s.token && r.isAuthenticated == s.isAuthenticated
  {
    var loading := AuthReducer(s, SetLoading(true));
    match outcome
    case ApiSuccess(user, token) => AuthReducer(loading, LoginSuccess(user, token))
    case ApiFailure(message) => AuthReducer(loading, SetError(FailureMessage(message, fallback)))
  }

  /** Mounting on a stored session restores it; otherwise the user is anonymous and loading is over. */
  lemma RehydrateFromInitial(token: Option<string>, user: Option<User>)
    ensures var r := Rehydrated(InitialState(), token, user);
      && (Truthy(token) && user.Some? ==>
            r.isAuthenticated && r.user == user && r.token == token && !r.isLoading && r.error.None?)
      && (!(Truthy(token) && user.Some?) ==>
            !r.isAuthenticated && r.user.None? && r.token.None? && !r.isLoading && r.error.None?)
  {
  }

  /** A successful attempt leaves the returned session installed. */
  lemma AttemptSucceeds(s: AuthState, user: User, token: string, fallback: string)
    ensures var r := Attempted(s, ApiSuccess(user, token), fallback);
      r.isAuthenticated && r.user == Some(user) && r.token == Some(token) && !r.isLoading && r.error.None?
  {
  }

  /** A failed attempt records the message (or the fallback) and keeps the prior session. */
  lemma AttemptFails(s: AuthState, message: Option<string>, fallback: string)
    ensures var r := Attempted(s, ApiFailure(message), fallback);
      && r.error == Some(if message.Some? then message.value else fallback)
      && !r.isLoading
      && r.user == s.user && r.token == s.token && r.isAuthenticated == s.isAuthenticated
  {
  }

  /** The provider: the reducer state and the persisted `token` and `user` keys. */
  class AuthProvider {
    var state: AuthState
    var storedToken: Option<string>
    var storedUser: Option<User>

    /** The session is consistent, and an authenticated session is the persisted one. */
    ghost predicate Valid()
      reads this
    {
      && SessionConsistent(state)
      && (state.isAuthenticated ==> state.user == storedUser && state.token == storedToken)
    }

    /** Mounting: `initialState`, over whatever the storage already holds. */
    constructor(token: Option<string>, user: Option<User>)
      ensures Valid()
      ensures state == InitialState() && storedToken == token && storedUser == user
    {
      state := InitialState();
      storedToken := token;
      storedUser := user;
    }

    /** The mount effect. */
    method Rehydrate()
      requires Valid()
      modifies this
      ensures Valid()
      ensures state == Rehydrated(old(state), storedToken, storedUser)
      ensures storedToken == old(storedToken) && storedUser == old(storedUser)
    {
      var token := storedToken;
      var user := storedUser;
      if Truthy(token) && user.Some? {
        state := AuthReducer(state, LoginSuccess(user.value, token.value));
      } else {
        state := AuthReducer(state, SetLoading(false));
      }
    }

    /** The shared body of `login` and `signup`; `rethrown` is true when the failure is re-raised. */
    method Authenticate(outcome: ApiOutcome, fallback: string) returns (rethrown: bool)
      requires Valid()
      modifies this
      ensures Valid()
      ensures state == Attempted(old(state), outcome, fallback)
      ensures rethrown <==> outcome.ApiFailure?
      ensures outcome.ApiSuccess? ==> storedToken == Some(outcome.token) && storedUser == Some(outcome.user)
      ensures outcome.ApiFailure? ==> storedToken == old(storedToken) && storedUser == old(storedUser)
    {
      state := AuthReducer(state, SetLoading(true));
      match outcome {
        case ApiSuccess(user, token) =>
          storedToken := Some(token);
          storedUser := Some(user);
          state := AuthReducer(state, LoginSuccess(user, token));
          rethrown := false;
        case ApiFailure(message) =>
          state := AuthReducer(state, SetError(FailureMessage(message, fallback)));
          rethrown := true;
      }
    }

    /** `login`. */
    method Login(outcome: ApiOutcome) returns (rethrown: bool)
      requires Valid()
      modifies this
      ensures Valid()
      ensures state == Attempted(old(state), outcome, "Login failed")
      ensures rethrown <==> outcome.ApiFailure?
      ensures outcome.ApiSuccess? ==> storedToken == Some(outcome.token) && storedUser == Some(outcome.user)
      ensures outcome.ApiFailure? ==> storedToken == old(storedToken) && storedUser == old(storedUser)
    {
      rethrown := Authenticate(outcome, "Login failed");
    }

    /** `signup`. */
    method Signup(outcome: ApiOutcome) returns (rethrown: bool)
      requires Valid()
      modifies this
      ensures Valid()
      ensures state == Attempted(old(state), outcome, "Signup failed")
      ensures rethrown <==> outcome.ApiFailure?
      ensures outcome.ApiSuccess? ==> storedToken == Some(outcome.token) && storedUser == Some(outcome.user)
      ensures outcome.ApiFailure? ==> storedToken == old(storedToken) && storedUser == old(storedUser)
    {
      rethrown := Authenticate(outcome, "Signup failed");
    }

    /** `logout`: both keys removed, then `LOGOUT`. */
    method Logout()
      requires Valid()
      modifies this
      ensures Valid()
      ensures storedToken.None? && storedUser.None?
      ensures state == AuthReducer(old(state), AuthAction.Logout)
    {
      storedToken := None;
      storedUser := None;
      state := AuthReducer(state, AuthAction.Logout);
    }
  }
}
