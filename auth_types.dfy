/** The signed-in user and the session state the client keeps for it. */
module AuthTypes {
  import opened Wrappers

  datatype User = User(id: string, email: string, name: string)

  /** `null` fields are `None`. */
  datatype AuthState = AuthState(
    user: Option<User>,
    token: Option<string>,
    isAuthenticated: bool,
    isLoading: bool,
    error: Option<string>)
}
