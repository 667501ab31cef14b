/** The signed-in user (web/src/slices/user.ts): a user name and a token,
    both null until `setUser` and again after `clearUser`; and the guard
    the protected route and the header apply to it
    (web/src/components/ProtectedRoute.tsx, web/src/components/Header/index.tsx). */
module UserSession {
  import opened Common

  /** `null` is None. */
  datatype UserState = UserState(username: Option<string>, token: Option<string>)

  /** `setUser`'s payload: both fields are required strings. */
  datatype UserData = UserData(username: string, token: string)

  datatype Action = SetUser(payload: UserData) | ClearUser

  function InitialState(): (s: UserState)
    ensures s.username.None? && s.token.None?
  {
    UserState(None, None)
  }

  function Reduce(s: UserState, a: Action): (r: UserState)
    ensures a.SetUser? ==> r.username == Some(a.payload.username) && r.token == Some(a.payload.token)
    ensures a.ClearUser? ==> r == InitialState()
  {
    match a
    case SetUser(d) => s.(username := Some(d.username), token := Some(d.token))
    case ClearUser => s.(username := None, token := None)
  }

  /** `Boolean(user.token)`: a token that is present and not the empty
      string. */
  predicate IsAuthenticated(s: UserState) {
    s.token.Some? && s.token.value != ""
  }

  /** What the protected route renders. */
  datatype Route = Render | RedirectToLogin

  function Guard(s: UserState): (r: Route)
    ensures r == Render <==> IsAuthenticated(s)
  {
    if s.token.None? || s.token.value == "" then RedirectToLogin else Render
  }

  /** Signing out from any state is the initial state again, twice is once,
      and the protected route then redirects. */
  lemma ClearUserResets(s: UserState, d: UserData)
    ensures Reduce(s, ClearUser) == InitialState()
    ensures Reduce(Reduce(s, ClearUser), ClearUser) == Reduce(s, ClearUser)
    ensures Reduce(Reduce(s, SetUser(d)), ClearUser) == InitialState()
    ensures !IsAuthenticated(Reduce(s, ClearUser)) && Guard(Reduce(s, ClearUser)) == RedirectToLogin
  {
  }

  /** Signing in with a non-empty token authenticates; an empty token, as
      the server might send, does not. */
  lemma SetUserAuthenticates(s: UserState, d: UserData)
    ensures IsAuthenticated(Reduce(s, SetUser(d))) <==> d.token != ""
  {
  }

  /** After any sequence of actions the user is authenticated exactly when
      the last action was `setUser` with a non-empty token (or, with no
      action, when the starting state was). */
  function ReduceAll(s: UserState, actions: seq<Action>): UserState
    decreases |actions|
  {
    if |actions| == 0 then s else ReduceAll(Reduce(s, actions[0]), actions[1..])
  }

  lemma {:induction false} LastActionDecides(s: UserState, actions: seq<Action>)
    requires |actions| > 0
    ensures var last := actions[|actions| - 1];
      IsAuthenticated(ReduceAll(s, actions)) <==> last.SetUser? && last.payload.token != ""
    decreases |actions|
  {
    if |actions| > 1 {
      LastActionDecides(Reduce(s, actions[0]), actions[1..]);
      assert actions[1..][|actions[1..]| - 1] == actions[|actions| - 1];
    }
  }
}
