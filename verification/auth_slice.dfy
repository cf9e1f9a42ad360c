/**
 * The authentication slice of the Redux store: the session record, its two
 * reducers `setUser` and `logout`, and the selectors the guard and the
 * request wrapper read.
 */
module AuthSlice {
  import opened Js

  /**
   * The user object returned by the login endpoint. Views read both `role`
   * and a capitalised `Role`; the latter is `legacyRole` here.
   */
  datatype User = User(id: string, name: string, email: string, role: Option<string>, legacyRole: Option<string>)

  /** The session: `user` is `null` or an object (always truthy), the tokens are strings or `null`. */
  datatype Session = Session(user: Option<User>, token: Option<string>, refreshToken: Option<string>)

  /** The state before any login and after every logout. */
  const Initial: Session := Session(None, None, None)

  function SelectCurrentToken(s: Session): Option<string> { s.token }
  function SelectCurrentUser(s: Session): Option<User> { s.user }
  function SelectRefreshToken(s: Session): Option<string> { s.refreshToken }

  /**
   * `setUser({user, token, refreshToken})`: both tokens are written exactly
   * as given, without any check that they are present; the user is replaced
   * only by a truthy (present) user object, otherwise the stored one is kept.
   */
  function SetUser(s: Session, user: Option<User>, token: Option<string>, refreshToken: Option<string>): (r: Session)
    ensures SelectCurrentToken(r) == token && SelectRefreshToken(r) == refreshToken
    ensures user.Some? ==> SelectCurrentUser(r) == user
    ensures user.None? ==> SelectCurrentUser(r) == SelectCurrentUser(s)
  {
    Session(if user.Some? then user else s.user, token, refreshToken)
  }

  /** `logout()`: every field becomes `null`, whatever the state was. */
  function Logout(s: Session): (r: Session)
    ensures SelectCurrentUser(r).None? && SelectCurrentToken(r).None? && SelectRefreshToken(r).None?
  {
    Initial
  }

  /** The actions this slice reacts to. */
  datatype AuthAction =
    | SetUserAction(user: Option<User>, token: Option<string>, refreshToken: Option<string>)
    | LogoutAction

  /** The slice reducer. */
  function Reduce(s: Session, a: AuthAction): Session
  {
    match a
    case SetUserAction(u, t, rt) => SetUser(s, u, t, rt)
    case LogoutAction => Logout(s)
  }

  /** The initial session has no user and no tokens. */
  lemma InitialIsEmpty()
    ensures SelectCurrentUser(Initial).None? && SelectCurrentToken(Initial).None? && SelectRefreshToken(Initial).None?
  {
  }

  /** Logging out twice is logging out once. */
  lemma LogoutIdempotent(s: Session)
    ensures Logout(Logout(s)) == Logout(s)
  {
  }

  /** `setUser` with a user, read back through the selectors, returns exactly what was stored. */
  lemma SetUserRoundTrip(s: Session, u: User, token: Option<string>, refreshToken: Option<string>)
    ensures var r := SetUser(s, Some(u), token, refreshToken);
            (SelectCurrentUser(r), SelectCurrentToken(r), SelectRefreshToken(r)) == (Some(u), token, refreshToken)
  {
  }

  /** Whatever was stored before, `setUser` followed by `logout` is the initial state. */
  lemma SetUserThenLogout(s: Session, u: Option<User>, token: Option<string>, refreshToken: Option<string>)
    ensures Logout(SetUser(s, u, token, refreshToken)) == Initial
  {
  }

  /**
   * The reducer does not keep "both tokens or neither": a single `setUser`
   * can leave an access token without a refresh token.
   */
  lemma PartialSessionReachable(u: User, token: string)
    requires token != ""
    ensures var r := Reduce(Initial, SetUserAction(Some(u), Some(token), None));
            Truthy(r.token) && !Truthy(r.refreshToken)
  {
  }
}
