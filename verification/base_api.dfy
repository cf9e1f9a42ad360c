/**
 * The authenticated request wrapper: `prepareHeaders` attaches the bearer
 * token, and `baseQueryWithRefreshToken` runs the 401 -> refresh -> single
 * retry protocol. The network is an oracle `net(i, request)` giving the
 * result of the `i`-th call of one invocation (0: original, 1: refresh,
 * 2: retry); the wrapper returns its result, the session it leaves behind
 * and the calls it issued, in order.
 */
module BaseApi {
  import opened Js
  import opened Http
  import opened AuthSlice

  /** What one call of the underlying `fetchBaseQuery` resolves to, or `Threw` when it rejects. */
  datatype QueryResult =
    | Ok(data: Json)
    | Failed(status: Option<int>, data: Json)  // `status` is `None` for FETCH_ERROR and the other non-HTTP errors
    | Threw

  /** The outcome of one invocation of the wrapper. */
  datatype Outcome = Outcome(result: QueryResult, session: Session, calls: seq<Request>)

  /** The network as seen by one invocation: call number and request to result. */
  type Network = (nat, Request) -> QueryResult

  const RefreshUrl: string := "/auth/refresh-token"

  /** `result?.error?.status === 401`. */
  predicate Is401(r: QueryResult)
  {
    r.Failed? && r.status == Some(401)
  }

  /** `Bearer <token>`. */
  function Bearer(token: string): string
  {
    "Bearer " + token
  }

  /**
   * `prepareHeaders`: the Authorization header is set to `Bearer <token>`
   * when the session token is truthy; otherwise the request keeps whatever
   * header it came with.
   */
  function PrepareHeaders(req: Request, s: Session): (r: Request)
    ensures r.url == req.url && r.verb == req.verb && r.body == req.body
    ensures Truthy(s.token) ==> r.authorization == Some(Bearer(s.token.value))
    ensures !Truthy(s.token) ==> r.authorization == req.authorization
  {
    if Truthy(s.token) then req.(authorization := Some(Bearer(s.token.value))) else req
  }

  /** The refresh call: a POST of `{accessToken: token, refreshToken}` to the fixed refresh endpoint. */
  function RefreshRequest(token: Option<string>, refreshToken: string): Request
  {
    WithBody(RefreshUrl, POST, JObj([("accessToken", StrOrNull(token)), ("refreshToken", JStr(refreshToken))]))
  }

  /** The new token pair, when the refresh call resolved with data carrying both tokens. */
  function NewTokens(r: QueryResult): (t: Option<(string, string)>)
    ensures t.Some? ==> r.Ok? && t.value.0 != "" && t.value.1 != ""
    ensures t.Some? ==> StringField(r.data, "accessToken") == Some(t.value.0)
    ensures t.Some? ==> StringField(r.data, "refreshToken") == Some(t.value.1)
    ensures r.Ok? && StringField(r.data, "accessToken").Some? && StringField(r.data, "refreshToken").Some? ==> t.Some?
  {
    if r.Ok? then
      match (StringField(r.data, "accessToken"), StringField(r.data, "refreshToken"))
      case (Some(a), Some(rt)) => Some((a, rt))
      case _ => None
    else None
  }

  /** `baseQueryWithRefreshToken(args)` against the session `s` and the network `net`. */
  function BaseQueryWithRefreshToken(args: Request, s: Session, net: Network): (o: Outcome)
    ensures 1 <= |o.calls| <= 3
    ensures o.calls[0] == PrepareHeaders(args, s)
    // a first result other than 401 is returned unchanged: one call, no session change
    ensures !Is401(net(0, o.calls[0])) ==> o == Outcome(net(0, o.calls[0]), s, o.calls[..1])
    // a 401 without refresh token: logout, the 401 is returned, nothing else is sent
    ensures Is401(net(0, o.calls[0])) && !Truthy(s.refreshToken) ==>
              o == Outcome(net(0, o.calls[0]), Initial, o.calls[..1])
    // a 401 with a refresh token: exactly one refresh call, sent second
    ensures Is401(net(0, o.calls[0])) && Truthy(s.refreshToken) ==>
              |o.calls| >= 2 && o.calls[1] == PrepareHeaders(RefreshRequest(s.token, s.refreshToken.value), s)
    // a retry is issued only after a refresh that yielded both tokens, and bears the new access token
    ensures |o.calls| == 3 ==>
              Is401(net(0, o.calls[0])) && NewTokens(net(1, o.calls[1])).Some? &&
              o.calls[2] == args.(authorization := Some(Bearer(NewTokens(net(1, o.calls[1])).value.0)))
    // a refresh that fails, lacks a token or throws: logout and the original 401 is returned
    ensures |o.calls| == 2 ==> NewTokens(net(1, o.calls[1])).None? && o == Outcome(net(0, o.calls[0]), Initial, o.calls)
    // after a successful refresh: the retry's result is returned as it is, the user is preserved and the new tokens stored
    ensures |o.calls| == 3 && !net(2, o.calls[2]).Threw? ==>
              o.result == net(2, o.calls[2]) &&
              o.session == Session(s.user, Some(NewTokens(net(1, o.calls[1])).value.0), Some(NewTokens(net(1, o.calls[1])).value.1))
    // a retry that throws is caught by the same handler as a failed refresh
    ensures |o.calls| == 3 && net(2, o.calls[2]).Threw? ==> o.result == net(0, o.calls[0]) && o.session == Initial
  {
    var first := PrepareHeaders(args, s);
    var result := net(0, first);
    if !Is401(result) then
      Outcome(result, s, [first])
    else if !Truthy(s.refreshToken) then
      Outcome(result, Logout(s), [first])
    else
      var refresh := PrepareHeaders(RefreshRequest(s.token, s.refreshToken.value), s);
      match NewTokens(net(1, refresh))
      case None => Outcome(result, Logout(s), [first, refresh])
      case Some((access, newRefresh)) =>
        var s' := SetUser(s, s.user, Some(access), Some(newRefresh));
        var retry := PrepareHeaders(args.(authorization := Some(Bearer(access))), s');
        var retried := net(2, retry);
        if retried.Threw? then Outcome(result, Logout(s'), [first, refresh, retry])
        else Outcome(retried, s', [first, refresh, retry])
  }

  /** Number of calls in a trace that went to the refresh endpoint at position `from` or later. */
  function RefreshCallsFrom(calls: seq<Request>, from: nat): nat
    decreases |calls| - from
  {
    if from >= |calls| then 0
    else (if calls[from].url == RefreshUrl && calls[from].verb == POST then 1 else 0) + RefreshCallsFrom(calls, from + 1)
  }

  /**
   * For a request that is not itself a refresh call, an invocation sends at
   * most one refresh call, and only as its second call.
   */
  lemma AtMostOneRefresh(args: Request, s: Session, net: Network)
    requires args.url != RefreshUrl
    ensures var o := BaseQueryWithRefreshToken(args, s, net);
            RefreshCallsFrom(o.calls, 0) <= 1 &&
            (RefreshCallsFrom(o.calls, 0) == 1 <==> |o.calls| >= 2)
  {
    var o := BaseQueryWithRefreshToken(args, s, net);
    assert o.calls[0].url == args.url;
    if |o.calls| == 3 {
      assert o.calls[2].url == args.url;
      assert RefreshCallsFrom(o.calls, 3) == 0;
      assert RefreshCallsFrom(o.calls, 2) == 0;
    } else if |o.calls| == 2 {
      assert RefreshCallsFrom(o.calls, 2) == 0;
    } else {
      assert RefreshCallsFrom(o.calls, 1) == 0;
    }
  }

  /**
   * The session an invocation leaves is one of three: the one it started
   * with, the logged-out session, or the old user with the two tokens the
   * refresh call returned; and it changes only after a 401.
   */
  lemma SessionOutcomes(args: Request, s: Session, net: Network)
    ensures var o := BaseQueryWithRefreshToken(args, s, net);
            || o.session == s
            || o.session == Initial
            || (|o.calls| == 3 && o.session.user == s.user &&
                Truthy(o.session.token) && Truthy(o.session.refreshToken) &&
                Some((o.session.token.value, o.session.refreshToken.value)) == NewTokens(net(1, o.calls[1])))
    ensures var o := BaseQueryWithRefreshToken(args, s, net);
            o.session != s ==> Is401(net(0, o.calls[0]))
  {
  }

  /**
   * The result handed back is the first call's result or, after a
   * successful refresh, the retry's result, even when that is another 401.
   */
  lemma ResultIsFirstOrRetry(args: Request, s: Session, net: Network)
    ensures var o := BaseQueryWithRefreshToken(args, s, net);
            o.result == net(0, o.calls[0]) || (|o.calls| == 3 && o.result == net(2, o.calls[2]))
    ensures var o := BaseQueryWithRefreshToken(args, s, net);
            |o.calls| == 3 && Is401(net(2, o.calls[2])) ==> Is401(o.result) && o.session != Initial
  {
  }

  /** The header a request goes out with, for a request that carries none of its own. */
  lemma AuthorizationHeader(req: Request, s: Session)
    requires req.authorization.None?
    ensures PrepareHeaders(req, s).authorization.Some? <==> Truthy(s.token)
    ensures Truthy(s.token) ==> PrepareHeaders(req, s).authorization == Some(Bearer(s.token.value))
  {
  }
}
