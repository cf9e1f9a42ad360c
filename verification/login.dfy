/**
 * The login form: the e-mail pattern check, the guards before the request,
 * the session update on a well-formed reply, and the mapping of server
 * errors onto the form's fields.
 */
module Login {
  import opened Js
  import opened Text
  import opened AuthSlice
  import AuthApi
  import opened ServerErrors

  /** A character `[^\s@]` accepts. */
  predicate Plain(c: char)
  {
    !IsSpace(c) && c != '@'
  }

  /**
   * `/^[^\s@]+@[^\s@]+\.[^\s@]+$/`: exactly one '@', no white space, text
   * before the '@', and after it a '.' with text on both sides.
   */
  predicate EmailPattern(s: string)
  {
    exists i, j :: 0 < i && i + 1 < j < |s| - 1 && s[i] == '@' && s[j] == '.' &&
      (forall k :: 0 <= k < |s| && k != i ==> Plain(s[k]))
  }

  lemma TwoAtsNotEmail(s: string, a: int, b: int)
    requires 0 <= a < b < |s| && s[a] == '@' && s[b] == '@'
    ensures !EmailPattern(s)
  {
    forall i, j | 0 < i && i + 1 < j < |s| - 1 && s[i] == '@' && s[j] == '.'
      ensures !(forall k :: 0 <= k < |s| && k != i ==> Plain(s[k]))
    {
      var w := if i == a then b else a;
      assert w != i && !Plain(s[w]);
    }
  }

  lemma SpaceNotEmail(s: string, p: int)
    requires 0 <= p < |s| && IsSpace(s[p])
    ensures !EmailPattern(s)
  {
    forall i, j | 0 < i && i + 1 < j < |s| - 1 && s[i] == '@' && s[j] == '.'
      ensures !(forall k :: 0 <= k < |s| && k != i ==> Plain(s[k]))
    {
      assert p != i && !Plain(s[p]);
    }
  }

  /** `validateEmail`, as one left-to-right scan. */
  method ValidateEmail(s: string) returns (ok: bool)
    ensures ok <==> EmailPattern(s)
  {
    var bad := false;
    var at := -1;
    var dot := false;
    var k := 0;
    while k < |s|
      invariant 0 <= k <= |s|
      invariant -1 <= at < k
      invariant bad ==> !EmailPattern(s)
      invariant !bad ==> forall p :: 0 <= p < k && p != at ==> Plain(s[p])
      invariant !bad && at >= 0 ==> s[at] == '@'
      invariant !bad ==> (dot <==> at >= 0 && exists j :: at + 1 < j < k && j < |s| - 1 && s[j] == '.')
    {
      var c := s[k];
      if !bad {
        if c == '@' {
          if at >= 0 {
            TwoAtsNotEmail(s, at, k);
            bad := true;
          } else {
            at := k;
          }
        } else if IsSpace(c) {
          SpaceNotEmail(s, k);
          bad := true;
        } else if c == '.' && at >= 0 && k > at + 1 && k < |s| - 1 {
          dot := true;
        }
      }
      k := k + 1;
    }
    ok := !bad && at > 0 && dot;
    if EmailPattern(s) {
      var i, j :| 0 < i && i + 1 < j < |s| - 1 && s[i] == '@' && s[j] == '.' &&
        (forall k :: 0 <= k < |s| && k != i ==> Plain(s[k]));
      assert !bad;
      assert !Plain(s[i]);
      assert at == i;
      assert at + 1 < j < |s| - 1 && s[j] == '.';
    }
  }

  /** A string the pattern accepts has no white space at either end, so `trim()` leaves it unchanged. */
  lemma TrimIdentityOnValid(s: string)
    requires EmailPattern(s)
    ensures Trim(s) == s
  {
    var i, j :| 0 < i && i + 1 < j < |s| - 1 && s[i] == '@' && s[j] == '.' &&
      (forall k :: 0 <= k < |s| && k != i ==> Plain(s[k]));
    assert Plain(s[0]) && Plain(s[|s| - 1]);
    TrimIdentity(s);
  }

  /** What pressing "Sign in" does. */
  datatype LoginStep = MissingFields | InvalidEmail | SendCredentials(credentials: Json)

  /** The credentials object: the trimmed e-mail and the password as typed. */
  function Credentials(email: string, password: string): Json
  {
    JObj([("email", JStr(Trim(email))), ("password", JStr(password))])
  }

  /** The submit handler: empty fields and a malformed e-mail stop before any request. */
  function Submit(email: string, password: string): (r: LoginStep)
    ensures r == MissingFields <==> email == "" || password == ""
    ensures r == InvalidEmail <==> email != "" && password != "" && !EmailPattern(email)
    ensures r.SendCredentials? ==> r.credentials == JObj([("email", JStr(email)), ("password", JStr(password))])
  {
    if email == "" || password == "" then MissingFields
    else if !EmailPattern(email) then InvalidEmail
    else
      TrimIdentityOnValid(email);
      SendCredentials(Credentials(email, password))
  }

  /** The e-mail field's message after a rejected format; the other fields keep theirs. */
  const InvalidEmailMessage := "Invalid email format."

  /** The reply check: a reply without user or token changes nothing; otherwise the session is stored and
      the page moves to the dashboard. The refresh token is not checked. */
  function OnLoginReply(s: Session, reply: AuthApi.LoginResult): (r: (Session, Option<string>))
    ensures reply.user.None? || !Truthy(reply.token) ==> r == (s, None)
    ensures reply.user.Some? && Truthy(reply.token) ==>
      r.1 == Some("/dashboard") && r.0 == Session(reply.user, reply.token, reply.refreshToken)
  {
    if reply.user.None? || !Truthy(reply.token) then (s, None)
    else (SetUser(s, reply.user, reply.token, reply.refreshToken), Some("/dashboard"))
  }

  /** From the login response to the stored session: the tokens stored are the response's access and refresh tokens. */
  lemma LoginStoresResponseTokens(s: Session, resp: AuthApi.LoginResponse)
    requires resp.data.Some? && resp.data.value.user.Some? && Truthy(resp.data.value.accessToken)
    ensures AuthApi.TransformLoginResponse(resp).Some?
    ensures var r := OnLoginReply(s, AuthApi.TransformLoginResponse(resp).value).0;
      SelectCurrentToken(r) == resp.data.value.accessToken && SelectRefreshToken(r) == resp.data.value.refreshToken
      && SelectCurrentUser(r) == resp.data.value.user
  {
  }

  /** The form's error texts; a field set from an entry without message holds `undefined` (`None`). */
  datatype FieldErrors = FieldErrors(email: Option<string>, password: Option<string>, general: string)

  const NoErrors := FieldErrors(Some(""), Some(""), "")

  /** `err.path || "general"` compared with the two field names. */
  predicate OnPath(e: ErrorEntry, name: string)
  {
    e.path == PathText(name)
  }

  /** One entry of the `forEach`. */
  function ApplyEntry(fe: FieldErrors, e: ErrorEntry): FieldErrors
  {
    if OnPath(e, "email") then fe.(email := e.message)
    else if OnPath(e, "password") then fe.(password := e.message)
    else fe.(general := fe.general + MessageText(e.message) + " ")
  }

  /** The `forEach` over the entries, in order. */
  function CollectErrors(es: seq<ErrorEntry>): FieldErrors
  {
    if |es| == 0 then NoErrors else ApplyEntry(CollectErrors(es[..|es| - 1]), es[|es| - 1])
  }

  /** The message of the last entry on a field's path, `""` when there is none. */
  function LastOn(es: seq<ErrorEntry>, name: string): Option<string>
  {
    if |es| == 0 then Some("")
    else if OnPath(es[|es| - 1], name) then es[|es| - 1].message
    else LastOn(es[..|es| - 1], name)
  }

  /** Entries on neither field's path. */
  function GeneralEntries(es: seq<ErrorEntry>): (r: seq<ErrorEntry>)
    ensures forall e :: e in r <==> e in es && !OnPath(e, "email") && !OnPath(e, "password")
  {
    if |es| == 0 then []
    else
      var e := es[0];
      var rest := GeneralEntries(es[1..]);
      assert es == [e] + es[1..];
      if !OnPath(e, "email") && !OnPath(e, "password") then [e] + rest else rest
  }

  /** Each message followed by one space. */
  function Spaced(es: seq<ErrorEntry>): string
  {
    if |es| == 0 then "" else MessageText(es[0].message) + " " + Spaced(es[1..])
  }

  lemma {:induction false} SpacedAppend(es: seq<ErrorEntry>, e: ErrorEntry)
    ensures Spaced(es + [e]) == Spaced(es) + MessageText(e.message) + " "
  {
    if |es| == 0 {
      assert es + [e] == [e];
    } else {
      assert (es + [e])[1..] == es[1..] + [e];
      SpacedAppend(es[1..], e);
    }
  }

  lemma {:induction false} GeneralEntriesAppend(es: seq<ErrorEntry>, e: ErrorEntry)
    ensures GeneralEntries(es + [e]) ==
      GeneralEntries(es) + (if !OnPath(e, "email") && !OnPath(e, "password") then [e] else [])
  {
    if |es| == 0 {
      assert es + [e] == [e];
    } else {
      assert (es + [e])[1..] == es[1..] + [e];
      GeneralEntriesAppend(es[1..], e);
    }
  }

  /** Each field shows the last message on its path; `general` lists every other message, in order, each followed by a space. */
  lemma {:induction false} CollectErrorsSpec(es: seq<ErrorEntry>)
    ensures CollectErrors(es).email == LastOn(es, "email")
    ensures CollectErrors(es).password == LastOn(es, "password")
    ensures CollectErrors(es).general == Spaced(GeneralEntries(es))
  {
    if |es| > 0 {
      var init := es[..|es| - 1];
      var e := es[|es| - 1];
      CollectErrorsSpec(init);
      assert es == init + [e];
      GeneralEntriesAppend(init, e);
      assert CollectErrors(es) == ApplyEntry(CollectErrors(init), e);
      assert LastOn(es, "email") == if OnPath(e, "email") then e.message else LastOn(init, "email");
      assert LastOn(es, "password") == if OnPath(e, "password") then e.message else LastOn(init, "password");
      if !OnPath(e, "email") && !OnPath(e, "password") {
        SpacedAppend(GeneralEntries(init), e);
        assert GeneralEntries(es) == GeneralEntries(init) + [e];
      } else {
        assert GeneralEntries(es) == GeneralEntries(init);
      }
    }
  }

  /** The outcome of a failed login: the errors shown and the toast, if any. */
  datatype Failure = Failure(errors: FieldErrors, toast: Option<string>)

  const FallbackToast := "Login failed! Please check your credentials."

  /** The `.catch` handler: field entries first, then `data.message`, then a generic toast. */
  function OnLoginError(err: ServerError): (f: Failure)
    ensures HasEntries(err) ==> f.errors == CollectErrors(err.data.value.errorMessages.value)
    ensures HasEntries(err) ==> (f.toast.Some? <==> f.errors.general != "")
    ensures !HasEntries(err) && HasMessage(err) ==>
      f == Failure(NoErrors.(general := err.data.value.message.value), err.data.value.message)
    ensures !HasEntries(err) && !HasMessage(err) ==> f == Failure(NoErrors, Some(FallbackToast))
  {
    if HasEntries(err) then
      var fe := CollectErrors(err.data.value.errorMessages.value);
      Failure(fe, if fe.general != "" then Some(Trim(fe.general)) else None)
    else if HasMessage(err) then
      Failure(NoErrors.(general := err.data.value.message.value), err.data.value.message)
    else Failure(NoErrors, Some(FallbackToast))
  }
}
