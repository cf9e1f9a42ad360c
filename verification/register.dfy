/**
 * The registration form: the payload built from the form fields, the
 * guard before the request, and the mapping of server errors onto the
 * form's five error texts.
 */
module Register {
  import opened Js
  import opened Text
  import Http
  import AuthApi
  import opened ServerErrors

  /** `form.get(...)` for the five inputs: `None` when the field is not in the form. */
  datatype FormFields = FormFields(name: Option<string>, email: Option<string>, password: Option<string>,
                                   phone: Option<string>, role: Option<string>)

  datatype Payload = Payload(name: string, email: string, password: string, phone: string, role: string)

  /** The payload: name, e-mail and phone trimmed, password as typed, role defaulting to "student". */
  function BuildPayload(f: FormFields): (p: Payload)
    ensures p.name == Trim(OrElse(f.name, "")) && p.email == Trim(OrElse(f.email, "")) && p.phone == Trim(OrElse(f.phone, ""))
    ensures p.password == OrElse(f.password, "")
    ensures !Truthy(f.role) ==> p.role == "student"
    ensures Truthy(f.role) ==> p.role == f.role.value
  {
    Payload(Trim(OrElse(f.name, "")), Trim(OrElse(f.email, "")), OrElse(f.password, ""),
            Trim(OrElse(f.phone, "")), OrElse(f.role, "student"))
  }

  /** Trimmed fields have no white space at either end, and building the payload again from it changes nothing. */
  lemma PayloadStable(f: FormFields)
    ensures var p := BuildPayload(f);
      BuildPayload(FormFields(Some(p.name), Some(p.email), Some(p.password), Some(p.phone), Some(p.role))) == p
  {
    var p := BuildPayload(f);
    TrimIdempotent(OrElse(f.name, ""));
    TrimIdempotent(OrElse(f.email, ""));
    TrimIdempotent(OrElse(f.phone, ""));
  }

  /** The JSON body of the register request. */
  function PayloadJson(p: Payload): Json
  {
    JObj([("name", JStr(p.name)), ("email", JStr(p.email)), ("password", JStr(p.password)),
          ("phone", JStr(p.phone)), ("role", JStr(p.role))])
  }

  datatype RegisterStep = MissingFields | Send(request: Http.Request)

  /** The submit handler: an empty name, e-mail or password (after trimming) stops before any request;
      the password alone is not trimmed, so a password of spaces passes. */
  function Submit(f: FormFields): (r: RegisterStep)
    ensures var p := BuildPayload(f);
      r == MissingFields <==> p.name == "" || p.email == "" || p.password == ""
    ensures r.Send? ==> r.request == AuthApi.RegisterRequest(PayloadJson(BuildPayload(f)))
  {
    var p := BuildPayload(f);
    if p.name == "" || p.email == "" || p.password == "" then MissingFields
    else Send(AuthApi.RegisterRequest(PayloadJson(p)))
  }

  /** A name of white space only is rejected. */
  lemma BlankNameRejected(f: FormFields)
    requires f.name.Some? && forall i :: 0 <= i < |f.name.value| ==> IsSpace(f.name.value[i])
    ensures Submit(f) == MissingFields
  {
    TrimSpec(f.name.value);
  }

  /** A password of white space only still reaches the server, since only the password is left untrimmed. */
  lemma BlankPasswordSent(f: FormFields)
    requires Trim(OrElse(f.name, "")) != "" && Trim(OrElse(f.email, "")) != ""
    requires f.password.Some? && f.password.value != "" && forall i :: 0 <= i < |f.password.value| ==> IsSpace(f.password.value[i])
    ensures Submit(f).Send?
  {
  }

  /** The five error texts; a field set from an entry without message holds `undefined` (`None`). */
  datatype FieldErrors = FieldErrors(name: Option<string>, email: Option<string>, password: Option<string>,
                                     phone: Option<string>, general: string)

  const NoErrors := FieldErrors(Some(""), Some(""), Some(""), Some(""), "")

  /** `Array.isArray(e.path) ? e.path[0] : e.path`. */
  function PathName(p: ErrPath): Option<string>
  {
    match p
    case NoPath => None
    case PathText(s) => Some(s)
    case PathList(items) => if |items| > 0 then Some(items[0]) else None
  }

  const FieldNames: seq<string> := ["name", "email", "password", "phone"]

  /** The entry's path names one of the four fields. */
  predicate OnField(e: ErrorEntry, field: string)
  {
    PathName(e.path) == Some(field)
  }

  predicate Unmapped(e: ErrorEntry)
  {
    PathName(e.path).None? || PathName(e.path).value !in FieldNames
  }

  /** One entry of the `forEach`: a field entry sets its field, any other entry overwrites `general` when its message is truthy. */
  function ApplyEntry(fe: FieldErrors, e: ErrorEntry): FieldErrors
  {
    match PathName(e.path)
    case Some("name") => fe.(name := e.message)
    case Some("email") => fe.(email := e.message)
    case Some("password") => fe.(password := e.message)
    case Some("phone") => fe.(phone := e.message)
    case _ => fe.(general := OrElse(e.message, fe.general))
  }

  function CollectErrors(es: seq<ErrorEntry>): FieldErrors
  {
    if |es| == 0 then NoErrors else ApplyEntry(CollectErrors(es[..|es| - 1]), es[|es| - 1])
  }

  /** The message of the last entry on a field, `""` when there is none. */
  function LastOn(es: seq<ErrorEntry>, field: string): Option<string>
  {
    if |es| == 0 then Some("")
    else if OnField(es[|es| - 1], field) then es[|es| - 1].message
    else LastOn(es[..|es| - 1], field)
  }

  /** The last truthy message among the unmapped entries, `""` when there is none. */
  function LastGeneral(es: seq<ErrorEntry>): string
  {
    if |es| == 0 then ""
    else if Unmapped(es[|es| - 1]) && Truthy(es[|es| - 1].message) then es[|es| - 1].message.value
    else LastGeneral(es[..|es| - 1])
  }

  /** Each field shows the last message on its path; `general` the last non-empty unmapped message. */
  lemma {:induction false} CollectErrorsSpec(es: seq<ErrorEntry>)
    ensures CollectErrors(es).name == LastOn(es, "name")
    ensures CollectErrors(es).email == LastOn(es, "email")
    ensures CollectErrors(es).password == LastOn(es, "password")
    ensures CollectErrors(es).phone == LastOn(es, "phone")
    ensures CollectErrors(es).general == LastGeneral(es)
  {
    if |es| > 0 {
      CollectErrorsSpec(es[..|es| - 1]);
    }
  }

  /** What a failed registration shows. */
  datatype Failure =
    | FieldsShown(errors: FieldErrors)
    | GeneralShown(message: string)
    | ToastOnly(toast: string)

  const FallbackToast := "Registration failed."

  /** The `.catch` handler: field entries first; `data.message` only when there is no entry array. */
  function OnRegisterError(err: ServerError): (f: Failure)
    ensures HasEntries(err) ==> f == FieldsShown(CollectErrors(err.data.value.errorMessages.value))
    ensures !HasEntries(err) && HasMessage(err) ==> f == GeneralShown(err.data.value.message.value)
    ensures !HasEntries(err) && !HasMessage(err) ==> f == ToastOnly(FallbackToast)
  {
    if HasEntries(err) then FieldsShown(CollectErrors(err.data.value.errorMessages.value))
    else if HasMessage(err) then GeneralShown(err.data.value.message.value)
    else ToastOnly(FallbackToast)
  }

  /** With an entry array present, `data.message` is never consulted, even when no entry is unmapped. */
  lemma EntriesShadowMessage(es: seq<ErrorEntry>, m1: Option<string>, m2: Option<string>)
    ensures OnRegisterError(ServerError(Some(ErrorData(Some(es), m1)))) == OnRegisterError(ServerError(Some(ErrorData(Some(es), m2))))
  {
  }
}
