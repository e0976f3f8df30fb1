/** The password-reset screen of src/pages/ResetPassword.js: where the user
    id and the one-time code come from, the ordered guards of `handleSubmit`,
    and what each answer to the reset request shows. The request itself is
    not made: its answer is an input, and the delayed navigations are
    recorded as the route they will go to. */
module ResetPassword {
  import opened Wrappers
  import opened JsText
  import opened JsNumber

  const MinPasswordLength := 6
  const SessionExpired := "Session expired. Please request password reset again."
  const PasswordTooShort := "Please enter a password of at least 6 characters."
  const PasswordsDiffer := "Passwords do not match."
  const ResetDone := "Password reset successfully. You can now login."
  const ResetFailed := "Failed to reset password"
  const ResetUnreachable := "Unable to reset password. Try again later."
  const ForgotPasswordRoute := "/forgot-password"
  const LoginRoute := "/login"

  /** A user id carried in navigation state: a number or a text. */
  datatype RawId = NumberId(n: JsNum) | TextId(s: string)

  /** `Number(raw)`. */
  function NumberOf(raw: RawId): JsNum {
    match raw
    case NumberId(n) => n
    case TextId(s) => ToNumber(s)
  }

  /** `location.state?.userId ?? params.get('uid') ?? null`, passed through
      `Number` when present: the navigation state wins, the `uid` query
      parameter is the fallback, and only when both are missing is there no
      id at all. */
  function DeriveUserId(stateUserId: Option<RawId>, uidParam: Option<string>): (r: Option<JsNum>)
    ensures r.None? <==> stateUserId.None? && uidParam.None?
    ensures stateUserId.Some? ==> r == Some(NumberOf(stateUserId.value))
    ensures stateUserId.None? && uidParam.Some? ==> r == Some(ToNumber(uidParam.value))
  {
    if stateUserId.Some? then Some(NumberOf(stateUserId.value))
    else if uidParam.Some? then Some(ToNumber(uidParam.value))
    else None
  }

  /** `location.state?.otpCode || null`: an empty code counts as none. */
  function DeriveOtpCode(stateOtpCode: Option<string>): (r: Option<string>)
    ensures r.Some? <==> Filled(stateOtpCode)
    ensures r.Some? ==> r == stateOtpCode && r.value != ""
  {
    if Filled(stateOtpCode) then stateOtpCode else None
  }

  /** The body of the reset request. */
  datatype ResetRequest = ResetRequest(userId: JsNum, otpCode: string, newPassword: string)

  /** Where the guard chain of `handleSubmit` stops. */
  datatype Verdict = Expired | Rejected(message: string) | Accepted(request: ResetRequest)

  /** A session that can ask for a reset: a truthy number (neither 0 nor
      NaN) and a non-empty code. */
  predicate SessionUsable(userId: Option<JsNum>, otpCode: Option<string>) {
    userId.Some? && Truthy(userId.value) && Filled(otpCode)
  }

  /** The guards of `handleSubmit`, in their order: the session, then the
      password's length, then the confirmation. */
  function Validate(userId: Option<JsNum>, otpCode: Option<string>, password: string, confirm: string): (v: Verdict)
    ensures v.Expired? <==> !SessionUsable(userId, otpCode)
    ensures v == Rejected(PasswordTooShort) <==> SessionUsable(userId, otpCode) && |password| < MinPasswordLength
    ensures v == Rejected(PasswordsDiffer) <==>
      SessionUsable(userId, otpCode) && |password| >= MinPasswordLength && password != confirm
    ensures v.Accepted? <==>
      SessionUsable(userId, otpCode) && |password| >= MinPasswordLength && password == confirm
    ensures v.Accepted? ==> v.request == ResetRequest(userId.value, otpCode.value, password)
  {
    if !(userId.Some? && Truthy(userId.value)) || !Filled(otpCode) then Expired
    else if password == "" || |password| < MinPasswordLength then Rejected(PasswordTooShort)
    else if password != confirm then Rejected(PasswordsDiffer)
    else Accepted(ResetRequest(userId.value, otpCode.value, password))
  }

  /** A `uid` that does not read as a number gives NaN, which is falsy: the
      session counts as expired whatever else was typed. */
  lemma UnreadableUidExpires(uid: string, stateOtpCode: Option<string>, password: string, confirm: string)
    requires IsNaN(uid)
    ensures Validate(DeriveUserId(None, Some(uid)), DeriveOtpCode(stateOtpCode), password, confirm) == Expired
  {
    IsNaNIsNumberNaN(uid);
  }

  /** A `uid` written as the decimal digits of a positive id, with a code
      and two equal passwords of six characters or more, sends exactly that
      id. */
  lemma DecimalUidAccepted(id: nat, code: string, password: string)
    requires id > 0 && code != "" && |password| >= MinPasswordLength
    ensures Validate(DeriveUserId(None, Some(NatToString(id))), DeriveOtpCode(Some(code)), password, password)
      == Accepted(ResetRequest(Finite(id as real), code, password))
  {
    DecimalRoundTrip(id);
  }

  /** An id of 0, from either source, is as good as none. */
  lemma ZeroIdExpires(stateOtpCode: Option<string>, password: string, confirm: string)
    ensures Validate(DeriveUserId(Some(NumberId(Finite(0.0))), None), DeriveOtpCode(stateOtpCode), password, confirm) == Expired
    ensures Validate(DeriveUserId(None, Some("0")), DeriveOtpCode(stateOtpCode), password, confirm) == Expired
  {
    DecimalRoundTrip(0);
    assert NatToString(0) == "0";
  }

  /** The kind of a toast. */
  datatype ToastKind = Success | Failure

  datatype Toast = Toast(text: string, kind: ToastKind)

  /** The answer to the reset request: a response with `ok` or without it,
      with the `error` and `message` fields of its body, or a request that
      threw. */
  datatype ResetReply = Reply(ok: bool, error: Option<string>, message: Option<string>) | Threw

  /** The toast an answer shows and the route it then goes to. */
  function Outcome(reply: ResetReply): (r: (Toast, string))
    ensures reply.Reply? && reply.ok ==> r.0.kind == Success && r.1 == LoginRoute
    ensures !(reply.Reply? && reply.ok) ==> r.0.kind == Failure && r.1 == ForgotPasswordRoute
    ensures reply.Reply? && reply.ok ==>
      r.0.text == if Filled(reply.message) then reply.message.value else ResetDone
    ensures reply.Threw? ==> r.0.text == ResetUnreachable
  {
    match reply
    case Reply(ok, error, message) =>
      if ok then (Toast(if Filled(message) then message.value else ResetDone, Success), LoginRoute)
      else (Toast(if Filled(error) then error.value else if Filled(message) then message.value else ResetFailed, Failure), ForgotPasswordRoute)
    case Threw =>
      (Toast(ResetUnreachable, Failure), ForgotPasswordRoute)
  }

  /** A failed answer shows the server's `error` first, its `message`
      second and a fixed text last; it never shows an empty text. */
  lemma FailureTextPrecedence(error: Option<string>, message: Option<string>)
    ensures Filled(error) ==> Outcome(Reply(false, error, message)).0.text == error.value
    ensures !Filled(error) && Filled(message) ==> Outcome(Reply(false, error, message)).0.text == message.value
    ensures !Filled(error) && !Filled(message) ==> Outcome(Reply(false, error, message)).0.text == ResetFailed
    ensures Outcome(Reply(false, error, message)).0.text != ""
  {
  }

  class ResetPasswordPage {
    const userId: Option<JsNum>
    const otpCode: Option<string>
    var password: string
    var confirm: string
    var loading: bool
    /** The toasts shown so far, oldest first. */
    var toasts: seq<Toast>
    /** The route the page navigates to, once it does. */
    var navigate: Option<string>

    constructor (stateUserId: Option<RawId>, uidParam: Option<string>, stateOtpCode: Option<string>)
      ensures userId == DeriveUserId(stateUserId, uidParam) && otpCode == DeriveOtpCode(stateOtpCode)
      ensures password == "" && confirm == "" && !loading && toasts == [] && navigate.None?
    {
      userId := DeriveUserId(stateUserId, uidParam);
      otpCode := DeriveOtpCode(stateOtpCode);
      password := "";
      confirm := "";
      loading := false;
      toasts := [];
      navigate := None;
    }

    method SetPassword(value: string)
      modifies this`password
      ensures password == value
    {
      password := value;
    }

    method SetConfirm(value: string)
      modifies this`confirm
      ensures confirm == value
    {
      confirm := value;
    }

    /** `handleSubmit` up to the request (lines 20-43). An expired session
        shows its toast and leaves for the forgot-password page; a bad
        password shows its toast and stays; otherwise loading starts and the
        request goes out. */
    method Submit() returns (request: Option<ResetRequest>)
      modifies this`loading, this`toasts, this`navigate
      ensures Validate(userId, otpCode, password, confirm).Accepted? ==>
        request == Some(Validate(userId, otpCode, password, confirm).request)
        && loading && toasts == old(toasts) && navigate == old(navigate)
      ensures Validate(userId, otpCode, password, confirm).Expired? ==>
        request.None? && loading == old(loading)
        && toasts == old(toasts) + [Toast(SessionExpired, Failure)] && navigate == Some(ForgotPasswordRoute)
      ensures Validate(userId, otpCode, password, confirm).Rejected? ==>
        request.None? && loading == old(loading) && navigate == old(navigate)
        && toasts == old(toasts) + [Toast(Validate(userId, otpCode, password, confirm).message, Failure)]
    {
      if !(userId.Some? && Truthy(userId.value)) || !Filled(otpCode) {
        toasts := toasts + [Toast(SessionExpired, Failure)];
        navigate := Some(ForgotPasswordRoute);
        return None;
      }
      if password == "" || |password| < MinPasswordLength {
        toasts := toasts + [Toast(PasswordTooShort, Failure)];
        return None;
      }
      if password != confirm {
        toasts := toasts + [Toast(PasswordsDiffer, Failure)];
        return None;
      }
      loading := true;
      return Some(ResetRequest(userId.value, otpCode.value, password));
    }

    /** The rest of `handleSubmit` (lines 45-59): the answer's toast, the
        route it leads to, and loading ends. */
    method Answer(reply: ResetReply)
      modifies this`loading, this`toasts, this`navigate
      ensures !loading
      ensures toasts == old(toasts) + [Outcome(reply).0]
      ensures navigate == Some(Outcome(reply).1)
    {
      var outcome := Outcome(reply);
      toasts := toasts + [outcome.0];
      navigate := Some(outcome.1);
      loading := false;
    }
  }
}
