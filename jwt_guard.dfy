/**
 * `JwtAuthGuard.handleRequest`: what the guard does with the outcome of
 * Passport's JWT strategy — let the user through, or turn the strategy's
 * error information into an Unauthorized message.
 */
module JwtGuard {
  import opened Common

  /** Passport's `info`: the error the JWT library raised, if any. A missing
      name or message is `undefined`. */
  datatype Info = Info(name: Option<string>, message: Option<string>)

  const Expired := "Token đã hết hạn. Vui lòng đăng nhập lại."
  const Malformed := "Token không hợp lệ."
  const NotYetValid := "Token chưa có hiệu lực."
  const AuthErrorPrefix := "Lỗi xác thực: "
  const PleaseLogIn := "Vui lòng đăng nhập để tiếp tục."

  /** A string is truthy when it is present and not empty. */
  predicate Truthy(s: Option<string>) { s.Some? && s.value != "" }

  /** The message the guard throws with, checked in order: the three known
      error names, then any message the info carries, then the default. */
  function RejectionMessage(info: Option<Info>): string {
    if info.None? then PleaseLogIn
    else if info.value.name == Some("TokenExpiredError") then Expired
    else if info.value.name == Some("JsonWebTokenError") then Malformed
    else if info.value.name == Some("NotBeforeError") then NotYetValid
    else if Truthy(info.value.message) then AuthErrorPrefix + info.value.message.value
    else PleaseLogIn
  }

  /** `handleRequest(err, user, info)`: `err` is whether the strategy failed,
      `user` what it authenticated (None for a falsy value). */
  function HandleRequest<U>(err: bool, user: Option<U>, info: Option<Info>): (r: Result<U>)
    ensures r.Ok? <==> !err && user.Some?
    ensures r.Ok? ==> r.value == user.value
    ensures r.Err? ==> r.error.Unauthorized?
  {
    if err || user.None? then Err(Unauthorized(RejectionMessage(info))) else Ok(user.value)
  }

  /** Whenever the guard rejects, the message depends on the info alone: an
      error with a user attached is rejected like a missing user. */
  lemma RejectionIgnoresUser<U>(e1: bool, u1: Option<U>, e2: bool, u2: Option<U>, info: Option<Info>)
    requires HandleRequest(e1, u1, info).Err? && HandleRequest(e2, u2, info).Err?
    ensures HandleRequest(e1, u1, info) == HandleRequest(e2, u2, info)
  {
  }

  /** The known error names take precedence over any message. */
  lemma NamesBeforeMessages(message: Option<string>)
    ensures RejectionMessage(Some(Info(Some("TokenExpiredError"), message))) == Expired
    ensures RejectionMessage(Some(Info(Some("JsonWebTokenError"), message))) == Malformed
    ensures RejectionMessage(Some(Info(Some("NotBeforeError"), message))) == NotYetValid
  {
  }

  predicate KnownName(name: Option<string>) {
    name == Some("TokenExpiredError") || name == Some("JsonWebTokenError") || name == Some("NotBeforeError")
  }

  /** Every rejection message is one of five, and which one is decided by
      the name and by whether the message is truthy. */
  lemma MessageCases(info: Option<Info>)
    ensures var m := RejectionMessage(info);
      m in {Expired, Malformed, NotYetValid, PleaseLogIn} ||
      (info.Some? && !KnownName(info.value.name) && Truthy(info.value.message) && m == AuthErrorPrefix + info.value.message.value)
    ensures info.None? || (!KnownName(info.value.name) && !Truthy(info.value.message)) ==> RejectionMessage(info) == PleaseLogIn
  {
  }

  /** Passport-jwt's report of a request without a token carries only a
      message, which the guard passes on after its prefix. */
  lemma MissingTokenExample()
    ensures RejectionMessage(Some(Info(Some("Error"), Some("No auth token")))) == "Lỗi xác thực: No auth token"
    ensures RejectionMessage(Some(Info(None, Some("")))) == PleaseLogIn
  {
  }
}
