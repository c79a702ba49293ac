/**
 * The registration form: its four fields, the two checks made before any
 * request is sent, and what the reply does to the form. The request is
 * asynchronous, so submitting and receiving the reply are two steps.
 */
module RegisterForm {
  import opened Common

  const FillAll := "Vui lòng điền đủ thông tin."
  const Mismatch := "Mật khẩu xác nhận không khớp."
  const Failed := "Đăng ký thất bại"
  const Succeeded := "Đăng ký thành công. Vui lòng kiểm tra email để xác nhận."
  const NetworkFailed := "Lỗi mạng. Vui lòng thử lại."

  /** The body posted to `/auth/register`. */
  datatype RegisterRequest = RegisterRequest(username: string, email: string, password: string)

  /** How the request ended: the network failed, or the server answered with
      a status outside 2xx and a body text, or with success. */
  datatype Outcome = NetworkError | NotOk(text: string) | Ok

  /** The checks before sending, in order: an empty user name, e-mail or
      password, then a confirmation that differs from the password. */
  function Validate(username: string, email: string, password: string, confirm: string): (r: Option<string>)
    ensures r.None? <==> username != "" && email != "" && password != "" && password == confirm
    ensures r.Some? ==> r.value == FillAll || r.value == Mismatch
  {
    if username == "" || email == "" || password == "" then Some(FillAll)
    else if password != confirm then Some(Mismatch)
    else None
  }

  /** The empty-field check comes first: it wins even when the confirmation
      differs too. */
  lemma EmptyBeforeMismatch(username: string, email: string, password: string, confirm: string)
    requires username == "" || email == "" || password == ""
    ensures Validate(username, email, password, confirm) == Some(FillAll)
  {
  }

  /** The confirmation is not among the fields checked for emptiness: an empty
      one under a password is reported as a mismatch. */
  lemma EmptyConfirmIsMismatch(username: string, email: string, password: string)
    requires username != "" && email != "" && password != ""
    ensures Validate(username, email, password, "") == Some(Mismatch)
  {
  }

  /** The error a failed outcome shows: the server's text, or the generic
      message when the text is empty. */
  function FailureMessage(o: Outcome): (m: string)
    requires !o.Ok?
    ensures o.NotOk? && o.text != "" ==> m == o.text
    ensures o.NotOk? && o.text == "" ==> m == Failed
    ensures o.NetworkError? ==> m == NetworkFailed
  {
    match o
    case NetworkError => NetworkFailed
    case NotOk(text) => if text != "" then text else Failed
  }

  class Form {
    var username: string
    var email: string
    var password: string
    var confirm: string
    var loading: bool
    var error: Option<string>
    var success: Option<string>

    /** An empty form, not loading, with no message. */
    constructor()
      ensures username == "" && email == "" && password == "" && confirm == ""
      ensures !loading && error.None? && success.None?
    {
      username, email, password, confirm := "", "", "", "";
      loading := false;
      error, success := None, None;
    }

    method SetUsername(v: string)
      modifies this
      ensures username == v && email == old(email) && password == old(password) && confirm == old(confirm)
      ensures loading == old(loading) && error == old(error) && success == old(success)
    {
      username := v;
    }

    method SetEmail(v: string)
      modifies this
      ensures email == v && username == old(username) && password == old(password) && confirm == old(confirm)
      ensures loading == old(loading) && error == old(error) && success == old(success)
    {
      email := v;
    }

    method SetPassword(v: string)
      modifies this
      ensures password == v && username == old(username) && email == old(email) && confirm == old(confirm)
      ensures loading == old(loading) && error == old(error) && success == old(success)
    {
      password := v;
    }

    method SetConfirm(v: string)
      modifies this
      ensures confirm == v && username == old(username) && email == old(email) && password == old(password)
      ensures loading == old(loading) && error == old(error) && success == old(success)
    {
      confirm := v;
    }

    /** `onSubmit` up to the request: a failed check shows its error and sends
        nothing; otherwise the form is loading, its messages are cleared, and
        the request carries the three fields. No field changes. */
    method Submit() returns (sent: Option<RegisterRequest>)
      modifies this
      ensures username == old(username) && email == old(email) && password == old(password) && confirm == old(confirm)
      ensures success.None?
      ensures var check := Validate(old(username), old(email), old(password), old(confirm));
        (check.Some? ==> sent.None? && !loading && error == check) &&
        (check.None? ==> sent == Some(RegisterRequest(username, email, password)) && loading && error.None?)
    {
      var check := Validate(username, email, password, confirm);
      if check.Some? {
        loading, error, success := false, check, None;
        return None;
      }
      loading, error, success := true, None, None;
      sent := Some(RegisterRequest(username, email, password));
    }

    /** `onSubmit` after the request: loading ends; a failure shows its
        message; a success shows the confirmation and clears both password
        fields, keeping the user name and the e-mail. */
    method Settle(o: Outcome)
      requires loading
      modifies this
      ensures !loading && username == old(username) && email == old(email)
      ensures o.Ok? ==> success == Some(Succeeded) && error.None? && password == "" && confirm == ""
      ensures !o.Ok? ==> error == Some(FailureMessage(o)) && success.None?
      ensures !o.Ok? ==> password == old(password) && confirm == old(confirm)
    {
      if !o.Ok? {
        loading, error, success := false, Some(FailureMessage(o)), None;
        return;
      }
      loading, error, success := false, None, Some(Succeeded);
      password := "";
      confirm := "";
    }
  }
}
