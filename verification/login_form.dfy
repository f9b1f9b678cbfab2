/** The login screen: field rules, the redirect of an already logged-in visitor, and what
    each login reply does to the session, the error line and the route. */
module LoginForm {
  import opened Options
  import opened Text
  import opened FieldRules
  import opened Session
  import Header

  const LoginFailed := "Login failed!"
  const OrdersPath := "/order"

  const EmailRules := [Required("Email is required")]
  const PasswordRules := [Required("Password is required"),
                          MinLength(8, "Password must be at least 8 characters")]

  /** The login password is accepted exactly when it has at least 8 UTF-16 code units;
      an empty one gets the `required` message, a short one the length message. */
  lemma PasswordRulesAccept(p: string)
    ensures FirstError(p, PasswordRules).None? <==> Utf16Length(p) >= 8
    ensures p == "" ==> FirstError(p, PasswordRules) == Some("Password is required")
    ensures p != "" && Utf16Length(p) < 8 ==>
              FirstError(p, PasswordRules) == Some("Password must be at least 8 characters")
  {
    if p == "" {
      FirstErrorIsFirstBroken(p, PasswordRules, 0);
    } else if Utf16Length(p) < 8 {
      FirstErrorIsFirstBroken(p, PasswordRules, 1);
    }
  }

  /** The route the mount effect replaces the login screen with, if a token is present. */
  function OnMount(st: Storage): (route: Option<string>)
    ensures route.Some? <==> HasToken(st)
    ensures route.Some? ==> route.value == OrdersPath
  {
    if HasToken(st) then Some(OrdersPath) else None
  }

  /** The `data` of a reply: it may lack a token. */
  datatype LoginData = LoginData(token: Option<string>)

  /** What `loginUser(data).unwrap()` gives: a reply body, or a rejection carrying
      `error.data.message` (absent when the error has no such field). */
  datatype LoginResponse =
    | Replied(statusCode: int, message: Option<string>, data: Option<LoginData>)
    | Rejected(errorMessage: Option<string>)

  /** The screen after a submit settles. */
  datatype LoginState = LoginState(storage: Storage, error: string, navigateTo: Option<string>)

  /** `onSubmit`: the error line is cleared first; 200 stores `data.token` and goes to
      `/order`; 401 shows the reply's message (nothing when it has none); any other code
      shows "Login failed!"; a rejection shows its message or "Login failed!". A 200
      reply without `data` throws while reading the token and ends in the catch block,
      which finds no `data.message` on that error. */
  function Submit(before: LoginState, response: LoginResponse): (s: LoginState)
    ensures s.navigateTo.Some? <==> response.Replied? && response.statusCode == 200 && response.data.Some?
    ensures s.navigateTo.Some? ==> s.navigateTo.value == OrdersPath && s.error == ""
                                   && s.storage == StoreToken(before.storage, response.data.value.token)
    ensures s.navigateTo.None? ==> s.storage == before.storage
    ensures response.Replied? && response.statusCode == 401 ==>
              s.error == (if response.message.Some? then response.message.value else "")
    ensures response.Replied? && response.statusCode != 200 && response.statusCode != 401 ==>
              s.error == LoginFailed
    ensures response.Rejected? ==> s.error == OrElse(response.errorMessage, LoginFailed) && s.error != ""
  {
    var st := before.storage;
    match response
    case Replied(code, message, data) =>
      if code == 200 then
        if data.Some? then LoginState(StoreToken(st, data.value.token), "", Some(OrdersPath))
        else LoginState(st, LoginFailed, None)
      else if code == 401 then
        LoginState(st, if message.Some? then message.value else "", None)
      else LoginState(st, LoginFailed, None)
    case Rejected(m) => LoginState(st, OrElse(m, LoginFailed), None)
  }

  /** The screen while the request is in flight: the error line is cleared, nothing
      else changes. */
  function Pending(before: LoginState): (s: LoginState)
    ensures s.error == "" && s.storage == before.storage && s.navigateTo == before.navigateTo
  {
    before.(error := "")
  }

  /** Because the error line is cleared before the request, what a submit ends with does
      not depend on the error or route shown before it, only on the session and the reply. */
  lemma ErrorClearedFirst(a: LoginState, b: LoginState, response: LoginResponse)
    requires a.storage == b.storage
    ensures Submit(a, response) == Submit(b, response)
    ensures Submit(Pending(a), response) == Submit(a, response)
  {
  }

  /** Only a successful login can change the session, and a successful login with a
      non-empty or absent token makes a header mounted next show the user as logged in
      and sends a later visit to the login screen straight on to `/order`. A failed
      login leaves whatever session there was. */
  lemma LoginOpensSession(before: LoginState, response: LoginResponse)
    ensures var s := Submit(before, response);
            s.navigateTo.Some? && (response.data.value.token.None? || response.data.value.token.value != "") ==>
              Header.Mount(s.storage).isLoggedIn && OnMount(s.storage) == Some(OrdersPath)
    ensures var s := Submit(before, response);
            s.navigateTo.None? ==> HasToken(s.storage) == HasToken(before.storage)
  {
    StoreThenRemove(before.storage, if response.Replied? && response.data.Some? then response.data.value.token else None);
  }

  /** After logging out in the header, the login screen stays put on its next mount. */
  lemma LogoutThenLoginScreenStays(h: Header.HeaderState)
    ensures OnMount(Header.Logout(h).storage) == None
  {
    Header.LogoutThenMount(h);
  }
}
