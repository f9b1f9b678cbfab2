/** The registration screen: the rules on name, email, password and mobile number, and the
    toast and route each registration reply leads to. */
module RegisterForm {
  import opened Options
  import opened Text
  import opened FieldRules

  // ---- The password pattern ----

  /** What `.` refuses in a regular expression without the `s` flag. */
  predicate IsLineTerminator(c: char)
  {
    c == '\n' || c == '\r' || c == '\U{2028}' || c == '\U{2029}'
  }

  /** `[\W_]`: anything but an ASCII letter or digit. */
  predicate IsSpecial(c: char) { !IsAsciiAlnum(c) }

  /** The lookahead `(?=.*C)` tried at the start of the value: some character of class `C`
      comes before the first line terminator. */
  predicate LookaheadFinds(p: string, cls: char -> bool)
  {
    exists k :: 0 <= k < |p| && cls(p[k]) && forall j :: 0 <= j < k ==> !IsLineTerminator(p[j])
  }

  /** The password pattern read as the regular expression it is:
      four lookaheads at the start, then `.{8,}$` — at least 8 UTF-16 code units, none of
      them a line terminator, up to the end. */
  predicate PasswordPattern(p: string)
  {
    && LookaheadFinds(p, IsAsciiLower)
    && LookaheadFinds(p, IsAsciiUpper)
    && LookaheadFinds(p, IsAsciiDigit)
    && LookaheadFinds(p, IsSpecial)
    && (forall j :: 0 <= j < |p| ==> !IsLineTerminator(p[j]))
    && Utf16Length(p) >= 8
  }

  predicate Contains(p: string, cls: char -> bool)
  {
    exists k :: 0 <= k < |p| && cls(p[k])
  }

  /** The password policy in plain words: one line, at least 8 UTF-16 code units, with a
      lowercase letter, an uppercase letter, a digit and a character that is none of those. */
  predicate StrongPassword(p: string)
  {
    && (forall j :: 0 <= j < |p| ==> !IsLineTerminator(p[j]))
    && Utf16Length(p) >= 8
    && Contains(p, IsAsciiLower) && Contains(p, IsAsciiUpper)
    && Contains(p, IsAsciiDigit) && Contains(p, IsSpecial)
  }

  /** On a value without line terminators each lookahead is a plain "contains". */
  lemma {:induction false} LookaheadIsContains(p: string, cls: char -> bool)
    requires forall j :: 0 <= j < |p| ==> !IsLineTerminator(p[j])
    ensures LookaheadFinds(p, cls) <==> Contains(p, cls)
  {
    if Contains(p, cls) {
      var k :| 0 <= k < |p| && cls(p[k]);
      assert forall j :: 0 <= j < k ==> !IsLineTerminator(p[j]);
    }
  }

  /** The regular expression accepts exactly the strong passwords. */
  lemma {:induction false} PatternIsStrongPassword(p: string)
    ensures PasswordPattern(p) <==> StrongPassword(p)
  {
    if forall j :: 0 <= j < |p| ==> !IsLineTerminator(p[j]) {
      LookaheadIsContains(p, IsAsciiLower);
      LookaheadIsContains(p, IsAsciiUpper);
      LookaheadIsContains(p, IsAsciiDigit);
      LookaheadIsContains(p, IsSpecial);
    }
  }

  /** `/^[0-9]{10}$/`: exactly ten ASCII digits. */
  predicate MobilePattern(m: string)
  {
    |m| == 10 && AllDigits(m)
  }

  // ---- Field rules ----

  const NameRules := [Required("Name is required")]
  const EmailRules := [Required("Email is required")]
  const PasswordRules := [Required("Password is required"),
                          MinLength(8, "Password must be at least 8 characters"),
                          Matches(PasswordPattern, "Must include uppercase, lowercase, number & special char")]
  const MobileRules := [Required("Mobile number is required"),
                        Matches(MobilePattern, "Enter a valid 10-digit mobile number")]

  /** The password field is accepted exactly when the password is strong. An empty one
      shows the `required` message, a non-empty short one the length message, and a long
      enough one that fails the pattern the pattern message. */
  lemma PasswordRulesAccept(p: string)
    ensures FirstError(p, PasswordRules).None? <==> StrongPassword(p)
    ensures p == "" ==> FirstError(p, PasswordRules) == Some("Password is required")
    ensures p != "" && Utf16Length(p) < 8 ==>
              FirstError(p, PasswordRules) == Some("Password must be at least 8 characters")
    ensures Utf16Length(p) >= 8 && !StrongPassword(p) ==>
              FirstError(p, PasswordRules) == Some("Must include uppercase, lowercase, number & special char")
  {
    PatternIsStrongPassword(p);
    if p == "" {
      FirstErrorIsFirstBroken(p, PasswordRules, 0);
    } else if Utf16Length(p) < 8 {
      FirstErrorIsFirstBroken(p, PasswordRules, 1);
    } else if !StrongPassword(p) {
      FirstErrorIsFirstBroken(p, PasswordRules, 2);
    }
  }

  /** The mobile field is accepted exactly when it is ten ASCII digits; empty, it shows
      the `required` message, otherwise the pattern message. */
  lemma MobileRulesAccept(m: string)
    ensures FirstError(m, MobileRules).None? <==> |m| == 10 && forall i :: 0 <= i < |m| ==> '0' <= m[i] <= '9'
    ensures m == "" ==> FirstError(m, MobileRules) == Some("Mobile number is required")
    ensures m != "" && !MobilePattern(m) ==>
              FirstError(m, MobileRules) == Some("Enter a valid 10-digit mobile number")
  {
    if m == "" {
      FirstErrorIsFirstBroken(m, MobileRules, 0);
    } else if !MobilePattern(m) {
      FirstErrorIsFirstBroken(m, MobileRules, 1);
    }
  }

  /** The form values. */
  datatype RegisterData = RegisterData(name: string, email: string, password: string, mobile: string)

  /** The message under each field after a submit attempt. */
  datatype Errors = Errors(name: Option<string>, email: Option<string>, password: Option<string>, mobile: Option<string>)

  function Validate(d: RegisterData): Errors
  {
    Errors(FirstError(d.name, NameRules), FirstError(d.email, EmailRules),
           FirstError(d.password, PasswordRules), FirstError(d.mobile, MobileRules))
  }

  /** The request is sent only when no field shows a message: every field is filled in,
      the password is strong and the mobile number is ten digits. */
  lemma SubmitsOnlyValidData(d: RegisterData)
    ensures (Validate(d) == Errors(None, None, None, None)) <==>
              d.name != "" && d.email != "" && StrongPassword(d.password) && MobilePattern(d.mobile)
  {
    PasswordRulesAccept(d.password);
    MobileRulesAccept(d.mobile);
  }

  // ---- The reply ----

  datatype ToastStatus = Success | Failure

  /** A toast: its text and whether it is shown as a success or an error. */
  datatype Toast = Toast(message: string, status: ToastStatus)

  const RegistrationFailed := "Registration failed!"

  /** What `registerUser(data).unwrap()` gives: a reply body, or a rejection carrying
      `error.data.message` when there is one. */
  datatype RegisterResponse =
    | Replied(statusCode: int, message: Option<string>)
    | Rejected(errorMessage: Option<string>)

  /** The toast and, for a created account, the route to the login screen. */
  datatype Outcome = Outcome(toast: Toast, navigateTo: Option<string>)

  /** `onSubmit`: 201 is a success toast with the reply's message and a move to `/`; 409
      is an error toast with the reply's message; any other code an error toast saying
      "Registration failed!"; a rejection an error toast with its message or that text.
      An absent message shows as nothing. */
  function Submit(response: RegisterResponse): (o: Outcome)
    ensures o.toast.status == Success <==> response.Replied? && response.statusCode == 201
    ensures o.navigateTo.Some? <==> o.toast.status == Success
    ensures o.navigateTo.Some? ==> o.navigateTo.value == "/"
    ensures response.Replied? && (response.statusCode == 201 || response.statusCode == 409) ==>
              o.toast.message == if response.message.Some? then response.message.value else ""
    ensures response.Replied? && response.statusCode != 201 && response.statusCode != 409 ==>
              o.toast.message == RegistrationFailed
    ensures response.Rejected? ==> o.toast.message == OrElse(response.errorMessage, RegistrationFailed)
                                   && o.toast.message != ""
  {
    match response
    case Replied(code, message) =>
      var text := if message.Some? then message.value else "";
      if code == 201 then Outcome(Toast(text, Success), Some("/"))
      else if code == 409 then Outcome(Toast(text, Failure), None)
      else Outcome(Toast(RegistrationFailed, Failure), None)
    case Rejected(m) => Outcome(Toast(OrElse(m, RegistrationFailed), Failure), None)
  }
}
