/**
 * The landing page of src/app/page.js: a wizard over five views (login,
 * register, forgot password, verify OTP, reset password) whose submit
 * handlers call the authentication service and whose footer buttons move
 * between views.
 *
 * A handler's service call is the Outcome it is given: the promise either
 * resolves with a value or rejects with a message. Each handler is written
 * as a step on the page's Form (the state its setters change) together with
 * the Request it sends, or None when it returns before calling the service;
 * the Page class performs the same handler on its fields and is proved to
 * end in the Form the step describes.
 */
module LandingPage {

  import opened Wrappers
  import opened JsValue
  import AuthStore

  datatype View = Login | Register | ForgotPassword | VerifyOtp | ResetPassword

  /** A settled service call. */
  datatype Outcome<T> = Resolved(value: T) | Rejected(message: string)

  /** What `authService.login` and `authService.register` resolve with. */
  datatype Credentials = Credentials(token: string, user: Value)

  /** A picked profile image file, by name. */
  type Image = string

  /** A call to the authentication service, with its arguments. */
  datatype Request =
    | LoginRequest(email: string, password: string)
    | RegisterRequest(username: string, email: string, password: string, image: Option<Image>)
    | ForgotPasswordRequest(email: string)
    | VerifyOtpRequest(email: string, otp: string)
    | ResetPasswordRequest(newPassword: string, passwordChangeToken: string)

  /** The page's component state (lines 17-35). */
  datatype Form = Form(
    loginEmail: string,
    loginPassword: string,
    registerUsername: string,
    registerEmail: string,
    registerPassword: string,
    registerConfirmPassword: string,
    registerProfileImage: Option<Image>,
    forgotPasswordEmail: string,
    otp: string,
    newPassword: string,
    confirmNewPassword: string,
    passwordChangeToken: string,
    currentView: View,
    isLoading: bool)

  const Initial := Form("", "", "", "", "", "", None, "", "", "", "", "", Login, false)

  /** The text inputs, each bound to one field of the Form. */
  datatype Field =
    | LoginEmail | LoginPassword
    | RegisterUsername | RegisterEmail | RegisterPassword | RegisterConfirmPassword
    | ForgotPasswordEmail | Otp | NewPassword | ConfirmNewPassword

  /** The view whose form shows the input. */
  function FieldView(field: Field): View
  {
    match field
    case LoginEmail => Login
    case LoginPassword => Login
    case RegisterUsername => Register
    case RegisterEmail => Register
    case RegisterPassword => Register
    case RegisterConfirmPassword => Register
    case ForgotPasswordEmail => ForgotPassword
    case Otp => VerifyOtp
    case NewPassword => ResetPassword
    case ConfirmNewPassword => ResetPassword
  }

  // ---------------------------------------------------------------------
  // The handlers as steps on the Form

  /** An input's `onChange`: the bound field takes the typed text. */
  function TypeNext(f: Form, field: Field, text: string): Form
  {
    match field
    case LoginEmail => f.(loginEmail := text)
    case LoginPassword => f.(loginPassword := text)
    case RegisterUsername => f.(registerUsername := text)
    case RegisterEmail => f.(registerEmail := text)
    case RegisterPassword => f.(registerPassword := text)
    case RegisterConfirmPassword => f.(registerConfirmPassword := text)
    case ForgotPasswordEmail => f.(forgotPasswordEmail := text)
    case Otp => f.(otp := text)
    case NewPassword => f.(newPassword := text)
    case ConfirmNewPassword => f.(confirmNewPassword := text)
  }

  /** `handleLogin` (lines 89-106): the call's result reaches the store only; loading ends either way. */
  function LoginNext(f: Form, o: Outcome<Credentials>): Form
  {
    f.(isLoading := false)
  }

  function LoginSent(f: Form): Request
  {
    LoginRequest(f.loginEmail, f.loginPassword)
  }

  predicate RegisterMismatch(f: Form)
  {
    f.registerPassword != f.registerConfirmPassword
  }

  /** `handleRegister` (lines 109-140): returns early on a mismatch; otherwise loading ends and the image is cleared. */
  function RegisterNext(f: Form, o: Outcome<Credentials>): Form
  {
    if RegisterMismatch(f) then f
    else f.(isLoading := false, registerProfileImage := None)
  }

  function RegisterSent(f: Form): Option<Request>
  {
    if RegisterMismatch(f) then None
    else Some(RegisterRequest(f.registerUsername, f.registerEmail, f.registerPassword, f.registerProfileImage))
  }

  /** `handleForgotPassword` (lines 143-155). */
  function ForgotNext(f: Form, o: Outcome<()>): Form
  {
    if o.Resolved? then f.(currentView := VerifyOtp, isLoading := false)
    else f.(isLoading := false)
  }

  function ForgotSent(f: Form): Request
  {
    ForgotPasswordRequest(f.forgotPasswordEmail)
  }

  /** `handleVerifyOtp` (lines 158-171): the resolved value is the password-change token. */
  function VerifyNext(f: Form, o: Outcome<string>): Form
  {
    if o.Resolved? then f.(passwordChangeToken := o.value, currentView := ResetPassword, isLoading := false)
    else f.(isLoading := false)
  }

  function VerifySent(f: Form): Request
  {
    VerifyOtpRequest(f.forgotPasswordEmail, f.otp)
  }

  predicate ResetMismatch(f: Form)
  {
    f.newPassword != f.confirmNewPassword
  }

  /** `handleResetPassword` (lines 174-196): on success back to login with the reset fields cleared. */
  function ResetNext(f: Form, o: Outcome<()>): Form
  {
    if ResetMismatch(f) then f
    else if o.Resolved? then
      f.(currentView := Login, forgotPasswordEmail := "", otp := "", newPassword := "",
         confirmNewPassword := "", passwordChangeToken := "", isLoading := false)
    else f.(isLoading := false)
  }

  function ResetSent(f: Form): Option<Request>
  {
    if ResetMismatch(f) then None
    else Some(ResetPasswordRequest(f.newPassword, f.passwordChangeToken))
  }

  /** The navigation buttons: the "Forgot Password?" link and the footer. */
  datatype Button = ForgotLink | CreateAccount | BackToLogin | Back

  /** Where the footer's Back button leads (lines 561-565). */
  function BackTarget(v: View): View
  {
    match v
    case VerifyOtp => ForgotPassword
    case ResetPassword => VerifyOtp
    case _ => Login
  }

  /** Which buttons the current view shows (lines 309, 527-566). */
  predicate Offered(v: View, b: Button)
  {
    match b
    case ForgotLink => v == Login
    case CreateAccount => v == Login
    case BackToLogin => v == Register
    case Back => v != Login && v != Register
  }

  function ClickNext(f: Form, b: Button): Form
  {
    match b
    case ForgotLink => f.(currentView := ForgotPassword)
    case CreateAccount => f.(currentView := Register)
    case BackToLogin => f.(currentView := Login)
    case Back => f.(currentView := BackTarget(f.currentView))
  }

  // ---------------------------------------------------------------------
  // Runs of user actions

  datatype Action =
    | Type(field: Field, text: string)
    | PickImage(image: Option<Image>)
    | Click(button: Button)
    | SubmitLogin(login: Outcome<Credentials>)
    | SubmitRegister(register: Outcome<Credentials>)
    | SubmitForgot(forgot: Outcome<()>)
    | SubmitOtp(verify: Outcome<string>)
    | SubmitReset(reset: Outcome<()>)

  function Step(f: Form, a: Action): Form
  {
    match a
    case Type(field, text) => TypeNext(f, field, text)
    case PickImage(image) => f.(registerProfileImage := image)
    case Click(b) => ClickNext(f, b)
    case SubmitLogin(o) => LoginNext(f, o)
    case SubmitRegister(o) => RegisterNext(f, o)
    case SubmitForgot(o) => ForgotNext(f, o)
    case SubmitOtp(o) => VerifyNext(f, o)
    case SubmitReset(o) => ResetNext(f, o)
  }

  /** The action can be performed on what the page shows: its form, input or button is rendered. */
  predicate Allowed(f: Form, a: Action)
  {
    match a
    case Type(field, _) => f.currentView == FieldView(field)
    case PickImage(_) => f.currentView == Register
    case Click(b) => Offered(f.currentView, b)
    case SubmitLogin(_) => f.currentView == Login
    case SubmitRegister(_) => f.currentView == Register
    case SubmitForgot(_) => f.currentView == ForgotPassword
    case SubmitOtp(_) => f.currentView == VerifyOtp
    case SubmitReset(_) => f.currentView == ResetPassword
  }

  function Run(f: Form, actions: seq<Action>): Form
  {
    if actions == [] then f else Step(Run(f, actions[..|actions| - 1]), actions[|actions| - 1])
  }

  /** Every action of the run is performed on what the page shows at that moment. */
  predicate AllowedRun(f: Form, actions: seq<Action>)
  {
    actions == []
    || (AllowedRun(f, actions[..|actions| - 1]) && Allowed(Run(f, actions[..|actions| - 1]), actions[|actions| - 1]))
  }

  lemma RunSnoc(f: Form, actions: seq<Action>, a: Action)
    ensures Run(f, actions + [a]) == Step(Run(f, actions), a)
    ensures AllowedRun(f, actions + [a]) <==> AllowedRun(f, actions) && Allowed(Run(f, actions), a)
  {
    assert (actions + [a])[..|actions|] == actions;
  }

  /** The token of the last successful OTP verification in the run, if any. */
  function LastVerified(actions: seq<Action>): Option<string>
  {
    if actions == [] then None
    else
      var a := actions[|actions| - 1];
      if a.SubmitOtp? && a.verify.Resolved? then Some(a.verify.value)
      else LastVerified(actions[..|actions| - 1])
  }

  // ---------------------------------------------------------------------
  // Properties of the handlers

  /** Every handler that reaches its service call ends with loading off, whatever the call did; registering also drops the picked image. */
  lemma CallsEndIdle(f: Form, c: Outcome<Credentials>, u: Outcome<()>, t: Outcome<string>)
    ensures !LoginNext(f, c).isLoading && !ForgotNext(f, u).isLoading && !VerifyNext(f, t).isLoading
    ensures !RegisterMismatch(f) ==> !RegisterNext(f, c).isLoading && RegisterNext(f, c).registerProfileImage == None
    ensures !ResetMismatch(f) ==> !ResetNext(f, u).isLoading
  {
  }

  /** A password mismatch returns before the call: nothing is sent and nothing changes. */
  lemma MismatchesChangeNothing(f: Form, c: Outcome<Credentials>, u: Outcome<()>)
    ensures RegisterMismatch(f) ==> RegisterSent(f) == None && RegisterNext(f, c) == f
    ensures ResetMismatch(f) ==> ResetSent(f) == None && ResetNext(f, u) == f
    ensures !RegisterMismatch(f) ==> RegisterSent(f).Some?
    ensures !ResetMismatch(f) ==> ResetSent(f) == Some(ResetPasswordRequest(f.newPassword, f.passwordChangeToken))
  {
  }

  /** A rejected call leaves view and fields as they were; only loading ends. */
  lemma RejectionsKeepForm(f: Form, message: string)
    ensures ForgotNext(f, Rejected(message)) == f.(isLoading := false)
    ensures VerifyNext(f, Rejected(message)) == f.(isLoading := false)
    ensures !ResetMismatch(f) ==> ResetNext(f, Rejected(message)) == f.(isLoading := false)
  {
  }

  /** Each view shows exactly one of the three footer navigation buttons. */
  lemma OneFooterButton(v: View)
    ensures Offered(v, CreateAccount) || Offered(v, BackToLogin) || Offered(v, Back)
    ensures !(Offered(v, CreateAccount) && Offered(v, BackToLogin))
    ensures !(Offered(v, CreateAccount) && Offered(v, Back))
    ensures !(Offered(v, BackToLogin) && Offered(v, Back))
  {
  }

  /** The login/register toggle undoes itself. */
  lemma ToggleRoundTrip(f: Form)
    ensures f.currentView == Login ==> ClickNext(ClickNext(f, CreateAccount), BackToLogin) == f
    ensures f.currentView == Register ==> ClickNext(ClickNext(f, BackToLogin), CreateAccount) == f
  {
  }

  /** Back retraces each forward move of the password-reset flow. */
  lemma BackRetraces(f: Form, token: string)
    ensures ClickNext(ClickNext(f, ForgotLink), Back).currentView == Login
    ensures ClickNext(ForgotNext(f, Resolved(())), Back).currentView == ForgotPassword
    ensures ClickNext(VerifyNext(f, Resolved(token)), Back).currentView == VerifyOtp
  {
  }

  /** The only way into the reset view is a successful verification, which stores its token. */
  lemma EnterResetOnlyByVerify(f: Form, a: Action)
    requires f.currentView != ResetPassword && Step(f, a).currentView == ResetPassword
    ensures a.SubmitOtp? && a.verify.Resolved?
    ensures Step(f, a).passwordChangeToken == a.verify.value
  {
  }

  /** The password-change token is written only by a successful verification, or cleared by a successful reset. */
  lemma TokenWrites(f: Form, a: Action)
    requires Step(f, a).passwordChangeToken != f.passwordChangeToken
    ensures (a.SubmitOtp? && a.verify.Resolved? && Step(f, a).passwordChangeToken == a.verify.value)
         || (a.SubmitReset? && Step(f, a).passwordChangeToken == "")
  {
  }

  lemma {:induction false} RunKeepsIdle(f: Form, actions: seq<Action>)
    requires !f.isLoading
    ensures !Run(f, actions).isLoading
    decreases |actions|
  {
    if actions != [] {
      RunKeepsIdle(f, actions[..|actions| - 1]);
    }
  }

  /** Whenever the reset view shows, its token is the one the last successful verification returned. */
  lemma {:induction false} ResetViewHoldsVerifiedToken(actions: seq<Action>)
    ensures Run(Initial, actions).currentView == ResetPassword
        ==> LastVerified(actions) == Some(Run(Initial, actions).passwordChangeToken)
    decreases |actions|
  {
    if actions != [] {
      var before := actions[..|actions| - 1];
      ResetViewHoldsVerifiedToken(before);
      var a := actions[|actions| - 1];
      var f := Run(Initial, before);
      if !(a.SubmitOtp? && a.verify.Resolved?) && Step(f, a).currentView == ResetPassword {
        assert f.currentView == ResetPassword by {
          if f.currentView != ResetPassword {
            EnterResetOnlyByVerify(f, a);
          }
        }
      }
    }
  }

  /** So the reset request carries the token of the last successful verification. */
  lemma ResetSendsVerifiedToken(actions: seq<Action>)
    requires Run(Initial, actions).currentView == ResetPassword
    requires !ResetMismatch(Run(Initial, actions))
    ensures LastVerified(actions).Some?
    ensures ResetSent(Run(Initial, actions))
         == Some(ResetPasswordRequest(Run(Initial, actions).newPassword, LastVerified(actions).value))
  {
    ResetViewHoldsVerifiedToken(actions);
  }

  /** Running two action sequences one after the other is running their concatenation. */
  lemma {:induction false} RunAppend(f: Form, xs: seq<Action>, ys: seq<Action>)
    ensures Run(f, xs + ys) == Run(Run(f, xs), ys)
    ensures AllowedRun(f, xs + ys) <==> AllowedRun(f, xs) && AllowedRun(Run(f, xs), ys)
    decreases |ys|
  {
    if ys == [] {
      assert xs + ys == xs;
    } else {
      var init := ys[..|ys| - 1];
      var y := ys[|ys| - 1];
      RunAppend(f, xs, init);
      assert ys == init + [y];
      assert xs + ys == (xs + init) + [y];
      RunSnoc(f, xs + init, y);
      RunSnoc(Run(f, xs), init, y);
    }
  }

  /** The form after asking for an OTP for "a@x.com". */
  function OtpRequested(): Form
  {
    Initial.(currentView := VerifyOtp, forgotPasswordEmail := "a@x.com")
  }

  /** The form after the OTP "123456" was verified and returned the token "pct". */
  function OtpVerified(): Form
  {
    OtpRequested().(currentView := ResetPassword, otp := "123456", passwordChangeToken := "pct")
  }

  lemma RequestOtpPhase()
    ensures var actions := [Click(ForgotLink), Type(ForgotPasswordEmail, "a@x.com"), SubmitForgot(Resolved(()))];
      AllowedRun(Initial, actions) && Run(Initial, actions) == OtpRequested()
  {
    var actions := [Click(ForgotLink), Type(ForgotPasswordEmail, "a@x.com"), SubmitForgot(Resolved(()))];
    RunSnoc(Initial, [], actions[0]);
    assert [] + [actions[0]] == actions[..1];
    RunSnoc(Initial, actions[..1], actions[1]);
    assert actions[..1] + [actions[1]] == actions[..2];
    RunSnoc(Initial, actions[..2], actions[2]);
    assert actions[..2] + [actions[2]] == actions;
  }

  lemma VerifyOtpPhase()
    ensures var actions := [Type(Otp, "123456"), SubmitOtp(Resolved("pct"))];
      AllowedRun(OtpRequested(), actions) && Run(OtpRequested(), actions) == OtpVerified()
  {
    var actions := [Type(Otp, "123456"), SubmitOtp(Resolved("pct"))];
    RunSnoc(OtpRequested(), [], actions[0]);
    assert [] + [actions[0]] == actions[..1];
    RunSnoc(OtpRequested(), actions[..1], actions[1]);
    assert actions[..1] + [actions[1]] == actions;
  }

  lemma ResetPhase()
    ensures var actions := [Type(NewPassword, "pw"), Type(ConfirmNewPassword, "pw")];
      AllowedRun(OtpVerified(), actions)
      && ResetSent(Run(OtpVerified(), actions)) == Some(ResetPasswordRequest("pw", "pct"))
      && Allowed(Run(OtpVerified(), actions), SubmitReset(Resolved(())))
      && Step(Run(OtpVerified(), actions), SubmitReset(Resolved(()))) == Initial
  {
    var actions := [Type(NewPassword, "pw"), Type(ConfirmNewPassword, "pw")];
    RunSnoc(OtpVerified(), [], actions[0]);
    assert [] + [actions[0]] == actions[..1];
    RunSnoc(OtpVerified(), actions[..1], actions[1]);
    assert actions[..1] + [actions[1]] == actions;
  }

  /** The whole password-reset flow, every step on a shown control, ends where the page started. */
  lemma ResetFlow()
    ensures var actions := [Click(ForgotLink), Type(ForgotPasswordEmail, "a@x.com"), SubmitForgot(Resolved(())),
                            Type(Otp, "123456"), SubmitOtp(Resolved("pct")),
                            Type(NewPassword, "pw"), Type(ConfirmNewPassword, "pw"), SubmitReset(Resolved(()))];
      AllowedRun(Initial, actions)
      && ResetSent(Run(Initial, actions[..7])) == Some(ResetPasswordRequest("pw", "pct"))
      && Run(Initial, actions) == Initial
  {
    var request := [Click(ForgotLink), Type(ForgotPasswordEmail, "a@x.com"), SubmitForgot(Resolved(()))];
    var verify := [Type(Otp, "123456"), SubmitOtp(Resolved("pct"))];
    var reset := [Type(NewPassword, "pw"), Type(ConfirmNewPassword, "pw")];
    var submit := SubmitReset(Resolved(()));
    RequestOtpPhase();
    VerifyOtpPhase();
    ResetPhase();
    RunAppend(Initial, request, verify);
    RunAppend(Initial, request + verify, reset);
    RunSnoc(Initial, request + verify + reset, submit);
    var actions := request + verify + reset + [submit];
    assert actions == [Click(ForgotLink), Type(ForgotPasswordEmail, "a@x.com"), SubmitForgot(Resolved(())),
                       Type(Otp, "123456"), SubmitOtp(Resolved("pct")),
                       Type(NewPassword, "pw"), Type(ConfirmNewPassword, "pw"), SubmitReset(Resolved(()))];
    assert actions[..7] == request + verify + reset;
  }

  // ---------------------------------------------------------------------
  // The page component

  class Page {
    var loginEmail: string
    var loginPassword: string
    var registerUsername: string
    var registerEmail: string
    var registerPassword: string
    var registerConfirmPassword: string
    var registerProfileImage: Option<Image>
    var forgotPasswordEmail: string
    var otp: string
    var newPassword: string
    var confirmNewPassword: string
    var passwordChangeToken: string
    var currentView: View
    var isLoading: bool
    /** The session store whose `setAuth` the login and register handlers call. */
    const store: AuthStore.Store

    function State(): Form
      reads this
    {
      Form(loginEmail, loginPassword, registerUsername, registerEmail, registerPassword,
           registerConfirmPassword, registerProfileImage, forgotPasswordEmail, otp, newPassword,
           confirmNewPassword, passwordChangeToken, currentView, isLoading)
    }

    /** The initial state (lines 17-35): login view, every input empty, not loading. */
    constructor(store: AuthStore.Store)
      ensures this.store == store
      ensures State() == Initial
    {
      this.store := store;
      loginEmail, loginPassword := "", "";
      registerUsername, registerEmail, registerPassword, registerConfirmPassword := "", "", "", "";
      registerProfileImage := None;
      forgotPasswordEmail, otp, newPassword, confirmNewPassword, passwordChangeToken := "", "", "", "", "";
      currentView, isLoading := Login, false;
    }

    method OnType(field: Field, text: string)
      modifies this
      ensures State() == TypeNext(old(State()), field, text)
    {
      match field {
        case LoginEmail => loginEmail := text;
        case LoginPassword => loginPassword := text;
        case RegisterUsername => registerUsername := text;
        case RegisterEmail => registerEmail := text;
        case RegisterPassword => registerPassword := text;
        case RegisterConfirmPassword => registerConfirmPassword := text;
        case ForgotPasswordEmail => forgotPasswordEmail := text;
        case Otp => otp := text;
        case NewPassword => newPassword := text;
        case ConfirmNewPassword => confirmNewPassword := text;
      }
    }

    method OnPickImage(image: Option<Image>)
      modifies this
      ensures State() == old(State()).(registerProfileImage := image)
    {
      registerProfileImage := image;
    }

    method OnClick(b: Button)
      modifies this
      ensures State() == ClickNext(old(State()), b)
    {
      match b {
        case ForgotLink => currentView := ForgotPassword;
        case CreateAccount => currentView := Register;
        case BackToLogin => currentView := Login;
        case Back =>
          if currentView == VerifyOtp {
            currentView := ForgotPassword;
          } else if currentView == ResetPassword {
            currentView := VerifyOtp;
          } else {
            currentView := Login;
          }
      }
    }

    method HandleLogin(o: Outcome<Credentials>) returns (sent: Request)
      modifies this, store, store.storage
      ensures sent == LoginSent(old(State()))
      ensures State() == LoginNext(old(State()), o)
      ensures store.Snapshot()
           == if o.Resolved? then AuthStore.SetAuthNext(old(store.Snapshot()), o.value.token, o.value.user)
              else old(store.Snapshot())
    {
      isLoading := true;
      sent := LoginRequest(loginEmail, loginPassword);
      match o {
        case Resolved(c) => store.SetAuth(c.token, c.user);
        case Rejected(_) =>
      }
      isLoading := false;
    }

    method HandleRegister(o: Outcome<Credentials>) returns (sent: Option<Request>)
      modifies this, store, store.storage
      ensures sent == RegisterSent(old(State()))
      ensures State() == RegisterNext(old(State()), o)
      ensures store.Snapshot()
           == if sent.Some? && o.Resolved? then AuthStore.SetAuthNext(old(store.Snapshot()), o.value.token, o.value.user)
              else old(store.Snapshot())
    {
      if registerPassword != registerConfirmPassword {
        return None;
      }
      isLoading := true;
      sent := Some(RegisterRequest(registerUsername, registerEmail, registerPassword, registerProfileImage));
      match o {
        case Resolved(c) => store.SetAuth(c.token, c.user);
        case Rejected(_) =>
      }
      isLoading := false;
      registerProfileImage := None;
    }

    method HandleForgotPassword(o: Outcome<()>) returns (sent: Request)
      modifies this
      ensures sent == ForgotSent(old(State()))
      ensures State() == ForgotNext(old(State()), o)
    {
      isLoading := true;
      sent := ForgotPasswordRequest(forgotPasswordEmail);
      if o.Resolved? {
        currentView := VerifyOtp;
      }
      isLoading := false;
    }

    method HandleVerifyOtp(o: Outcome<string>) returns (sent: Request)
      modifies this
      ensures sent == VerifySent(old(State()))
      ensures State() == VerifyNext(old(State()), o)
    {
      isLoading := true;
      sent := VerifyOtpRequest(forgotPasswordEmail, otp);
      match o {
        case Resolved(receivedToken) =>
          passwordChangeToken := receivedToken;
          currentView := ResetPassword;
        case Rejected(_) =>
      }
      isLoading := false;
    }

    /** The five setters run after a successful reset (lines 186-190). */
    method ClearResetFields()
      modifies this
      ensures State() == old(State()).(forgotPasswordEmail := "", otp := "", newPassword := "",
                                       confirmNewPassword := "", passwordChangeToken := "")
    {
      forgotPasswordEmail, otp, newPassword, confirmNewPassword, passwordChangeToken := "", "", "", "", "";
    }

    method HandleResetPassword(o: Outcome<()>) returns (sent: Option<Request>)
      modifies this
      ensures sent == ResetSent(old(State()))
      ensures State() == ResetNext(old(State()), o)
    {
      if newPassword != confirmNewPassword {
        return None;
      }
      isLoading := true;
      sent := Some(ResetPasswordRequest(newPassword, passwordChangeToken));
      if o.Resolved? {
        currentView := Login;
        ClearResetFields();
      }
      isLoading := false;
    }
  }
}
