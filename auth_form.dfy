/**
 * The sign-in page of `src/pages/Auth.tsx` as a state machine: the fields
 * the handlers change, the events that change them (user edits, clicks,
 * form submits and the answers of the identity service, which arrive as
 * parameters), and the page object whose methods perform one event each.
 */
module AuthForm {
  import opened Common
  import opened Text
  import opened AuthRules

  datatype AuthMethod = EmailMethod | PhoneMethod

  /** The state the page keeps with `useState`. */
  datatype FormState = FormState(
    view: AuthView,
    authMethod: AuthMethod,
    email: string,
    phone: string,
    password: string,
    confirmPassword: string,
    username: string,
    birthday: string,
    otp: string,
    otpSent: bool,
    loading: bool,
    errors: map<string, string>)

  /** The keys the validators use. */
  const ErrorKeys: set<string> := {"email", "password", "phone", "confirmPassword"}

  /**
   * The page's invariant: the code field holds text only after a code was
   * sent, a code is only sent to a number the pattern accepts (the number
   * field is then locked), and every error sits under a validator's key.
   */
  predicate Inv(s: FormState)
  {
    && (!s.otpSent ==> s.otp == "")
    && (s.otpSent ==> PhoneValid(s.phone))
    && s.errors.Keys <= ErrorKeys
  }

  /** The state on first render: the login view, e-mail tab, every field empty. */
  function Initial(): (s: FormState)
    ensures Inv(s)
    ensures s.view == Login && !s.otpSent && !s.loading && s.errors == map[]
  {
    FormState(Login, EmailMethod, "", "", "", "", "", "", "", false, false, map[])
  }

  /** The events the page reacts to; the identity service's answers are parameters. */
  datatype Event =
    | HashRead(typeParam: Option<string>, accessToken: Option<string>)
    | ToggleLoginSignup
    | UseDifferentPhone
    | OpenForgotPassword
    | BackToLogin
    | EditEmail(newEmail: string, suffix: nat)
    | EditUsername(newUsername: string)
    | EditPassword(newPassword: string)
    | EditConfirmPassword(newConfirm: string)
    | EditPhone(newPhone: string)
    | EditOtp(newOtp: string)
    | EditBirthday(newBirthday: string)
    | PickMethod(newMethod: AuthMethod)
    | SubmitEmail(emailOk: bool, serviceOk: bool)
    | SubmitPhone(sendOk: bool, verifyOk: bool)
    | SubmitForgot(emailOk: bool, serviceOk: bool)
    | SubmitReset(serviceOk: bool)
    | GoogleLogin(serviceOk: bool)

  /** The login or sign-up view: the Google button, the tabs and the toggle. */
  predicate MainView(s: FormState)
  {
    s.view == Login || s.view == Signup
  }

  /** The main view with tab `m` open; only the open tab's form is rendered. */
  predicate OnTab(s: FormState, m: AuthMethod)
  {
    MainView(s) && s.authMethod == m
  }

  /**
   * Whether the control that raises the event is on screen. The fragment is
   * read once, on mount. The reset view has the new password, its
   * confirmation and the submit; the forgot view the address, the submit and
   * "back to login"; the main view the Google button, the tabs and the
   * toggle. Its e-mail tab holds the address, the password and (on login)
   * the forgot-password link; its phone tab the number (locked once a code
   * is sent), then the code field and "use different phone number". The
   * username field is on sign-up only, and on the phone tab only before a
   * code is sent. No input on the page sets the birthday, so its edit is
   * never on screen.
   */
  predicate Enabled(s: FormState, e: Event)
  {
    match e
    case HashRead(_, _) => s == Initial()
    case ToggleLoginSignup => MainView(s)
    case PickMethod(_) => MainView(s)
    case GoogleLogin(_) => MainView(s)
    case OpenForgotPassword => OnTab(s, EmailMethod) && s.view == Login
    case BackToLogin => s.view == ForgotPassword
    case EditEmail(_, suffix) => suffix < 1000 && (OnTab(s, EmailMethod) || s.view == ForgotPassword)
    case EditUsername(_) => s.view == Signup && (s.authMethod == EmailMethod || !s.otpSent)
    case EditPassword(_) => OnTab(s, EmailMethod) || s.view == ResetPassword
    case EditConfirmPassword(_) => s.view == ResetPassword
    case EditPhone(_) => OnTab(s, PhoneMethod) && !s.otpSent
    case EditOtp(_) => OnTab(s, PhoneMethod) && s.otpSent
    case UseDifferentPhone => OnTab(s, PhoneMethod) && s.otpSent
    case EditBirthday(_) => false
    case SubmitEmail(_, _) => OnTab(s, EmailMethod)
    case SubmitPhone(_, _) => OnTab(s, PhoneMethod)
    case SubmitForgot(_, _) => s.view == ForgotPassword
    case SubmitReset(_) => s.view == ResetPassword
  }

  /** What a handler did besides changing the state. */
  datatype Effect =
    | NoEffect
    | Rejected          // a validator failed; the service was not called
    | BirthdayMissing   // sign-up without a birthday; the service was not called
    | ServiceFailed     // the service answered with an error
    | NavigatedHome     // `navigate('/')`
    | CodeSent
    | ResetLinkSent
    | LeftForProvider   // the OAuth redirect

  datatype Reply = Reply(state: FormState, effect: Effect)

  /** A recovery link: `type=recovery` and a non-empty access token in the URL fragment. */
  predicate IsRecoveryLink(typeParam: Option<string>, accessToken: Option<string>)
  {
    typeParam == Some("recovery") && accessToken.Some? && accessToken.value != ""
  }

  /** `handleEmailSubmit`: validate, then sign in or (with a birthday) sign up. */
  function EmailSubmit(s: FormState, emailOk: bool, serviceOk: bool): Reply
  {
    var errs := EmailErrors(s.view, emailOk, s.password);
    if !Passes(errs) then Reply(s.(errors := errs), Rejected)
    else if s.view != Login && s.birthday == "" then Reply(s.(errors := errs, loading := false), BirthdayMissing)
    else Reply(s.(errors := errs, loading := false), if serviceOk then NavigatedHome else ServiceFailed)
  }

  /** `handlePhoneSubmit`: first send a code to a valid number, then verify the code. */
  function PhoneSubmit(s: FormState, sendOk: bool, verifyOk: bool): Reply
  {
    if !s.otpSent then
      var errs := PhoneErrors(s.phone);
      if !Passes(errs) then Reply(s.(errors := errs), Rejected)
      else if sendOk then Reply(s.(errors := errs, otpSent := true, loading := false), CodeSent)
      else Reply(s.(errors := errs, loading := false), ServiceFailed)
    else Reply(s.(loading := false), if verifyOk then NavigatedHome else ServiceFailed)
  }

  /** `handleForgotPassword`: a valid address asks for a link and returns to login. */
  function ForgotSubmit(s: FormState, emailOk: bool, serviceOk: bool): Reply
  {
    if !emailOk then Reply(s.(errors := map["email" := InvalidEmail]), Rejected)
    else if serviceOk then Reply(s.(view := Login, loading := false), ResetLinkSent)
    else Reply(s.(loading := false), ServiceFailed)
  }

  /** `handleResetPassword`: both password rules, then the update. */
  function ResetSubmit(s: FormState, serviceOk: bool): Reply
  {
    var errs := ResetErrors(s.password, s.confirmPassword);
    if !Passes(errs) then Reply(s.(errors := errs), Rejected)
    else Reply(s.(errors := errs, loading := false), if serviceOk then NavigatedHome else ServiceFailed)
  }

  /** The page with a birthday input on the sign-up view, as the sign-up handler expects. */
  predicate WithBirthdayField(s: FormState, e: Event)
  {
    Enabled(s, e) || (e.EditBirthday? && s.view == Signup)
  }

  /** One event, handled as the page's handlers handle it. */
  function Step(s: FormState, e: Event): Reply
    requires WithBirthdayField(s, e)
  {
    match e
    case HashRead(t, token) =>
      Reply(if IsRecoveryLink(t, token) then s.(view := ResetPassword) else s, NoEffect)
    case ToggleLoginSignup =>
      Reply(s.(view := if s.view == Login then Signup else Login, otpSent := false, otp := "", errors := map[]), NoEffect)
    case UseDifferentPhone => Reply(s.(otpSent := false, otp := ""), NoEffect)
    case OpenForgotPassword => Reply(s.(view := ForgotPassword), NoEffect)
    case BackToLogin => Reply(s.(view := Login), NoEffect)
    case EditEmail(e', suffix) =>
      Reply(s.(email := e', username := AutoFilledUsername(s.view, s.username, e', suffix)), NoEffect)
    case EditUsername(u) => Reply(s.(username := u), NoEffect)
    case EditPassword(p) => Reply(s.(password := p), NoEffect)
    case EditConfirmPassword(p) => Reply(s.(confirmPassword := p), NoEffect)
    case EditPhone(p) => Reply(s.(phone := p), NoEffect)
    case EditOtp(o) => Reply(s.(otp := o), NoEffect)
    case EditBirthday(b) => Reply(s.(birthday := b), NoEffect)
    case PickMethod(m) => Reply(s.(authMethod := m), NoEffect)
    case SubmitEmail(emailOk, ok) => EmailSubmit(s, emailOk, ok)
    case SubmitPhone(sendOk, verifyOk) => PhoneSubmit(s, sendOk, verifyOk)
    case SubmitForgot(emailOk, ok) => ForgotSubmit(s, emailOk, ok)
    case SubmitReset(ok) => ResetSubmit(s, ok)
    case GoogleLogin(ok) =>
      if ok then Reply(s.(loading := true), LeftForProvider) else Reply(s.(loading := false), ServiceFailed)
  }

  /** The redirect effect: a signed-in user leaves the page except on the reset view. */
  function RedirectsHome(s: FormState, userPresent: bool): (r: bool)
  {
    userPresent && s.view != ResetPassword
  }

  /** Events on screen, one after another from `s`; an event whose control is not shown does nothing. */
  function Run(s: FormState, events: seq<Event>): FormState
    decreases |events|
  {
    if events == [] then s
    else Run(if Enabled(s, events[0]) then Step(s, events[0]).state else s, events[1..])
  }

  /** `Run` on the page that has the birthday input. */
  function RunWithBirthdayField(s: FormState, events: seq<Event>): FormState
    decreases |events|
  {
    if events == [] then s
    else RunWithBirthdayField(if WithBirthdayField(s, events[0]) then Step(s, events[0]).state else s, events[1..])
  }

  // ---------------------------------------------------------------------
  // Properties of the transitions
  // ---------------------------------------------------------------------

  lemma EmailSubmitKeepsInv(s: FormState, emailOk: bool, serviceOk: bool)
    requires Inv(s)
    ensures Inv(EmailSubmit(s, emailOk, serviceOk).state)
  {
    var errs := EmailErrors(s.view, emailOk, s.password);
    assert errs.Keys <= ErrorKeys;
  }

  lemma PhoneSubmitKeepsInv(s: FormState, sendOk: bool, verifyOk: bool)
    requires Inv(s)
    ensures Inv(PhoneSubmit(s, sendOk, verifyOk).state)
  {
    if !s.otpSent {
      var errs := PhoneErrors(s.phone);
      assert errs.Keys <= ErrorKeys;
      if Passes(errs) {
        assert "phone" !in errs;
      }
    }
  }

  lemma ResetSubmitKeepsInv(s: FormState, serviceOk: bool)
    requires Inv(s)
    ensures Inv(ResetSubmit(s, serviceOk).state)
  {
    var errs := ResetErrors(s.password, s.confirmPassword);
    assert errs.Keys <= ErrorKeys;
  }

  /** Every handler keeps the invariant, the birthday edit included. */
  lemma StepKeepsInv(s: FormState, e: Event)
    requires Inv(s) && WithBirthdayField(s, e)
    ensures Inv(Step(s, e).state)
  {
    match e
    case SubmitEmail(emailOk, ok) => EmailSubmitKeepsInv(s, emailOk, ok);
    case SubmitPhone(sendOk, verifyOk) => PhoneSubmitKeepsInv(s, sendOk, verifyOk);
    case SubmitReset(ok) => ResetSubmitKeepsInv(s, ok);
    case _ =>
  }

  /** Any run of events from a state satisfying the invariant keeps it. */
  lemma {:induction false} RunKeepsInv(s: FormState, events: seq<Event>)
    requires Inv(s)
    ensures Inv(Run(s, events))
    decreases |events|
  {
    if events != [] {
      var next := if Enabled(s, events[0]) then Step(s, events[0]).state else s;
      if Enabled(s, events[0]) {
        StepKeepsInv(s, events[0]);
      }
      RunKeepsInv(next, events[1..]);
    }
  }

  /** So every state reachable from the first render satisfies it. */
  lemma ReachableInv(events: seq<Event>)
    ensures Inv(Run(Initial(), events))
  {
    RunKeepsInv(Initial(), events);
  }

  /** The page with the birthday input keeps the invariant as well. */
  lemma {:induction false} RunWithBirthdayFieldKeepsInv(s: FormState, events: seq<Event>)
    requires Inv(s)
    ensures Inv(RunWithBirthdayField(s, events))
    decreases |events|
  {
    if events != [] {
      var next := if WithBirthdayField(s, events[0]) then Step(s, events[0]).state else s;
      if WithBirthdayField(s, events[0]) {
        StepKeepsInv(s, events[0]);
      }
      RunWithBirthdayFieldKeepsInv(next, events[1..]);
    }
  }

  // ---------------------------------------------------------------------
  // The birthday the sign-up handler asks for
  // ---------------------------------------------------------------------

  /** No handler but the birthday edit touches the birthday. */
  lemma StepKeepsBirthday(s: FormState, e: Event)
    requires Enabled(s, e)
    ensures Step(s, e).state.birthday == s.birthday
  {
    match e
    case SubmitEmail(emailOk, ok) =>
    case SubmitPhone(sendOk, verifyOk) =>
    case SubmitForgot(emailOk, ok) =>
    case SubmitReset(ok) =>
    case _ =>
  }

  /** No event on the page changes the birthday. */
  lemma {:induction false} RunKeepsBirthday(s: FormState, events: seq<Event>)
    ensures Run(s, events).birthday == s.birthday
    decreases |events|
  {
    if events != [] {
      var next := if Enabled(s, events[0]) then Step(s, events[0]).state else s;
      if Enabled(s, events[0]) {
        StepKeepsBirthday(s, events[0]);
      }
      RunKeepsBirthday(next, events[1..]);
    }
  }

  /**
   * So on the page as written an e-mail sign-up never reaches the service:
   * once the validators pass it always stops for the missing birthday.
   */
  lemma EmailSignupNeverSucceeds(events: seq<Event>, emailOk: bool, serviceOk: bool)
    ensures var s := Run(Initial(), events);
            OnTab(s, EmailMethod) && s.view == Signup ==>
              && Step(s, SubmitEmail(emailOk, serviceOk)).effect != NavigatedHome
              && (emailOk && |s.password| >= 6 ==> Step(s, SubmitEmail(emailOk, serviceOk)).effect == BirthdayMissing)
  {
    RunKeepsBirthday(Initial(), events);
    var s := Run(Initial(), events);
    if OnTab(s, EmailMethod) && s.view == Signup {
      EmailSubmitFacts(s, emailOk, serviceOk);
    }
  }

  /**
   * With a birthday input on the sign-up view, entering a birthday lets a
   * valid sign-up through to the service.
   */
  lemma BirthdayFieldFixesSignup(s: FormState, b: string, emailOk: bool, serviceOk: bool)
    requires OnTab(s, EmailMethod) && s.view == Signup && b != ""
    ensures WithBirthdayField(s, EditBirthday(b)) && !Enabled(s, EditBirthday(b))
    ensures var t := Step(s, EditBirthday(b)).state;
            Step(t, SubmitEmail(emailOk, serviceOk)).effect == NavigatedHome <==>
              emailOk && |s.password| >= 6 && serviceOk
  {
    var t := Step(s, EditBirthday(b)).state;
    EmailSubmitFacts(t, emailOk, serviceOk);
  }

  /**
   * The toggle swaps login and sign-up and clears the code, the sent flag
   * and the errors; toggling twice comes back to the same view.
   */
  lemma ToggleFacts(s: FormState)
    requires s.view == Login || s.view == Signup
    ensures var t := Step(s, ToggleLoginSignup).state;
            && (t.view == Signup <==> s.view == Login)
            && (t.view == Login <==> s.view == Signup)
            && !t.otpSent && t.otp == "" && t.errors == map[]
            && Step(t, ToggleLoginSignup).state.view == s.view
  {
  }

  /** "Use different phone number" unlocks the number field and clears the code. */
  lemma DifferentPhoneFacts(s: FormState)
    requires OnTab(s, PhoneMethod) && s.otpSent
    ensures var t := Step(s, UseDifferentPhone).state;
            !t.otpSent && t.otp == "" && Enabled(t, EditPhone("")) && !Enabled(t, EditOtp(""))
  {
  }

  /** The forgot-password view is entered from login and left back to login. */
  lemma ForgotRoundTrip(s: FormState)
    requires OnTab(s, EmailMethod) && s.view == Login
    ensures Step(s, OpenForgotPassword).state.view == ForgotPassword
    ensures Step(Step(s, OpenForgotPassword).state, BackToLogin).state == s
  {
  }

  /**
   * A recovery link enters the reset view and then blocks the redirect of a
   * signed-in user; any other fragment leaves the view alone.
   */
  lemma RecoveryLinkFacts(t: Option<string>, token: Option<string>, userPresent: bool)
    ensures var s := Step(Initial(), HashRead(t, token)).state;
            && (IsRecoveryLink(t, token) ==> s.view == ResetPassword && !RedirectsHome(s, userPresent))
            && (!IsRecoveryLink(t, token) ==> s == Initial() && (RedirectsHome(s, userPresent) <==> userPresent))
  {
  }

  /**
   * The e-mail submit is rejected exactly when a validator fails; past the
   * validators a sign-up without a birthday stops before the service; in
   * every other case the service is called, and the page is no longer
   * loading afterwards.
   */
  lemma EmailSubmitFacts(s: FormState, emailOk: bool, serviceOk: bool)
    requires OnTab(s, EmailMethod)
    ensures var r := Step(s, SubmitEmail(emailOk, serviceOk));
            && (r.effect == Rejected <==> !emailOk || |s.password| < 6)
            && (r.effect == BirthdayMissing <==> emailOk && |s.password| >= 6 && s.view == Signup && s.birthday == "")
            && (r.effect == NavigatedHome <==>
                  emailOk && |s.password| >= 6 && (s.view == Login || s.birthday != "") && serviceOk)
            && (r.effect != Rejected ==> !r.state.loading && r.state.errors == map[])
  {
    EmailPassesIff(s.view, emailOk, s.password);
    var errs := EmailErrors(s.view, emailOk, s.password);
    if Passes(errs) {
      assert errs == map[];
    }
  }

  /**
   * The first phone submit sends a code only to a number the pattern
   * accepts; the flag is set exactly when the number is valid and the
   * service sent the code. Once the flag is set a submit verifies the code
   * and leaves the flag alone.
   */
  lemma PhoneSubmitFacts(s: FormState, sendOk: bool, verifyOk: bool)
    requires OnTab(s, PhoneMethod)
    ensures var r := Step(s, SubmitPhone(sendOk, verifyOk));
            && (!s.otpSent ==> (r.state.otpSent <==> PhoneValid(s.phone) && sendOk))
            && (!s.otpSent ==> (r.effect == Rejected <==> !PhoneValid(s.phone)))
            && (s.otpSent ==> r.state.otpSent && (r.effect == NavigatedHome <==> verifyOk))
  {
    var errs := PhoneErrors(s.phone);
    if PhoneValid(s.phone) {
      assert errs.Keys == {};
    } else {
      assert "phone" in errs.Keys;
    }
  }

  /** The reset form reaches the service exactly when both rules pass. */
  lemma ResetSubmitFacts(s: FormState, serviceOk: bool)
    requires s.view == ResetPassword
    ensures var r := Step(s, SubmitReset(serviceOk));
            && (r.effect == Rejected <==> |s.password| < 6 || s.password != s.confirmPassword)
            && (r.effect == NavigatedHome <==> |s.password| >= 6 && s.password == s.confirmPassword && serviceOk)
  {
    ResetPassesIff(s.password, s.confirmPassword);
  }

  /** A sent reset link returns to login; an invalid address stays, with only the address error. */
  lemma ForgotSubmitFacts(s: FormState, emailOk: bool, serviceOk: bool)
    requires s.view == ForgotPassword
    ensures var r := Step(s, SubmitForgot(emailOk, serviceOk));
            && (r.state.view == Login <==> emailOk && serviceOk)
            && (!emailOk ==> r.state.errors.Keys == {"email"} && r.effect == Rejected)
  {
  }

  /** The e-mail edit changes the address and the username, as the auto-fill allows. */
  lemma EditEmailStep(s: FormState, newEmail: string, suffix: nat)
    requires Enabled(s, EditEmail(newEmail, suffix))
    ensures Step(s, EditEmail(newEmail, suffix)).state
            == s.(email := newEmail, username := AutoFilledUsername(s.view, s.username, newEmail, suffix))
  {
  }

  // ---------------------------------------------------------------------
  // The page object
  // ---------------------------------------------------------------------

  /** The page: its fields change in place, one handler at a time. */
  class AuthPage {
    var view: AuthView
    var authMethod: AuthMethod
    var email: string
    var phone: string
    var password: string
    var confirmPassword: string
    var username: string
    var birthday: string
    var otp: string
    var otpSent: bool
    var loading: bool
    var errors: map<string, string>

    function State(): FormState
      reads this
    {
      FormState(view, authMethod, email, phone, password, confirmPassword,
                username, birthday, otp, otpSent, loading, errors)
    }

    predicate Valid()
      reads this
    {
      Inv(State())
    }

    constructor()
      ensures State() == Initial() && Valid()
    {
      view, authMethod := Login, EmailMethod;
      email, phone, password, confirmPassword := "", "", "", "";
      username, birthday, otp := "", "", "";
      otpSent, loading, errors := false, false, map[];
    }

    /** Copies a state into the fields. */
    method SetState(s: FormState)
      modifies this
      ensures view == s.view && authMethod == s.authMethod && email == s.email && phone == s.phone
      ensures password == s.password && confirmPassword == s.confirmPassword && username == s.username
      ensures birthday == s.birthday && otp == s.otp && otpSent == s.otpSent && loading == s.loading
      ensures errors == s.errors
    {
      view, authMethod, email, phone, password, confirmPassword,
        username, birthday, otp, otpSent, loading, errors :=
        s.view, s.authMethod, s.email, s.phone, s.password, s.confirmPassword,
        s.username, s.birthday, s.otp, s.otpSent, s.loading, s.errors;
    }

    /** Handles one event whose control is on screen. */
    method Handle(e: Event) returns (effect: Effect)
      requires Valid() && Enabled(State(), e)
      modifies this
      ensures State() == Step(old(State()), e).state && effect == Step(old(State()), e).effect
      ensures Valid()
    {
      var r := Step(State(), e);
      StepKeepsInv(State(), e);
      SetState(r.state);
      effect := r.effect;
    }

    /** The mount effect that reads the URL fragment. */
    method ReadHash(typeParam: Option<string>, accessToken: Option<string>)
      requires State() == Initial()
      modifies this
      ensures State() == Step(old(State()), HashRead(typeParam, accessToken)).state
      ensures Valid()
    {
      if IsRecoveryLink(typeParam, accessToken) {
        view := ResetPassword;
      }
    }

    /** The login/sign-up toggle below the form. */
    method Toggle()
      requires Valid() && MainView(State())
      modifies this
      ensures State() == Step(old(State()), ToggleLoginSignup).state
      ensures Valid()
    {
      view := if view == Login then Signup else Login;
      otpSent := false;
      otp := "";
      errors := map[];
    }

    /** The e-mail field's change handler, with the username proposal. */
    method ChangeEmail(newEmail: string, suffix: nat)
      requires Valid() && Enabled(State(), EditEmail(newEmail, suffix))
      modifies this
      ensures State() == Step(old(State()), EditEmail(newEmail, suffix)).state
      ensures Valid()
    {
      EditEmailStep(State(), newEmail, suffix);
      ghost var filled := AutoFilledUsername(view, username, newEmail, suffix);
      email := newEmail;
      if view == Signup && (username == "" || MatchesAutoPattern(username)) {
        var generated := GenerateUsername(newEmail, suffix);
        if generated != "" {
          username := generated;
        }
      }
      assert username == filled;
    }

    /** `handlePhoneSubmit`, the service's answers given. */
    method SubmitPhoneForm(sendOk: bool, verifyOk: bool) returns (effect: Effect)
      requires Valid() && OnTab(State(), PhoneMethod)
      modifies this
      ensures State() == Step(old(State()), SubmitPhone(sendOk, verifyOk)).state
      ensures effect == Step(old(State()), SubmitPhone(sendOk, verifyOk)).effect
      ensures Valid()
    {
      if !otpSent {
        var errs := PhoneErrors(phone);
        errors := errs;
        if !Passes(errs) {
          return Rejected;
        }
        loading := true;
        if sendOk {
          otpSent := true;
          effect := CodeSent;
        } else {
          effect := ServiceFailed;
        }
        loading := false;
      } else {
        loading := true;
        effect := if verifyOk then NavigatedHome else ServiceFailed;
        loading := false;
      }
    }
  }
}
