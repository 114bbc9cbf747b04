/** The sign-in / sign-up page of `src/app/auth/auth-client.tsx`: the page
    to return to and the initial mode come from the query, and `onSubmit`
    checks the form, makes one call to the auth service and chooses where to
    go. The auth service's answer and the page's origin are inputs. */
module AuthClient {
  import opened JsValue
  import opened JsString
  import SearchParams
  import Middleware
  import opened Router

  datatype Mode = SignIn | SignUp

  const DefaultNext := "/profile"
  const AfterSignUp := "/sent"
  const ConfirmPath := "/auth/confirm"
  const MissingCredentials := "Please fill in email and password."
  const MissingName := "Please enter your name."
  const AccountCreated := "Account created. Check your email to confirm (if enabled)."
  const SignedIn := "Signed in!"
  const AuthFailed := "Authentication failed."

  /** `params.get('next') || '/profile'`. */
  function NextPath(params: SearchParams.Params): string {
    OrElse(FieldOf(SearchParams.Get(params, "next")), DefaultNext)
  }

  /** `params.get('mode') === 'signup' ? 'signup' : 'signin'`. */
  function InitialMode(params: SearchParams.Params): Mode {
    if SearchParams.Get(params, "mode") == Some("signup") then SignUp else SignIn
  }

  /** The page to return to is the first `next` parameter when it is not
      empty, and `/profile` otherwise; it is never empty. */
  lemma NextPathSpec(params: SearchParams.Params)
    ensures NextPath(params) != ""
    ensures SearchParams.HasName(params, "next") && SearchParams.Get(params, "next").value != "" ==>
              NextPath(params) == SearchParams.Get(params, "next").value
    ensures !SearchParams.HasName(params, "next") || SearchParams.Get(params, "next") == Some("") ==>
              NextPath(params) == DefaultNext
  {
  }

  /** A visitor the guard sends here comes back to the page they asked
      for, and in the mode the original query asked for. */
  lemma GuardRedirectReturns(url: Middleware.Url, signedIn: bool)
    requires Middleware.Decide(url, signedIn).Redirect?
    ensures NextPath(Middleware.Decide(url, signedIn).location.search) == url.pathname
    ensures InitialMode(Middleware.Decide(url, signedIn).location.search) == InitialMode(url.search)
  {
    Middleware.RedirectCarriesNext(url, signedIn);
    assert |url.pathname| >= 5;
  }

  /** The effect run on mount: with a session, `router.replace(nextPath)`. */
  function OnMountNavigation(hasSession: bool, nextPath: string): Option<string> {
    if hasSession then Some(nextPath) else None
  }

  /** A visitor the guard sent here who now has a session is sent on mount
      straight back to the page they asked for, and the guard lets them
      through there; without a session the page stays. */
  lemma MountReturnsToPage(url: Middleware.Url)
    requires Middleware.Decide(url, false).Redirect?
    ensures var next := NextPath(Middleware.Decide(url, false).location.search);
            && OnMountNavigation(true, next) == Some(url.pathname)
            && OnMountNavigation(false, next) == None
    ensures Middleware.Decide(url, true).PassThrough?
  {
    GuardRedirectReturns(url, false);
  }

  /** The call made to the auth service. */
  datatype AuthCall =
    | SignUpCall(email: string, password: string, name: string, redirectTo: string)
    | SignInCall(email: string, password: string)

  /** The auth service's answer: no error, or an error with its message. */
  datatype AuthOutcome = AuthOk | AuthError(message: string)

  datatype Notice = Success(text: string) | Failure(text: string)

  datatype FormState = FormState(mode: Mode, loading: bool, name: string, email: string,
                                 password: string, nextPath: string)

  /** The new state, the call made, the toast, and the navigations, in order. */
  datatype Submit = Submit(state: FormState, call: Option<AuthCall>, notice: Notice, navigation: seq<Nav>)

  /** `onSubmit` from state `s`. */
  function SubmitStep(s: FormState, origin: string, outcome: AuthOutcome): Submit {
    if s.email == "" || s.password == "" then
      Submit(s, None, Failure(MissingCredentials), [])
    else if s.mode == SignUp && Trim(s.name) == "" then
      Submit(s, None, Failure(MissingName), [])
    else
      var call := if s.mode == SignUp then SignUpCall(s.email, s.password, Trim(s.name), origin + ConfirmPath)
                  else SignInCall(s.email, s.password);
      match outcome
      case AuthError(message) =>
        Submit(s.(loading := false), Some(call), Failure(if message != "" then message else AuthFailed), [])
      case AuthOk =>
        if s.mode == SignUp then
          Submit(s.(loading := false), Some(call), Success(AccountCreated), [Replace(AfterSignUp)])
        else
          Submit(s.(loading := false), Some(call), Success(SignedIn), [Replace(s.nextPath), Refresh])
  }

  /** An empty email or password is refused before any call, without
      trimming them; then, in sign-up mode only, a name that trims to empty
      is refused. Nothing else is refused. */
  lemma SubmitChecks(s: FormState, origin: string, outcome: AuthOutcome)
    ensures s.email == "" || s.password == "" ==>
              SubmitStep(s, origin, outcome) == Submit(s, None, Failure(MissingCredentials), [])
    ensures s.email != "" && s.password != "" ==>
              (SubmitStep(s, origin, outcome).call.None? <==> s.mode == SignUp && Trim(s.name) == "")
    ensures SubmitStep(s, origin, outcome).call.None? ==>
              SubmitStep(s, origin, outcome).state == s && SubmitStep(s, origin, outcome).navigation == []
  {
  }

  /** The call carries the email and password as typed; sign-up adds the
      trimmed name and the confirmation link on the page's origin. */
  lemma CallCarriesForm(s: FormState, origin: string, outcome: AuthOutcome)
    requires SubmitStep(s, origin, outcome).call.Some?
    ensures var c := SubmitStep(s, origin, outcome).call.value;
            && c.email == s.email && c.password == s.password
            && (c.SignUpCall? <==> s.mode == SignUp)
            && (c.SignUpCall? ==> c.name == Trim(s.name) && c.redirectTo == origin + ConfirmPath)
  {
  }

  /** After a call, `loading` is false. Sign-up goes to `/sent` whatever
      page was asked for; sign-in goes to that page and refreshes; a failed
      call goes nowhere and shows the service's message or `Authentication
      failed.` */
  lemma SubmitNavigation(s: FormState, origin: string, outcome: AuthOutcome)
    requires SubmitStep(s, origin, outcome).call.Some?
    ensures var r := SubmitStep(s, origin, outcome);
            && r.state == s.(loading := false)
            && (outcome.AuthOk? && s.mode == SignUp ==> r.navigation == [Replace(AfterSignUp)])
            && (outcome.AuthOk? && s.mode == SignIn ==> r.navigation == [Replace(s.nextPath), Refresh])
            && (outcome.AuthError? ==> r.navigation == [] && r.notice.Failure? && r.notice.text != "")
  {
  }

  /** The component's state and its handlers. */
  class AuthForm {
    var mode: Mode
    var loading: bool
    var name: string
    var email: string
    var password: string
    var nextPath: string

    function State(): FormState
      reads this
    {
      FormState(mode, loading, name, email, password, nextPath)
    }

    /** The first render, with the page's query. */
    constructor(params: SearchParams.Params)
      ensures State() == FormState(InitialMode(params), false, "", "", "", NextPath(params))
    {
      mode := InitialMode(params);
      loading := false;
      name, email, password := "", "", "";
      nextPath := NextPath(params);
    }

    /** The two mode buttons. */
    method SetMode(m: Mode)
      modifies this
      ensures State() == old(State()).(mode := m)
    {
      mode := m;
    }

    /** `onSubmit`. */
    method OnSubmit(origin: string, outcome: AuthOutcome)
      returns (call: Option<AuthCall>, notice: Notice, navigation: seq<Nav>)
      modifies this
      ensures Submit(State(), call, notice, navigation) == SubmitStep(old(State()), origin, outcome)
    {
      if email == "" || password == "" {
        return None, Failure(MissingCredentials), [];
      }
      if mode == SignUp && Trim(name) == "" {
        return None, Failure(MissingName), [];
      }
      loading := true;
      if mode == SignUp {
        call := Some(SignUpCall(email, password, Trim(name), origin + ConfirmPath));
      } else {
        call := Some(SignInCall(email, password));
      }
      match outcome {
        case AuthError(message) =>
          notice := Failure(if message != "" then message else AuthFailed);
          navigation := [];
        case AuthOk =>
          if mode == SignUp {
            notice := Success(AccountCreated);
            navigation := [Replace(AfterSignUp)];
          } else {
            notice := Success(SignedIn);
            navigation := [Replace(nextPath), Refresh];
          }
      }
      loading := false;
    }
  }
}
