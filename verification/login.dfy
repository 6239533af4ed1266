/** The login screen (`LoginComponent`): the return-URL default, the
    "already logged in" redirect, and what one submission does to `loading`
    and `error`. */
module Login {
  import opened Wrappers
  import opened Http
  import opened Text
  import Auth

  const DashboardRoute: string := "/dashboard"
  const FallbackError: string := "Login failed. Please check your credentials."

  /** The component's fields the template shows. */
  datatype View = View(loading: bool, error: string, returnUrl: string)

  /** The result of construction: the view, and the route the constructor
      navigates to, if any. */
  datatype Created = Created(view: View, redirect: Option<string>)

  /** The result of a submit: the view, and whether a login request went out. */
  datatype Submitted = Submitted(view: View, requested: bool)

  /** The result of one subscriber callback: the view, and the route it
      navigates to, if any. */
  datatype Step = Step(view: View, navigate: Option<string>)

  /** The whole outcome of a submission's request: the view, the session, and
      the route navigated to, if any. */
  datatype Settled = Settled(view: View, session: Auth.Session, navigate: Option<string>)

  /** `queryParams['returnUrl'] || '/dashboard'`. */
  function ReturnUrl(param: Option<string>): (r: string)
    ensures r != ""
    ensures Truthy(param) ==> r == param.value
    ensures !Truthy(param) ==> r == DashboardRoute
  {
    if Truthy(param) then param.value else DashboardRoute
  }

  /** The constructor: a logged-in user is sent to the dashboard; the form
      starts idle and without an error. */
  function Create(session: Auth.Session, returnParam: Option<string>): (r: Created)
    ensures r.redirect == (if Auth.IsLoggedIn(session) then Some(DashboardRoute) else None)
    ensures !r.view.loading && r.view.error == ""
    ensures r.view.returnUrl == ReturnUrl(returnParam)
  {
    var redirect := if Auth.IsLoggedIn(session) then Some(DashboardRoute) else None;
    Created(View(false, "", ReturnUrl(returnParam)), redirect)
  }

  /** `onSubmit` up to issuing the request: the error is always cleared; an
      invalid form stops there, a valid one turns `loading` on and requests
      a login. */
  function Submit(v: View, formValid: bool): (r: Submitted)
    ensures r.view.error == "" && r.view.returnUrl == v.returnUrl
    ensures r.requested <==> formValid
    ensures r.view.loading == (formValid || v.loading)
  {
    var cleared := v.(error := "");
    if !formValid then Submitted(cleared, false)
    else Submitted(cleared.(loading := true), true)
  }

  /** The `next` callback: navigate to the return URL. */
  function OnNext(v: View): (r: Step)
    ensures r.view == v && r.navigate == Some(v.returnUrl)
  {
    Step(v, Some(v.returnUrl))
  }

  /** `err.error?.message || 'Login failed. …'`. */
  function ErrorText(message: Option<string>): (r: string)
    ensures r != ""
    ensures Truthy(message) ==> r == message.value
    ensures !Truthy(message) ==> r == FallbackError
  {
    if Truthy(message) then message.value else FallbackError
  }

  /** The `error` callback: show the server's message or the fallback, and
      stop loading. */
  function OnError(v: View, message: Option<string>): (r: Step)
    ensures r.view.error == ErrorText(message) && !r.view.loading
    ensures r.view.returnUrl == v.returnUrl && r.navigate == None
  {
    Step(v.(error := ErrorText(message), loading := false), None)
  }

  /** The `complete` callback: stop loading. */
  function OnComplete(v: View): (r: Step)
    ensures !r.view.loading && r.view.error == v.error && r.view.returnUrl == v.returnUrl
    ensures r.navigate == None
  {
    Step(v.(loading := false), None)
  }

  /** A login request settling, with the callbacks in the order the
      observable runs them: on success the service's `tap`, then `next`, then
      `complete`; on failure `error` alone. */
  function Settle(v: View, session: Auth.Session, reply: Reply<Auth.LoginResponse>, c: Auth.Codec): (r: Settled)
    ensures !r.view.loading && r.view.returnUrl == v.returnUrl
    ensures r.session == Auth.Login(session, reply, c)
    ensures reply.Ok? ==> r.navigate == Some(v.returnUrl) && r.view.error == v.error
    ensures reply.Err? ==> r.navigate == None && r.view.error == ErrorText(reply.message) && r.session == session
  {
    match reply
    case Ok(_) =>
      var next := OnNext(v);
      Settled(OnComplete(next.view).view, Auth.Login(session, reply, c), next.navigate)
    case Err(message) =>
      Settled(OnError(v, message).view, session, None)
  }

  /** A valid submission whose request succeeds with a token ends logged in,
      on the return URL, idle and without an error. */
  lemma SuccessfulSubmission(v: View, session: Auth.Session, response: Auth.LoginResponse, c: Auth.Codec)
    requires Truthy(response.token)
    ensures var s := Submit(v, true);
      var r := Settle(s.view, session, Ok(response), c);
      && s.requested && s.view.loading
      && Auth.IsLoggedIn(r.session)
      && Auth.CurrentUserValue(r.session) == Some(response.user)
      && r.navigate == Some(v.returnUrl)
      && !r.view.loading && r.view.error == ""
  {
  }

  /** The `next` callback does not look at the token: a successful response
      without one still navigates to the return URL, with the session
      unchanged. */
  lemma NavigatesWithoutToken(v: View, session: Auth.Session, response: Auth.LoginResponse, c: Auth.Codec)
    requires !Truthy(response.token)
    ensures var r := Settle(v, session, Ok(response), c);
      r.navigate == Some(v.returnUrl) && r.session == session
  {
  }

  /** Once a login with a token has gone through, opening the login screen
      sends the user on to the dashboard. */
  lemma LoggedInUserIsRedirected(s: Auth.Session, response: Auth.LoginResponse, c: Auth.Codec, returnParam: Option<string>)
    requires Truthy(response.token)
    ensures Create(Auth.Login(s, Ok(response), c), returnParam).redirect == Some(DashboardRoute)
  {
  }

  /** A screen opened with a return parameter, submitted with a valid form,
      whose request succeeds, ends on the route that parameter resolves to. */
  lemma SubmissionReturnsToRequestedRoute(s: Auth.Session, returnParam: Option<string>,
                                          response: Auth.LoginResponse, c: Auth.Codec)
    ensures Settle(Submit(Create(s, returnParam).view, true).view, s, Ok(response), c).navigate
            == Some(ReturnUrl(returnParam))
  {
  }
}
