/** The admin login form's submit handler: the only writer of the stored token. */
module AdminLogin {
  import opened Common
  import opened Session
  import AdminDashboard
  import Records

  /** The login call's outcome: the token from the response body, or a rejection
      carrying the server's `message` when the response had one. */
  datatype LoginReply = Token(token: string) | Rejected(message: Option<string>)

  /** A toast shown to the admin. */
  datatype Notice = Success(text: string) | Error(text: string)

  datatype LoginResult = LoginResult(browser: Browser, notice: Notice)

  const InvalidCredentials: string := "Invalid credentials"

  /** The failure toast: the server's message when it is truthy, else the default. */
  function FailureText(message: Option<string>): (r: string)
    ensures message.Some? && Truthy(message.value) ==> r == message.value
    ensures message.None? || !Truthy(message.value) ==> r == InvalidCredentials
    ensures Truthy(r)
  {
    match message
    case Some(m) => if Truthy(m) then m else InvalidCredentials
    case None => InvalidCredentials
  }

  /** `handleLogin`: on success store exactly the returned token and go to the
      dashboard; on failure write nothing, stay on the page and show an error. */
  function HandleLogin(b: Browser, reply: LoginReply): (r: LoginResult)
    ensures reply.Token? ==> r.browser.token == Some(reply.token) && r.browser.route == DashboardPage
    ensures reply.Token? ==> r.notice.Success?
    ensures reply.Rejected? ==> r.browser == b
    ensures reply.Rejected? ==> r.notice == Error(FailureText(reply.message))
    ensures r.browser.route == DashboardPage && b.route != DashboardPage ==> reply.Token?
    ensures r.browser.token != b.token ==> reply.Token?
  {
    match reply
    case Token(t) => LoginResult(Browser(Some(t), DashboardPage), Success("Logged in successfully"))
    case Rejected(m) => LoginResult(b, Error(FailureText(m)))
  }

  /** A login opens the dashboard's data load exactly when the returned token is
      truthy: an empty token lands on the dashboard, which sends the admin back. */
  lemma LoginThenLoad(b: Browser, t: string, reply: Reply<(seq<Records.Testimonial>, seq<Records.Blog>)>)
    ensures var l := AdminDashboard.FetchData(HandleLogin(b, Token(t)).browser, reply);
      (l.requested <==> Truthy(t)) && l.browser.token == Some(t)
  {
  }
}
