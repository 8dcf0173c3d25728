/** The browser state the admin pages share: the `adminToken` entry of
    `localStorage` and the current route. */
module Session {
  import opened Common

  datatype Route = LoginPage | DashboardPage | OtherPage

  datatype Browser = Browser(token: Option<string>, route: Route)

  /** `localStorage.getItem('adminToken')` is truthy. */
  predicate HasSession(b: Browser) {
    b.token.Some? && Truthy(b.token.value)
  }
}
