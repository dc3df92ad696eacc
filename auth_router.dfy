/** `api/auth.php`: the `match (true)` that picks an auth handler. */
module AuthRouter {
  import opened Wrappers

  datatype Route = Login | Logout | Register | Me | NotFound

  /** Each handler has exactly one (method, action) pair; `action` defaults to the
      empty string. */
  function RouteOf(verb: string, action: Option<string>): (r: Route)
    ensures r == Login <==> verb == "POST" && action == Some("login")
    ensures r == Logout <==> verb == "POST" && action == Some("logout")
    ensures r == Register <==> verb == "POST" && action == Some("register")
    ensures r == Me <==> verb == "GET" && action == Some("me")
  {
    var act := action.GetOr("");
    if verb == "POST" && act == "login" then Login
    else if verb == "POST" && act == "logout" then Logout
    else if verb == "POST" && act == "register" then Register
    else if verb == "GET" && act == "me" then Me
    else NotFound
  }
}
