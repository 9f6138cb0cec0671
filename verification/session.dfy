/** The login state of app.py: one module-level `current_user`
    dictionary that `login` fills in and `logout` clears, read by the
    `login_required` guard. Looking the user up by e-mail and checking the
    password happen in the database layer; here their outcome is the
    `verified` parameter, the user found whose password matched. */
module Session {
  import opened Wrappers

  /** The attributes of the user row that the session copies. */
  datatype User = User(id: int, fullName: string)

  datatype Page = HomePage | LoginPage | DashboardPage

  datatype Flash = Welcome(name: string) | InvalidCredentials | PleaseLogin | LoggedOut

  /** A redirect or a rendered template, with the message flashed for it. */
  datatype Response = Redirect(to: Page, flash: Option<Flash>) | Render(page: Page, flash: Option<Flash>)

  /** What a guarded route produces: the redirect to the login page, or
      the wrapped handler's own response. */
  datatype Guarded<R> = Refused(redirect: Response) | Handled(response: R)

  /** The `current_user` dictionary (app.py:141). */
  class CurrentUser {
    var name: Option<string>
    var id: Option<int>
    var isAuthenticated: bool
    var details: Option<User>

    /** Either nobody is logged in and every entry is empty, or the flag
        is set and name and id are those of the stored user. */
    ghost predicate Valid()
      reads this
    {
      && (isAuthenticated <==> details.Some?)
      && (details.None? ==> name.None? && id.None?)
      && (details.Some? ==> name == Some(details.value.fullName) && id == Some(details.value.id))
    }

    /** `{'name': None, 'id': None, 'is_authenticated': False, 'details': None}` */
    constructor ()
      ensures Valid()
      ensures name.None? && id.None? && !isAuthenticated && details.None?
    {
      name, id, isAuthenticated, details := None, None, false, None;
    }

    /** The `login` route (app.py:277-306). Already logged in: straight to
        the dashboard. A POST with verified credentials stores the user and
        goes home; any other request shows the login page again, a failed
        POST with an error message. */
    method Login(isPost: bool, verified: Option<User>) returns (resp: Response)
      requires Valid()
      modifies this
      ensures Valid()
      ensures old(isAuthenticated) ==> resp == Redirect(DashboardPage, None) && unchanged(this)
      ensures !old(isAuthenticated) && isPost && verified.Some? ==>
                && resp == Redirect(HomePage, Some(Welcome(verified.value.fullName)))
                && isAuthenticated && details == verified
                && name == Some(verified.value.fullName) && id == Some(verified.value.id)
      ensures !old(isAuthenticated) && !(isPost && verified.Some?) ==>
                && resp == Render(LoginPage, if isPost then Some(InvalidCredentials) else None)
                && unchanged(this)
    {
      if isAuthenticated {
        return Redirect(DashboardPage, None);
      }
      if isPost {
        if verified.Some? {
          var user := verified.value;
          name := Some(user.fullName);
          id := Some(user.id);
          isAuthenticated := true;
          details := Some(user);
          return Redirect(HomePage, Some(Welcome(user.fullName)));
        }
        return Render(LoginPage, Some(InvalidCredentials));
      }
      resp := Render(LoginPage, None);
    }

    /** The `logout` route (app.py:373-382), which is not guarded: every
        entry goes back to its initial value. */
    method Logout() returns (resp: Response)
      requires Valid()
      modifies this
      ensures Valid()
      ensures name.None? && id.None? && !isAuthenticated && details.None?
      ensures resp == Redirect(HomePage, Some(LoggedOut))
    {
      isAuthenticated := false;
      name := None;
      id := None;
      details := None;
      resp := Redirect(HomePage, Some(LoggedOut));
    }

    /** `login_required` (app.py:148-155): the wrapped handler's response
        goes through only when a user is logged in; otherwise the request
        is sent to the login page with a warning. */
    method Guard<R>(handler: R) returns (resp: Guarded<R>)
      requires Valid()
      ensures resp.Handled? <==> isAuthenticated
      ensures resp.Handled? <==> details.Some?
      ensures resp.Handled? ==> resp.response == handler
      ensures resp.Refused? ==> resp.redirect == Redirect(LoginPage, Some(PleaseLogin))
    {
      if !isAuthenticated {
        return Refused(Redirect(LoginPage, Some(PleaseLogin)));
      }
      resp := Handled(handler);
    }

    /** Whoever was logged in before, a guarded route is open after a login
        with verified credentials and closed after the next logout. */
    method GuardFollowsLogin<R>(user: User, handler: R) returns (during: Guarded<R>, after: Guarded<R>)
      requires Valid()
      modifies this
      ensures Valid()
      ensures during == Handled(handler)
      ensures after == Refused(Redirect(LoginPage, Some(PleaseLogin)))
      ensures !isAuthenticated && name.None? && id.None? && details.None?
    {
      var _ := Login(true, Some(user));
      during := Guard(handler);
      var _ := Logout();
      after := Guard(handler);
    }
  }
}
