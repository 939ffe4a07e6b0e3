/**
 * The routes of the login application as transitions of one state machine.
 * The state is the session's `user` field; a request either leaves it alone,
 * stores a snapshot on login, or clears it on logout.
 */
module Server {
  import opened Wrappers
  import opened Http
  import opened Users

  /** What login copies into the session: the record's id and username, never its password. */
  datatype Snapshot = Snapshot(id: int, username: string)

  /** The session's `user` field: absent, or the snapshot taken at login. */
  type Session = Option<Snapshot>

  /** The routed requests, with the inputs each route reads. */
  datatype Request =
    | GetRoot
    | GetLogin(error: Param, failed: Param)
    | PostLogin(username: Param, password: Param)
    | GetHome
      /** `destroyFails` stands for the error the session store may report to the destroy callback. */
    | PostLogout(destroyFails: bool)

  /** The session after the request, and what is sent back. */
  datatype Outcome = Outcome(session: Session, response: Response)

  /** The login guard's decision: run the protected handler, or answer with a redirect instead. */
  datatype Guard = Next | Reject(to: Location)

  function SnapshotOf(u: UserRecord): Snapshot {
    Snapshot(u.id, u.username)
  }

  /** Whatever password a record holds, the snapshot login stores from it is the same. */
  lemma SnapshotIgnoresPassword(u: UserRecord, p: string)
    ensures SnapshotOf(u) == SnapshotOf(u.(password := p))
  {
  }

  /** The login guard in front of protected routes. */
  function RequireAuth(s: Session): (g: Guard)
    ensures g.Next? <==> s.Some?
    ensures g.Reject? ==> g.to == LoginRequired
  {
    if s.Some? then Next else Reject(LoginRequired)
  }

  /** `GET /`: sends a logged-in visitor home and anybody else to the login form. */
  function HandleRoot(s: Session): (o: Outcome)
    ensures o.session == s
    ensures o.response.Redirect?
    ensures o.response.to == Home <==> s.Some?
    ensures o.response.to == Login <==> s.None?
  {
    Outcome(s, Redirect(if s.Some? then Home else Login))
  }

  /** `GET /` and the login guard agree on who counts as logged in. */
  lemma RootAgreesWithGuard(s: Session)
    ensures HandleRoot(s).response == Redirect(Home) <==> RequireAuth(s).Next?
    ensures HandleRoot(s).response == Redirect(Login) <==> RequireAuth(s).Reject?
  {
  }

  /** `GET /login`: the form, with each message shown exactly when its query flag is truthy. */
  function HandleLoginForm(s: Session, error: Param, failed: Param): (o: Outcome)
    ensures o.session == s
    ensures o.response.Render? && o.response.page.LoginForm?
    ensures o.response.page.loginRequired <==> error.Structured? || (error.Text? && error.text != "")
    ensures o.response.page.loginFailed <==> failed.Structured? || (failed.Text? && failed.text != "")
  {
    Outcome(s, Render(LoginForm(Truthy(error), Truthy(failed))))
  }

  /**
   * `POST /login`: on a match, the session holds the snapshot of the first
   * matching seed record and the visitor is sent home; otherwise the session is
   * untouched and the visitor is sent back to the form with the failure flag.
   */
  function HandleLogin(s: Session, username: Param, password: Param): (o: Outcome)
    ensures o.response == Redirect(Home) <==> exists i :: 0 <= i < |Seed| && Matches(Seed[i], username, password)
    ensures o.response == Redirect(Home) || o.response == Redirect(LoginFailed)
    ensures o.response == Redirect(LoginFailed) ==> o.session == s
    ensures o.response == Redirect(Home) ==>
      exists i :: 0 <= i < |Seed| && Matches(Seed[i], username, password)
        && o.session == Some(Snapshot(Seed[i].id, Seed[i].username))
        && forall j :: 0 <= j < i ==> !Matches(Seed[j], username, password)
  {
    match Find(Seed, username, password)
    case Some(u) => Outcome(Some(SnapshotOf(u)), Redirect(Home))
    case None => Outcome(s, Redirect(LoginFailed))
  }

  /** The page behind the guard; it reads the username out of the session, so it needs one. */
  function HomePage(s: Session): Outcome
    requires s.Some?
  {
    Outcome(s, Render(Welcome(s.value.username)))
  }

  /** `GET /home`: the guard, then the page. */
  function HandleHome(s: Session): (o: Outcome)
    ensures o.session == s
    ensures o.response.Render? <==> s.Some?
    ensures s.Some? ==> o.response == Render(Welcome(s.value.username))
    ensures s.None? ==> o.response == Redirect(LoginRequired)
  {
    match RequireAuth(s)
    case Next => HomePage(s)
    case Reject(to) => Outcome(s, Redirect(to))
  }

  /**
   * `POST /logout`: a successful destroy leaves no user and sends the visitor
   * to the form; when the store reports an error the session is not known to
   * be gone, the model keeps it, and the visitor is sent home.
   */
  function HandleLogout(s: Session, destroyFails: bool): (o: Outcome)
    ensures o.response.Redirect?
    ensures o.session.None? <==> !destroyFails || s.None?
    ensures o.response.to == Login <==> !destroyFails
    ensures o.response.to == Home <==> destroyFails
    ensures destroyFails ==> o.session == s
  {
    if destroyFails then Outcome(s, Redirect(Home)) else Outcome(None, Redirect(Login))
  }

  /** One request against the session. */
  function Step(s: Session, req: Request): (o: Outcome)
    ensures req.GetRoot? || req.GetLogin? || req.GetHome? ==> o.session == s
    ensures o.session != s ==> req.PostLogin? || (req.PostLogout? && !req.destroyFails)
    ensures o.response.Render? ==> req.GetLogin? || (req.GetHome? && s.Some?)
  {
    match req
    case GetRoot => HandleRoot(s)
    case GetLogin(error, failed) => HandleLoginForm(s, error, failed)
    case PostLogin(username, password) => HandleLogin(s, username, password)
    case GetHome => HandleHome(s)
    case PostLogout(destroyFails) => HandleLogout(s, destroyFails)
  }

  /** The request a browser issues when it follows a redirect: a GET of the target's path with its query fields. */
  function Follow(l: Location): (req: Request)
    ensures req.GetHome? <==> l == Home
    ensures req.GetLogin? <==> l != Home
    ensures req.GetLogin? ==> (Truthy(req.error) <==> l == LoginRequired)
    ensures req.GetLogin? ==> (Truthy(req.failed) <==> l == LoginFailed)
  {
    if Path(l) == "/home" then GetHome
    else GetLogin(QueryField(l, "error"), QueryField(l, "failed"))
  }

  /**
   * An unknown username and a known username with the wrong password (indeed
   * any two failing submissions) produce the very same outcome.
   */
  lemma FailedLoginsIndistinguishable(s: Session, n1: Param, p1: Param, n2: Param, p2: Param)
    requires forall i :: 0 <= i < |Seed| ==> !Matches(Seed[i], n1, p1)
    requires forall i :: 0 <= i < |Seed| ==> !Matches(Seed[i], n2, p2)
    ensures Step(s, PostLogin(n1, p1)) == Step(s, PostLogin(n2, p2)) == Outcome(s, Redirect(LoginFailed))
  {
  }

  /** The concrete pair of failures: `user1` with a wrong password, and a name not in the list. */
  lemma WrongPasswordLooksLikeUnknownUser(s: Session, password: string, stranger: string, anyPassword: string)
    requires password != "password1"
    requires forall i :: 0 <= i < |Seed| ==> Seed[i].username != stranger
    ensures Step(s, PostLogin(Text("user1"), Text(password)))
         == Step(s, PostLogin(Text(stranger), Text(anyPassword)))
  {
    FailedLoginsIndistinguishable(s, Text("user1"), Text(password), Text(stranger), Text(anyPassword));
  }

  /** Logging in with a seed record's own credentials stores exactly its snapshot. */
  lemma LoginWithSeedCredentials(s: Session, i: int)
    requires 0 <= i < |Seed|
    ensures Step(s, PostLogin(Text(Seed[i].username), Text(Seed[i].password)))
         == Outcome(Some(Snapshot(Seed[i].id, Seed[i].username)), Redirect(Home))
  {
    SeedUsernamesUnique();
    FindUnique(Seed, i, Text(Seed[i].username), Text(Seed[i].password));
  }

  /** Following the redirects of a failed login and of a guarded request shows the matching message only. */
  lemma RedirectsCarryTheirMessage(s: Session, n: Param, p: Param)
    requires forall i :: 0 <= i < |Seed| ==> !Matches(Seed[i], n, p)
    ensures var o := Step(s, PostLogin(n, p));
      Step(o.session, Follow(o.response.to)).response == Render(LoginForm(false, true))
    ensures s.None? ==>
      var o := Step(s, GetHome);
      Step(o.session, Follow(o.response.to)).response == Render(LoginForm(true, false))
  {
  }

  /** After a successful logout, `GET /home` is turned away to the login form with the login-required flag. */
  lemma LogoutThenHome(s: Session)
    ensures var o := Step(s, PostLogout(false));
      o.response == Redirect(Login) && Step(o.session, GetHome).response == Redirect(LoginRequired)
  {
  }
}
