/**
 * The web framework's side of a request: parsed query and form fields, the
 * redirect targets the application emits, and the pages it renders.
 */
module Http {
  import opened Wrappers

  /**
   * A field of the parsed query string or form body. The extended parser may
   * produce a plain string, nothing at all, or a nested array/object value.
   */
  datatype Param = Absent | Text(text: string) | Structured

  /** JavaScript truthiness of a parsed field: a missing field and the empty string are falsy. */
  predicate Truthy(p: Param) {
    match p
    case Absent => false
    case Text(t) => t != ""
    case Structured => true
  }

  /** The four redirect targets the application uses. */
  datatype Location = Home | Login | LoginRequired | LoginFailed

  /** The path part of each target's URL. */
  function Path(l: Location): string {
    if l == Home then "/home" else "/login"
  }

  /** The query flag, as a key and its value, that a target's URL carries, if any. */
  function Flag(l: Location): Option<(string, string)> {
    match l
    case LoginRequired => Some(("error", "1"))
    case LoginFailed => Some(("failed", "1"))
    case _ => None
  }

  /** The URL written into the redirect: the path, then the flag as a one-field query string. */
  function Url(l: Location): string {
    Path(l) + match Flag(l) case Some(kv) => "?" + kv.0 + "=" + kv.1 case None => ""
  }

  /** The parsed query field `key` of a target's URL. */
  function QueryField(l: Location, key: string): Param {
    match Flag(l)
    case Some(kv) => if kv.0 == key then Text(kv.1) else Absent
    case None => Absent
  }

  /**
   * What the rendered pages show beyond static markup: which of the two
   * messages the login form carries, and whose name the home page greets.
   */
  datatype Page =
    | LoginForm(loginRequired: bool, loginFailed: bool)
    | Welcome(username: string)

  datatype Response = Redirect(to: Location) | Render(page: Page)

  /** Distinct targets are distinct URLs, so a client can tell every outcome apart. */
  lemma UrlInjective(a: Location, b: Location)
    ensures Url(a) == Url(b) <==> a == b
  {
  }

  /** The targets' URLs are the four literal strings the routes redirect to. */
  lemma UrlLiterals()
    ensures Url(Home) == "/home" && Url(Login) == "/login"
    ensures Url(LoginRequired) == "/login?error=1" && Url(LoginFailed) == "/login?failed=1"
  {
  }
}
