/**
 * lib/auth.js: a fixed-credential login that issues a `session` cookie, a
 * logout that deletes it, and a check that reads it. The request's cookie
 * store (`cookies()` of next/headers) is a class holding a map from cookie
 * name to cookie.
 */
module Auth {
  import opened Wrappers

  /** A cookie with the attributes `login` sets. */
  datatype Cookie = Cookie(value: string, httpOnly: bool, secure: bool, maxAge: int, path: string)

  /** The object `login` returns. */
  datatype LoginResult = LoginResult(success: bool, message: Option<string>)

  const SessionName: string := "session"

  /** One day, in seconds (`60 * 60 * 24`). */
  const SessionMaxAge: int := 60 * 60 * 24

  /** The one accepted user name and password pair. */
  predicate ValidCredentials(username: string, password: string) {
    username == "admin" && password == "password123"
  }

  /** The cookie a successful login sets; `secure` when the environment is production. */
  function SessionCookie(production: bool): (c: Cookie)
    ensures c.value == "valid" && c.httpOnly && c.maxAge == 86400 && c.path == "/"
    ensures c.secure == production
  {
    Cookie("valid", true, production, SessionMaxAge, "/")
  }

  class CookieStore {
    var jar: map<string, Cookie>

    constructor (initial: map<string, Cookie>)
      ensures jar == initial
    {
      jar := initial;
    }

    /**
     * `isAuthenticated()`: `cookies().get("session")?.value === "valid"`; a
     * missing cookie reads as `undefined`, which is not "valid".
     */
    function IsAuthenticated(): (r: bool)
      reads this
      ensures r <==> SessionName in jar && jar[SessionName].value == "valid"
      ensures SessionName !in jar ==> !r
    {
      if SessionName in jar then jar[SessionName].value == "valid" else false
    }

    /** `login(username, password)`. */
    method Login(username: string, password: string, production: bool) returns (result: LoginResult)
      modifies this
      ensures result.success <==> ValidCredentials(username, password)
      ensures result.success ==>
                jar == old(jar)[SessionName := SessionCookie(production)] && result.message == None
      ensures !result.success ==>
                jar == old(jar) && result.message == Some("Invalid credentials")
      ensures result.success ==> IsAuthenticated()
    {
      if username == "admin" && password == "password123" {
        jar := jar[SessionName := SessionCookie(production)];
        result := LoginResult(true, None);
      } else {
        result := LoginResult(false, Some("Invalid credentials"));
      }
    }

    /** `logout()`: the session cookie is deleted, other cookies stay. */
    method Logout()
      modifies this
      ensures jar == old(jar) - {SessionName}
      ensures !IsAuthenticated()
    {
      jar := jar - {SessionName};
    }
  }

  /**
   * A login with the accepted credentials followed by a logout: `between` is
   * what `isAuthenticated` answers after the login, and it is true; after the
   * logout it answers false.
   */
  method LoginThenLogout(store: CookieStore, production: bool) returns (between: bool)
    modifies store
    ensures between && !store.IsAuthenticated()
  {
    var result := store.Login("admin", "password123", production);
    between := store.IsAuthenticated();
    store.Logout();
  }
}
