/**
 * client/src/AuthContext.tsx: the provider keeps the access token in React state and in the
 * `authToken` cookie; `saveToken` and `clearToken` update both; `useAuth` throws without a provider.
 */
module Auth {
  import opened Common
  import opened Cookies

  /** The token as the state holds it, and the cookie jar beside it. */
  datatype AuthState = AuthState(token: Option<string>, jar: map<string, string>)

  /** State and cookie agree. */
  predicate InSync(s: AuthState) {
    s.token == Get(s.jar, AuthCookie)
  }

  /** The lazy initial state: the cookie when it is non-empty, otherwise null. */
  function InitialToken(jar: map<string, string>): (t: Option<string>)
    ensures t.Some? <==> AuthCookie in jar && jar[AuthCookie] != ""
    ensures t.Some? ==> t.value == jar[AuthCookie]
  {
    var saved := Get(jar, AuthCookie);
    if Truthy(saved) then saved else None
  }

  /** `saveToken(t)`: state and cookie both become `t`; other cookies are untouched. */
  function Save(s: AuthState, t: string): (r: AuthState)
    ensures InSync(r) && r.token == Some(t)
    ensures forall name :: name != AuthCookie ==> (name in r.jar <==> name in s.jar)
    ensures forall name :: name != AuthCookie && name in s.jar ==> r.jar[name] == s.jar[name]
  {
    AuthState(Some(t), s.jar[AuthCookie := t])
  }

  /** `clearToken()`: state null and the cookie removed; other cookies are untouched. */
  function Clear(s: AuthState): (r: AuthState)
    ensures InSync(r) && r.token == None && AuthCookie !in r.jar
    ensures forall name :: name != AuthCookie ==> (name in r.jar <==> name in s.jar)
    ensures forall name :: name != AuthCookie && name in s.jar ==> r.jar[name] == s.jar[name]
  {
    AuthState(None, s.jar - {AuthCookie})
  }

  /** The initial state agrees with the cookie except when the cookie holds the empty string. */
  lemma InitialInSyncUnlessEmpty(jar: map<string, string>)
    ensures InSync(AuthState(InitialToken(jar), jar)) <==> !(AuthCookie in jar && jar[AuthCookie] == "")
  {
  }

  /** Saving then clearing leaves no token anywhere, and whatever state it started from. */
  lemma SaveThenClear(s: AuthState, t: string)
    ensures Clear(Save(s, t)) == Clear(s)
  {
    assert Clear(Save(s, t)).jar == Clear(s).jar;
  }

  /** The provider: the `authToken` state and the jar it mirrors. */
  class AuthProvider {
    var authToken: Option<string>
    const cookies: CookieJar

    function State(): AuthState
      reads this, cookies
    {
      AuthState(authToken, cookies.jar)
    }

    constructor (cookies: CookieJar)
      ensures this.cookies == cookies && authToken == InitialToken(cookies.jar)
    {
      this.cookies := cookies;
      authToken := InitialToken(cookies.jar);
    }

    method SaveToken(t: string)
      modifies this, cookies
      ensures State() == Save(old(State()), t)
    {
      authToken := Some(t);
      cookies.Set(AuthCookie, t);
    }

    method ClearToken()
      modifies this, cookies
      ensures State() == Clear(old(State()))
    {
      authToken := None;
      cookies.Remove(AuthCookie);
    }
  }

  /** What `useContext` finds: no provider above the caller, or one. */
  datatype Context = NoProvider | Provided(provider: AuthProvider)

  /** The outcome of `useAuth`: the context value, or the error it throws. */
  datatype Hook = Value(provider: AuthProvider) | Thrown(message: string)

  const OutsideProvider := "useAuth must be used within a AuthProvider"

  /** `useAuth`: the provider when there is one; otherwise it throws. */
  function UseAuth(c: Context): (r: Hook)
    ensures r.Thrown? <==> c.NoProvider?
    ensures r.Thrown? ==> r.message == OutsideProvider
    ensures c.Provided? ==> r == Value(c.provider)
  {
    match c
    case NoProvider => Thrown(OutsideProvider)
    case Provided(p) => Value(p)
  }
}
