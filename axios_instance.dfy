/** client/src/config/axiosInstance.tsx: the request interceptor that attaches the bearer token. */
module Interceptor {
  import opened Common
  import opened Cookies

  const AuthorizationHeader := "Authorization"

  /** The header value the interceptor writes. */
  function Bearer(token: string): string {
    "Bearer " + token
  }

  /**
   * The headers after interception: `Authorization: Bearer <token>` when the token cookie is
   * non-empty, otherwise exactly the headers given. No other header is touched.
   */
  function WithAuthorization(headers: map<string, string>, token: Option<string>): (r: map<string, string>)
    ensures AuthorizationHeader in r <==> AuthorizationHeader in headers || Truthy(token)
    ensures Truthy(token) ==> r[AuthorizationHeader] == Bearer(token.value)
    ensures !Truthy(token) ==> r == headers
    ensures forall name :: name != AuthorizationHeader ==> (name in r <==> name in headers)
    ensures forall name :: name != AuthorizationHeader && name in headers ==> r[name] == headers[name]
  {
    if Truthy(token) then headers[AuthorizationHeader := Bearer(token.value)] else headers
  }

  /** An outgoing request's configuration, which the interceptor edits in place. */
  class RequestConfig {
    var url: string
    var verb: string  // the HTTP method
    var headers: map<string, string>
    var data: Option<string>

    constructor (url: string, verb: string, headers: map<string, string>, data: Option<string>)
      ensures this.url == url && this.verb == verb && this.headers == headers && this.data == data
    {
      this.url := url;
      this.verb := verb;
      this.headers := headers;
      this.data := data;
    }
  }

  /** The fulfilled-side interceptor: reads the cookie, sets the header in place, returns the same config. */
  method Intercept(config: RequestConfig, cookies: CookieJar) returns (r: RequestConfig)
    modifies config
    ensures r == config
    ensures config.headers == WithAuthorization(old(config.headers), Get(cookies.jar, AuthCookie))
    ensures config.url == old(config.url) && config.verb == old(config.verb) && config.data == old(config.data)
  {
    var token := Get(cookies.jar, AuthCookie);
    if Truthy(token) {
      config.headers := config.headers[AuthorizationHeader := Bearer(token.value)];
    }
    r := config;
  }
}
