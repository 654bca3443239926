/** The browser cookie jar as js-cookie exposes it: named string values, read and overwritten in place. */
module Cookies {
  import opened Common

  /** The cookie the client keeps its access token in. */
  const AuthCookie := "authToken"

  /** `Cookies.get(name)` on a jar's contents: the value, or undefined. */
  function Get(jar: map<string, string>, name: string): (v: Option<string>)
    ensures v.Some? <==> name in jar
    ensures v.Some? ==> v.value == jar[name]
  {
    if name in jar then Some(jar[name]) else None
  }

  class CookieJar {
    var jar: map<string, string>

    constructor (jar: map<string, string>)
      ensures this.jar == jar
    {
      this.jar := jar;
    }

    /** `Cookies.set(name, value)`. */
    method Set(name: string, value: string)
      modifies this
      ensures jar == old(jar)[name := value]
    {
      jar := jar[name := value];
    }

    /** `Cookies.remove(name)`. */
    method Remove(name: string)
      modifies this
      ensures jar == old(jar) - {name}
    {
      jar := jar - {name};
    }
  }
}
