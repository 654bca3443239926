/**
 * server/src/middleware/validateTokenHandler.ts: pick the auth header, check the Bearer prefix,
 * take the token as the second space-separated field, verify it, and answer 401 or pass on.
 * JWT verification is foreign and is a parameter: the payload, or nothing when it fails.
 */
module TokenCheck {
  import opened Common
  import opened Express

  /** An incoming header value: Node gives a string, or an array for repeated headers. */
  datatype HeaderValue = Text(text: string) | List(items: seq<string>)

  /** The user a token's payload carries, and the payload itself (its `user` may be missing). */
  datatype AuthUser = AuthUser(id: string, email: string)
  datatype Payload = Payload(user: Option<AuthUser>)

  /** `req.user` after the middleware: never assigned, or assigned the payload's user. */
  datatype Assignment = Untouched | Assigned(user: Option<AuthUser>)

  const Unauthorized := "Unauthorized User"

  /** JavaScript truthiness of a header: a non-empty string, or any array. */
  predicate HeaderTruthy(h: Option<HeaderValue>) {
    h.Some? && (h.value.List? || h.value.text != "")
  }

  function Lookup(headers: map<string, HeaderValue>, name: string): Option<HeaderValue> {
    if name in headers then Some(headers[name]) else None
  }

  /** `x-access-token || authorization`: the first when it is truthy, otherwise the second as it is. */
  function SelectAuthHeader(headers: map<string, HeaderValue>): (h: Option<HeaderValue>)
    ensures HeaderTruthy(Lookup(headers, "x-access-token")) ==> h == Lookup(headers, "x-access-token")
    ensures !HeaderTruthy(Lookup(headers, "x-access-token")) ==> h == Lookup(headers, "authorization")
  {
    var x := Lookup(headers, "x-access-token");
    if HeaderTruthy(x) then x else Lookup(headers, "authorization")
  }

  predicate StartsWith(s: string, prefix: string) {
    |prefix| <= |s| && s[..|prefix|] == prefix
  }

  /** `String.prototype.split` on one separator character: every field between separators, at least one. */
  function Split(s: string, sep: char): (parts: seq<string>)
    ensures |parts| >= 1
  {
    if |s| == 0 then [""]
    else
      var rest := Split(s[1..], sep);
      if s[0] == sep then [""] + rest else [[s[0]] + rest[0]] + rest[1..]
  }

  /** A string without the separator is one field. */
  lemma {:induction false} SplitWithoutSeparator(s: string, sep: char)
    requires sep !in s
    ensures Split(s, sep) == [s]
  {
    if |s| > 0 {
      assert s[0] != sep;
      SplitWithoutSeparator(s[1..], sep);
      assert [s[0]] + s[1..] == s;
    }
  }

  /** A separator-free word, the separator, then the rest: the word is the first field. */
  lemma {:induction false} SplitAfterWord(word: string, sep: char, rest: string)
    requires sep !in word
    ensures Split(word + [sep] + rest, sep) == [word] + Split(rest, sep)
  {
    var s := word + [sep] + rest;
    if |word| == 0 {
      assert s == [sep] + rest;
      assert s[1..] == rest;
    } else {
      assert s[1..] == word[1..] + [sep] + rest;
      SplitAfterWord(word[1..], sep, rest);
      assert [word[0]] + word[1..] == word;
    }
  }

  /** `split(" ")[1]`: the second field, or undefined when there is none. */
  function SecondField(s: string): (t: Option<string>)
    ensures t.Some? <==> |Split(s, ' ')| >= 2
    ensures t.Some? ==> t.value == Split(s, ' ')[1]
  {
    var parts := Split(s, ' ');
    if |parts| >= 2 then Some(parts[1]) else None
  }

  /** What the middleware does: the status it sets (if any), `req.user`, and its `next` calls in order. */
  datatype Verdict = Verdict(status: Option<int>, user: Assignment, calls: seq<NextCall>)

  /** The header the middleware accepts for verification: a string starting with "Bearer". */
  predicate BearerShaped(h: Option<HeaderValue>) {
    h.Some? && h.value.Text? && h.value.text != "" && StartsWith(h.value.text, "Bearer")
  }

  /**
   * `validateToken`. The verifier reports synchronously; an error thrown from its callback
   * reaches the handler's `catch`, which forwards it to `next`.
   */
  function Validate(headers: map<string, HeaderValue>, verify: Option<string> -> Option<Payload>): (v: Verdict)
    ensures v.status.Some? ==> v.status.value == 401
    ensures |v.calls| >= 1
  {
    var h := SelectAuthHeader(headers);
    if BearerShaped(h) then
      var token := SecondField(h.value.text);
      match verify(token)
      case None => Verdict(Some(401), Untouched, [NextError(Unauthorized)])
      case Some(p) =>
        if Truthy(token) then Verdict(None, Assigned(p.user), [NextOk])
        else Verdict(Some(401), Assigned(p.user), [NextOk, NextError(Unauthorized)])
    else Verdict(Some(401), Untouched, [NextError(Unauthorized)])
  }

  /** A missing, non-string, empty or non-Bearer header is answered 401 and forwarded as an error, `req.user` unset. */
  lemma RejectsWithoutBearer(headers: map<string, HeaderValue>, verify: Option<string> -> Option<Payload>)
    requires !BearerShaped(SelectAuthHeader(headers))
    ensures Validate(headers, verify) == Verdict(Some(401), Untouched, [NextError(Unauthorized)])
  {
  }

  /** A token the verifier rejects is answered 401 and forwarded as an error, `req.user` unset. */
  lemma RejectsUnverified(headers: map<string, HeaderValue>, verify: Option<string> -> Option<Payload>)
    requires BearerShaped(SelectAuthHeader(headers))
    requires verify(SecondField(SelectAuthHeader(headers).value.text)).None?
    ensures Validate(headers, verify) == Verdict(Some(401), Untouched, [NextError(Unauthorized)])
  {
  }

  /** A non-empty token the verifier accepts sets `req.user` to the payload's user and calls `next()` once. */
  lemma AcceptsVerified(headers: map<string, HeaderValue>, verify: Option<string> -> Option<Payload>)
    requires BearerShaped(SelectAuthHeader(headers))
    requires Truthy(SecondField(SelectAuthHeader(headers).value.text))
    requires verify(SecondField(SelectAuthHeader(headers).value.text)).Some?
    ensures var p := verify(SecondField(SelectAuthHeader(headers).value.text)).value;
      Validate(headers, verify) == Verdict(None, Assigned(p.user), [NextOk])
  {
  }

  /** The request as the middleware sees it: its headers, and the `user` it may assign. */
  class AuthRequest {
    const headers: map<string, HeaderValue>
    var user: Assignment

    constructor (headers: map<string, HeaderValue>)
      ensures this.headers == headers && user == Untouched
    {
      this.headers := headers;
      user := Untouched;
    }
  }

  /** The middleware run on live objects: it sets `res.status` and `req.user` and returns its `next` calls. */
  method ValidateToken(req: AuthRequest, res: ServerResponse, verify: Option<string> -> Option<Payload>)
    returns (calls: seq<NextCall>)
    modifies req, res
    ensures var v := Validate(req.headers, verify);
      && calls == v.calls
      && res.statusCode == (if v.status.Some? then v.status.value else old(res.statusCode))
      && res.body == old(res.body)
      && req.user == (if v.user.Assigned? then v.user else old(req.user))
  {
    var h := SelectAuthHeader(req.headers);
    if BearerShaped(h) {
      var token := SecondField(h.value.text);
      var decoded := verify(token);
      if decoded.None? {
        res.statusCode := 401;
        calls := [NextError(Unauthorized)];
        return;
      }
      req.user := Assigned(decoded.value.user);
      calls := [NextOk];
      if !Truthy(token) {
        res.statusCode := 401;
        calls := calls + [NextError(Unauthorized)];
      }
    } else {
      res.statusCode := 401;
      calls := [NextError(Unauthorized)];
    }
  }
}
