/**
 * The bearer header written by the client's interceptor (client/src/config/axiosInstance.tsx)
 * and read by the server's token middleware (server/src/middleware/validateTokenHandler.ts).
 * Node presents header names in lower case, so `Authorization` arrives as `authorization`.
 */
module BearerRoundTrip {
  import opened Common
  import opened Interceptor
  import opened TokenCheck
  import opened Express

  /** For a token without spaces, the middleware extracts exactly the token the interceptor wrapped. */
  lemma ExtractsWrappedToken(t: string)
    requires ' ' !in t
    ensures StartsWith(Bearer(t), "Bearer")
    ensures SecondField(Bearer(t)) == Some(t)
  {
    assert Bearer(t) == "Bearer" + [' '] + t;
    SplitAfterWord("Bearer", ' ', t);
    SplitWithoutSeparator(t, ' ');
  }

  /**
   * End to end: a request carrying only the interceptor's header, with a non-empty space-free token
   * the verifier accepts, passes the middleware with `req.user` set and one bare `next()`.
   */
  lemma InterceptedRequestPasses(t: string, verify: Option<string> -> Option<Payload>)
    requires t != "" && ' ' !in t
    requires verify(Some(t)).Some?
    ensures Validate(map["authorization" := Text(Bearer(t))], verify)
      == Verdict(None, Assigned(verify(Some(t)).value.user), [NextOk])
  {
    ExtractsWrappedToken(t);
    var headers := map["authorization" := Text(Bearer(t))];
    assert Lookup(headers, "x-access-token") == None;
  }
}
