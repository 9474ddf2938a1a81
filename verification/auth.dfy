/** The bearer-token gate in front of the container and image control routes
    (backend/internal/middleware/auth.go). */
module Auth {
  import opened Primitives

  datatype Response =
    | Next                                           // the request continues down the chain
    | Abort(status: int, success: bool, error: string)

  const BearerPrefix: string := "Bearer "

  /** The token the header carries: surrounding white space trimmed, then
      one leading `"Bearer "` removed if present. */
  function ExtractToken(header: string): (token: string)
    ensures HasPrefix(TrimSpace(header), BearerPrefix) ==> BearerPrefix + token == TrimSpace(header)
    ensures !HasPrefix(TrimSpace(header), BearerPrefix) ==> token == TrimSpace(header)
  {
    TrimPrefix(TrimSpace(header), BearerPrefix)
  }

  /** `AuthMiddleware` for one request carrying `header` as its
      Authorization value (empty when absent). */
  function AuthMiddleware(authEnabled: bool, authToken: string, header: string): (r: Response)
    ensures !authEnabled ==> r == Next
    ensures authEnabled && header == "" ==> r == Abort(401, false, "Authorization header required")
    ensures authEnabled && header != "" ==> (r == Next <==> ExtractToken(header) == authToken)
    ensures authEnabled && header != "" && ExtractToken(header) != authToken ==> r == Abort(401, false, "Invalid token")
  {
    if !authEnabled then Next
    else if header == "" then Abort(401, false, "Authorization header required")
    else if ExtractToken(header) != authToken then Abort(401, false, "Invalid token")
    else Next
  }

  /** A token without surrounding white space that does not itself start
      with `"Bearer "` is accepted bare. */
  lemma BareTokenAccepted(token: string)
    requires |token| > 0 && !IsSpace(token[0]) && !IsSpace(token[|token| - 1])
    requires !HasPrefix(token, BearerPrefix)
    ensures AuthMiddleware(true, token, token) == Next
  {
    TrimSpaceNoop(token);
  }

  /** A header that trims to `"Bearer " + token` carries `token`. */
  lemma BearerHeaderCarries(h: string, token: string)
    requires TrimSpace(h) == BearerPrefix + token
    ensures ExtractToken(h) == token
  {
    var bt := BearerPrefix + token;
    assert bt[..|BearerPrefix|] == BearerPrefix;
    assert bt[|BearerPrefix|..] == token;
  }

  /** A token without surrounding white space is accepted after `"Bearer "`,
      with or without white space around the whole header. */
  lemma BearerTokenAccepted(token: string, pad: string)
    requires |token| > 0 && !IsSpace(token[|token| - 1])
    requires forall i :: 0 <= i < |pad| ==> IsSpace(pad[i])
    ensures AuthMiddleware(true, token, BearerPrefix + token) == Next
    ensures AuthMiddleware(true, token, pad + BearerPrefix + token + pad) == Next
  {
    var bt := BearerPrefix + token;
    assert bt[0] == 'B' && bt[|bt| - 1] == token[|token| - 1];
    TrimSpaceNoop(bt);
    BearerHeaderCarries(bt, token);
    var h := pad + BearerPrefix + token + pad;
    assert h == pad + bt + pad;
    TrimSpacePadded(pad, bt, pad);
    BearerHeaderCarries(h, token);
  }

  /** With auth enabled but no token configured, a header of nothing but
      white space trims to the empty token and is let through. The HTTP
      server already strips ASCII spaces and tabs around header values, so
      the header that shows this carries a no-break space (U+00A0), which
      only the middleware's trimming removes. */
  lemma BlankHeaderMatchesEmptyToken()
    ensures AuthMiddleware(true, "", "\U{00A0}") == Next
    ensures AuthMiddleware(true, "", "") == Abort(401, false, "Authorization header required")
  {
    TrimSpaceAllSpace("\U{00A0}");
  }

  /** Only one prefix is removed, and the prefix is case-sensitive. */
  lemma PrefixStrippedOnce(token: string)
    requires |token| > 0 && !IsSpace(token[|token| - 1])
    requires !HasPrefix(token, BearerPrefix)
    ensures ExtractToken(BearerPrefix + BearerPrefix + token) == BearerPrefix + token
    ensures ExtractToken("bearer " + token) == "bearer " + token
  {
    var h := BearerPrefix + BearerPrefix + token;
    assert h[|h| - 1] == token[|token| - 1];
    TrimSpaceNoop(h);
    assert h[..|BearerPrefix|] == BearerPrefix;
    assert h[|BearerPrefix|..] == BearerPrefix + token;
    var l := "bearer " + token;
    assert l[|l| - 1] == token[|token| - 1];
    TrimSpaceNoop(l);
    assert l[0] != BearerPrefix[0];
  }
}
