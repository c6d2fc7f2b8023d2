/**
 * The two token middlewares. Both take the second space-separated field of
 * the `Authorization` header as the token; they differ only in the replies
 * they send when it is missing or does not verify. Token verification
 * (signature, secret, expiry) is the opaque `verify`, which yields the
 * decoded payload or nothing.
 */
module Auth {
  import opened Common
  import opened Text
  import opened ServerStore

  /** What a middleware decides: pass the decoded payload on as `req.user`, or reply itself. */
  datatype AuthResult = Granted(user: Payload) | Denied(status: int, message: string)

  /**
   * `authHeader && authHeader.split(" ")[1]`, and equally
   * `req.headers['authorization']?.split(' ')[1]`, as far as the following
   * `!token` test sees it: the text between the first and the second space,
   * when there is a first space and that text is non-empty.
   */
  function BearerToken(header: Option<string>): (t: Option<string>)
    ensures t.Some? <==> header.Some? && Contains(header.value, " ") && Before(After(header.value, " "), " ") != ""
    ensures t.Some? ==> t.value == Before(After(header.value, " "), " ")
    ensures t.Some? ==> t.value != "" && !Contains(t.value, " ")
  {
    match header
    case None => None
    case Some(h) =>
      var parts := Split(h, " ");
      SplitHead(h, " ");
      if |parts| >= 2 && parts[1] != "" then
        SplitPiecesAreSeparatorFree(h, " ", 1);
        Some(parts[1])
      else None
  }

  /** A request whose header is "Bearer <token>" with a space-free token presents exactly that token. */
  lemma BearerRoundTrip(scheme: string, token: string)
    requires !Contains(scheme, " ") && !Contains(token, " ") && token != ""
    ensures BearerToken(Some(scheme + " " + token)) == Some(token)
  {
    var h := scheme + " " + token;
    var i := |scheme|;
    assert OccursAt(h, " ", i);
    forall j | 0 <= j < i
      ensures !OccursAt(h, " ", j)
    {
      assert h[j..j + 1] == scheme[j..j + 1];
      assert !OccursAt(scheme, " ", j);
    }
    assert IndexOf(h, " ") == Some(i);
    assert After(h, " ") == token;
    assert Before(token, " ") == token;
  }

  /** `authenticateToken`: 401 without a token, 403 when it does not verify, the payload otherwise. */
  function AuthenticateToken(header: Option<string>, verify: string -> Option<Payload>): (r: AuthResult)
    ensures BearerToken(header).None? ==> r == Denied(401, "Access denied. No token provided.")
    ensures BearerToken(header).Some? && verify(BearerToken(header).value).None? ==> r == Denied(403, "Invalid token")
    ensures r.Granted? <==> BearerToken(header).Some? && verify(BearerToken(header).value).Some?
    ensures r.Granted? ==> r.user == verify(BearerToken(header).value).value
  {
    match BearerToken(header)
    case None => Denied(401, "Access denied. No token provided.")
    case Some(token) =>
      match verify(token)
      case None => Denied(403, "Invalid token")
      case Some(user) => Granted(user)
  }

  /**
   * `verifyToken`: 401 both without a token and when it does not verify.
   * It grants exactly the requests `authenticateToken` grants, with the same
   * payload; only a bad token's status differs.
   */
  function VerifyToken(header: Option<string>, verify: string -> Option<Payload>): (r: AuthResult)
    ensures BearerToken(header).None? ==> r == Denied(401, "No token provided")
    ensures BearerToken(header).Some? && verify(BearerToken(header).value).None? ==> r == Denied(401, "Invalid or expired token")
    ensures r.Granted? <==> AuthenticateToken(header, verify).Granted?
    ensures r.Granted? ==> r == AuthenticateToken(header, verify)
    ensures r.Denied? ==> r.status == 401
  {
    match BearerToken(header)
    case None => Denied(401, "No token provided")
    case Some(token) =>
      match verify(token)
      case None => Denied(401, "Invalid or expired token")
      case Some(user) => Granted(user)
  }

  /** The reply a middleware sends when it denies: `res.status(s).json({ message })`. */
  function DeniedReply(d: AuthResult): Outcome
    requires d.Denied?
  {
    Reply(d.status, Message(d.message))
  }
}
