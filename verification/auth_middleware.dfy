/**
 * The authentication middleware: the bearer token taken from the
 * `Authorization` header, its verification (an oracle standing for the
 * identity provider), and the role gate in front of protected routes.
 */
module AuthMiddleware {
  import opened Wrappers

  /** The decoded identity token: the fields the services read, and the custom `role` claim. */
  datatype Claims = Claims(uid: string, email: Option<string>, emailVerified: bool, role: Option<string>)

  /** What a middleware does with the request: a 403 with an error body, or `next()` with `req.user`. */
  datatype Gate = Denied(status: nat, error: string) | Next(user: Claims)

  const Bearer: string := "Bearer "

  /** Whether `pat` occurs in `s` at position `i`. */
  predicate Occurs(s: string, pat: string, i: nat) {
    i + |pat| <= |s| && s[i..i + |pat|] == pat
  }

  /** No occurrence of `pat` starts in `[lo, hi)`. */
  predicate NoneIn(s: string, pat: string, lo: nat, hi: nat) {
    forall j :: lo <= j < hi ==> !Occurs(s, pat, j)
  }

  /** The first occurrence of `pat` at or after `from`: `indexOf(pat, from)`. */
  function IndexOf(s: string, pat: string, from: nat): (r: Option<nat>)
    requires |pat| > 0
    ensures r.Some? ==> from <= r.value && Occurs(s, pat, r.value) && NoneIn(s, pat, from, r.value)
    ensures r.None? ==> NoneIn(s, pat, from, |s| + 1)
    decreases |s| - from
  {
    if from + |pat| > |s| then None
    else if s[from..from + |pat|] == pat then Some(from)
    else IndexOf(s, pat, from + 1)
  }

  /**
   * Where `split("Bearer ")[1]` lies in the header: from just after the first
   * separator up to the second one, or to the end when there is none.
   */
  function TokenSpan(h: string): (r: Option<(nat, nat)>)
    ensures r.None? <==> NoneIn(h, Bearer, 0, |h| + 1)
    ensures r.Some? ==>
      var (a, b) := r.value;
      && |Bearer| <= a <= b <= |h|
      && Occurs(h, Bearer, a - |Bearer|) && NoneIn(h, Bearer, 0, a - |Bearer|)
      && NoneIn(h, Bearer, a, b) && (b == |h| || Occurs(h, Bearer, b))
  {
    match IndexOf(h, Bearer, 0)
    case None => None
    case Some(i) =>
      var a := i + |Bearer|;
      match IndexOf(h, Bearer, a)
      case None => Some((a, |h|))
      case Some(b) => Some((a, b))
  }

  /** `req.headers.authorization?.split("Bearer ")[1]`, with `undefined` as `None`. */
  function BearerToken(header: Option<string>): (r: Option<string>)
    ensures header.None? ==> r.None?
    ensures header.Some? ==> (r.None? <==> TokenSpan(header.value).None?)
    ensures r.Some? ==>
      && header.Some? && TokenSpan(header.value).Some?
      && r.value == header.value[TokenSpan(header.value).value.0..TokenSpan(header.value).value.1]
  {
    match header
    case None => None
    case Some(h) =>
      match TokenSpan(h)
      case None => None
      case Some((a, b)) => Some(h[a..b])
  }

  /** A header that is `"Bearer "` followed by a token without the separator yields that token. */
  lemma BearerRoundTrip(token: string)
    requires NoneIn(token, Bearer, 0, |token| + 1)
    ensures BearerToken(Some(Bearer + token)) == Some(token)
  {
    var h := Bearer + token;
    assert Occurs(h, Bearer, 0);
    var (a, b) := TokenSpan(h).value;
    assert a == |Bearer|;
    forall j | a <= j <= |h|
      ensures !Occurs(h, Bearer, j)
    {
      if Occurs(h, Bearer, j) {
        assert h[j..j + |Bearer|] == token[j - a..j - a + |Bearer|];
        assert Occurs(token, Bearer, j - a);
      }
    }
    assert b == |h|;
    assert h[a..b] == token;
  }

  /**
   * A second separator ends the token: `"Bearer " + t + "Bearer " + rest`
   * yields `t` when no separator starts inside `t`, whatever `rest` holds.
   */
  lemma TokenStopsAtSecondBearer(t: string, rest: string)
    requires NoneIn(t + Bearer, Bearer, 0, |t|)
    ensures BearerToken(Some(Bearer + t + Bearer + rest)) == Some(t)
  {
    var h := Bearer + t + Bearer + rest;
    var a := |Bearer|;
    assert Occurs(h, Bearer, 0);
    assert Occurs(h, Bearer, a + |t|) by {
      assert h[a + |t|..a + |t| + |Bearer|] == Bearer;
    }
    forall j | a <= j < a + |t|
      ensures !Occurs(h, Bearer, j)
    {
      if Occurs(h, Bearer, j) {
        assert h[j..j + |Bearer|] == (t + Bearer)[j - a..j - a + |Bearer|];
        assert Occurs(t + Bearer, Bearer, j - a);
      }
    }
    var (a', b) := TokenSpan(h).value;
    assert a' == a && b == a + |t|;
    assert h[a..b] == t;
  }

  /**
   * `authenticate`: no token (no header, no separator, or nothing after it)
   * is 403 "No token provided"; a token the provider rejects is 403 "Invalid
   * token"; otherwise `next()` runs with the decoded claims.
   */
  function Authenticate(header: Option<string>, verify: string -> Option<Claims>): (r: Gate)
    ensures r == Denied(403, "No token provided") <==> BearerToken(header).None? || BearerToken(header) == Some([])
    ensures r == Denied(403, "Invalid token") <==>
      BearerToken(header).Some? && BearerToken(header).value != [] && verify(BearerToken(header).value).None?
    ensures r.Next? <==>
      BearerToken(header).Some? && BearerToken(header).value != [] && verify(BearerToken(header).value).Some?
    ensures r.Next? ==> r.user == verify(BearerToken(header).value).value
  {
    match BearerToken(header)
    case None => Denied(403, "No token provided")
    case Some(token) =>
      if token == [] then Denied(403, "No token provided")
      else match verify(token)
        case None => Denied(403, "Invalid token")
        case Some(claims) => Next(claims)
  }

  /**
   * `checkRole(allowedRoles)`: no user or no (or an empty) role is 403 "Access
   * denied"; a role outside the list is 403 "Insufficient permissions".
   */
  function CheckRole(allowed: seq<string>, user: Option<Claims>): (r: Gate)
    ensures r.Next? <==> user.Some? && user.value.role.Some? && user.value.role.value != [] && user.value.role.value in allowed
    ensures r.Next? ==> r.user == user.value
    ensures r == Denied(403, "Access denied") <==> user.None? || user.value.role.None? || user.value.role.value == []
    ensures r.Denied? ==> r.status == 403
  {
    match user
    case None => Denied(403, "Access denied")
    case Some(u) =>
      if u.role.None? || u.role.value == [] then Denied(403, "Access denied")
      else if u.role.value !in allowed then Denied(403, "Insufficient permissions")
      else Next(u)
  }

  /** Behind both middlewares a request reaches the handler exactly when its verified token carries an allowed role. */
  lemma ProtectedRoute(header: Option<string>, verify: string -> Option<Claims>, allowed: seq<string>)
    ensures var a := Authenticate(header, verify);
      a.Next? && CheckRole(allowed, Some(a.user)).Next? <==>
        && BearerToken(header).Some? && BearerToken(header).value != []
        && verify(BearerToken(header).value).Some?
        && var role := verify(BearerToken(header).value).value.role;
           role.Some? && role.value != [] && role.value in allowed
  {
  }
}
