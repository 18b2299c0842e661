/** Bearer-token handling shared by every protected route: extracting the
    token from the Authorization header, and the `validateToken` gate that
    server/src/routes/users.ts and server/src/routes/settings.ts each define
    (the two copies are identical). `jwt.verify` is a parameter. */
module Tokens {
  import opened Wrappers
  import Text

  /** The claims of a decoded token, as far as any route reads them. */
  datatype Claims = Claims(id: Option<int>, username: Option<string>, userId: Option<int>, role: Option<string>)

  /** What `jwt.verify(token, secret)` does: return the claims, throw a
      `JsonWebTokenError` (expired and malformed tokens included), or fail otherwise. */
  datatype Verification = Verified(claims: Claims) | JsonWebTokenError | OtherFault

  /** The outcome of a gate: call `next` with the claims attached, or answer with a status code. */
  datatype Gate = Pass(claims: Claims) | Reject(code: int)

  /** `req.headers.authorization?.split(' ')[1]`, kept only when it is truthy. */
  function BearerToken(header: Option<string>): Option<string> {
    match header
    case None => None
    case Some(h) =>
      var pieces := Text.Split(h);
      if |pieces| >= 2 && pieces[1] != "" then Some(pieces[1]) else None
  }

  /** `validateToken`: 401 without a token or on a `JsonWebTokenError`, 500 on any other fault. */
  function ValidateToken(header: Option<string>, verify: string -> Verification): Gate {
    match BearerToken(header)
    case None => Reject(401)
    case Some(token) =>
      match verify(token)
      case Verified(c) => Pass(c)
      case JsonWebTokenError => Reject(401)
      case OtherFault => Reject(500)
  }

  /** `Authorization: <scheme> <token>` yields the token, whatever the scheme word is. */
  lemma BearerTokenOfHeader(scheme: string, token: string)
    requires Text.NoSpace(scheme) && Text.NoSpace(token) && token != ""
    ensures BearerToken(Some(scheme + " " + token)) == Some(token)
  {
    Text.SplitJoin([scheme, token]);
    assert Text.Join([scheme, token]) == scheme + " " + Text.Join([token]);
  }

  /** The token found is the second space-separated field of the header: the
      text between the first space and the next space or the end. */
  lemma BearerTokenIsSecondField(h: string, token: string) returns (first: string, rest: string)
    requires BearerToken(Some(h)) == Some(token)
    ensures token != "" && Text.NoSpace(token)
    ensures h == first + " " + token + rest && Text.NoSpace(first)
    ensures rest == "" || rest[0] == ' '
  {
    var pieces := Text.Split(h);
    Text.JoinSplit(h);
    assert pieces[1] == token;
    first := pieces[0];
    rest := if |pieces| == 2 then "" else " " + Text.Join(pieces[2..]);
    assert Text.Join(pieces) == first + " " + Text.Join(pieces[1..]);
    if |pieces| == 2 {
      assert Text.Join(pieces[1..]) == token + rest;
    } else {
      assert pieces[1..][1..] == pieces[2..];
      assert Text.Join(pieces[1..]) == pieces[1..][0] + " " + Text.Join(pieces[1..][1..]);
      assert Text.Join(pieces[1..]) == token + rest;
    }
    assert Text.NoSpace(pieces[0]);
  }

  /** A header without a space has no second field, hence no token. */
  lemma NoSecondFieldNoToken(h: string)
    requires Text.NoSpace(h)
    ensures BearerToken(Some(h)) == None
  {
    Text.SplitWithoutSpace(h);
  }

  /** The gate passes exactly when a token is present and verifies, with its
      claims; it answers 401 for a missing or rejected token and 500 otherwise. */
  lemma ValidateTokenOutcomes(header: Option<string>, verify: string -> Verification)
    ensures ValidateToken(header, verify).Pass? <==>
      BearerToken(header).Some? && verify(BearerToken(header).value).Verified?
    ensures ValidateToken(header, verify).Pass? ==>
      ValidateToken(header, verify).claims == verify(BearerToken(header).value).claims
    ensures BearerToken(header).None? ==> ValidateToken(header, verify) == Reject(401)
    ensures ValidateToken(header, verify) == Reject(500) <==>
      BearerToken(header).Some? && verify(BearerToken(header).value).OtherFault?
  {
  }
}
