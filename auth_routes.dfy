/** server/src/routes/auth.ts: the login route over the admins table and the
    `verifyToken` gate that guards property writes. `bcrypt.compare` and
    `jwt.sign` are parameters. */
module AuthRoutes {
  import opened Wrappers
  import opened Schema
  import opened Tokens
  import Tables

  /** `verifyToken`: 401 without a token and 401 for every verification failure. */
  function VerifyToken(header: Option<string>, verify: string -> Verification): Gate {
    match BearerToken(header)
    case None => Reject(401)
    case Some(token) =>
      match verify(token)
      case Verified(c) => Pass(c)
      case _ => Reject(401)
  }

  /** The claims login signs: the admin's id and username. */
  function LoginClaims(id: int, username: string): Claims {
    Claims(Some(id), Some(username), None, None)
  }

  /** `expiresIn: '24h'`, in seconds. */
  const TokenLifetime := 24 * 60 * 60

  datatype LoginResult = Token(token: string) | InvalidCredentials {
    function Code(): int {
      if Token? then 200 else 401
    }
    function Message(): string {
      if Token? then "" else "Credenciales inválidas"
    }
  }

  /** `verifyToken` lets a request through exactly when a token is present and
      verifies; every other case is 401 (never 500, unlike `validateToken`). */
  lemma VerifyTokenOutcomes(header: Option<string>, verify: string -> Verification)
    ensures VerifyToken(header, verify).Pass? <==>
      BearerToken(header).Some? && verify(BearerToken(header).value).Verified?
    ensures VerifyToken(header, verify).Reject? ==> VerifyToken(header, verify).code == 401
    ensures VerifyToken(header, verify).Pass? ==> VerifyToken(header, verify) == ValidateToken(header, verify)
  {
  }

  class AdminStore {
    var rows: map<int, Admin>
    var nextId: int

    ghost predicate Valid()
      reads this
    {
      1 <= nextId && Tables.IdsBelow(rows, nextId) && UsernamesUnique(rows)
    }

    constructor ()
      ensures Valid() && rows == map[] && nextId == 1
    {
      rows := map[];
      nextId := 1;
    }

    /** A plain insert, as the seeding does it. */
    method Insert(a: Admin)
      requires Valid()
      requires forall id :: id in rows ==> rows[id].username != a.username
      modifies this
      ensures Valid()
      ensures rows == old(rows)[old(nextId) := a] && nextId == old(nextId) + 1
    {
      rows := rows[nextId := a];
      nextId := nextId + 1;
    }

    /** `POST /login`: an unknown username and a wrong password give the same
        401; on success only the matched admin's last_login becomes `now`, and
        the token signs that admin's id and username, issued at `now` and
        expiring `TokenLifetime` seconds later (`iat` and `exp`). */
    method Login(username: string, password: string, passwordMatches: (string, string) -> bool,
                 sign: (Claims, int, int) -> string, now: int) returns (r: LoginResult)
      requires Valid()
      modifies this
      ensures Valid() && nextId == old(nextId)
      ensures (forall id :: id in old(rows) ==> old(rows)[id].username != username) ==>
        r == InvalidCredentials && rows == old(rows)
      ensures forall id :: id in old(rows) && old(rows)[id].username == username ==>
        if passwordMatches(password, old(rows)[id].password) then
          && r == Token(sign(LoginClaims(id, username), now, now + TokenLifetime))
          && rows == old(rows)[id := old(rows)[id].(lastLogin := Some(now))]
        else
          r == InvalidCredentials && rows == old(rows)
    {
      if id :| id in rows && rows[id].username == username {
        if passwordMatches(password, rows[id].password) {
          rows := rows[id := rows[id].(lastLogin := Some(now))];
          r := Token(sign(LoginClaims(id, username), now, now + TokenLifetime));
        } else {
          r := InvalidCredentials;
        }
      } else {
        r := InvalidCredentials;
      }
    }
  }
}
