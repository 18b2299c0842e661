/** server/src/middleware/auth.ts: `validateAdmin`, a role gate over the
    users table that refreshes the admin's last login. `jwt.verify` is a
    parameter. */
module AdminMiddleware {
  import opened Wrappers
  import opened Schema
  import opened Tokens
  import Tables
  import AuthRoutes
  import UserRoutes

  /** Call `next` on behalf of that user, or answer with a status code. */
  datatype Outcome = Next(userId: int) | Deny(code: int)

  /** The user the token's `userId` claim names, when it is an admin. */
  predicate IsAdmin(users: map<int, User>, userId: Option<int>) {
    userId.Some? && userId.value in users && users[userId.value].role == "admin"
  }

  /** The decision `validateAdmin` takes: 401 without a token or on a
      `JsonWebTokenError`, 500 on any other fault, 403 unless the `userId`
      claim names an admin, and otherwise on to `next`. */
  function AdminDecision(users: map<int, User>, header: Option<string>, verify: string -> Verification): Outcome {
    match BearerToken(header)
    case None => Deny(401)
    case Some(token) =>
      match verify(token)
      case JsonWebTokenError => Deny(401)
      case OtherFault => Deny(500)
      case Verified(c) =>
        if IsAdmin(users, c.userId) then Next(c.userId.value) else Deny(403)
  }

  /** The gate lets a request through exactly when a verified token's
      `userId` claim names an admin, and then on behalf of that user; a
      verified token is otherwise refused with 403, never 401. */
  lemma AdminDecisionOutcomes(users: map<int, User>, header: Option<string>, verify: string -> Verification)
    ensures AdminDecision(users, header, verify).Next? <==>
      && ValidateToken(header, verify).Pass?
      && IsAdmin(users, ValidateToken(header, verify).claims.userId)
    ensures AdminDecision(users, header, verify).Next? ==>
      ValidateToken(header, verify).claims.userId == Some(AdminDecision(users, header, verify).userId)
    ensures ValidateToken(header, verify).Reject? ==>
      AdminDecision(users, header, verify) == Deny(ValidateToken(header, verify).code)
    ensures ValidateToken(header, verify).Pass? && !IsAdmin(users, ValidateToken(header, verify).claims.userId) ==>
      AdminDecision(users, header, verify) == Deny(403)
  {
  }

  /** Whatever `validateAdmin` lets through, `verifyToken` lets through too. */
  lemma AdminGateStricter(users: map<int, User>, header: Option<string>, verify: string -> Verification)
    requires AdminDecision(users, header, verify).Next?
    ensures AuthRoutes.VerifyToken(header, verify).Pass?
    ensures AuthRoutes.VerifyToken(header, verify).claims.userId == Some(AdminDecision(users, header, verify).userId)
  {
  }

  /** The tokens login issues carry `id` and `username` but no `userId`, so
      each of them is refused with 403, whoever the admin is. */
  lemma LoginTokenRefused(users: map<int, User>, header: Option<string>, verify: string -> Verification,
                          id: int, username: string)
    requires BearerToken(header).Some?
    requires verify(BearerToken(header).value) == Verified(AuthRoutes.LoginClaims(id, username))
    ensures AdminDecision(users, header, verify) == Deny(403)
  {
  }

  /** The `.set` object of the last-login update as written: `lastLogin` is
      not a key of `users` (the column's key is `last_login`), so drizzle
      drops it and the object names no column. */
  const LastLoginSetAsWritten: UserColumns := NoUserColumns

  /** The object the update evidently means: last_login becomes `now`. */
  function LastLoginSet(now: int): UserColumns {
    NoUserColumns.(last_login := Some(now))
  }

  /** `validateAdmin` as written: once the role check passes, the update has
      nothing to set and throws, and the catch answers 500. */
  function AdminDecisionAsWritten(users: map<int, User>, header: Option<string>, verify: string -> Verification): Outcome {
    var o := AdminDecision(users, header, verify);
    if o.Next? && UpdateUser(users[o.userId], LastLoginSetAsWritten).None? then Deny(500) else o
  }

  /** As written, the gate lets no request through: every admin gets 500
      instead of `next`, and every refusal stays as it was. */
  lemma AdminPathFailsAsWritten(users: map<int, User>, header: Option<string>, verify: string -> Verification)
    ensures AdminDecision(users, header, verify).Next? ==> AdminDecisionAsWritten(users, header, verify) == Deny(500)
    ensures AdminDecision(users, header, verify).Deny? ==>
      AdminDecisionAsWritten(users, header, verify) == AdminDecision(users, header, verify)
    ensures !AdminDecisionAsWritten(users, header, verify).Next?
  {
    var o := AdminDecision(users, header, verify);
    if o.Next? {
      UpdateUserChangesNamedColumns(users[o.userId], LastLoginSetAsWritten);
    }
  }

  /** The intended update succeeds and refreshes last_login alone. */
  lemma LastLoginSetUpdates(u: User, now: int)
    ensures UpdateUser(u, LastLoginSet(now)) == Some(u.(lastLogin := Some(now)))
  {
  }

  /** `validateAdmin` as run against the users table: on `next` only that
      admin's last_login becomes `now`; every refusal changes nothing. */
  method ValidateAdmin(store: UserRoutes.UserStore, header: Option<string>, verify: string -> Verification, now: int)
    returns (o: Outcome)
    requires store.Valid()
    modifies store
    ensures store.Valid() && store.nextId == old(store.nextId)
    ensures o == AdminDecision(old(store.rows), header, verify)
    ensures o.Deny? ==> store.rows == old(store.rows)
    ensures o.Next? ==>
      && o.userId in old(store.rows)
      && store.rows == old(store.rows)[o.userId := old(store.rows)[o.userId].(lastLogin := Some(now))]
  {
    o := AdminDecision(store.rows, header, verify);
    if o.Next? {
      var u := store.rows[o.userId];
      LastLoginSetUpdates(u, now);
      store.rows := store.rows[o.userId := UpdateUser(u, LastLoginSet(now)).value];
    }
  }
}
