/** server/src/routes/users.ts: the users table behind `validateToken`, with
    an explicit email-collision check before every insert and update. */
module UserRoutes {
  import opened Wrappers
  import opened Schema
  import opened Tokens
  import Tables
  import Text

  /** The fields a create or update body carries; an absent optional field is
      None (drizzle skips undefined values, so the column keeps its default on
      insert and its value on update). */
  datatype UserInput = UserInput(name: string, email: string, phone: Option<string>,
                                 role: Option<string>, status: Option<string>)

  datatype Response =
    | Rejected(code: int)
    | UserList(users: seq<(int, User)>)
    | CreatedUser(id: int, user: User)
    | UpdatedUser(id: int, user: User)
    | DeletedUser
    | EmailTaken
    | NotFound
  {
    function Code(): int {
      match this
      case Rejected(code) => code
      case CreatedUser(_, _) => 201
      case EmailTaken => 400
      case NotFound => 404
      case _ => 200
    }
  }

  /** Some user other than `except` holds `email` (the `existingUser` queries). */
  predicate EmailHeld(rows: map<int, User>, email: string, except: Option<int>) {
    exists id :: id in rows && rows[id].email == email && Some(id) != except
  }

  /** `.set({ name, email, phone, role, status })` on one row. */
  function Apply(u: User, input: UserInput): User {
    u.(name := input.name, email := input.email, phone := if input.phone.Some? then input.phone else u.phone,
       role := input.role.GetOr(u.role), status := input.status.GetOr(u.status))
  }

  /** An update changes exactly the five body fields; created_at and
      last_login are untouched, and a field absent from the body keeps its value. */
  lemma ApplyChangesOnlyBodyFields(u: User, input: UserInput)
    ensures Apply(u, input).createdAt == u.createdAt && Apply(u, input).lastLogin == u.lastLogin
    ensures Apply(u, input).name == input.name && Apply(u, input).email == input.email
    ensures input.role.None? ==> Apply(u, input).role == u.role
    ensures input.status.None? ==> Apply(u, input).status == u.status
    ensures input.phone.None? ==> Apply(u, input).phone == u.phone
    ensures Apply(u, UserInput(u.name, u.email, u.phone, Some(u.role), Some(u.status))) == u
  {
  }

  /** The object `.set` is given: the five body fields. */
  function UpdateColumns(input: UserInput): UserColumns {
    UserColumns(Some(input.name), Some(input.email), input.phone, input.role, input.status, None, None)
  }

  /** Apply is the table's update with that object, which names at least
      name and email and so never fails. */
  lemma ApplyIsUpdate(u: User, input: UserInput)
    ensures UpdateUser(u, UpdateColumns(input)) == Some(Apply(u, input))
  {
  }

  /** The insert object of `POST /` as written: its `createdAt` key names no
      column (the column's key is `created_at`), so drizzle drops it and the
      object carries no created_at. */
  function CreateColumnsAsWritten(input: UserInput): UserColumns {
    UserColumns(Some(input.name), Some(input.email), input.phone, input.role, input.status, None, None)
  }

  /** The insert object the handler evidently means: created_at is `now`. */
  function CreateColumns(input: UserInput, now: int): UserColumns {
    CreateColumnsAsWritten(input).(created_at := Some(now))
  }

  /** As written, every insert of `POST /` leaves the NOT NULL created_at
      empty and fails, whatever the body: the handler's catch answers 500
      and no user is ever added. */
  lemma CreateAsWrittenFails(input: UserInput)
    ensures InsertUser(CreateColumnsAsWritten(input)).None?
  {
  }

  /** With created_at set, the insert succeeds and stores the row `Create`
      stores: the body's fields, the role and status defaults, created_at
      `now` and no last login. */
  lemma CreateColumnsInsert(input: UserInput, now: int)
    ensures InsertUser(CreateColumns(input, now)) == Some(NewUser(input.name, input.email, input.phone, input.role, input.status, now))
    ensures var u := NewUser(input.name, input.email, input.phone, input.role, input.status, now);
      && u.name == input.name && u.email == input.email && u.phone == input.phone
      && u.role == input.role.GetOr("user") && u.status == input.status.GetOr("active")
      && u.createdAt == now && u.lastLogin.None?
  {
    InsertUserNeedsRequiredColumns(CreateColumns(input, now), NewUser(input.name, input.email, input.phone, input.role, input.status, now));
  }

  predicate SortedByName(s: seq<(int, User)>) {
    forall i, j :: 0 <= i < j < |s| ==> Text.AtMost(s[i].1.name, s[j].1.name)
  }

  /** Inserts `x` into a list sorted by name, before the first greater name. */
  function InsertByName(x: (int, User), s: seq<(int, User)>): (r: seq<(int, User)>)
    requires SortedByName(s)
    ensures SortedByName(r) && multiset(r) == multiset(s) + multiset{x}
  {
    if s == [] then [x]
    else if Text.AtMost(x.1.name, s[0].1.name) then
      assert forall j :: 0 < j < |s| ==> Text.AtMost(s[0].1.name, s[j].1.name);
      forall j | 0 <= j < |s| ensures Text.AtMost(x.1.name, s[j].1.name) {
        if j > 0 { Text.AtMostTransitive(x.1.name, s[0].1.name, s[j].1.name); }
      }
      [x] + s
    else
      Text.AtMostTotal(x.1.name, s[0].1.name);
      var rest := InsertByName(x, s[1..]);
      HeadBelowInserted(x, s, rest);
      var r := [s[0]] + rest;
      assert s == [s[0]] + s[1..];
      r
  }

  /** The head of a sorted list is at most every element of its tail with
      `x` inserted, when it is at most `x`. */
  lemma HeadBelowInserted(x: (int, User), s: seq<(int, User)>, rest: seq<(int, User)>)
    requires SortedByName(s) && s != [] && Text.AtMost(s[0].1.name, x.1.name)
    requires multiset(rest) == multiset(s[1..]) + multiset{x}
    ensures forall j :: 0 <= j < |rest| ==> Text.AtMost(s[0].1.name, rest[j].1.name)
  {
    forall j | 0 <= j < |rest| ensures Text.AtMost(s[0].1.name, rest[j].1.name) {
      assert rest[j] in multiset(rest);
      if rest[j] != x {
        assert rest[j] in multiset(s[1..]);
        var k :| 0 <= k < |s[1..]| && s[1..][k] == rest[j];
        assert s[k + 1] == rest[j];
      }
    }
  }

  /** `ORDER BY name`: the rows sorted by name, a permutation of the input. */
  function SortByName(s: seq<(int, User)>): (r: seq<(int, User)>)
    ensures SortedByName(r) && multiset(r) == multiset(s)
  {
    if s == [] then []
    else
      var r := InsertByName(s[0], SortByName(s[1..]));
      assert s == [s[0]] + s[1..];
      r
  }

  class UserStore {
    var rows: map<int, User>
    var nextId: int

    ghost predicate Valid()
      reads this
    {
      1 <= nextId && Tables.IdsBelow(rows, nextId) && EmailsUnique(rows)
    }

    constructor ()
      ensures Valid() && rows == map[] && nextId == 1
    {
      rows := map[];
      nextId := 1;
    }

    /** `GET /`: every user, ordered by name. */
    method List(header: Option<string>, verify: string -> Verification) returns (r: Response)
      requires Valid()
      ensures ValidateToken(header, verify).Reject? ==> r == Rejected(ValidateToken(header, verify).code)
      ensures ValidateToken(header, verify).Pass? ==> r.UserList? && SortedByName(r.users)
      ensures r.UserList? ==> multiset(r.users) == multiset(Tables.ByIdOrder(rows, 1, nextId))
      ensures r.UserList? ==> forall id :: id in rows ==> (id, rows[id]) in r.users
      ensures r.UserList? ==> forall i :: 0 <= i < |r.users| ==> r.users[i].0 in rows && rows[r.users[i].0] == r.users[i].1
    {
      var gate := ValidateToken(header, verify);
      if gate.Reject? {
        return Rejected(gate.code);
      }
      var all := Tables.ByIdOrder(rows, 1, nextId);
      var sorted := SortByName(all);
      forall id | id in rows ensures (id, rows[id]) in sorted {
        assert (id, rows[id]) in multiset(all);
      }
      forall i | 0 <= i < |sorted| ensures sorted[i].0 in rows && rows[sorted[i].0] == sorted[i].1 {
        assert sorted[i] in multiset(all);
      }
      r := UserList(sorted);
    }

    /** `POST /`: 400 when any user already holds the email, with nothing
        changed; otherwise exactly one user is added under a fresh id. */
    method Create(header: Option<string>, verify: string -> Verification, input: UserInput, now: int)
      returns (r: Response)
      requires Valid()
      modifies this
      ensures Valid()
      ensures ValidateToken(header, verify).Reject? ==>
        r == Rejected(ValidateToken(header, verify).code) && rows == old(rows) && nextId == old(nextId)
      ensures ValidateToken(header, verify).Pass? && EmailHeld(old(rows), input.email, None) ==>
        r == EmailTaken && rows == old(rows) && nextId == old(nextId)
      ensures ValidateToken(header, verify).Pass? && !EmailHeld(old(rows), input.email, None) ==>
        var u := NewUser(input.name, input.email, input.phone, input.role, input.status, now);
        && r == CreatedUser(old(nextId), u)
        && old(nextId) !in old(rows)
        && rows == old(rows)[old(nextId) := u] && nextId == old(nextId) + 1
    {
      var gate := ValidateToken(header, verify);
      if gate.Reject? {
        return Rejected(gate.code);
      }
      if exists id :: id in rows && rows[id].email == input.email {
        return EmailTaken;
      }
      var inserted := InsertUser(CreateColumns(input, now));
      CreateColumnsInsert(input, now);
      var u := inserted.value;
      var id := nextId;
      rows := rows[id := u];
      nextId := nextId + 1;
      r := CreatedUser(id, u);
    }

    /** `PUT /:id`: the email check comes first, so an email held by another
        user gives 400 even for an unknown id; then an unknown id gives 404;
        otherwise only that user changes, and only in the body's fields. */
    method Update(header: Option<string>, verify: string -> Verification, id: int, input: UserInput)
      returns (r: Response)
      requires Valid()
      modifies this
      ensures Valid() && nextId == old(nextId)
      ensures ValidateToken(header, verify).Reject? ==>
        r == Rejected(ValidateToken(header, verify).code) && rows == old(rows)
      ensures ValidateToken(header, verify).Pass? && EmailHeld(old(rows), input.email, Some(id)) ==>
        r == EmailTaken && rows == old(rows)
      ensures ValidateToken(header, verify).Pass? && !EmailHeld(old(rows), input.email, Some(id)) ==>
        if id in old(rows) then
          r == UpdatedUser(id, Apply(old(rows)[id], input)) && rows == old(rows)[id := Apply(old(rows)[id], input)]
        else
          r == NotFound && rows == old(rows)
    {
      var gate := ValidateToken(header, verify);
      if gate.Reject? {
        return Rejected(gate.code);
      }
      if exists other :: other in rows && rows[other].email == input.email && other != id {
        return EmailTaken;
      }
      if id !in rows {
        return NotFound;
      }
      ApplyIsUpdate(rows[id], input);
      var u := UpdateUser(rows[id], UpdateColumns(input)).value;
      rows := rows[id := u];
      r := UpdatedUser(id, u);
    }

    /** `DELETE /:id`: 404 for an unknown id; otherwise exactly that user goes. */
    method Delete(header: Option<string>, verify: string -> Verification, id: int) returns (r: Response)
      requires Valid()
      modifies this
      ensures Valid() && nextId == old(nextId)
      ensures ValidateToken(header, verify).Reject? ==>
        r == Rejected(ValidateToken(header, verify).code) && rows == old(rows)
      ensures ValidateToken(header, verify).Pass? ==>
        if id in old(rows) then r == DeletedUser && rows == old(rows) - {id}
        else r == NotFound && rows == old(rows)
    {
      var gate := ValidateToken(header, verify);
      if gate.Reject? {
        return Rejected(gate.code);
      }
      if id !in rows {
        return NotFound;
      }
      rows := rows - {id};
      r := DeletedUser;
    }
  }
}
