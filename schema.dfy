/** The table declarations of shared/schema.ts: the shape of each row, the
    column defaults, the NOT NULL columns and the unique columns. */
module Schema {
  import opened Wrappers
  import Validations

  datatype User = User(
    name: string,
    email: string,
    phone: Option<string>,
    role: string,
    status: string,
    createdAt: int,
    lastLogin: Option<int>)

  datatype Setting = Setting(
    key: string,
    value: string,
    category: string,
    description: Option<string>,
    updatedAt: int)

  datatype Admin = Admin(
    username: string,
    password: string,
    createdAt: int,
    lastLogin: Option<int>)

  /** A row of `properties`. There is no local_size column. */
  datatype PropertyRow = PropertyRow(
    kind: string,
    listingType: string,
    name: string,
    location: string,
    propertyType: string,
    price: real,
    surface: real,
    construction: Option<real>,
    description: string,
    technicalSheet: Option<string>,
    latitude: real,
    longitude: real,
    status: string,
    createdAt: int,
    updatedAt: int)

  datatype PropertyImage = PropertyImage(
    propertyId: int,
    url: string,
    isMain: int,
    createdAt: int,
    updatedAt: Option<int>)

  /** The columns of `properties` a request body may set; an absent key is None. */
  datatype PropertyBody = PropertyBody(
    kind: Option<string>,
    listingType: Option<string>,
    name: Option<string>,
    location: Option<string>,
    propertyType: Option<string>,
    price: Option<real>,
    surface: Option<real>,
    construction: Option<real>,
    description: Option<string>,
    technicalSheet: Option<string>,
    latitude: Option<real>,
    longitude: Option<real>,
    status: Option<string>,
    createdAt: Option<int>)

  /** `email ... unique()`: no two users share an email. */
  predicate EmailsUnique(users: map<int, User>) {
    forall i, j :: i in users && j in users && users[i].email == users[j].email ==> i == j
  }

  /** `key ... unique()`. */
  predicate KeysUnique(settings: map<int, Setting>) {
    forall i, j :: i in settings && j in settings && settings[i].key == settings[j].key ==> i == j
  }

  /** `username ... unique()`. */
  predicate UsernamesUnique(admins: map<int, Admin>) {
    forall i, j :: i in admins && j in admins && admins[i].username == admins[j].username ==> i == j
  }

  /** `property_id ... references(() => properties.id)`. */
  predicate ImagesReferenceProperties(images: map<int, PropertyImage>, properties: map<int, PropertyRow>) {
    forall i :: i in images ==> images[i].propertyId in properties
  }

  /** The object a drizzle insert or `.set` over `users` is given, keyed by
      the table's own names (`created_at`, `last_login`); None is an absent
      or undefined key. A key that names no column is dropped by drizzle, so
      it has no place here. */
  datatype UserColumns = UserColumns(
    name: Option<string>,
    email: Option<string>,
    phone: Option<string>,
    role: Option<string>,
    status: Option<string>,
    created_at: Option<int>,
    last_login: Option<int>)

  const NoUserColumns := UserColumns(None, None, None, None, None, None, None)

  /** Every column of a user, as the object that would write it back. */
  function ColumnsOfUser(u: User): UserColumns {
    UserColumns(Some(u.name), Some(u.email), u.phone, Some(u.role), Some(u.status), Some(u.createdAt), u.lastLogin)
  }

  /** `INSERT INTO users`: None, a NOT NULL failure, when name, email or
      created_at is missing (created_at has no default); role and status
      take their defaults `user` and `active`. */
  function InsertUser(c: UserColumns): Option<User> {
    if c.name.None? || c.email.None? || c.created_at.None? then None
    else Some(User(c.name.value, c.email.value, c.phone, c.role.GetOr("user"), c.status.GetOr("active"),
                   c.created_at.value, c.last_login))
  }

  /** `UPDATE users SET ...`: each column the object names takes its value,
      the others keep theirs; an object that names no column leaves nothing
      to set, and the statement fails (None). */
  function UpdateUser(u: User, c: UserColumns): Option<User> {
    if c == NoUserColumns then None
    else Some(User(c.name.GetOr(u.name), c.email.GetOr(u.email), if c.phone.Some? then c.phone else u.phone,
                   c.role.GetOr(u.role), c.status.GetOr(u.status), c.created_at.GetOr(u.createdAt),
                   if c.last_login.Some? then c.last_login else u.lastLogin))
  }

  /** A users row as the routes insert it: created_at is the insertion time
      and last_login is empty. */
  function NewUser(name: string, email: string, phone: Option<string>, role: Option<string>,
                   status: Option<string>, now: int): User
  {
    User(name, email, phone, role.GetOr("user"), status.GetOr("active"), now, None)
  }

  /** An insert succeeds exactly when name, email and created_at are given;
      an absent role or status takes its default, the rest is stored as
      given, and writing a stored user's columns back reproduces it. */
  lemma InsertUserNeedsRequiredColumns(c: UserColumns, u: User)
    ensures InsertUser(c).Some? <==> c.name.Some? && c.email.Some? && c.created_at.Some?
    ensures InsertUser(c).Some? ==>
      && ColumnsOfUser(InsertUser(c).value) == c.(role := Some(c.role.GetOr("user")), status := Some(c.status.GetOr("active")))
      && (c.role.None? ==> InsertUser(c).value.role == "user")
      && (c.status.None? ==> InsertUser(c).value.status == "active")
    ensures InsertUser(ColumnsOfUser(u)) == Some(u)
  {
  }

  /** An update fails exactly when its object names no column; otherwise it
      changes exactly the named columns, and running it again changes nothing. */
  lemma UpdateUserChangesNamedColumns(u: User, c: UserColumns)
    ensures UpdateUser(u, c).None? <==> c == NoUserColumns
    ensures UpdateUser(u, c).Some? ==>
      var w := UpdateUser(u, c).value;
      && (c.name.None? ==> w.name == u.name) && (c.email.None? ==> w.email == u.email)
      && (c.phone.None? ==> w.phone == u.phone) && (c.role.None? ==> w.role == u.role)
      && (c.status.None? ==> w.status == u.status) && (c.created_at.None? ==> w.createdAt == u.createdAt)
      && (c.last_login.None? ==> w.lastLogin == u.lastLogin)
      && (c.name.Some? ==> w.name == c.name.value) && (c.email.Some? ==> w.email == c.email.value)
      && (c.phone.Some? ==> w.phone == c.phone) && (c.role.Some? ==> w.role == c.role.value)
      && (c.status.Some? ==> w.status == c.status.value) && (c.created_at.Some? ==> w.createdAt == c.created_at.value)
      && (c.last_login.Some? ==> w.lastLogin == c.last_login)
    ensures UpdateUser(u, c).Some? ==> UpdateUser(UpdateUser(u, c).value, c) == UpdateUser(u, c)
  {
  }

  /** The row an `INSERT` of `body` produces with both timestamps set to
      `now`, or None when a NOT NULL column without a default is missing.
      status defaults to `active`; construction and technical_sheet may be absent. */
  function RowFromBody(b: PropertyBody, now: int): Option<PropertyRow> {
    if b.kind.None? || b.listingType.None? || b.name.None? || b.location.None?
       || b.propertyType.None? || b.price.None? || b.surface.None? || b.description.None?
       || b.latitude.None? || b.longitude.None?
    then None
    else Some(PropertyRow(b.kind.value, b.listingType.value, b.name.value, b.location.value,
                          b.propertyType.value, b.price.value, b.surface.value, b.construction,
                          b.description.value, b.technicalSheet, b.latitude.value,
                          b.longitude.value, b.status.GetOr("active"), now, now))
  }

  /** Every column set, as the body that would write `r` back. */
  function BodyOf(r: PropertyRow): PropertyBody {
    PropertyBody(Some(r.kind), Some(r.listingType), Some(r.name), Some(r.location),
                 Some(r.propertyType), Some(r.price), Some(r.surface), r.construction,
                 Some(r.description), r.technicalSheet, Some(r.latitude), Some(r.longitude),
                 Some(r.status), Some(r.createdAt))
  }

  /** The columns of a validated payload that a body can carry: every schema
      field except local_size, which has no column. */
  function ColumnsOf(p: Validations.Payload, latitude: Option<real>, longitude: Option<real>): PropertyBody {
    PropertyBody(p.kind, p.listingType, p.name, p.location, p.propertyType, p.price, p.surface,
                 p.construction, p.description, p.technicalSheet, latitude, longitude, p.status, None)
  }

  /** A row read back as a payload for the validator: there is no local_size to read. */
  function PayloadOf(r: PropertyRow): Validations.Payload {
    Validations.Payload(Some(r.kind), Some(r.listingType), Some(r.name), Some(r.location),
                        Some(r.propertyType), Some(r.price), Some(r.surface), Some(r.description),
                        Some(r.status), r.construction, r.technicalSheet, None)
  }

  /** Inserting the body of a row reproduces the row, with the new timestamps. */
  lemma RowFromBodyOf(r: PropertyRow, now: int)
    ensures RowFromBody(BodyOf(r), now) == Some(r.(createdAt := now, updatedAt := now))
  {
  }

  /** An insert succeeds exactly when every NOT NULL column without a default
      is present; the stored row then holds the body's values. */
  lemma InsertNeedsRequiredColumns(b: PropertyBody, now: int)
    ensures RowFromBody(b, now).Some? <==>
      b.kind.Some? && b.listingType.Some? && b.name.Some? && b.location.Some?
      && b.propertyType.Some? && b.price.Some? && b.surface.Some? && b.description.Some?
      && b.latitude.Some? && b.longitude.Some?
    ensures RowFromBody(b, now).Some? ==> BodyOf(RowFromBody(b, now).value) == b.(createdAt := Some(now), status := Some(b.status.GetOr("active")))
    ensures RowFromBody(b, now).Some? && b.status.None? ==> RowFromBody(b, now).value.status == "active"
  {
  }

  /** local_size is never stored: two payloads that differ only in it give
      the same columns. */
  lemma LocalSizeNotStored(p: Validations.Payload, size: Option<string>, lat: Option<real>, lng: Option<real>)
    ensures ColumnsOf(p.(localSize := size), lat, lng) == ColumnsOf(p, lat, lng)
  {
  }

  /** Consequently no stored commercial row passes the commercial schema when
      read back: local_size is required and cannot be read. */
  lemma StoredCommercialRowRejected(r: PropertyRow)
    requires r.kind == "commercial"
    ensures Validations.Parse(PayloadOf(r)).None?
    ensures Validations.LocalSizeRequired in Validations.Issues(PayloadOf(r))
  {
    var p := PayloadOf(r);
    Validations.CommercialRules(p);
    assert Validations.VariantIssues(Validations.Commercial, p)[0] == Validations.LocalSizeRequired;
  }
}
