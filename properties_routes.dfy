/** server/src/routes/properties.ts: the properties table. Reads are public;
    create, update and delete sit behind `verifyToken`. No route calls the
    property validator, and no route writes property_images; the images'
    foreign key, which the database enforces, refuses an image of a missing
    property and the delete of a property some image names. */
module PropertyRoutes {
  import opened Wrappers
  import opened Schema
  import opened Tokens
  import Validations
  import Tables
  import AuthRoutes

  datatype Response =
    | Rejected(code: int)
    | PropertyList(properties: seq<(int, PropertyRow)>)
    | Found(id: int, property: PropertyRow)
    | Created(id: int, sent: PropertyBody, updatedAt: int)
    | Updated(id: int, sent: PropertyBody, updatedAt: int)
    | Deleted(id: int)
    | NotFound
    | InsertFailed
    | DeleteFailed
  {
    function Code(): int {
      match this
      case Rejected(code) => code
      case Created(_, _, _) => 201
      case NotFound => 404
      case InsertFailed => 500
      case DeleteFailed => 500
      case _ => 200
    }
  }

  /** `db.update(properties).set({...body, updated_at: now})`: every column the
      body carries is overwritten, every other column is kept, and updated_at
      becomes `now`. */
  function Merge(r: PropertyRow, b: PropertyBody, now: int): PropertyRow {
    PropertyRow(
      b.kind.GetOr(r.kind), b.listingType.GetOr(r.listingType), b.name.GetOr(r.name),
      b.location.GetOr(r.location), b.propertyType.GetOr(r.propertyType),
      b.price.GetOr(r.price), b.surface.GetOr(r.surface),
      if b.construction.Some? then b.construction else r.construction,
      b.description.GetOr(r.description),
      if b.technicalSheet.Some? then b.technicalSheet else r.technicalSheet,
      b.latitude.GetOr(r.latitude), b.longitude.GetOr(r.longitude),
      b.status.GetOr(r.status), b.createdAt.GetOr(r.createdAt), now)
  }

  /** Two bodies sent one after the other, as one body: the later one wins
      wherever it carries a column. */
  function Overlay(first: PropertyBody, second: PropertyBody): PropertyBody {
    PropertyBody(
      if second.kind.Some? then second.kind else first.kind,
      if second.listingType.Some? then second.listingType else first.listingType,
      if second.name.Some? then second.name else first.name,
      if second.location.Some? then second.location else first.location,
      if second.propertyType.Some? then second.propertyType else first.propertyType,
      if second.price.Some? then second.price else first.price,
      if second.surface.Some? then second.surface else first.surface,
      if second.construction.Some? then second.construction else first.construction,
      if second.description.Some? then second.description else first.description,
      if second.technicalSheet.Some? then second.technicalSheet else first.technicalSheet,
      if second.latitude.Some? then second.latitude else first.latitude,
      if second.longitude.Some? then second.longitude else first.longitude,
      if second.status.Some? then second.status else first.status,
      if second.createdAt.Some? then second.createdAt else first.createdAt)
  }

  /** The body with no keys. */
  const EmptyBody := PropertyBody(None, None, None, None, None, None, None, None, None, None, None, None, None, None)

  /** The columns a body carries are exactly the ones an update changes
      (updated_at aside): `Merge(r, b, t)` agrees with `b` where `b` has a
      value and with `r` everywhere else. */
  lemma MergeTakesBodyElseRow(r: PropertyRow, b: PropertyBody, now: int)
    ensures var m := Merge(r, b, now);
      && BodyOf(m) == Overlay(BodyOf(r), b)
      && m.updatedAt == now
  {
  }

  /** An empty body only refreshes updated_at. */
  lemma MergeEmpty(r: PropertyRow, now: int)
    ensures Merge(r, EmptyBody, now) == r.(updatedAt := now)
  {
  }

  /** Sending a whole row's columns replaces the stored row by it, except
      that an absent construction or technical_sheet cannot clear the stored one. */
  lemma MergeFullBody(r: PropertyRow, s: PropertyRow, now: int)
    ensures var m := Merge(r, BodyOf(s), now);
      && m.(construction := s.construction, technicalSheet := s.technicalSheet) == s.(updatedAt := now)
      && m.construction == (if s.construction.Some? then s.construction else r.construction)
      && m.technicalSheet == (if s.technicalSheet.Some? then s.technicalSheet else r.technicalSheet)
  {
  }

  /** Repeating an update changes nothing more. */
  lemma MergeIdempotent(r: PropertyRow, b: PropertyBody, now: int)
    ensures Merge(Merge(r, b, now), b, now) == Merge(r, b, now)
  {
  }

  /** Two updates in a row are one update with the overlaid body. */
  lemma MergeTwice(r: PropertyRow, b1: PropertyBody, b2: PropertyBody, t1: int, t2: int)
    ensures Merge(Merge(r, b1, t1), b2, t2) == Merge(r, Overlay(b1, b2), t2)
  {
  }

  /** Overlaying is associative: three updates group either way. */
  lemma OverlayAssociative(a: PropertyBody, b: PropertyBody, c: PropertyBody)
    ensures Overlay(Overlay(a, b), c) == Overlay(a, Overlay(b, c))
  {
    var l := Overlay(Overlay(a, b), c);
    var r := Overlay(a, Overlay(b, c));
    assert l.kind == r.kind && l.listingType == r.listingType && l.name == r.name;
    assert l.location == r.location && l.propertyType == r.propertyType && l.price == r.price;
    assert l.surface == r.surface && l.construction == r.construction && l.description == r.description;
    assert l.technicalSheet == r.technicalSheet && l.latitude == r.latitude && l.longitude == r.longitude;
    assert l.status == r.status && l.createdAt == r.createdAt;
  }

  /** The empty body is neutral on both sides. */
  lemma OverlayEmpty(a: PropertyBody)
    ensures Overlay(EmptyBody, a) == a && Overlay(a, EmptyBody) == a
  {
  }

  /** Some image names the property as its `property_id`. */
  predicate Referenced(images: map<int, PropertyImage>, id: int) {
    exists image :: image in images && images[image].propertyId == id
  }

  /** Removing a property keeps every image's reference valid exactly when
      no image names it: the condition under which the enforced foreign key
      lets the DELETE through. */
  lemma DeleteKeepsReferencesIff(images: map<int, PropertyImage>, rows: map<int, PropertyRow>, id: int)
    requires ImagesReferenceProperties(images, rows)
    ensures ImagesReferenceProperties(images, rows - {id}) <==> !Referenced(images, id)
  {
    if Referenced(images, id) {
      var image :| image in images && images[image].propertyId == id;
      assert images[image].propertyId !in rows - {id};
    }
  }

  /** The routes never run the validator: a body whose price is 0 is stored,
      although the property schema rejects a payload with that price. */
  lemma StoreAcceptsNonPositivePrice(p: Validations.Payload, lat: real, lng: real, now: int)
    requires p.kind.Some? && p.listingType.Some? && p.name.Some? && p.location.Some?
    requires p.propertyType.Some? && p.surface.Some? && p.description.Some?
    requires p.price == Some(0.0)
    ensures RowFromBody(ColumnsOf(p, Some(lat), Some(lng)), now).Some?
    ensures RowFromBody(ColumnsOf(p, Some(lat), Some(lng)), now).value.price == 0.0
    ensures Validations.Parse(p).None?
  {
    Validations.ParseIffNoIssues(p);
    var c := Validations.ParseCategory(p.kind);
    if c.Some? {
      assert Validations.PriceNotPositive in Validations.BaseIssues(p);
      assert Validations.PriceNotPositive in Validations.Issues(p);
    }
  }

  class PropertyStore {
    var rows: map<int, PropertyRow>
    var images: map<int, PropertyImage>
    var nextId: int
    var nextImageId: int

    ghost predicate Valid()
      reads this
    {
      && 1 <= nextId && Tables.IdsBelow(rows, nextId)
      && 1 <= nextImageId && Tables.IdsBelow(images, nextImageId)
      && ImagesReferenceProperties(images, rows)
    }

    constructor ()
      ensures Valid() && rows == map[] && images == map[] && nextId == 1 && nextImageId == 1
    {
      rows := map[];
      images := map[];
      nextId := 1;
      nextImageId := 1;
    }

    /** A multi-row insert, as the seeding does it. */
    method InsertAll(seed: seq<PropertyRow>)
      requires Valid()
      modifies this
      ensures Valid() && images == old(images)
      ensures rows == Tables.Appended(old(rows), old(nextId), seed) && nextId == old(nextId) + |seed|
    {
      rows := Tables.Appended(rows, nextId, seed);
      nextId := nextId + |seed|;
    }

    /** An insert into property_images, with is_main defaulting to 0 and
        created_at to `now`: the enforced foreign key refuses an image of a
        property that is not stored, and nothing changes. */
    method InsertImage(propertyId: int, url: string, isMain: Option<int>, now: int) returns (ok: bool)
      requires Valid()
      modifies this
      ensures Valid() && rows == old(rows) && nextId == old(nextId)
      ensures ok <==> propertyId in old(rows)
      ensures ok ==>
        && old(nextImageId) !in old(images)
        && images == old(images)[old(nextImageId) := PropertyImage(propertyId, url, isMain.GetOr(0), now, None)]
        && nextImageId == old(nextImageId) + 1
        && Referenced(images, propertyId)
      ensures !ok ==> images == old(images) && nextImageId == old(nextImageId)
    {
      if propertyId !in rows {
        return false;
      }
      images := images[nextImageId := PropertyImage(propertyId, url, isMain.GetOr(0), now, None)];
      assert images[nextImageId].propertyId == propertyId;
      nextImageId := nextImageId + 1;
      ok := true;
    }

    /** `GET /`: every stored property, unfiltered, in id order. */
    method List() returns (r: Response)
      requires Valid()
      ensures r.PropertyList?
      ensures forall id :: id in rows ==> (id, rows[id]) in r.properties
      ensures forall i :: 0 <= i < |r.properties| ==>
        r.properties[i].0 in rows && rows[r.properties[i].0] == r.properties[i].1
      ensures forall i, j :: 0 <= i < j < |r.properties| ==> r.properties[i].0 < r.properties[j].0
    {
      r := PropertyList(Tables.ByIdOrder(rows, 1, nextId));
    }

    /** `GET /:id`: that row, or 404. */
    method Get(id: int) returns (r: Response)
      ensures id in rows ==> r == Found(id, rows[id])
      ensures id !in rows ==> r == NotFound && r.Code() == 404
    {
      if id in rows {
        r := Found(id, rows[id]);
      } else {
        r := NotFound;
      }
    }

    /** `POST /`: after `verifyToken`, the body is inserted as sent with
        created_at = updated_at = `now` under a fresh id; an insert missing a
        NOT NULL column fails with 500 and stores nothing. */
    method Create(header: Option<string>, verify: string -> Verification, b: PropertyBody, now: int)
      returns (r: Response)
      requires Valid()
      modifies this
      ensures Valid() && images == old(images)
      ensures AuthRoutes.VerifyToken(header, verify).Reject? ==>
        r == Rejected(401) && rows == old(rows) && nextId == old(nextId)
      ensures AuthRoutes.VerifyToken(header, verify).Pass? && RowFromBody(b, now).None? ==>
        r == InsertFailed && rows == old(rows) && nextId == old(nextId)
      ensures AuthRoutes.VerifyToken(header, verify).Pass? && RowFromBody(b, now).Some? ==>
        && old(nextId) !in old(rows)
        && rows == old(rows)[old(nextId) := RowFromBody(b, now).value]
        && nextId == old(nextId) + 1
        && r == Created(old(nextId), b.(createdAt := Some(now)), now)
    {
      var gate := AuthRoutes.VerifyToken(header, verify);
      if gate.Reject? {
        return Rejected(gate.code);
      }
      var row := RowFromBody(b, now);
      if row.None? {
        return InsertFailed;
      }
      r := Created(nextId, b.(createdAt := Some(now)), now);
      rows := rows[nextId := row.value];
      nextId := nextId + 1;
    }

    /** `PUT /:id`: after `verifyToken`, 404 with nothing changed when the id
        is absent; otherwise only that row changes, to the body merged over it. */
    method Update(header: Option<string>, verify: string -> Verification, id: int, b: PropertyBody, now: int)
      returns (r: Response)
      requires Valid()
      modifies this
      ensures Valid() && images == old(images) && nextId == old(nextId)
      ensures AuthRoutes.VerifyToken(header, verify).Reject? ==> r == Rejected(401) && rows == old(rows)
      ensures AuthRoutes.VerifyToken(header, verify).Pass? && id !in old(rows) ==>
        r == NotFound && rows == old(rows)
      ensures AuthRoutes.VerifyToken(header, verify).Pass? && id in old(rows) ==>
        && rows == old(rows)[id := Merge(old(rows)[id], b, now)]
        && r == Updated(id, b, now)
    {
      var gate := AuthRoutes.VerifyToken(header, verify);
      if gate.Reject? {
        return Rejected(gate.code);
      }
      if id !in rows {
        return NotFound;
      }
      rows := rows[id := Merge(rows[id], b, now)];
      r := Updated(id, b, now);
    }

    /** `DELETE /:id`: after `verifyToken`, 404 with nothing changed when the
        id is absent; a property some image still names is refused by the
        foreign key, and the catch answers 500 with nothing changed;
        otherwise exactly that row goes. */
    method Delete(header: Option<string>, verify: string -> Verification, id: int) returns (r: Response)
      requires Valid()
      modifies this
      ensures Valid() && images == old(images) && nextId == old(nextId)
      ensures AuthRoutes.VerifyToken(header, verify).Reject? ==> r == Rejected(401) && rows == old(rows)
      ensures AuthRoutes.VerifyToken(header, verify).Pass? && id !in old(rows) ==>
        r == NotFound && rows == old(rows)
      ensures AuthRoutes.VerifyToken(header, verify).Pass? && id in old(rows) && Referenced(old(images), id) ==>
        r == DeleteFailed && rows == old(rows)
      ensures AuthRoutes.VerifyToken(header, verify).Pass? && id in old(rows) && !Referenced(old(images), id) ==>
        rows == old(rows) - {id} && r == Deleted(id)
    {
      var gate := AuthRoutes.VerifyToken(header, verify);
      if gate.Reject? {
        return Rejected(gate.code);
      }
      if id !in rows {
        return NotFound;
      }
      DeleteKeepsReferencesIff(images, rows, id);
      if exists image :: image in images && images[image].propertyId == id {
        return DeleteFailed;
      }
      rows := rows - {id};
      r := Deleted(id);
    }
  }
}
