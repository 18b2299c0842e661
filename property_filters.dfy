/** client/src/components/properties/PropertyFilters.tsx: the filter panel.
    Each edit replaces one field of the stored filters and hands the new
    record to `onFilterChange`; the panel keeps the records it handed over. */
module PropertyFilters {
  import opened Listings

  /** The panel's initial filters for a page of the given property type. */
  function InitialFilters(kind: string): Filters {
    Filters(kind, "sale", "", "", Range(0.0, 999999999.0), Range(0.0, 999999.0))
  }

  /** The subtype options: the industrial list for an industrial page, the residential list otherwise. */
  function Subtypes(kind: string): seq<string> {
    if kind == "industrial" then IndustrialSubtypes else ResidentialSubtypes
  }

  lemma SubtypesChoice(kind: string)
    ensures Subtypes(kind) == IndustrialSubtypes <==> kind == "industrial"
    ensures Subtypes(kind) == ResidentialSubtypes <==> kind != "industrial"
  {
    assert IndustrialSubtypes[0] != ResidentialSubtypes[0];
  }

  datatype Field = KindField | ListingTypeField | LocationField | SubtypeField | PriceField | SurfaceField

  /** `handleChange(field, value)`, one constructor per field. */
  datatype Edit =
    | SetKind(kind: string)
    | SetListingType(listingType: string)
    | SetLocation(location: string)
    | SetSubtype(subtype: string)
    | SetPriceRange(priceRange: Range)
    | SetSurfaceRange(surfaceRange: Range)
  {
    function Field(): Field {
      match this
      case SetKind(_) => KindField
      case SetListingType(_) => ListingTypeField
      case SetLocation(_) => LocationField
      case SetSubtype(_) => SubtypeField
      case SetPriceRange(_) => PriceField
      case SetSurfaceRange(_) => SurfaceField
    }
  }

  /** `{ ...filters, [field]: value }`. */
  function Apply(f: Filters, e: Edit): Filters {
    match e
    case SetKind(v) => f.(kind := v)
    case SetListingType(v) => f.(listingType := v)
    case SetLocation(v) => f.(location := v)
    case SetSubtype(v) => f.(propertySubtype := v)
    case SetPriceRange(v) => f.(priceRange := v)
    case SetSurfaceRange(v) => f.(surfaceRange := v)
  }

  /** Two filter records agree on a field. */
  predicate SameField(a: Filters, b: Filters, field: Field) {
    match field
    case KindField => a.kind == b.kind
    case ListingTypeField => a.listingType == b.listingType
    case LocationField => a.location == b.location
    case SubtypeField => a.propertySubtype == b.propertySubtype
    case PriceField => a.priceRange == b.priceRange
    case SurfaceField => a.surfaceRange == b.surfaceRange
  }

  /** An edit replaces only the named field: the result agrees with the old
      record on every other field, and it differs from it nowhere else. */
  lemma ApplyChangesOnlyNamedField(f: Filters, e: Edit)
    ensures forall field :: field != e.Field() ==> SameField(Apply(f, e), f, field)
    ensures Apply(f, e) == f <==> SameField(Apply(f, e), f, e.Field())
  {
  }

  /** Editing one field twice keeps the last value; edits of different fields commute. */
  lemma EditsCompose(f: Filters, e1: Edit, e2: Edit)
    ensures e1.Field() == e2.Field() ==> Apply(Apply(f, e1), e2) == Apply(f, e2)
    ensures e1.Field() != e2.Field() ==> Apply(Apply(f, e1), e2) == Apply(Apply(f, e2), e1)
  {
  }

  /** The four number inputs. */
  datatype Bound = MinPrice | MaxPrice | MinSurface | MaxSurface

  /** The edit a number input sends: its range with one end replaced. */
  function BoundEdit(f: Filters, b: Bound, v: real): Edit {
    match b
    case MinPrice => SetPriceRange(f.priceRange.(min := v))
    case MaxPrice => SetPriceRange(f.priceRange.(max := v))
    case MinSurface => SetSurfaceRange(f.surfaceRange.(min := v))
    case MaxSurface => SetSurfaceRange(f.surfaceRange.(max := v))
  }

  /** Editing one end of a range keeps the other end and the other range. */
  lemma BoundEditKeepsOtherEnd(f: Filters, b: Bound, v: real)
    ensures var g := Apply(f, BoundEdit(f, b, v));
      && g.kind == f.kind && g.listingType == f.listingType
      && g.location == f.location && g.propertySubtype == f.propertySubtype
      && (b == MinPrice ==> g.priceRange == Range(v, f.priceRange.max) && g.surfaceRange == f.surfaceRange)
      && (b == MaxPrice ==> g.priceRange == Range(f.priceRange.min, v) && g.surfaceRange == f.surfaceRange)
      && (b == MinSurface ==> g.surfaceRange == Range(v, f.surfaceRange.max) && g.priceRange == f.priceRange)
      && (b == MaxSurface ==> g.surfaceRange == Range(f.surfaceRange.min, v) && g.priceRange == f.priceRange)
  {
  }

  class FilterPanel {
    var filters: Filters
    /** The records handed to `onFilterChange`, oldest first. */
    var notified: seq<Filters>

    constructor (kind: string)
      ensures filters == InitialFilters(kind) && notified == []
    {
      filters := InitialFilters(kind);
      notified := [];
    }

    /** The parent always holds what the panel shows, once anything was edited. */
    ghost predicate InSync()
      reads this
    {
      notified != [] ==> notified[|notified| - 1] == filters
    }

    /** `handleChange`: store the edited record and hand that same record to the parent. */
    method HandleChange(e: Edit)
      modifies this
      ensures filters == Apply(old(filters), e)
      ensures notified == old(notified) + [filters]
      ensures InSync()
    {
      filters := Apply(filters, e);
      notified := notified + [filters];
    }

    /** A number input's `onChange`. */
    method HandleBoundInput(b: Bound, v: real)
      modifies this
      ensures filters == Apply(old(filters), BoundEdit(old(filters), b, v))
      ensures (b == MinPrice || b == MaxPrice) ==> filters.surfaceRange == old(filters).surfaceRange
      ensures b == MinPrice ==> filters.priceRange.max == old(filters).priceRange.max
      ensures b == MaxPrice ==> filters.priceRange.min == old(filters).priceRange.min
      ensures b == MinSurface ==> filters.surfaceRange.max == old(filters).surfaceRange.max
      ensures b == MaxSurface ==> filters.surfaceRange.min == old(filters).surfaceRange.min
      ensures notified == old(notified) + [filters]
    {
      HandleChange(BoundEdit(filters, b, v));
    }
  }
}
