/** The property payload schema of shared/validations.ts: a shared base of
    field rules, extended per category, and a union that dispatches on the
    `type` field. */
module Validations {
  import opened Wrappers

  datatype Category = Industrial | Commercial | Residential
  datatype ListingType = Sale | Rent
  datatype Status = Active | Inactive | Sold | Rented

  /** A request body as received. Every field may be absent; `images` is
      accepted in any form and is not represented. */
  datatype Payload = Payload(
    kind: Option<string>,
    listingType: Option<string>,
    name: Option<string>,
    location: Option<string>,
    propertyType: Option<string>,
    price: Option<real>,
    surface: Option<real>,
    description: Option<string>,
    status: Option<string>,
    construction: Option<real>,
    technicalSheet: Option<string>,
    localSize: Option<string>)

  /** The fields every category shares, after parsing. */
  datatype Base = Base(
    listingType: ListingType,
    name: string,
    location: string,
    propertyType: string,
    price: real,
    surface: real,
    description: string,
    status: Status)

  /** The parsed output: one variant per category, holding only the fields its
      schema declares (unknown keys are stripped). */
  datatype PropertyData =
    | IndustrialData(base: Base, construction: real, technicalSheet: string)
    | CommercialData(base: Base, localSize: string, optionalConstruction: Option<real>)
    | ResidentialData(base: Base, construction: real)
  {
    function Category(): Category {
      match this
      case IndustrialData(_, _, _) => Industrial
      case CommercialData(_, _, _) => Commercial
      case ResidentialData(_, _) => Residential
    }
  }

  /** The rule a payload breaks, one per schema field check. */
  datatype Issue =
    | InvalidDiscriminator
    | InvalidListingType
    | NameTooShort
    | LocationTooShort
    | PropertyTypeTooShort
    | PriceNotPositive
    | SurfaceNotPositive
    | DescriptionTooShort
    | InvalidStatus
    | ConstructionNotPositive
    | TechnicalSheetRequired
    | LocalSizeRequired

  function CategoryName(c: Category): string {
    match c
    case Industrial => "industrial"
    case Commercial => "commercial"
    case Residential => "residential"
  }

  function ListingTypeName(t: ListingType): string {
    match t
    case Sale => "sale"
    case Rent => "rent"
  }

  function StatusName(s: Status): string {
    match s
    case Active => "active"
    case Inactive => "inactive"
    case Sold => "sold"
    case Rented => "rented"
  }

  function ParseCategory(s: Option<string>): Option<Category> {
    if s == Some("industrial") then Some(Industrial)
    else if s == Some("commercial") then Some(Commercial)
    else if s == Some("residential") then Some(Residential)
    else None
  }

  function ParseListingType(s: Option<string>): Option<ListingType> {
    if s == Some("sale") then Some(Sale)
    else if s == Some("rent") then Some(Rent)
    else None
  }

  /** `z.enum(PropertyStatus).default('active')`: an absent status becomes `active`. */
  function ParseStatus(s: Option<string>): Option<Status> {
    match s
    case None => Some(Active)
    case Some(v) =>
      if v == "active" then Some(Active)
      else if v == "inactive" then Some(Inactive)
      else if v == "sold" then Some(Sold)
      else if v == "rented" then Some(Rented)
      else None
  }

  /** `z.string().min(n)`. */
  predicate MinLength(s: Option<string>, n: nat) {
    s.Some? && |s.value| >= n
  }

  /** `z.number().positive()`. */
  predicate Positive(x: Option<real>) {
    x.Some? && x.value > 0.0
  }

  /** `z.number().positive().optional()`. */
  predicate OptionalPositive(x: Option<real>) {
    x.None? || x.value > 0.0
  }

  function Check(ok: bool, issue: Issue): seq<Issue> {
    if ok then [] else [issue]
  }

  /** The issues of the shared base, in field declaration order. */
  function BaseIssues(p: Payload): seq<Issue> {
    Check(ParseListingType(p.listingType).Some?, InvalidListingType)
    + Check(MinLength(p.name, 3), NameTooShort)
    + Check(MinLength(p.location, 5), LocationTooShort)
    + Check(MinLength(p.propertyType, 3), PropertyTypeTooShort)
    + Check(Positive(p.price), PriceNotPositive)
    + Check(Positive(p.surface), SurfaceNotPositive)
    + Check(MinLength(p.description, 10), DescriptionTooShort)
    + Check(ParseStatus(p.status).Some?, InvalidStatus)
  }

  /** The issues of the fields a category's schema adds to the base. */
  function VariantIssues(c: Category, p: Payload): seq<Issue> {
    match c
    case Industrial =>
      Check(Positive(p.construction), ConstructionNotPositive)
      + Check(MinLength(p.technicalSheet, 1), TechnicalSheetRequired)
    case Commercial =>
      Check(MinLength(p.localSize, 1), LocalSizeRequired)
      + Check(OptionalPositive(p.construction), ConstructionNotPositive)
    case Residential =>
      Check(Positive(p.construction), ConstructionNotPositive)
  }

  /** Every issue `propertySchema` reports: an unknown `type` is reported
      alone; otherwise the base issues, then those of the selected variant. */
  function Issues(p: Payload): seq<Issue> {
    match ParseCategory(p.kind)
    case None => [InvalidDiscriminator]
    case Some(c) => BaseIssues(p) + VariantIssues(c, p)
  }

  /** `propertySchema.safeParse`: the parsed property, or nothing. */
  function Parse(p: Payload): Option<PropertyData> {
    var category := ParseCategory(p.kind);
    var listing := ParseListingType(p.listingType);
    var status := ParseStatus(p.status);
    if category.None? || listing.None? || status.None?
       || !MinLength(p.name, 3) || !MinLength(p.location, 5) || !MinLength(p.propertyType, 3)
       || !Positive(p.price) || !Positive(p.surface) || !MinLength(p.description, 10)
    then None
    else
      var base := Base(listing.value, p.name.value, p.location.value, p.propertyType.value,
                       p.price.value, p.surface.value, p.description.value, status.value);
      match category.value
      case Industrial =>
        if Positive(p.construction) && MinLength(p.technicalSheet, 1)
        then Some(IndustrialData(base, p.construction.value, p.technicalSheet.value))
        else None
      case Commercial =>
        if MinLength(p.localSize, 1) && OptionalPositive(p.construction)
        then Some(CommercialData(base, p.localSize.value, p.construction))
        else None
      case Residential =>
        if Positive(p.construction)
        then Some(ResidentialData(base, p.construction.value))
        else None
  }

  /** The invariant every parsed property satisfies. */
  predicate WellFormed(d: PropertyData) {
    && |d.base.name| >= 3 && |d.base.location| >= 5 && |d.base.propertyType| >= 3
    && d.base.price > 0.0 && d.base.surface > 0.0 && |d.base.description| >= 10
    && match d
       case IndustrialData(_, construction, sheet) => construction > 0.0 && |sheet| >= 1
       case CommercialData(_, localSize, construction) =>
         |localSize| >= 1 && (construction.None? || construction.value > 0.0)
       case ResidentialData(_, construction) => construction > 0.0
  }

  /** The body a client sends for a parsed property. */
  function ToPayload(d: PropertyData): Payload {
    var b := d.base;
    var common := Payload(Some(CategoryName(d.Category())), Some(ListingTypeName(b.listingType)),
                          Some(b.name), Some(b.location), Some(b.propertyType), Some(b.price),
                          Some(b.surface), Some(b.description), Some(StatusName(b.status)),
                          None, None, None);
    match d
    case IndustrialData(_, construction, sheet) =>
      common.(construction := Some(construction), technicalSheet := Some(sheet))
    case CommercialData(_, localSize, construction) =>
      common.(construction := construction, localSize := Some(localSize))
    case ResidentialData(_, construction) => common.(construction := Some(construction))
  }

  /** A payload parses exactly when the schema reports no issue. */
  lemma ParseIffNoIssues(p: Payload)
    ensures Parse(p).Some? <==> Issues(p) == []
  {
  }

  /** What an accepted payload satisfies: the base rules of lines 12-18 and
      its category's own rules; the parsed fields are the payload's. */
  lemma ParsedIsWellFormed(p: Payload)
    requires Parse(p).Some?
    ensures WellFormed(Parse(p).value)
    ensures ParseCategory(p.kind) == Some(Parse(p).value.Category())
    ensures var b := Parse(p).value.base;
      && Some(b.name) == p.name && Some(b.location) == p.location
      && Some(b.propertyType) == p.propertyType && Some(b.price) == p.price
      && Some(b.surface) == p.surface && Some(b.description) == p.description
      && Some(ListingTypeName(b.listingType)) == p.listingType
  {
  }

  /** Parsing the body sent for a well-formed property gives the property back. */
  lemma ParseToPayload(d: PropertyData)
    requires WellFormed(d)
    ensures Parse(ToPayload(d)) == Some(d)
  {
    match d
    case IndustrialData(b, _, _) =>
      assert ParseListingType(Some(ListingTypeName(b.listingType))) == Some(b.listingType);
      assert ParseStatus(Some(StatusName(b.status))) == Some(b.status);
    case CommercialData(b, _, _) =>
      assert ParseListingType(Some(ListingTypeName(b.listingType))) == Some(b.listingType);
      assert ParseStatus(Some(StatusName(b.status))) == Some(b.status);
    case ResidentialData(b, _) =>
      assert ParseListingType(Some(ListingTypeName(b.listingType))) == Some(b.listingType);
      assert ParseStatus(Some(StatusName(b.status))) == Some(b.status);
  }

  /** An absent status is accepted as `active`; a status outside the four
      values is rejected, and so is a listing type other than sale or rent. */
  lemma StatusDefaultsToActive(p: Payload)
    ensures p.status.None? && Parse(p).Some? ==> Parse(p).value.base.status == Active
    ensures p.status.Some? && p.status.value !in {"active", "inactive", "sold", "rented"} ==> Parse(p).None?
    ensures p.listingType.Some? && p.listingType.value !in {"sale", "rent"} ==> Parse(p).None?
  {
  }

  /** Dispatch: a payload whose `type` is not one of the three tags is
      rejected with that one issue. */
  lemma UnknownTypeRejected(p: Payload)
    requires ParseCategory(p.kind).None?
    ensures Parse(p).None? && Issues(p) == [InvalidDiscriminator]
  {
  }

  /** An industrial payload passes iff the base passes, construction is
      positive and the technical sheet is non-empty. */
  lemma IndustrialRules(p: Payload)
    requires p.kind == Some("industrial")
    ensures Parse(p).Some? <==>
      BaseIssues(p) == [] && Positive(p.construction) && MinLength(p.technicalSheet, 1)
  {
  }

  /** A commercial payload passes iff the base passes, local_size is
      non-empty and construction, when present, is positive. */
  lemma CommercialRules(p: Payload)
    requires p.kind == Some("commercial")
    ensures Parse(p).Some? <==>
      BaseIssues(p) == [] && MinLength(p.localSize, 1)
      && (p.construction.None? || p.construction.value > 0.0)
  {
  }

  /** A residential payload passes iff the base passes and construction is positive. */
  lemma ResidentialRules(p: Payload)
    requires p.kind == Some("residential")
    ensures Parse(p).Some? <==> BaseIssues(p) == [] && Positive(p.construction)
  {
  }

  /** Each tag is checked only against its own variant: the fields another
      variant adds do not change the outcome. */
  lemma OtherVariantsIgnored(p: Payload, sheet: Option<string>, localSize: Option<string>)
    ensures p.kind != Some("commercial") ==> Parse(p.(localSize := localSize)) == Parse(p)
    ensures p.kind != Some("industrial") ==> Parse(p.(technicalSheet := sheet)) == Parse(p)
  {
  }
}
