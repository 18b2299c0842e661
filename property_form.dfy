/** client/src/components/properties/PropertyForm.tsx: the admin's property
    form. `validateForm` is an ordered chain of checks; the image list, the
    map location and the submit guard are component state. `URL.createObjectURL`
    and the submission itself are parameters. */
module PropertyForm {
  import opened Wrappers
  import Text
  import Validations

  /** The form fields (`PropertyFormData`), as numbers where the form keeps numbers. */
  datatype FormData = FormData(
    kind: string,
    listingType: string,
    name: string,
    location: string,
    propertyType: string,
    price: real,
    surface: real,
    construction: Option<real>,
    description: string,
    technicalSheet: Option<string>,
    latitude: real,
    longitude: real,
    status: string)

  datatype LatLng = LatLng(lat: real, lng: real)

  /** A picked file; only its identity matters here. */
  datatype File = File(name: string, size: nat)

  /** The check that failed, in the order `validateForm` runs them. */
  datatype FormError =
    | NoListingType
    | NoCategory
    | NameRequired
    | LocationRequired
    | NoPropertyType
    | PriceNotPositive
    | SurfaceNotPositive
    | ConstructionNotPositive
    | DescriptionRequired
    | TechnicalSheetRequired
    | NoMapLocation
  {
    function Message(): string {
      match this
      case NoListingType => "Debes seleccionar un tipo de operación (Venta/Renta)"
      case NoCategory => "Debes seleccionar una categoría de propiedad"
      case NameRequired => "El nombre de la propiedad es requerido"
      case LocationRequired => "La dirección es requerida"
      case NoPropertyType => "Debes seleccionar un tipo de propiedad"
      case PriceNotPositive => "El precio debe ser mayor a 0"
      case SurfaceNotPositive => "La superficie total debe ser mayor a 0"
      case ConstructionNotPositive => "El área construida debe ser mayor a 0"
      case DescriptionRequired => "La descripción general es requerida"
      case TechnicalSheetRequired => "La ficha técnica es requerida para propiedades industriales"
      case NoMapLocation => "Debes seleccionar una ubicación en el mapa"
    }
  }

  /** The form's initial state: an industrial sale with construction 0, an
      empty technical sheet and the default map centre. */
  const InitialForm := FormData("industrial", "sale", "", "", "", 0.0, 0.0, Some(0.0), "", Some(""),
                                19.4326, -99.1332, "active")

  /** `!s.trim()`: nothing but white space. */
  predicate Blank(s: string) {
    Text.Trim(s) == []
  }

  /** `!formData.technical_sheet?.trim()`: absent or blank. */
  predicate SheetMissing(sheet: Option<string>) {
    sheet.None? || Blank(sheet.value)
  }

  /** `validateForm`: the first failing check, or None when all pass. */
  function ValidateForm(f: FormData, selected: Option<LatLng>): Option<FormError> {
    if f.listingType == "" then Some(NoListingType)
    else if f.kind == "" then Some(NoCategory)
    else if Blank(f.name) then Some(NameRequired)
    else if Blank(f.location) then Some(LocationRequired)
    else if f.propertyType == "" then Some(NoPropertyType)
    else if f.price <= 0.0 then Some(PriceNotPositive)
    else if f.surface <= 0.0 then Some(SurfaceNotPositive)
    else if f.construction.Some? && f.construction.value <= 0.0 then Some(ConstructionNotPositive)
    else if Blank(f.description) then Some(DescriptionRequired)
    else if f.kind == "industrial" && SheetMissing(f.technicalSheet) then Some(TechnicalSheetRequired)
    else if selected.None? then Some(NoMapLocation)
    else None
  }

  /** The checks as a list of (passes, error) pairs in source order: the
      reference `validateForm` is measured against. */
  function Checks(f: FormData, selected: Option<LatLng>): seq<(bool, FormError)> {
    [ (f.listingType != "", NoListingType),
      (f.kind != "", NoCategory),
      (!Blank(f.name), NameRequired),
      (!Blank(f.location), LocationRequired),
      (f.propertyType != "", NoPropertyType),
      (f.price > 0.0, PriceNotPositive),
      (f.surface > 0.0, SurfaceNotPositive),
      (f.construction.None? || f.construction.value > 0.0, ConstructionNotPositive),
      (!Blank(f.description), DescriptionRequired),
      (f.kind != "industrial" || !SheetMissing(f.technicalSheet), TechnicalSheetRequired),
      (selected.Some?, NoMapLocation) ]
  }

  /** The error of the first check that fails. */
  function FirstFailure(checks: seq<(bool, FormError)>): (r: Option<FormError>)
    ensures r.None? <==> forall i :: 0 <= i < |checks| ==> checks[i].0
  {
    if checks == [] then None
    else if !checks[0].0 then Some(checks[0].1)
    else
      assert forall i :: 0 < i < |checks| ==> checks[i] == checks[1..][i - 1];
      FirstFailure(checks[1..])
  }

  /** The error found is that of a failing check all of whose predecessors pass. */
  lemma {:induction false} FirstFailureIndex(checks: seq<(bool, FormError)>) returns (i: nat)
    requires FirstFailure(checks).Some?
    ensures i < |checks| && !checks[i].0 && checks[i].1 == FirstFailure(checks).value
    ensures forall j :: 0 <= j < i ==> checks[j].0
  {
    if !checks[0].0 {
      i := 0;
    } else {
      var k := FirstFailureIndex(checks[1..]);
      i := k + 1;
      forall j | 0 <= j < i ensures checks[j].0 {
        if j > 0 { assert checks[j] == checks[1..][j - 1]; }
      }
    }
  }

  /** `validateForm` returns the message of the first failing check in source
      order, and null exactly when every check passes. */
  lemma ValidateFormIsFirstFailure(f: FormData, selected: Option<LatLng>)
    ensures ValidateForm(f, selected) == FirstFailure(Checks(f, selected))
    ensures ValidateForm(f, selected).None? <==>
      forall i :: 0 <= i < |Checks(f, selected)| ==> Checks(f, selected)[i].0
  {
    var c := Checks(f, selected);
    FirstFailureStep(c, 0); FirstFailureStep(c, 1); FirstFailureStep(c, 2); FirstFailureStep(c, 3);
    FirstFailureStep(c, 4); FirstFailureStep(c, 5); FirstFailureStep(c, 6); FirstFailureStep(c, 7);
    FirstFailureStep(c, 8); FirstFailureStep(c, 9); FirstFailureStep(c, 10);
    assert c[0..] == c && c[11..] == [];
  }

  /** One step of the search: a failing check ends it, a passing one moves on. */
  lemma FirstFailureStep(checks: seq<(bool, FormError)>, k: int)
    requires 0 <= k < |checks|
    ensures FirstFailure(checks[k..]) == if !checks[k].0 then Some(checks[k].1) else FirstFailure(checks[k + 1..])
  {
    assert checks[k..][1..] == checks[k + 1..];
  }

  /** When the form is refused, the message shown is that of a failing
      check, and every check before it passes. */
  lemma RefusalIsFirstFailingCheck(f: FormData, selected: Option<LatLng>) returns (i: nat)
    requires ValidateForm(f, selected).Some?
    ensures i < |Checks(f, selected)| && !Checks(f, selected)[i].0
    ensures Checks(f, selected)[i].1 == ValidateForm(f, selected).value
    ensures forall j :: 0 <= j < i ==> Checks(f, selected)[j].0
  {
    ValidateFormIsFirstFailure(f, selected);
    i := FirstFailureIndex(Checks(f, selected));
  }

  /** A blank name, location or description is refused; the name check comes
      before the location check, which comes before the description check. */
  lemma BlankFieldsRefused(f: FormData, selected: Option<LatLng>)
    requires f.listingType != "" && f.kind != ""
    ensures Text.IsBlank(f.name) ==> ValidateForm(f, selected) == Some(NameRequired)
    ensures !Text.IsBlank(f.name) && Text.IsBlank(f.location) ==> ValidateForm(f, selected) == Some(LocationRequired)
    ensures ValidateForm(f, selected).None? ==>
      !Text.IsBlank(f.name) && !Text.IsBlank(f.location) && !Text.IsBlank(f.description)
  {
    Text.TrimEmptyIffBlank(f.name);
    Text.TrimEmptyIffBlank(f.location);
    Text.TrimEmptyIffBlank(f.description);
  }

  /** construction is checked only when present, and a present 0 (the initial
      value) is refused once the earlier checks pass. */
  lemma ConstructionCheckedWhenPresent(f: FormData, selected: Option<LatLng>)
    ensures f.construction.None? ==> ValidateForm(f, selected) != Some(ConstructionNotPositive)
    ensures ValidateForm(f.(construction := Some(0.0)), selected).Some?
    ensures ValidateForm(f, selected).None? ==> f.construction.None? || f.construction.value > 0.0
  {
  }

  /** The technical sheet is demanded only of industrial properties. */
  lemma SheetOnlyForIndustrial(f: FormData, selected: Option<LatLng>)
    ensures f.kind != "industrial" ==> ValidateForm(f, selected) != Some(TechnicalSheetRequired)
    ensures f.kind == "industrial" && ValidateForm(f, selected).None? ==> !SheetMissing(f.technicalSheet)
  {
  }

  /** The initial form is refused, first for its empty name. */
  lemma InitialFormRefused(selected: Option<LatLng>)
    ensures ValidateForm(InitialForm, selected) == Some(NameRequired)
  {
    assert Text.Trim(InitialForm.name) == [];
  }

  /** The payload the form's fields make; the form has no local_size. */
  function FormToPayload(f: FormData): Validations.Payload {
    Validations.Payload(Some(f.kind), Some(f.listingType), Some(f.name), Some(f.location),
                        Some(f.propertyType), Some(f.price), Some(f.surface), Some(f.description),
                        Some(f.status), f.construction, f.technicalSheet, None)
  }

  /** The form is weaker than the schema: a form whose two-letter name passes
      every check is still rejected by the property schema. */
  lemma FormAcceptsShortName(f: FormData, selected: Option<LatLng>)
    requires ValidateForm(f, selected).None? && |f.name| < 3
    ensures Validations.Parse(FormToPayload(f)).None?
    ensures Validations.NameTooShort in Validations.Issues(FormToPayload(f))
      || Validations.Issues(FormToPayload(f)) == [Validations.InvalidDiscriminator]
  {
    var p := FormToPayload(f);
    Validations.ParseIffNoIssues(p);
    if Validations.ParseCategory(p.kind).Some? {
      assert Validations.NameTooShort in Validations.BaseIssues(p);
    }
  }

  /** A commercial form never yields a payload the schema accepts: the form
      has no local_size field and never checks it. */
  lemma CommercialFormNeverParses(f: FormData)
    requires f.kind == "commercial"
    ensures Validations.Parse(FormToPayload(f)).None?
  {
  }

  /** The schema is not stronger than the form either: three spaces are a
      valid name for the schema but a blank one for the form. */
  lemma SchemaAcceptsBlankName(f: FormData, selected: Option<LatLng>)
    requires f.name == "   " && f.listingType != "" && f.kind != ""
    ensures Validations.MinLength(Some(f.name), 3)
    ensures ValidateForm(f, selected) == Some(NameRequired)
  {
    BlankFieldsRefused(f, selected);
    assert Text.IsBlank(f.name) by {
      assert forall i :: 0 <= i < |f.name| ==> f.name[i] == ' ';
    }
  }

  /** `prev.filter((_, i) => i !== index)`, walking the list as `filter` does. */
  function Without<T>(s: seq<T>, index: int): (r: seq<T>)
    ensures 0 <= index < |s| ==> r == s[..index] + s[index + 1..]
    ensures !(0 <= index < |s|) ==> r == s
    decreases |s|
  {
    if s == [] then []
    else
      var rest := Without(s[1..], index - 1);
      if index == 0 then
        assert rest == s[1..];
        rest
      else
        assert s == [s[0]] + s[1..];
        [s[0]] + rest
  }

  /** Removing the same index from two lists that pair up element by element
      leaves lists that still pair up. */
  lemma WithoutKeepsPairs(images: seq<File>, urls: seq<string>, index: int, url: File -> string)
    requires |urls| == |images| && forall i :: 0 <= i < |images| ==> urls[i] == url(images[i])
    ensures |Without(urls, index)| == |Without(images, index)|
    ensures forall i :: 0 <= i < |Without(images, index)| ==> Without(urls, index)[i] == url(Without(images, index)[i])
  {
    if 0 <= index < |images| {
      var wi := images[..index] + images[index + 1..];
      var wu := urls[..index] + urls[index + 1..];
      assert Without(images, index) == wi && Without(urls, index) == wu;
      forall i | 0 <= i < |wi| ensures wu[i] == url(wi[i]) {
        if i < index {
          assert wi[i] == images[i] && wu[i] == urls[i];
        } else {
          assert wi[i] == images[i + 1] && wu[i] == urls[i + 1];
        }
      }
    }
  }

  /** The preview URL of each new file. */
  function Previews(files: seq<File>, url: File -> string): (r: seq<string>)
    ensures |r| == |files| && forall i :: 0 <= i < |files| ==> r[i] == url(files[i])
  {
    seq(|files|, i requires 0 <= i < |files| => url(files[i]))
  }

  /** The component state of the form. */
  class FormState {
    var form: FormData
    var selected: Option<LatLng>
    var images: seq<File>
    var previewUrls: seq<string>
    var error: Option<string>

    constructor ()
      ensures form == InitialForm && selected == None && images == [] && previewUrls == [] && error == None
    {
      form := InitialForm;
      selected := None;
      images := [];
      previewUrls := [];
      error := None;
    }

    /** Files and previews pair up: the preview at i is the URL of the image at i. */
    ghost predicate Paired(url: File -> string)
      reads this
    {
      |previewUrls| == |images| && forall i :: 0 <= i < |images| ==> previewUrls[i] == url(images[i])
    }

    /** `handleImageChange`: the picked files go after the existing ones, and
        their previews after the existing previews; no selection changes nothing. */
    method HandleImageChange(files: Option<seq<File>>, url: File -> string)
      modifies this
      ensures form == old(form) && selected == old(selected) && error == old(error)
      ensures files.None? ==> images == old(images) && previewUrls == old(previewUrls)
      ensures files.Some? ==> images == old(images) + files.value
      ensures files.Some? ==> previewUrls == old(previewUrls) + Previews(files.value, url)
      ensures old(Paired(url)) ==> Paired(url)
    {
      if files.Some? {
        images := images + files.value;
        previewUrls := previewUrls + Previews(files.value, url);
      }
    }

    /** `removeImage(index)`: exactly that position leaves both lists, and the rest keep their order. */
    method RemoveImage(index: int, url: File -> string)
      modifies this
      ensures form == old(form) && selected == old(selected) && error == old(error)
      ensures images == Without(old(images), index) && previewUrls == Without(old(previewUrls), index)
      ensures 0 <= index < |old(images)| ==> |images| == |old(images)| - 1
      ensures old(Paired(url)) ==> Paired(url)
    {
      if Paired(url) {
        WithoutKeepsPairs(images, previewUrls, index, url);
      }
      images := Without(images, index);
      previewUrls := Without(previewUrls, index);
    }

    /** `handleLocationSelect`: the marker and the form's coordinates become the same pair. */
    method HandleLocationSelect(lat: real, lng: real)
      modifies this
      ensures selected == Some(LatLng(lat, lng))
      ensures form == old(form).(latitude := lat, longitude := lng)
      ensures images == old(images) && previewUrls == old(previewUrls) && error == old(error)
    {
      selected := Some(LatLng(lat, lng));
      form := form.(latitude := lat, longitude := lng);
    }

    /** The guard at the head of `handleSubmit`: a failing check shows its
        message and sends nothing; otherwise the error is cleared and the
        form and images are handed to `send`. */
    method HandleSubmit() returns (sent: Option<(FormData, seq<File>)>)
      modifies this
      ensures form == old(form) && selected == old(selected)
      ensures images == old(images) && previewUrls == old(previewUrls)
      ensures ValidateForm(form, selected).Some? ==>
        sent.None? && error == Some(ValidateForm(form, selected).value.Message())
      ensures ValidateForm(form, selected).None? ==> sent == Some((form, images)) && error.None?
    {
      var e := ValidateForm(form, selected);
      if e.Some? {
        error := Some(e.value.Message());
        return None;
      }
      error := None;
      sent := Some((form, images));
    }
  }
}
