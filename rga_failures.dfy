/** The failure kinds of the attribution checker and the two command-line
    helpers that turn option values into sets of them. */
module RgaFailures {
  import opened Wrappers
  import opened RgaText

  /** ValidationFailure, in declaration order. */
  datatype ValidationFailure =
    | Unknown
    | Orphaned
    | InvalidFileEntry
    | CustomLicenseUnclarified
    | NonCommercialLicenseViolation
    | LicenseInvalid
    | SourceUnknown
    | SourceLicenseMismatch
    | AssetMissing
    | AssetDuplicateAttribution
    | AttributionsYmlMissing
    | Unattributed

  /** The member name, as `ValidationFailure[name]` looks it up. */
  function FailureName(f: ValidationFailure): string {
    match f
    case Unknown => "UNKNOWN"
    case Orphaned => "ORPHANED"
    case InvalidFileEntry => "INVALID_FILE_ENTRY"
    case CustomLicenseUnclarified => "CUSTOM_LICENSE_UNCLARIFIED"
    case NonCommercialLicenseViolation => "NON_COMMERCIAL_LICENSE_VIOLATION"
    case LicenseInvalid => "LICENSE_INVALID"
    case SourceUnknown => "SOURCE_UNKNOWN"
    case SourceLicenseMismatch => "SOURCE_LICENSE_MISMATCH"
    case AssetMissing => "ASSET_MISSING"
    case AssetDuplicateAttribution => "ASSET_DUPLICATE_ATTRIBUTION"
    case AttributionsYmlMissing => "ATTRIBUTIONS_YML_MISSING"
    case Unattributed => "UNATTRIBUTED"
  }

  /** `ValidationFailure[name]`: the kind with that exact name, or None where
      Python raises KeyError. */
  function FailureFromName(name: string): (r: Option<ValidationFailure>)
    ensures r.Some? ==> FailureName(r.value) == name
  {
    if name == "UNKNOWN" then Some(Unknown)
    else if name == "ORPHANED" then Some(Orphaned)
    else if name == "INVALID_FILE_ENTRY" then Some(InvalidFileEntry)
    else if name == "CUSTOM_LICENSE_UNCLARIFIED" then Some(CustomLicenseUnclarified)
    else if name == "NON_COMMERCIAL_LICENSE_VIOLATION" then Some(NonCommercialLicenseViolation)
    else if name == "LICENSE_INVALID" then Some(LicenseInvalid)
    else if name == "SOURCE_UNKNOWN" then Some(SourceUnknown)
    else if name == "SOURCE_LICENSE_MISMATCH" then Some(SourceLicenseMismatch)
    else if name == "ASSET_MISSING" then Some(AssetMissing)
    else if name == "ASSET_DUPLICATE_ATTRIBUTION" then Some(AssetDuplicateAttribution)
    else if name == "ATTRIBUTIONS_YML_MISSING" then Some(AttributionsYmlMissing)
    else if name == "UNATTRIBUTED" then Some(Unattributed)
    else None
  }

  /** Every kind is found again by its name, so no two kinds share one. */
  lemma FailureNamesRoundTrip()
    ensures forall f :: FailureFromName(FailureName(f)) == Some(f)
  {
    forall f: ValidationFailure ensures FailureFromName(FailureName(f)) == Some(f) {
      match f
      case Unknown =>
      case Orphaned =>
      case InvalidFileEntry =>
      case CustomLicenseUnclarified =>
      case NonCommercialLicenseViolation =>
      case LicenseInvalid =>
      case SourceUnknown =>
      case SourceLicenseMismatch =>
      case AssetMissing =>
      case AssetDuplicateAttribution =>
      case AttributionsYmlMissing =>
      case Unattributed =>
    }
  }

  /** `set(ValidationFailure)`: every kind. */
  const AllFailures: set<ValidationFailure> := {
    Unknown, Orphaned, InvalidFileEntry, CustomLicenseUnclarified, NonCommercialLicenseViolation,
    LicenseInvalid, SourceUnknown, SourceLicenseMismatch, AssetMissing, AssetDuplicateAttribution,
    AttributionsYmlMissing, Unattributed
  }

  /** The set holds every kind. */
  lemma AllFailuresComplete()
    ensures forall f: ValidationFailure :: f in AllFailures
  {
    forall f: ValidationFailure ensures f in AllFailures {
      match f
      case Unknown =>
      case Orphaned =>
      case InvalidFileEntry =>
      case CustomLicenseUnclarified =>
      case NonCommercialLicenseViolation =>
      case LicenseInvalid =>
      case SourceUnknown =>
      case SourceLicenseMismatch =>
      case AssetMissing =>
      case AssetDuplicateAttribution =>
      case AttributionsYmlMissing =>
      case Unattributed =>
    }
  }

  /** `[ValidationFailure[v] for v in names]`: the kinds in order, or the
      first name that is no kind's name. */
  function ParseNames(names: seq<string>): (r: Result<seq<ValidationFailure>, string>)
    ensures r.Ok? <==> forall i :: 0 <= i < |names| ==> FailureFromName(names[i]).Some?
    ensures r.Ok? ==> |r.value| == |names| && forall i :: 0 <= i < |names| ==> FailureName(r.value[i]) == names[i]
    ensures r.Err? ==> exists i :: 0 <= i < |names| && names[i] == r.error && FailureFromName(names[i]).None? &&
                                   forall j :: 0 <= j < i ==> FailureFromName(names[j]).Some?
    decreases |names|
  {
    if names == [] then Ok([])
    else
      match FailureFromName(names[0])
      case None => Err(names[0])
      case Some(f) =>
        match ParseNames(names[1..])
        case Err(bad) => Err(bad)
        case Ok(rest) => Ok([f] + rest)
  }

  /** The error `validation_enum` raises for a name that is no kind's. */
  datatype ArgumentTypeError = InvalidValidationEnumValue(name: string)

  /** `validation_enum`: the comma-separated names as a set of kinds, or the
      error naming the first unknown one. */
  function ValidationEnum(validations: string): (r: Result<set<ValidationFailure>, ArgumentTypeError>)
    ensures r.Ok? <==> forall p :: p in Split(validations) ==> FailureFromName(p).Some?
    ensures r.Ok? ==> forall f :: f in r.value <==> FailureName(f) in Split(validations)
    ensures r.Err? ==> r.error.name in Split(validations) && FailureFromName(r.error.name).None?
    ensures r.Err? ==> exists i :: 0 <= i < |Split(validations)| && Split(validations)[i] == r.error.name &&
                                   forall j :: 0 <= j < i ==> FailureFromName(Split(validations)[j]).Some?
  {
    FailureNamesRoundTrip();
    var pieces := Split(validations);
    match ParseNames(pieces)
    case Err(bad) => Err(InvalidValidationEnumValue(bad))
    case Ok(kinds) =>
      assert forall f :: f in kinds ==> FailureName(f) in pieces;
      assert forall i :: 0 <= i < |pieces| ==> FailureFromName(pieces[i]) == Some(kinds[i]);
      Ok(set f | f in kinds)
  }

  /** `ExtendSetAction.__call__` on the value it stores: the previous set
      (empty when unset) joined with the new values; no values means every kind. */
  function ExtendSet(previous: Option<set<ValidationFailure>>, values: Option<set<ValidationFailure>>): (r: set<ValidationFailure>)
    ensures forall f :: f in r <==> (previous.Some? && f in previous.value) || values.None? || f in values.value
  {
    AllFailuresComplete();
    previous.GetOr({}) + values.GetOr(AllFailures)
  }

  /** Repeating an option adds nothing more, and an option never drops
      what earlier ones stored. */
  lemma ExtendSetIdempotent(previous: Option<set<ValidationFailure>>, values: Option<set<ValidationFailure>>)
    ensures ExtendSet(Some(ExtendSet(previous, values)), values) == ExtendSet(previous, values)
    ensures previous.Some? ==> previous.value <= ExtendSet(previous, values)
  {
  }

  /** The parser namespace, reduced to the attributes these options store. */
  class Namespace {
    /** Attribute name to stored set; a missing name reads as None. */
    var attributes: map<string, set<ValidationFailure>>

    constructor ()
      ensures attributes == map[]
    {
      attributes := map[];
    }

    /** `getattr(namespace, dest)`, None when never set. */
    function Get(dest: string): Option<set<ValidationFailure>>
      reads this
    {
      if dest in attributes then Some(attributes[dest]) else None
    }
  }

  /** ExtendSetAction called for the option stored under `dest`. */
  method ExtendSetAction(namespace: Namespace, dest: string, values: Option<set<ValidationFailure>>)
    modifies namespace
    ensures namespace.attributes == old(namespace.attributes)[dest := ExtendSet(old(namespace.Get(dest)), values)]
  {
    var previous := namespace.Get(dest);
    if previous.None? {
      previous := Some({});
    }
    var given := values;
    if given.None? {
      given := Some(AllFailures);
    }
    namespace.attributes := namespace.attributes[dest := previous.value + given.value];
  }
}
