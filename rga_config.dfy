/** The licensing configuration read from `licensing.yml`. */
module RgaConfig {
  import opened Wrappers
  import opened RgaFailures

  /** The keys of a parsed `licensing.yml` mapping; None where a key is absent. */
  datatype ConfigData = ConfigData(
    projectIsNonCommercial: Option<bool>,
    ignoreChecks: Option<seq<string>>,
    invalidLicenses: Option<seq<string>>)

  /** LicensingConfig. `listUnattributedStats` is never read from the file. */
  datatype LicensingConfig = LicensingConfig(
    nonCommercial: bool,
    ignoredValidation: set<ValidationFailure>,
    invalidLicenses: seq<string>,
    listUnattributedStats: bool)

  /** What `LicensingConfig.__init__` raises: ValueError for a document that is
      not a mapping, KeyError for an ignored check with no such kind. */
  datatype ConfigError = InvalidConfiguration | UnknownCheck(name: string)

  /** `LicensingConfig(config_data)`; None stands for a document that is not a
      mapping. Absent keys take the strict defaults: commercial, nothing
      ignored, no license invalid. */
  function MakeConfig(data: Option<ConfigData>): (r: Result<LicensingConfig, ConfigError>)
    ensures data.None? ==> r == Err(InvalidConfiguration)
    ensures r.Ok? ==>
      (data.Some? &&
       r.value.nonCommercial == (data.value.projectIsNonCommercial == Some(true)) &&
       r.value.invalidLicenses == data.value.invalidLicenses.GetOr([]) &&
       !r.value.listUnattributedStats)
    ensures r.Ok? ==> forall f :: f in r.value.ignoredValidation <==> FailureName(f) in data.value.ignoreChecks.GetOr([])
    ensures data.Some? && r.Err? ==>
      (r.error.UnknownCheck? && r.error.name in data.value.ignoreChecks.GetOr([]) &&
       FailureFromName(r.error.name).None?)
  {
    match data
    case None => Err(InvalidConfiguration)
    case Some(d) => ConfigFrom(d)
  }

  /** The mapping case of `LicensingConfig.__init__`. */
  function ConfigFrom(d: ConfigData): (r: Result<LicensingConfig, ConfigError>)
    ensures r.Ok? ==>
      (r.value.nonCommercial == (d.projectIsNonCommercial == Some(true)) &&
       r.value.invalidLicenses == d.invalidLicenses.GetOr([]) &&
       !r.value.listUnattributedStats)
    ensures r.Ok? ==> forall f :: f in r.value.ignoredValidation <==> FailureName(f) in d.ignoreChecks.GetOr([])
    ensures r.Err? ==>
      (r.error.UnknownCheck? && r.error.name in d.ignoreChecks.GetOr([]) && FailureFromName(r.error.name).None?)
  {
    var ignoring := d.ignoreChecks.GetOr([]);
    match ParseNames(ignoring)
    case Err(bad) => Err(UnknownCheck(bad))
    case Ok(kinds) =>
      var ignored := set f | f in kinds;
      ParsedKinds(ignoring, kinds, ignored);
      var nonCommercial := match d.projectIsNonCommercial
        case Some(flag) => flag
        case None => false;
      Ok(LicensingConfig(nonCommercial, ignored, d.invalidLicenses.GetOr([]), false))
  }

  /** The parsed kinds are exactly those whose names were listed. */
  lemma ParsedKinds(names: seq<string>, kinds: seq<ValidationFailure>, ignored: set<ValidationFailure>)
    requires ParseNames(names) == Ok(kinds)
    requires forall f :: f in ignored <==> f in kinds
    ensures forall f :: f in ignored <==> FailureName(f) in names
  {
    FailureNamesRoundTrip();
    assert forall i :: 0 <= i < |names| ==> FailureFromName(names[i]) == Some(kinds[i]);
  }

  /** Without a `licensing.yml` the checker uses `LicensingConfig({})`. */
  lemma DefaultConfigIsStrict()
    ensures MakeConfig(Some(ConfigData(None, None, None))) == Ok(LicensingConfig(false, {}, [], false))
  {
    var r := MakeConfig(Some(ConfigData(None, None, None)));
    assert ParseNames([]) == Ok([]);
    assert r.Ok?;
    assert forall f :: f !in r.value.ignoredValidation;
    assert r.value.ignoredValidation == {};
  }
}
