/** LicensingValidation: the object that draws conclusions from a directory
    scan. Its methods change its fields step by step, as the checker does, and
    each is proved to leave the state its specification function in
    rga_validation.dfy describes. */
module RgaValidator {
  import opened Wrappers
  import opened RgaText
  import opened RgaFailures
  import opened RgaConfig
  import opened RgaValidation

  /** The configuration `__init__` sets up: from `licensing.yml` when the scan
      found one (its parsed document, None when it is not a mapping), the
      strict default otherwise. */
  function InitialConfig(licensingYml: Option<Option<ConfigData>>): (r: Result<LicensingConfig, ConfigError>)
    ensures licensingYml.None? ==> r == Ok(LicensingConfig(false, {}, [], false))
    ensures licensingYml.Some? ==> r == MakeConfig(licensingYml.value)
  {
    DefaultConfigIsStrict();
    match licensingYml
    case None => MakeConfig(Some(ConfigData(None, None, None)))
    case Some(document) => MakeConfig(document)
  }

  /** The license check of one matching known source. */
  method ComputeLicenseMismatch(allowed: AllowedLicenses, license: string) returns (mismatch: bool)
    ensures mismatch == LicenseMismatch(allowed, license)
  {
    mismatch := true;
    match allowed {
      case AnyOf(ls) =>
        var k := 0;
        while k < |ls|
          invariant 0 <= k <= |ls|
          invariant mismatch == !(exists j :: 0 <= j < k && ls[j] == license)
        {
          if ls[k] == license {
            mismatch := false;
          }
          k := k + 1;
        }
      case Exactly(l) =>
        if l == license {
          mismatch := false;
        }
    }
    if allowed == Exactly("*") {
      mismatch := false;
    }
  }

  /** The loop of record_failure that wraps every item into details. */
  method DetailItems(items: seq<Entry>, relevant: Path) returns (detailed: seq<Entry>)
    ensures detailed == Detailed(items, Some(relevant))
  {
    detailed := [];
    var i := 0;
    while i < |items|
      invariant 0 <= i <= |items|
      invariant |detailed| == i
      invariant forall j :: 0 <= j < i ==> detailed[j] == Details(items[j], relevant)
    {
      detailed := detailed + [Details(items[i], relevant)];
      i := i + 1;
    }
  }

  /** The misuse flag of an entry, decided as the checker does. */
  method ComputeMisuse(config: LicensingConfig, a: Attribution) returns (misuse: bool)
    ensures misuse == NonCommercialMisuse(config, a)
  {
    misuse := false;
    if !config.nonCommercial {
      if Contains(a.license, "-NC-") {
        misuse := true;
      }
      if a.license == "Custom" {
        misuse := a.commercialUseAllowed.None? || a.commercialUseAllowed == Some(false);
      }
    }
  }

  /** A source is known after k+1 rows when it was after k or row k matches. */
  lemma SourceKnownStep(sources: seq<KnownSource>, source: string, k: nat)
    requires k < |sources|
    ensures SourceKnown(sources[..k + 1], source) <==> SourceKnown(sources[..k], source) || SourceMatches(sources[k], source)
  {
    if SourceKnown(sources[..k + 1], source) && !SourceMatches(sources[k], source) {
      var i :| 0 <= i < k + 1 && SourceMatches(sources[..k + 1][i], source);
      assert sources[..k][i] == sources[i];
    }
    if SourceKnown(sources[..k], source) {
      var i :| 0 <= i < k && SourceMatches(sources[..k][i], source);
      assert sources[..k + 1][i] == sources[i];
    }
    if SourceMatches(sources[k], source) {
      assert sources[..k + 1][k] == sources[k];
    }
  }

  /** The counting loop of `check()` on the validation's state: each asset
      adds one to its folder's total and, when no attribution describes it, is
      collected and counted as unattributed, its folder joining the order at
      its first such asset. */
  method CountPass(s: Snapshot, scanned: seq<Path>) returns (t: Snapshot)
    ensures t == Counted(s, scanned)
  {
    var assets := s.unattributedAssets;
    var totals := s.assetFoldersCount;
    var counts := s.unattributedFoldersCount;
    var order := s.unattributedFolderOrder;
    var k := 0;
    while k < |scanned|
      invariant 0 <= k <= |scanned|
      invariant s.(unattributedAssets := assets, assetFoldersCount := totals,
                   unattributedFoldersCount := counts, unattributedFolderOrder := order) == Counted(s, scanned[..k])
    {
      var asset := scanned[k];
      var parent := Parent(asset);
      assert scanned[..k + 1] == scanned[..k] + [asset];
      CountedSnoc(s, scanned[..k], asset);
      totals := totals[parent := Count(totals, parent) + 1];
      if asset !in s.attributionDict {
        counts := counts[parent := Count(counts, parent) + 1];
        if parent !in order {
          order := order + [parent];
        }
        assets := assets + [asset];
      }
      k := k + 1;
    }
    assert scanned[..k] == scanned;
    t := s.(unattributedAssets := assets, assetFoldersCount := totals,
            unattributedFoldersCount := counts, unattributedFolderOrder := order);
  }

  /** `LicensingValidation(scan)`: the configuration `__init__` reads, and a
      fresh validation over it; the error `LicensingConfig` raises otherwise. */
  method NewLicensingValidation(scan: LicensingScan, licensingYml: Option<Option<ConfigData>>, existing: set<Path>)
    returns (r: Result<LicensingValidation, ConfigError>)
    requires AttributionsNamed(scan)
    ensures r.Err? <==> InitialConfig(licensingYml).Err?
    ensures r.Err? ==> r.error == InitialConfig(licensingYml).error
    ensures r.Ok? ==> fresh(r.value) && r.value.config == InitialConfig(licensingYml).value
    ensures r.Ok? ==> r.value.scan == scan && r.value.existing == existing
    ensures r.Ok? ==> r.value.State() == Snapshot(map[], [], map[], map[], [], map[]) && r.value.Valid()
  {
    var config := InitialConfig(licensingYml);
    match config {
      case Err(e) =>
        r := Err(e);
      case Ok(c) =>
        var v := new LicensingValidation(scan, c, existing);
        r := Ok(v);
    }
  }

  class LicensingValidation {
    /** What the directory scan found. */
    const scan: LicensingScan
    const config: LicensingConfig
    /** The paths that exist on disk, for `exists()`. */
    const existing: set<Path>

    /** `attribution_dict`: each attributed asset to its file's whole entry list. */
    var attributionDict: map<Path, seq<Attribution>>
    var unattributedAssets: seq<Path>
    var assetFoldersCount: map<Path, int>
    var unattributedFoldersCount: map<Path, int>
    /** The insertion order of `unattributed_folders_count`, in which `check()` visits it. */
    var unattributedFolderOrder: seq<Path>
    var failures: Failures

    function State(): Snapshot
      reads this
    {
      Snapshot(attributionDict, unattributedAssets, assetFoldersCount, unattributedFoldersCount,
               unattributedFolderOrder, failures)
    }

    /** The scan only lists files named `attributions.yml`, and the folder
        counters keep their bounds and order. */
    ghost predicate Valid()
      reads this
    {
      AttributionsNamed(scan) && FolderBound(State()) && OrderMatchesKeys(State())
    }

    /** A fresh validation, everything empty. */
    constructor (scan: LicensingScan, config: LicensingConfig, existing: set<Path>)
      requires AttributionsNamed(scan)
      ensures this.scan == scan && this.config == config && this.existing == existing
      ensures State() == Snapshot(map[], [], map[], map[], [], map[])
      ensures Valid()
    {
      this.scan := scan;
      this.config := config;
      this.existing := existing;
      attributionDict := map[];
      unattributedAssets := [];
      assetFoldersCount := map[];
      unattributedFoldersCount := map[];
      unattributedFolderOrder := [];
      failures := map[];
    }

    /** `record_failure(kind, files, relevant)` */
    method RecordFailure(kind: ValidationFailure, files: Items, relevant: Option<Path>)
      modifies this`failures
      ensures failures == Recorded(old(failures), kind, files, relevant)
    {
      var items := ItemList(files);
      if relevant.Some? {
        items := DetailItems(items, relevant.value);
      }
      assert items == Detailed(ItemList(files), relevant);
      var listed := if kind in failures then failures[kind] else [];
      assert listed == Listed(failures, kind);
      failures := failures[kind := listed + items];
    }

    /** The misuse and invalid-license records of one file. */
    method RecordFileChecks(filepath: Path, file: string, misuse: bool, licenseInvalid: bool)
      modifies this`failures
      ensures failures == FileChecks(old(failures), file, filepath, misuse, licenseInvalid)
    {
      if misuse {
        RecordFailure(NonCommercialLicenseViolation, Single(Text(file)), Some(filepath));
      }
      if licenseInvalid {
        RecordFailure(LicenseInvalid, Single(Text(file)), Some(filepath));
      }
    }

    /** Attributing one named asset, or recording it missing. */
    method AttributeAsset(filepath: Path, file: string, asset: Path, data: seq<Attribution>)
      modifies this`failures, this`attributionDict
      ensures Ledger(failures, attributionDict) ==
              AssetStep(old(Ledger(failures, attributionDict)), asset, file, filepath, data, existing)
    {
      if asset in existing {
        if asset in attributionDict {
          RecordFailure(AssetDuplicateAttribution, Single(Text(file)), Some(filepath));
        }
        attributionDict := attributionDict[asset := data];
      } else {
        RecordFailure(AssetMissing, Single(Text(file)), Some(filepath));
      }
    }

    /** One file of an entry. */
    method ProcessFile(filepath: Path, file: string, data: seq<Attribution>, misuse: bool, licenseInvalid: bool)
      requires filepath.parts != []
      modifies this`failures, this`attributionDict
      ensures Ledger(failures, attributionDict) ==
              FileStep(old(Ledger(failures, attributionDict)), file, filepath, data, misuse, licenseInvalid, existing)
    {
      if InvalidName(file) {
        RecordFailure(InvalidFileEntry, Single(Text(file)), None);
        return;
      }
      var asset := WithName(filepath, file);
      RecordFileChecks(filepath, file, misuse, licenseInvalid);
      AttributeAsset(filepath, file, asset, data);
    }

    /** The source-table pass of one entry. */
    method CheckSources(filepath: Path, a: Attribution)
      modifies this`failures
      ensures failures == SourceChecks(old(failures), SourceValidation, a, filepath)
    {
      ghost var before := failures;
      var known := false;
      var k := 0;
      while k < |SourceValidation|
        invariant 0 <= k <= |SourceValidation|
        invariant failures == SourceFold(before, SourceValidation[..k], a, filepath)
        invariant known == SourceKnown(SourceValidation[..k], a.source)
      {
        var source := SourceValidation[k];
        SourceKnownStep(SourceValidation, a.source, k);
        assert SourceValidation[..k + 1][..k] == SourceValidation[..k];
        if Contains(a.source, source.prefix) {
          known := true;
          var mismatch := ComputeLicenseMismatch(source.allowed, a.license);
          if mismatch {
            RecordFailure(SourceLicenseMismatch, Single(Text(a.source)), Some(filepath));
          }
        }
        k := k + 1;
      }
      assert SourceValidation[..k] == SourceValidation;
      if !known {
        RecordFailure(SourceUnknown, Single(Text(a.source)), Some(filepath));
      }
    }

    /** The checks that open an entry: no files, then an unclarified Custom license. */
    method RecordEntryChecks(filepath: Path, a: Attribution)
      modifies this`failures
      ensures failures == EntryChecks(old(failures), a, filepath)
    {
      if |a.files| == 0 {
        RecordFailure(InvalidFileEntry, Single(File(filepath)), None);
      }
      if a.license == "Custom" && a.commercialUseAllowed.None? {
        RecordFailure(CustomLicenseUnclarified, List(Texts(a.files)), Some(filepath));
      }
    }

    /** The loop over the files of one entry. */
    method ProcessFiles(filepath: Path, files: seq<string>, data: seq<Attribution>, misuse: bool, licenseInvalid: bool)
      requires filepath.parts != []
      modifies this`failures, this`attributionDict
      ensures Ledger(failures, attributionDict) ==
              FilesFold(old(Ledger(failures, attributionDict)), files, filepath, data, misuse, licenseInvalid, existing)
    {
      ghost var start := Ledger(failures, attributionDict);
      var j := 0;
      while j < |files|
        invariant 0 <= j <= |files|
        invariant Ledger(failures, attributionDict) == FilesFold(start, files[..j], filepath, data, misuse, licenseInvalid, existing)
      {
        ProcessFile(filepath, files[j], data, misuse, licenseInvalid);
        assert files[..j + 1][..j] == files[..j];
        j := j + 1;
      }
      assert files[..j] == files;
    }

    /** One entry of an attributions file: its checks, then its files. */
    method ProcessEntry(filepath: Path, a: Attribution, data: seq<Attribution>)
      requires filepath.parts != []
      modifies this`failures, this`attributionDict
      ensures Ledger(failures, attributionDict) ==
              EntryStep(old(Ledger(failures, attributionDict)), a, filepath, data, config, existing)
    {
      RecordEntryChecks(filepath, a);
      var misuse := ComputeMisuse(config, a);
      var licenseInvalid := a.license in config.invalidLicenses;
      CheckSources(filepath, a);
      ProcessFiles(filepath, a.files, data, misuse, licenseInvalid);
    }

    /** `process_attribution_data(filepath, data)` */
    method ProcessAttributionData(filepath: Path, data: seq<Attribution>)
      requires filepath.parts != []
      modifies this`failures, this`attributionDict
      ensures Ledger(failures, attributionDict) ==
              ProcessData(old(Ledger(failures, attributionDict)), filepath, data, config, existing)
    {
      ghost var l0 := Ledger(failures, attributionDict);
      var i := 0;
      while i < |data|
        invariant 0 <= i <= |data|
        invariant Ledger(failures, attributionDict) == DataFold(l0, data[..i], filepath, data, config, existing)
      {
        ProcessEntry(filepath, data[i], data);
        assert data[..i + 1][..i] == data[..i];
        i := i + 1;
      }
      assert data[..i] == data;
    }

    /** The first records of `check()`: orphaned, then unknown files. */
    method RecordScanFailures()
      modifies this`failures
      ensures failures == ScanRecords(old(failures), scan)
    {
      if |scan.orphaned| > 0 {
        RecordFailure(Orphaned, List(Files(scan.orphaned)), None);
      }
      if |scan.unknown| > 0 {
        RecordFailure(Unknown, List(Files(scan.unknown)), None);
      }
    }

    /** The loop of `check()` over every attributions file the scan found. */
    method ProcessAttributionFiles()
      requires AttributionsNamed(scan)
      modifies this`failures, this`attributionDict
      ensures Ledger(failures, attributionDict) ==
              FilesProcessed(old(Ledger(failures, attributionDict)), scan.attributions, config, existing)
    {
      ghost var l0 := Ledger(failures, attributionDict);
      var i := 0;
      while i < |scan.attributions|
        invariant 0 <= i <= |scan.attributions|
        invariant Ledger(failures, attributionDict) == FilesProcessed(l0, scan.attributions[..i], config, existing)
      {
        var file := scan.attributions[i];
        NamedPathHasName(file.path);
        ProcessAttributionData(file.path, file.data);
        assert scan.attributions[..i + 1][..i] == scan.attributions[..i];
        i := i + 1;
      }
      assert scan.attributions[..i] == scan.attributions;
    }

    /** The loop of `check()` that counts every asset per folder and collects
        the unattributed ones. */
    method CountAssets()
      modifies this`unattributedAssets, this`assetFoldersCount, this`unattributedFoldersCount, this`unattributedFolderOrder
      ensures State() == Counted(old(State()), scan.assets)
    {
      var t := CountPass(State(), scan.assets);
      unattributedAssets, assetFoldersCount, unattributedFoldersCount, unattributedFolderOrder :=
        t.unattributedAssets, t.assetFoldersCount, t.unattributedFoldersCount, t.unattributedFolderOrder;
    }

    /** The unattributed report of `check()`: every unattributed asset, then
        each folder holding one without an `attributions.yml`. Every folder
        visited has a total count at least as large as its unattributed one,
        so the printed percentage never divides by zero. */
    method ReportUnattributed()
      requires FolderBound(State()) && OrderMatchesKeys(State())
      modifies this`failures
      ensures failures == Reported(old(failures), unattributedAssets, unattributedFolderOrder, existing)
    {
      if |unattributedAssets| > 0 {
        RecordFailure(Unattributed, List(Files(unattributedAssets)), None);
        ghost var g := failures;
        var m := 0;
        while m < |unattributedFolderOrder|
          invariant 0 <= m <= |unattributedFolderOrder|
          invariant failures == MissingYmlFold(g, unattributedFolderOrder[..m], existing)
        {
          var path := unattributedFolderOrder[m];
          var unattCount := unattributedFoldersCount[path];
          var totalCount := assetFoldersCount[path];
          assert Count(unattributedFoldersCount, path) <= Count(assetFoldersCount, path);
          assert 0 < unattCount <= totalCount;
          assert unattributedFolderOrder[..m + 1] == unattributedFolderOrder[..m] + [path];
          MissingYmlSnoc(g, unattributedFolderOrder[..m], path, existing);
          if Child(path, "attributions.yml") !in existing {
            RecordFailure(AttributionsYmlMissing, Single(File(path)), None);
          }
          m := m + 1;
        }
        assert unattributedFolderOrder[..m] == unattributedFolderOrder;
      }
    }

    /** `check()`: the whole validation; passes exactly when no failure of any
        kind has been recorded. */
    method Check() returns (ok: bool)
      requires Valid()
      modifies this`failures, this`attributionDict, this`unattributedAssets, this`assetFoldersCount,
               this`unattributedFoldersCount, this`unattributedFolderOrder
      ensures State() == CheckOutcome(old(State()), scan, config, existing)
      ensures ok <==> failures == map[]
      ensures Valid()
    {
      RecordScanFailures();
      ghost var l := FilesProcessed(Ledger(failures, attributionDict), scan.attributions, config, existing);
      ProcessAttributionFiles();
      ghost var processed := State();
      assert processed == old(State()).(attributionDict := l.attributed, failures := l.failures);
      CountingKeepsInvariants(processed, scan.assets);
      CountAssets();
      ghost var counted := State();
      assert counted == Counted(processed, scan.assets);
      ReportUnattributed();
      assert State() == counted.(failures := Reported(counted.failures, counted.unattributedAssets, counted.unattributedFolderOrder, existing));
      ok := |failures| == 0;
    }
  }
}
