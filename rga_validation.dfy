/** The decision rules of the attribution checker as functions over finite
    data: the file system is a set of existing paths and every
    `attributions.yml` is already parsed into its entries. The class in
    rga_validator.dfy runs the same rules step by step and is proved to agree
    with these functions. */
module RgaValidation {
  import opened Wrappers
  import opened RgaText
  import opened RgaFailures
  import opened RgaConfig

  // ---------------------------------------------------------------- paths

  /** A relative path as its components; `Path([])` is ".". */
  datatype Path = Path(parts: seq<string>)

  /** `path.parent` */
  function Parent(p: Path): Path {
    if p.parts == [] then p else Path(p.parts[..|p.parts| - 1])
  }

  /** `path / name` */
  function Child(p: Path, name: string): Path {
    Path(p.parts + [name])
  }

  /** `path.with_name(name)`: the sibling called `name`. */
  function WithName(p: Path, name: string): (r: Path)
    requires p.parts != []
    ensures r.parts != [] && Parent(r) == Parent(p) && r.parts[|r.parts| - 1] == name
  {
    assert (Parent(p).parts + [name])[..|Parent(p).parts|] == Parent(p).parts;
    Child(Parent(p), name)
  }

  // ------------------------------------------------------------- failures

  /** What a failure list holds: a string, a path, or a ValidationFailureDetails
      pairing an affected item with the file it was found in. */
  datatype Entry = Text(text: string) | File(path: Path) | Details(affectedData: Entry, relevantFilepath: Path)

  /** The `files` argument of record_failure: one item or a list of them. */
  datatype Items = Single(item: Entry) | List(items: seq<Entry>)

  /** `failures`: the recorded items of each kind, in recording order. */
  type Failures = map<ValidationFailure, seq<Entry>>

  /** A single item is first wrapped into a one-item list. */
  function ItemList(files: Items): seq<Entry> {
    match files
    case Single(e) => [e]
    case List(es) => es
  }

  /** With a relevant path every item is wrapped into details. The source
      tests the list rather than the item, so an item that already is a
      details record is wrapped again. */
  function Detailed(items: seq<Entry>, relevant: Option<Path>): (r: seq<Entry>)
    ensures |r| == |items|
    ensures forall i :: 0 <= i < |items| ==> r[i] == if relevant.Some? then Details(items[i], relevant.value) else items[i]
  {
    match relevant
    case None => items
    case Some(p) => seq(|items|, i requires 0 <= i < |items| => Details(items[i], p))
  }

  /** `failures.get(kind, [])` */
  function Listed(failures: Failures, kind: ValidationFailure): seq<Entry> {
    if kind in failures then failures[kind] else []
  }

  /** `record_failure`: the items go, in order, to the end of this kind's
      list, which exists afterwards even when no item is given; every other
      kind's list is left alone. */
  function Recorded(failures: Failures, kind: ValidationFailure, files: Items, relevant: Option<Path>): (r: Failures)
    ensures r.Keys == failures.Keys + {kind}
    ensures |r[kind]| == |Listed(failures, kind)| + |ItemList(files)|
    ensures r[kind][..|Listed(failures, kind)|] == Listed(failures, kind)
    ensures r[kind][|Listed(failures, kind)|..] == Detailed(ItemList(files), relevant)
    ensures forall k :: k != kind && k in failures ==> r[k] == failures[k]
  {
    var old_ := Listed(failures, kind);
    var added := Detailed(ItemList(files), relevant);
    assert (old_ + added)[..|old_|] == old_;
    assert (old_ + added)[|old_|..] == added;
    failures[kind := old_ + added]
  }

  /** A details record handed to record_failure with a relevant path is
      wrapped a second time. */
  lemma DetailsWrappedAgain(failures: Failures, kind: ValidationFailure, e: Entry, p: Path, q: Path)
    ensures Recorded(failures, kind, List([Details(e, p)]), Some(q))[kind] == Listed(failures, kind) + [Details(Details(e, p), q)]
  {
    var r := Recorded(failures, kind, List([Details(e, p)]), Some(q));
    assert r[kind] == r[kind][..|Listed(failures, kind)|] + r[kind][|Listed(failures, kind)|..];
  }

  /** Every kind recorded in f is still recorded in g, its items a prefix of g's. */
  ghost predicate Extends(f: Failures, g: Failures) {
    forall k :: k in f ==> k in g && f[k] <= g[k]
  }

  lemma ExtendsTransitive(f: Failures, g: Failures, h: Failures)
    requires Extends(f, g) && Extends(g, h)
    ensures Extends(f, h)
  {
  }

  lemma RecordedExtends(failures: Failures, kind: ValidationFailure, files: Items, relevant: Option<Path>)
    ensures Extends(failures, Recorded(failures, kind, files, relevant))
  {
    var r := Recorded(failures, kind, files, relevant);
    forall k | k in failures ensures k in r && failures[k] <= r[k] {
      if k == kind {
        assert failures[k] == Listed(failures, kind) == r[kind][..|Listed(failures, kind)|];
      }
    }
  }

  // ---------------------------------------------------- attribution rules

  /** One entry of an `attributions.yml` list; `commercialUseAllowed` is None
      when the key is absent. */
  datatype Attribution = Attribution(files: seq<string>, license: string, source: string, commercialUseAllowed: Option<bool>)

  /** The licenses a known source may carry: a list, or a single license
      where "*" admits every one. */
  datatype AllowedLicenses = AnyOf(licenses: seq<string>) | Exactly(license: string)

  /** One row of `source_validation`. */
  datatype KnownSource = KnownSource(prefix: string, allowed: AllowedLicenses)

  /** `source_validation`, more specific prefixes first. */
  const SourceValidation: seq<KnownSource> := [
    KnownSource("https://freesound.org/", AnyOf([
      "CC-BY-3.0", "CC-BY-4.0", "CC-BY-SA-3.0", "CC-BY-SA-4.0", "CC-BY-NC-3.0", "CC-BY-NC-4.0",
      "CC-BY-NC-SA-3.0", "CC-BY-NC-SA-4.0", "CC0-1.0", "Custom"])),
    KnownSource("https://github.com/space-wizards/space-station-14", Exactly("*")),
    KnownSource("https://github.com/goonstation/goonstation", Exactly("CC-BY-NC-SA-3.0"))
  ]

  /** Items for a list of file names or of paths. */
  function Texts(names: seq<string>): (r: seq<Entry>)
    ensures |r| == |names| && forall i :: 0 <= i < |names| ==> r[i] == Text(names[i])
  {
    seq(|names|, i requires 0 <= i < |names| => Text(names[i]))
  }

  function Files(paths: seq<Path>): (r: seq<Entry>)
    ensures |r| == |paths| && forall i :: 0 <= i < |paths| ==> r[i] == File(paths[i])
  {
    seq(|paths|, i requires 0 <= i < |paths| => File(paths[i]))
  }

  /** A matched source's license is a mismatch unless it is in the allowed
      list, equals the allowed license, or the allowed license is "*". */
  function LicenseMismatch(allowed: AllowedLicenses, license: string): bool {
    var listed := match allowed
      case AnyOf(ls) => exists k :: 0 <= k < |ls| && ls[k] == license
      case Exactly(l) => l == license;
    !listed && allowed != Exactly("*")
  }

  /** The misuse flag: only raised for a commercial project; a Custom license
      is misused unless commercial use is explicitly allowed, any other
      license exactly when it contains "-NC-". */
  function NonCommercialMisuse(config: LicensingConfig, a: Attribution): (b: bool)
    ensures b ==> !config.nonCommercial
    ensures !config.nonCommercial && a.license == "Custom" ==> (b <==> a.commercialUseAllowed != Some(true))
    ensures a.license != "Custom" ==> (b <==> !config.nonCommercial && Contains(a.license, "-NC-"))
  {
    var misuse := !config.nonCommercial && Contains(a.license, "-NC-");
    if !config.nonCommercial && a.license == "Custom" then
      match a.commercialUseAllowed
      case None => true
      case Some(allowed) => allowed == false
    else misuse
  }

  /** A known source matches when its prefix occurs anywhere in the entry's source. */
  predicate SourceMatches(s: KnownSource, source: string) {
    Contains(source, s.prefix)
  }

  predicate SourceKnown(sources: seq<KnownSource>, source: string) {
    exists i :: 0 <= i < |sources| && SourceMatches(sources[i], source)
  }

  /** The mismatches of one entry over a list of known sources: one record
      per matching source whose licenses the entry's license is not among. */
  function SourceFold(failures: Failures, sources: seq<KnownSource>, a: Attribution, filepath: Path): Failures
    decreases |sources|
  {
    if sources == [] then failures
    else
      var f := SourceFold(failures, sources[..|sources| - 1], a, filepath);
      var s := sources[|sources| - 1];
      if SourceMatches(s, a.source) && LicenseMismatch(s.allowed, a.license) then
        Recorded(f, SourceLicenseMismatch, Single(Text(a.source)), Some(filepath))
      else f
  }

  /** What processing has built so far: the failures and `attribution_dict`,
      which maps each attributed asset to the whole list its file holds. */
  datatype Ledger = Ledger(failures: Failures, attributed: map<Path, seq<Attribution>>)

  /** How record_failure stores one item. */
  function Wrapped(e: Entry, relevant: Option<Path>): Entry {
    if relevant.Some? then Details(e, relevant.value) else e
  }

  /** record_failure of one item, when the flag is set. */
  function RecordIf(cond: bool, failures: Failures, kind: ValidationFailure, e: Entry, relevant: Option<Path>): Failures {
    if cond then Recorded(failures, kind, Single(e), relevant) else failures
  }

  /** Recording one item keeps everything and puts the wrapped item last. */
  lemma RecordIfOutcome(cond: bool, failures: Failures, kind: ValidationFailure, e: Entry, relevant: Option<Path>)
    ensures Extends(failures, RecordIf(cond, failures, kind, e, relevant))
    ensures !cond ==> RecordIf(cond, failures, kind, e, relevant) == failures
    ensures cond ==> var r := RecordIf(cond, failures, kind, e, relevant);
      kind in r && |r[kind]| > 0 && r[kind][|r[kind]| - 1] == Wrapped(e, relevant)
  {
    RecordedExtends(failures, kind, Single(e), relevant);
    if cond {
      var r := Recorded(failures, kind, Single(e), relevant);
      var n := |Listed(failures, kind)|;
      assert r[kind][n..] == [Wrapped(e, relevant)];
      assert r[kind] == r[kind][..n] + r[kind][n..];
    }
  }

  /** The item at the end of a list is in it. */
  lemma LastIn(f: Failures, kind: ValidationFailure, e: Entry)
    requires kind in f && |f[kind]| > 0 && f[kind][|f[kind]| - 1] == e
    ensures e in f[kind]
  {
  }

  /** An earlier list's items are in every extension of it. */
  lemma ExtendsKeepsItem(f: Failures, g: Failures, kind: ValidationFailure, e: Entry)
    requires Extends(f, g) && kind in f && e in f[kind]
    ensures kind in g && e in g[kind]
  {
    var i :| 0 <= i < |f[kind]| && f[kind][i] == e;
    assert g[kind][i] == e;
  }

  /** The names `with_name` refuses with ValueError: empty, ".", or holding
      the separator. */
  predicate InvalidName(file: string) {
    file == "" || file == "." || '/' in file
  }

  /** The misuse and invalid-license records of one file. */
  function FileChecks(failures: Failures, file: string, filepath: Path, misuse: bool, invalid: bool): Failures {
    var f1 := RecordIf(misuse, failures, NonCommercialLicenseViolation, Text(file), Some(filepath));
    RecordIf(invalid, f1, LicenseInvalid, Text(file), Some(filepath))
  }

  /** An existing asset is attributed to this file's list, after a duplicate
      record when it already was; a missing one is recorded. */
  function AssetStep(l: Ledger, asset: Path, file: string, filepath: Path, data: seq<Attribution>, existing: set<Path>): Ledger {
    if asset in existing then
      Ledger(RecordIf(asset in l.attributed, l.failures, AssetDuplicateAttribution, Text(file), Some(filepath)),
             l.attributed[asset := data])
    else
      Ledger(Recorded(l.failures, AssetMissing, Single(Text(file)), Some(filepath)), l.attributed)
  }

  /** One file of an entry. An invalid name is recorded as an invalid entry
      and nothing else happens; otherwise the file checks come first, then
      the asset step. */
  function FileStep(l: Ledger, file: string, filepath: Path, data: seq<Attribution>,
                    misuse: bool, invalid: bool, existing: set<Path>): Ledger
    requires filepath.parts != []
  {
    if InvalidName(file) then
      Ledger(Recorded(l.failures, InvalidFileEntry, Single(Text(file)), None), l.attributed)
    else
      AssetStep(Ledger(FileChecks(l.failures, file, filepath, misuse, invalid), l.attributed),
                WithName(filepath, file), file, filepath, data, existing)
  }

  function FilesFold(l: Ledger, files: seq<string>, filepath: Path, data: seq<Attribution>,
                     misuse: bool, invalid: bool, existing: set<Path>): Ledger
    requires filepath.parts != []
    decreases |files|
  {
    if files == [] then l
    else FileStep(FilesFold(l, files[..|files| - 1], filepath, data, misuse, invalid, existing),
                  files[|files| - 1], filepath, data, misuse, invalid, existing)
  }

  /** The checks of an entry that need no source table: no files, and a
      Custom license without a commercial-use statement. */
  function EntryChecks(failures: Failures, a: Attribution, filepath: Path): Failures {
    var f1 := RecordIf(|a.files| == 0, failures, InvalidFileEntry, File(filepath), None);
    if a.license == "Custom" && a.commercialUseAllowed.None? then
      Recorded(f1, CustomLicenseUnclarified, List(Texts(a.files)), Some(filepath))
    else f1
  }

  /** The license mismatches over a table of known sources, then
      SOURCE_UNKNOWN when no prefix matched. */
  function SourceChecks(failures: Failures, sources: seq<KnownSource>, a: Attribution, filepath: Path): Failures {
    RecordIf(!SourceKnown(sources, a.source), SourceFold(failures, sources, a, filepath),
             SourceUnknown, Text(a.source), Some(filepath))
  }

  /** The failures an entry records before its files are visited. */
  function EntryHeader(failures: Failures, a: Attribution, filepath: Path): Failures {
    SourceChecks(EntryChecks(failures, a, filepath), SourceValidation, a, filepath)
  }

  /** One entry of an attributions file. */
  ghost function EntryStep(l: Ledger, a: Attribution, filepath: Path, data: seq<Attribution>,
                           config: LicensingConfig, existing: set<Path>): Ledger
    requires filepath.parts != []
  {
    FilesFold(Ledger(EntryHeader(l.failures, a, filepath), l.attributed), a.files, filepath, data,
              NonCommercialMisuse(config, a), a.license in config.invalidLicenses, existing)
  }

  ghost function DataFold(l: Ledger, entries: seq<Attribution>, filepath: Path, data: seq<Attribution>,
                          config: LicensingConfig, existing: set<Path>): Ledger
    requires filepath.parts != []
    decreases |entries|
  {
    if entries == [] then l
    else EntryStep(DataFold(l, entries[..|entries| - 1], filepath, data, config, existing),
                   entries[|entries| - 1], filepath, data, config, existing)
  }

  /** `process_attribution_data(filepath, data)` */
  ghost function ProcessData(l: Ledger, filepath: Path, data: seq<Attribution>,
                             config: LicensingConfig, existing: set<Path>): Ledger
    requires filepath.parts != []
  {
    DataFold(l, data, filepath, data, config, existing)
  }

  // --------------------------------------------- what processing promises

  /** Some source in the table both matches and refuses the license. */
  ghost predicate MismatchIn(sources: seq<KnownSource>, a: Attribution) {
    exists i :: 0 <= i < |sources| && SourceMatches(sources[i], a.source) && LicenseMismatch(sources[i].allowed, a.license)
  }

  /** The mismatch pass loses nothing, changes nothing when no matching
      source refuses the license, and otherwise records the source. */
  lemma {:induction false} SourceFoldOutcome(failures: Failures, sources: seq<KnownSource>, a: Attribution, filepath: Path)
    ensures Extends(failures, SourceFold(failures, sources, a, filepath))
    ensures !MismatchIn(sources, a) ==> SourceFold(failures, sources, a, filepath) == failures
    ensures MismatchIn(sources, a) ==> var r := SourceFold(failures, sources, a, filepath);
      SourceLicenseMismatch in r && Details(Text(a.source), filepath) in r[SourceLicenseMismatch]
    decreases |sources|
  {
    if sources != [] {
      var init := sources[..|sources| - 1];
      var s := sources[|sources| - 1];
      var f := SourceFold(failures, init, a, filepath);
      SourceFoldOutcome(failures, init, a, filepath);
      var hit := SourceMatches(s, a.source) && LicenseMismatch(s.allowed, a.license);
      RecordIfOutcome(hit, f, SourceLicenseMismatch, Text(a.source), Some(filepath));
      assert SourceFold(failures, sources, a, filepath) == RecordIf(hit, f, SourceLicenseMismatch, Text(a.source), Some(filepath));
      ExtendsTransitive(failures, f, SourceFold(failures, sources, a, filepath));
      if hit {
        LastIn(SourceFold(failures, sources, a, filepath), SourceLicenseMismatch, Details(Text(a.source), filepath));
      } else if MismatchIn(sources, a) {
        var i :| 0 <= i < |sources| && SourceMatches(sources[i], a.source) && LicenseMismatch(sources[i].allowed, a.license);
        assert i < |init| && init[i] == sources[i];
        assert MismatchIn(init, a);
      }
    }
  }

  /** An unknown source is recorded; the table's own mismatches are the only
      other records the source checks add. */
  lemma SourceChecksOutcome(failures: Failures, sources: seq<KnownSource>, a: Attribution, filepath: Path)
    ensures Extends(failures, SourceChecks(failures, sources, a, filepath))
    ensures !SourceKnown(sources, a.source) ==> var r := SourceChecks(failures, sources, a, filepath);
      SourceUnknown in r && Details(Text(a.source), filepath) in r[SourceUnknown]
    ensures SourceKnown(sources, a.source) && !MismatchIn(sources, a) ==> SourceChecks(failures, sources, a, filepath) == failures
  {
    var f := SourceFold(failures, sources, a, filepath);
    SourceFoldOutcome(failures, sources, a, filepath);
    RecordIfOutcome(!SourceKnown(sources, a.source), f, SourceUnknown, Text(a.source), Some(filepath));
    ExtendsTransitive(failures, f, SourceChecks(failures, sources, a, filepath));
    if !SourceKnown(sources, a.source) {
      LastIn(SourceChecks(failures, sources, a, filepath), SourceUnknown, Details(Text(a.source), filepath));
    }
  }

  /** The records that open an entry: the attributions file's path as an
      invalid entry when the entry lists no files, and every listed file as
      unclarified when a Custom license says nothing about commercial use. */
  ghost predicate EntryRecorded(f: Failures, a: Attribution, filepath: Path) {
    && (a.files == [] ==> InvalidFileEntry in f && File(filepath) in f[InvalidFileEntry])
    && (a.license == "Custom" && a.commercialUseAllowed.None? ==>
          CustomLicenseUnclarified in f &&
          forall j :: 0 <= j < |a.files| ==> Details(Text(a.files[j]), filepath) in f[CustomLicenseUnclarified])
  }

  /** Later records never undo an entry's opening records. */
  lemma EntryRecordedKept(f: Failures, g: Failures, a: Attribution, filepath: Path)
    requires EntryRecorded(f, a, filepath) && Extends(f, g)
    ensures EntryRecorded(g, a, filepath)
  {
    if a.files == [] {
      ExtendsKeepsItem(f, g, InvalidFileEntry, File(filepath));
    }
    if a.license == "Custom" && a.commercialUseAllowed.None? {
      forall j | 0 <= j < |a.files| ensures Details(Text(a.files[j]), filepath) in g[CustomLicenseUnclarified] {
        ExtendsKeepsItem(f, g, CustomLicenseUnclarified, Details(Text(a.files[j]), filepath));
      }
    }
  }

  /** Recording a list of file names with a path puts each of them, with
      the path, into the kind's list. */
  lemma FileNamesRecorded(failures: Failures, kind: ValidationFailure, files: seq<string>, filepath: Path)
    ensures var r := Recorded(failures, kind, List(Texts(files)), Some(filepath));
      kind in r && forall j :: 0 <= j < |files| ==> Details(Text(files[j]), filepath) in r[kind]
  {
    var r := Recorded(failures, kind, List(Texts(files)), Some(filepath));
    var n := |Listed(failures, kind)|;
    var added := Detailed(Texts(files), Some(filepath));
    assert r[kind][n..] == added;
    forall j | 0 <= j < |files| ensures Details(Text(files[j]), filepath) in r[kind] {
      assert r[kind][n + j] == added[j];
    }
  }

  /** An entry without files records its attributions file as an invalid
      entry; an unclarified Custom license records each of its files; earlier
      records are kept. */
  lemma EntryChecksOutcome(failures: Failures, a: Attribution, filepath: Path)
    ensures Extends(failures, EntryChecks(failures, a, filepath))
    ensures var r := EntryChecks(failures, a, filepath);
      a.files == [] ==> InvalidFileEntry in r && File(filepath) in r[InvalidFileEntry]
    ensures var r := EntryChecks(failures, a, filepath);
      a.license == "Custom" && a.commercialUseAllowed.None? ==>
        CustomLicenseUnclarified in r &&
        forall j :: 0 <= j < |a.files| ==> Details(Text(a.files[j]), filepath) in r[CustomLicenseUnclarified]
  {
    var f1 := RecordIf(|a.files| == 0, failures, InvalidFileEntry, File(filepath), None);
    var r := EntryChecks(failures, a, filepath);
    RecordIfOutcome(|a.files| == 0, failures, InvalidFileEntry, File(filepath), None);
    RecordedExtends(f1, CustomLicenseUnclarified, List(Texts(a.files)), Some(filepath));
    ExtendsTransitive(failures, f1, r);
    if a.files == [] {
      LastIn(f1, InvalidFileEntry, File(filepath));
      ExtendsKeepsItem(f1, r, InvalidFileEntry, File(filepath));
    }
    if a.license == "Custom" && a.commercialUseAllowed.None? {
      FileNamesRecorded(f1, CustomLicenseUnclarified, a.files, filepath);
    }
  }

  /** The opening records of an entry survive its source checks. */
  lemma EntryHeaderExtends(failures: Failures, a: Attribution, filepath: Path)
    ensures Extends(failures, EntryHeader(failures, a, filepath))
    ensures EntryRecorded(EntryHeader(failures, a, filepath), a, filepath)
  {
    var f2 := EntryChecks(failures, a, filepath);
    EntryChecksOutcome(failures, a, filepath);
    SourceChecksOutcome(f2, SourceValidation, a, filepath);
    ExtendsTransitive(failures, f2, EntryHeader(failures, a, filepath));
    EntryRecordedKept(f2, EntryHeader(failures, a, filepath), a, filepath);
  }

  lemma FileChecksOutcome(failures: Failures, file: string, filepath: Path, misuse: bool, invalid: bool)
    ensures var r := FileChecks(failures, file, filepath, misuse, invalid);
      && Extends(failures, r)
      && (misuse ==> NonCommercialLicenseViolation in r && Details(Text(file), filepath) in r[NonCommercialLicenseViolation])
      && (invalid ==> LicenseInvalid in r && Details(Text(file), filepath) in r[LicenseInvalid])
  {
    var e := Text(file);
    var rel := Some(filepath);
    var f1 := RecordIf(misuse, failures, NonCommercialLicenseViolation, e, rel);
    var r := FileChecks(failures, file, filepath, misuse, invalid);
    RecordIfOutcome(misuse, failures, NonCommercialLicenseViolation, e, rel);
    RecordIfOutcome(invalid, f1, LicenseInvalid, e, rel);
    ExtendsTransitive(failures, f1, r);
    if misuse {
      LastIn(f1, NonCommercialLicenseViolation, Details(e, filepath));
      ExtendsKeepsItem(f1, r, NonCommercialLicenseViolation, Details(e, filepath));
    }
    if invalid {
      LastIn(r, LicenseInvalid, Details(e, filepath));
    }
  }

  lemma AssetStepOutcome(l: Ledger, asset: Path, file: string, filepath: Path, data: seq<Attribution>, existing: set<Path>)
    ensures var r := AssetStep(l, asset, file, filepath, data, existing);
      && Extends(l.failures, r.failures)
      && (asset in existing ==> r.attributed == l.attributed[asset := data])
      && (asset in existing && asset in l.attributed ==>
            AssetDuplicateAttribution in r.failures && Details(Text(file), filepath) in r.failures[AssetDuplicateAttribution])
      && (asset !in existing ==>
            r.attributed == l.attributed &&
            AssetMissing in r.failures && Details(Text(file), filepath) in r.failures[AssetMissing])
  {
    var r := AssetStep(l, asset, file, filepath, data, existing);
    var cond := if asset in existing then asset in l.attributed else true;
    var kind := if asset in existing then AssetDuplicateAttribution else AssetMissing;
    assert r.failures == RecordIf(cond, l.failures, kind, Text(file), Some(filepath));
    RecordIfOutcome(cond, l.failures, kind, Text(file), Some(filepath));
    if cond {
      LastIn(r.failures, kind, Details(Text(file), filepath));
    }
  }

  /** What one file does to the failures: nothing is lost, an invalid name is
      recorded as an invalid entry, and otherwise the misuse, invalid-license,
      duplicate and missing-asset records name the file inside this
      attributions file. */
  lemma FileStepFailures(l: Ledger, file: string, filepath: Path, data: seq<Attribution>,
                         misuse: bool, invalid: bool, existing: set<Path>)
    requires filepath.parts != []
    ensures var r := FileStep(l, file, filepath, data, misuse, invalid, existing).failures;
      && Extends(l.failures, r)
      && (InvalidName(file) ==> InvalidFileEntry in r && Text(file) in r[InvalidFileEntry])
      && (!InvalidName(file) && misuse ==>
            NonCommercialLicenseViolation in r && Details(Text(file), filepath) in r[NonCommercialLicenseViolation])
      && (!InvalidName(file) && invalid ==> LicenseInvalid in r && Details(Text(file), filepath) in r[LicenseInvalid])
      && (!InvalidName(file) && WithName(filepath, file) !in existing ==>
            AssetMissing in r && Details(Text(file), filepath) in r[AssetMissing])
      && (!InvalidName(file) && WithName(filepath, file) in existing && WithName(filepath, file) in l.attributed ==>
            AssetDuplicateAttribution in r && Details(Text(file), filepath) in r[AssetDuplicateAttribution])
  {
    var r := FileStep(l, file, filepath, data, misuse, invalid, existing).failures;
    if InvalidName(file) {
      RecordIfOutcome(true, l.failures, InvalidFileEntry, Text(file), None);
      LastIn(r, InvalidFileEntry, Text(file));
    } else {
      var checked := Ledger(FileChecks(l.failures, file, filepath, misuse, invalid), l.attributed);
      FileChecksOutcome(l.failures, file, filepath, misuse, invalid);
      AssetStepOutcome(checked, WithName(filepath, file), file, filepath, data, existing);
      ExtendsTransitive(l.failures, checked.failures, r);
      if misuse {
        ExtendsKeepsItem(checked.failures, r, NonCommercialLicenseViolation, Details(Text(file), filepath));
      }
      if invalid {
        ExtendsKeepsItem(checked.failures, r, LicenseInvalid, Details(Text(file), filepath));
      }
    }
  }

  lemma {:induction false} FilesFoldExtends(l: Ledger, files: seq<string>, filepath: Path, data: seq<Attribution>,
                                            misuse: bool, invalid: bool, existing: set<Path>)
    requires filepath.parts != []
    ensures Extends(l.failures, FilesFold(l, files, filepath, data, misuse, invalid, existing).failures)
    decreases |files|
  {
    if files != [] {
      var prev := FilesFold(l, files[..|files| - 1], filepath, data, misuse, invalid, existing);
      FilesFoldExtends(l, files[..|files| - 1], filepath, data, misuse, invalid, existing);
      FileStepFailures(prev, files[|files| - 1], filepath, data, misuse, invalid, existing);
      ExtendsTransitive(l.failures, prev.failures, FilesFold(l, files, filepath, data, misuse, invalid, existing).failures);
    }
  }

  lemma {:induction false} DataFoldExtends(l: Ledger, entries: seq<Attribution>, filepath: Path, data: seq<Attribution>,
                                           config: LicensingConfig, existing: set<Path>)
    requires filepath.parts != []
    ensures Extends(l.failures, DataFold(l, entries, filepath, data, config, existing).failures)
    decreases |entries|
  {
    if entries != [] {
      var prev := DataFold(l, entries[..|entries| - 1], filepath, data, config, existing);
      var a := entries[|entries| - 1];
      DataFoldExtends(l, entries[..|entries| - 1], filepath, data, config, existing);
      EntryHeaderExtends(prev.failures, a, filepath);
      var start := Ledger(EntryHeader(prev.failures, a, filepath), prev.attributed);
      FilesFoldExtends(start, a.files, filepath, data, NonCommercialMisuse(config, a), a.license in config.invalidLicenses, existing);
      ExtendsTransitive(l.failures, prev.failures, start.failures);
      ExtendsTransitive(l.failures, start.failures, DataFold(l, entries, filepath, data, config, existing).failures);
    }
  }

  /** The asset a valid file name of this attributions file names. */
  ghost predicate NamedBy(p: Path, filepath: Path, files: seq<string>)
    requires filepath.parts != []
  {
    exists i :: 0 <= i < |files| && !InvalidName(files[i]) && p == WithName(filepath, files[i])
  }

  /** After a list of files nothing attributed before is dropped, and an
      asset whose attribution changed exists, is named by one of the files,
      and now maps to this file's list. */
  ghost predicate AttributedFrom(before: map<Path, seq<Attribution>>, after: map<Path, seq<Attribution>>,
                                 filepath: Path, files: seq<string>, data: seq<Attribution>, existing: set<Path>)
    requires filepath.parts != []
  {
    && before.Keys <= after.Keys
    && forall p :: p in after ==>
         (p in before && after[p] == before[p]) ||
         (p in existing && after[p] == data && NamedBy(p, filepath, files))
  }

  /** Every file of the list is accounted for: its asset is attributed, or a
      failure names it. */
  ghost predicate FileAccounted(r: Ledger, file: string, filepath: Path)
    requires filepath.parts != []
  {
    if InvalidName(file) then InvalidFileEntry in r.failures && Text(file) in r.failures[InvalidFileEntry]
    else WithName(filepath, file) in r.attributed ||
         (AssetMissing in r.failures && Details(Text(file), filepath) in r.failures[AssetMissing])
  }

  lemma FileAccountedKept(r: Ledger, s: Ledger, file: string, filepath: Path)
    requires filepath.parts != []
    requires FileAccounted(r, file, filepath)
    requires Extends(r.failures, s.failures) && r.attributed.Keys <= s.attributed.Keys
    ensures FileAccounted(s, file, filepath)
  {
    if InvalidName(file) {
      ExtendsKeepsItem(r.failures, s.failures, InvalidFileEntry, Text(file));
    } else if WithName(filepath, file) !in r.attributed {
      ExtendsKeepsItem(r.failures, s.failures, AssetMissing, Details(Text(file), filepath));
    }
  }

  lemma FileStepAttributed(l: Ledger, file: string, filepath: Path, data: seq<Attribution>,
                           misuse: bool, invalid: bool, existing: set<Path>)
    requires filepath.parts != []
    ensures var r := FileStep(l, file, filepath, data, misuse, invalid, existing);
      && Extends(l.failures, r.failures)
      && l.attributed.Keys <= r.attributed.Keys
      && FileAccounted(r, file, filepath)
      && forall p :: p in r.attributed ==>
           (p in l.attributed && r.attributed[p] == l.attributed[p]) ||
           (p in existing && r.attributed[p] == data && !InvalidName(file) && p == WithName(filepath, file))
  {
    FileStepFailures(l, file, filepath, data, misuse, invalid, existing);
  }

  lemma {:induction false} FilesFoldAttributed(l: Ledger, files: seq<string>, filepath: Path, data: seq<Attribution>,
                                               misuse: bool, invalid: bool, existing: set<Path>)
    requires filepath.parts != []
    ensures var r := FilesFold(l, files, filepath, data, misuse, invalid, existing);
      AttributedFrom(l.attributed, r.attributed, filepath, files, data, existing)
    decreases |files|
  {
    if files != [] {
      var r := FilesFold(l, files, filepath, data, misuse, invalid, existing);
      var init := files[..|files| - 1];
      var last := files[|files| - 1];
      var prev := FilesFold(l, init, filepath, data, misuse, invalid, existing);
      FilesFoldAttributed(l, init, filepath, data, misuse, invalid, existing);
      FileStepAttributed(prev, last, filepath, data, misuse, invalid, existing);
      forall p | p in r.attributed
        ensures (p in l.attributed && r.attributed[p] == l.attributed[p]) ||
                (p in existing && r.attributed[p] == data && NamedBy(p, filepath, files))
      {
        if p in prev.attributed && r.attributed[p] == prev.attributed[p] {
          if !(p in l.attributed && r.attributed[p] == l.attributed[p]) {
            var i :| 0 <= i < |init| && !InvalidName(init[i]) && p == WithName(filepath, init[i]);
            assert files[i] == init[i];
          }
        } else {
          assert files[|files| - 1] == last;
        }
      }
    }
  }

  /** After the files of an entry, each of them is attributed or named by a failure. */
  lemma {:induction false} FilesFoldAccounted(l: Ledger, files: seq<string>, filepath: Path, data: seq<Attribution>,
                                              misuse: bool, invalid: bool, existing: set<Path>)
    requires filepath.parts != []
    ensures forall i :: 0 <= i < |files| ==> FileAccounted(FilesFold(l, files, filepath, data, misuse, invalid, existing), files[i], filepath)
    decreases |files|
  {
    if files != [] {
      var r := FilesFold(l, files, filepath, data, misuse, invalid, existing);
      var init := files[..|files| - 1];
      var prev := FilesFold(l, init, filepath, data, misuse, invalid, existing);
      FilesFoldAccounted(l, init, filepath, data, misuse, invalid, existing);
      FileStepAttributed(prev, files[|files| - 1], filepath, data, misuse, invalid, existing);
      forall i | 0 <= i < |files| - 1 ensures FileAccounted(r, files[i], filepath) {
        assert files[i] == init[i];
        FileAccountedKept(prev, r, files[i], filepath);
      }
    }
  }

  /** After an attributions file is processed, every file any of its entries
      lists is attributed or named by a failure, and nothing attributed
      before is dropped. */
  lemma {:induction false} DataFoldAccounted(l: Ledger, entries: seq<Attribution>, filepath: Path, data: seq<Attribution>,
                                             config: LicensingConfig, existing: set<Path>)
    requires filepath.parts != []
    ensures var r := DataFold(l, entries, filepath, data, config, existing);
      && l.attributed.Keys <= r.attributed.Keys
      && forall i, j :: 0 <= i < |entries| && 0 <= j < |entries[i].files| ==> FileAccounted(r, entries[i].files[j], filepath)
    decreases |entries|
  {
    if entries != [] {
      var init := entries[..|entries| - 1];
      var a := entries[|entries| - 1];
      var prev := DataFold(l, init, filepath, data, config, existing);
      DataFoldAccounted(l, init, filepath, data, config, existing);
      var start := Ledger(EntryHeader(prev.failures, a, filepath), prev.attributed);
      var misuse := NonCommercialMisuse(config, a);
      var invalid := a.license in config.invalidLicenses;
      var r := DataFold(l, entries, filepath, data, config, existing);
      assert r == FilesFold(start, a.files, filepath, data, misuse, invalid, existing);
      EntryHeaderExtends(prev.failures, a, filepath);
      FilesFoldExtends(start, a.files, filepath, data, misuse, invalid, existing);
      FilesFoldAttributed(start, a.files, filepath, data, misuse, invalid, existing);
      FilesFoldAccounted(start, a.files, filepath, data, misuse, invalid, existing);
      ExtendsTransitive(prev.failures, start.failures, r.failures);
      forall i, j | 0 <= i < |entries| && 0 <= j < |entries[i].files|
        ensures FileAccounted(r, entries[i].files[j], filepath)
      {
        if i < |entries| - 1 {
          assert entries[i] == init[i];
          FileAccountedKept(prev, r, entries[i].files[j], filepath);
        }
      }
    }
  }

  /** After an attributions file is processed, every entry's opening records
      are among the failures. */
  lemma {:induction false} DataFoldEntriesRecorded(l: Ledger, entries: seq<Attribution>, filepath: Path, data: seq<Attribution>,
                                                   config: LicensingConfig, existing: set<Path>)
    requires filepath.parts != []
    ensures var r := DataFold(l, entries, filepath, data, config, existing);
      forall i :: 0 <= i < |entries| ==> EntryRecorded(r.failures, entries[i], filepath)
    decreases |entries|
  {
    if entries != [] {
      var init := entries[..|entries| - 1];
      var a := entries[|entries| - 1];
      var prev := DataFold(l, init, filepath, data, config, existing);
      DataFoldEntriesRecorded(l, init, filepath, data, config, existing);
      var start := Ledger(EntryHeader(prev.failures, a, filepath), prev.attributed);
      var misuse := NonCommercialMisuse(config, a);
      var invalid := a.license in config.invalidLicenses;
      var r := DataFold(l, entries, filepath, data, config, existing);
      assert r == FilesFold(start, a.files, filepath, data, misuse, invalid, existing);
      EntryHeaderExtends(prev.failures, a, filepath);
      FilesFoldExtends(start, a.files, filepath, data, misuse, invalid, existing);
      ExtendsTransitive(prev.failures, start.failures, r.failures);
      EntryRecordedKept(start.failures, r.failures, a, filepath);
      forall i | 0 <= i < |entries| - 1 ensures EntryRecorded(r.failures, entries[i], filepath) {
        assert entries[i] == init[i];
        EntryRecordedKept(prev.failures, r.failures, entries[i], filepath);
      }
    }
  }

  /** A valid file name of an entry carries the entry's misuse and
      invalid-license records, each naming the file inside this attributions file. */
  ghost predicate FileFlagged(f: Failures, file: string, filepath: Path, misuse: bool, invalid: bool) {
    !InvalidName(file) ==>
      && (misuse ==> NonCommercialLicenseViolation in f && Details(Text(file), filepath) in f[NonCommercialLicenseViolation])
      && (invalid ==> LicenseInvalid in f && Details(Text(file), filepath) in f[LicenseInvalid])
  }

  /** Later records never undo a file's misuse and invalid-license records. */
  lemma FileFlaggedKept(f: Failures, g: Failures, file: string, filepath: Path, misuse: bool, invalid: bool)
    requires FileFlagged(f, file, filepath, misuse, invalid) && Extends(f, g)
    ensures FileFlagged(g, file, filepath, misuse, invalid)
  {
    if !InvalidName(file) && misuse {
      ExtendsKeepsItem(f, g, NonCommercialLicenseViolation, Details(Text(file), filepath));
    }
    if !InvalidName(file) && invalid {
      ExtendsKeepsItem(f, g, LicenseInvalid, Details(Text(file), filepath));
    }
  }

  /** After the files of an entry, every validly named file of a flagged entry
      is recorded as NON_COMMERCIAL_LICENSE_VIOLATION, and every one of an
      entry with an invalid license as LICENSE_INVALID. */
  lemma {:induction false} FilesFoldFlagged(l: Ledger, files: seq<string>, filepath: Path, data: seq<Attribution>,
                                            misuse: bool, invalid: bool, existing: set<Path>)
    requires filepath.parts != []
    ensures var r := FilesFold(l, files, filepath, data, misuse, invalid, existing).failures;
      forall i :: 0 <= i < |files| ==> FileFlagged(r, files[i], filepath, misuse, invalid)
    decreases |files|
  {
    if files != [] {
      var init := files[..|files| - 1];
      var prev := FilesFold(l, init, filepath, data, misuse, invalid, existing);
      var r := FilesFold(l, files, filepath, data, misuse, invalid, existing).failures;
      FilesFoldFlagged(l, init, filepath, data, misuse, invalid, existing);
      FileStepFailures(prev, files[|files| - 1], filepath, data, misuse, invalid, existing);
      forall i | 0 <= i < |files| - 1 ensures FileFlagged(r, files[i], filepath, misuse, invalid) {
        assert files[i] == init[i];
        FileFlaggedKept(prev.failures, r, files[i], filepath, misuse, invalid);
      }
    }
  }

  /** After an attributions file is processed, every validly named file of an
      entry the configuration flags as misuse carries the
      NON_COMMERCIAL_LICENSE_VIOLATION record, and every one of an entry with
      an invalid license the LICENSE_INVALID record. */
  lemma {:induction false} DataFoldFlagged(l: Ledger, entries: seq<Attribution>, filepath: Path, data: seq<Attribution>,
                                           config: LicensingConfig, existing: set<Path>)
    requires filepath.parts != []
    ensures var r := DataFold(l, entries, filepath, data, config, existing).failures;
      forall i, j :: 0 <= i < |entries| && 0 <= j < |entries[i].files| ==>
        FileFlagged(r, entries[i].files[j], filepath, NonCommercialMisuse(config, entries[i]),
                    entries[i].license in config.invalidLicenses)
    decreases |entries|
  {
    if entries != [] {
      var init := entries[..|entries| - 1];
      var a := entries[|entries| - 1];
      var prev := DataFold(l, init, filepath, data, config, existing);
      DataFoldFlagged(l, init, filepath, data, config, existing);
      var start := Ledger(EntryHeader(prev.failures, a, filepath), prev.attributed);
      var misuse := NonCommercialMisuse(config, a);
      var invalid := a.license in config.invalidLicenses;
      var r := DataFold(l, entries, filepath, data, config, existing);
      assert r == FilesFold(start, a.files, filepath, data, misuse, invalid, existing);
      EntryHeaderExtends(prev.failures, a, filepath);
      FilesFoldExtends(start, a.files, filepath, data, misuse, invalid, existing);
      FilesFoldFlagged(start, a.files, filepath, data, misuse, invalid, existing);
      ExtendsTransitive(prev.failures, start.failures, r.failures);
      forall i, j | 0 <= i < |entries| - 1 && 0 <= j < |entries[i].files|
        ensures FileFlagged(r.failures, entries[i].files[j], filepath, NonCommercialMisuse(config, entries[i]),
                            entries[i].license in config.invalidLicenses)
      {
        assert entries[i] == init[i];
        FileFlaggedKept(prev.failures, r.failures, entries[i].files[j], filepath, NonCommercialMisuse(config, entries[i]),
                        entries[i].license in config.invalidLicenses);
      }
    }
  }

  /** What the source table accepts: anything from the project's own
      repository, only CC-BY-NC-SA-3.0 from goonstation, and from freesound
      one of its listed licenses. */
  lemma SourceTableVerdicts(license: string)
    ensures !LicenseMismatch(SourceValidation[1].allowed, license)
    ensures LicenseMismatch(SourceValidation[2].allowed, license) <==> license != "CC-BY-NC-SA-3.0"
    ensures !LicenseMismatch(SourceValidation[0].allowed, "CC0-1.0")
    ensures LicenseMismatch(SourceValidation[0].allowed, "MIT")
  {
    var ls := SourceValidation[0].allowed.licenses;
    assert ls[8] == "CC0-1.0";
    assert forall k :: 0 <= k < |ls| ==> ls[k] != "MIT";
  }

  // ------------------------------------------------------ the whole check

  /** One `attributions.yml` found by the scan, with its parsed entries. */
  datatype AttributionFile = AttributionFile(path: Path, data: seq<Attribution>)

  /** What the directory scan found. */
  datatype LicensingScan = LicensingScan(
    assets: seq<Path>,
    attributions: seq<AttributionFile>,
    orphaned: seq<Path>,
    unknown: seq<Path>)

  /** The scan only collects files named `attributions.yml`. */
  predicate AttributionsNamed(scan: LicensingScan) {
    forall i :: 0 <= i < |scan.attributions| ==> Child(Parent(scan.attributions[i].path), "attributions.yml") == scan.attributions[i].path
  }

  lemma NamedPathHasName(p: Path)
    requires Child(Parent(p), "attributions.yml") == p
    ensures p.parts != []
  {
  }

  ghost function FilesProcessed(l: Ledger, files: seq<AttributionFile>, config: LicensingConfig, existing: set<Path>): Ledger
    requires forall i :: 0 <= i < |files| ==> Child(Parent(files[i].path), "attributions.yml") == files[i].path
    decreases |files|
  {
    if files == [] then l
    else
      var last := files[|files| - 1];
      NamedPathHasName(last.path);
      ProcessData(FilesProcessed(l, files[..|files| - 1], config, existing), last.path, last.data, config, existing)
  }

  /** `d.get(k, 0)` */
  function Count(m: map<Path, int>, k: Path): int {
    if k in m then m[k] else 0
  }

  /** Per-folder counting: each asset adds one to its parent folder. */
  function Tally(m: map<Path, int>, assets: seq<Path>): map<Path, int>
    decreases |assets|
  {
    if assets == [] then m
    else
      var t := Tally(m, assets[..|assets| - 1]);
      var folder := Parent(assets[|assets| - 1]);
      t[folder := Count(t, folder) + 1]
  }

  /** How many of the assets lie directly in this folder. */
  function FolderCount(assets: seq<Path>, folder: Path): nat
    decreases |assets|
  {
    if assets == [] then 0
    else FolderCount(assets[..|assets| - 1], folder) + if Parent(assets[|assets| - 1]) == folder then 1 else 0
  }

  /** The assets no attribution describes, in scan order. */
  function UnattributedOf(assets: seq<Path>, attributed: map<Path, seq<Attribution>>): (r: seq<Path>)
    decreases |assets|
  {
    if assets == [] then []
    else
      var rest := UnattributedOf(assets[..|assets| - 1], attributed);
      var last := assets[|assets| - 1];
      if last in attributed then rest else rest + [last]
  }

  /** The key order of `unattributed_folders_count`: a folder joins at the
      end when its first asset is counted. */
  function FolderOrder(order: seq<Path>, assets: seq<Path>): seq<Path>
    decreases |assets|
  {
    if assets == [] then order
    else
      var o := FolderOrder(order, assets[..|assets| - 1]);
      var folder := Parent(assets[|assets| - 1]);
      if folder in o then o else o + [folder]
  }

  /** An ATTRIBUTIONS_YML_MISSING record for each folder without an `attributions.yml`. */
  function MissingYmlFold(failures: Failures, folders: seq<Path>, existing: set<Path>): Failures
    decreases |folders|
  {
    if folders == [] then failures
    else
      var f := MissingYmlFold(failures, folders[..|folders| - 1], existing);
      var folder := folders[|folders| - 1];
      if Child(folder, "attributions.yml") !in existing then Recorded(f, AttributionsYmlMissing, Single(File(folder)), None)
      else f
  }

  /** The mutable state of a LicensingValidation. */
  datatype Snapshot = Snapshot(
    attributionDict: map<Path, seq<Attribution>>,
    unattributedAssets: seq<Path>,
    assetFoldersCount: map<Path, int>,
    unattributedFoldersCount: map<Path, int>,
    unattributedFolderOrder: seq<Path>,
    failures: Failures)

  /** The records `check()` makes from the scan alone: orphaned, then unknown files. */
  function ScanRecords(failures: Failures, scan: LicensingScan): Failures {
    var f1 := if |scan.orphaned| > 0 then Recorded(failures, Orphaned, List(Files(scan.orphaned)), None) else failures;
    if |scan.unknown| > 0 then Recorded(f1, Unknown, List(Files(scan.unknown)), None) else f1
  }

  /** The counting pass over the scanned assets: every asset counts for its
      folder, the unattributed ones are also collected and counted apart. */
  function Counted(s: Snapshot, assets: seq<Path>): Snapshot {
    var fresh_ := UnattributedOf(assets, s.attributionDict);
    s.(unattributedAssets := s.unattributedAssets + fresh_,
       assetFoldersCount := Tally(s.assetFoldersCount, assets),
       unattributedFoldersCount := Tally(s.unattributedFoldersCount, fresh_),
       unattributedFolderOrder := FolderOrder(s.unattributedFolderOrder, fresh_))
  }

  /** The unattributed report: when any asset is unattributed, the list of
      them, then one record per counted folder without an `attributions.yml`. */
  function Reported(failures: Failures, unattributed: seq<Path>, folders: seq<Path>, existing: set<Path>): Failures {
    if |unattributed| > 0 then MissingYmlFold(Recorded(failures, Unattributed, List(Files(unattributed)), None), folders, existing)
    else failures
  }

  /** `check()` on a state: the scan's own records, every attributions file,
      the counting pass, then the unattributed report. */
  ghost function CheckOutcome(s: Snapshot, scan: LicensingScan, config: LicensingConfig, existing: set<Path>): Snapshot
    requires AttributionsNamed(scan)
  {
    var l := FilesProcessed(Ledger(ScanRecords(s.failures, scan), s.attributionDict), scan.attributions, config, existing);
    var c := Counted(s.(attributionDict := l.attributed, failures := l.failures), scan.assets);
    c.(failures := Reported(c.failures, c.unattributedAssets, c.unattributedFolderOrder, existing))
  }

  /** Every folder with an unattributed count has a total, the count is at
      least one and never exceeds the total; so the percentage `check()`
      prints always has a positive divisor. */
  ghost predicate FolderBound(s: Snapshot) {
    && s.unattributedFoldersCount.Keys <= s.assetFoldersCount.Keys
    && (forall p :: p in s.unattributedFoldersCount ==> s.unattributedFoldersCount[p] >= 1)
    && forall p :: Count(s.unattributedFoldersCount, p) <= Count(s.assetFoldersCount, p)
  }

  /** The folder order lists each counted folder once. */
  ghost predicate OrderMatchesKeys(s: Snapshot) {
    && (forall i, j :: 0 <= i < j < |s.unattributedFolderOrder| ==> s.unattributedFolderOrder[i] != s.unattributedFolderOrder[j])
    && (forall p :: p in s.unattributedFolderOrder <==> p in s.unattributedFoldersCount)
  }

  lemma {:induction false} TallyCount(m: map<Path, int>, assets: seq<Path>, p: Path)
    ensures Count(Tally(m, assets), p) == Count(m, p) + FolderCount(assets, p)
    ensures p in Tally(m, assets) <==> p in m || FolderCount(assets, p) > 0
    decreases |assets|
  {
    if assets != [] {
      TallyCount(m, assets[..|assets| - 1], p);
    }
  }

  lemma {:induction false} UnattributedCount(assets: seq<Path>, attributed: map<Path, seq<Attribution>>, p: Path)
    ensures FolderCount(UnattributedOf(assets, attributed), p) <= FolderCount(assets, p)
    decreases |assets|
  {
    if assets != [] {
      var rest := UnattributedOf(assets[..|assets| - 1], attributed);
      var last := assets[|assets| - 1];
      UnattributedCount(assets[..|assets| - 1], attributed, p);
      if last !in attributed {
        assert (rest + [last])[..|rest + [last]| - 1] == rest;
      }
    }
  }

  lemma {:induction false} FolderOrderCount(order: seq<Path>, assets: seq<Path>, p: Path)
    ensures p in FolderOrder(order, assets) <==> p in order || FolderCount(assets, p) > 0
    ensures (forall i, j :: 0 <= i < j < |order| ==> order[i] != order[j]) ==>
      var o := FolderOrder(order, assets);
      forall i, j :: 0 <= i < j < |o| ==> o[i] != o[j]
    decreases |assets|
  {
    if assets != [] {
      FolderOrderCount(order, assets[..|assets| - 1], p);
      var o := FolderOrder(order, assets[..|assets| - 1]);
      var folder := Parent(assets[|assets| - 1]);
      forall q ensures q in FolderOrder(order, assets) <==> q in o || q == folder {
      }
    }
  }

  /** Counting keeps both invariants of the per-folder counters. */
  lemma CountingKeepsInvariants(s: Snapshot, assets: seq<Path>)
    requires FolderBound(s) && OrderMatchesKeys(s)
    ensures FolderBound(Counted(s, assets)) && OrderMatchesKeys(Counted(s, assets))
  {
    var fresh_ := UnattributedOf(assets, s.attributionDict);
    forall p
      ensures Count(Tally(s.unattributedFoldersCount, fresh_), p) <= Count(Tally(s.assetFoldersCount, assets), p)
      ensures p in Tally(s.unattributedFoldersCount, fresh_) ==> p in Tally(s.assetFoldersCount, assets)
      ensures p in Tally(s.unattributedFoldersCount, fresh_) ==> Count(Tally(s.unattributedFoldersCount, fresh_), p) >= 1
      ensures p in FolderOrder(s.unattributedFolderOrder, fresh_) <==> p in Tally(s.unattributedFoldersCount, fresh_)
    {
      TallyCount(s.unattributedFoldersCount, fresh_, p);
      TallyCount(s.assetFoldersCount, assets, p);
      UnattributedCount(assets, s.attributionDict, p);
      FolderOrderCount(s.unattributedFolderOrder, fresh_, p);
    }
    FolderOrderCount(s.unattributedFolderOrder, fresh_, Path([]));
  }

  /** `check()` keeps the per-folder invariants, so a later report never
      looks up a missing total or divides by zero. */
  lemma CheckKeepsInvariants(s: Snapshot, scan: LicensingScan, config: LicensingConfig, existing: set<Path>)
    requires AttributionsNamed(scan)
    requires FolderBound(s) && OrderMatchesKeys(s)
    ensures FolderBound(CheckOutcome(s, scan, config, existing)) && OrderMatchesKeys(CheckOutcome(s, scan, config, existing))
  {
    var l := FilesProcessed(Ledger(ScanRecords(s.failures, scan), s.attributionDict), scan.attributions, config, existing);
    CountingKeepsInvariants(s.(attributionDict := l.attributed, failures := l.failures), scan.assets);
  }

  lemma {:induction false} FilesProcessedExtends(l: Ledger, files: seq<AttributionFile>, config: LicensingConfig, existing: set<Path>)
    requires forall i :: 0 <= i < |files| ==> Child(Parent(files[i].path), "attributions.yml") == files[i].path
    ensures Extends(l.failures, FilesProcessed(l, files, config, existing).failures)
    decreases |files|
  {
    if files != [] {
      var last := files[|files| - 1];
      var prev := FilesProcessed(l, files[..|files| - 1], config, existing);
      FilesProcessedExtends(l, files[..|files| - 1], config, existing);
      NamedPathHasName(last.path);
      DataFoldExtends(prev, last.data, last.path, last.data, config, existing);
      ExtendsTransitive(l.failures, prev.failures, FilesProcessed(l, files, config, existing).failures);
    }
  }

  /** `check()` passes only when it started clean, the scan found no orphaned
      or unknown files and every asset is attributed. */
  lemma CheckPassesOnlyWhenClean(s: Snapshot, scan: LicensingScan, config: LicensingConfig, existing: set<Path>)
    requires AttributionsNamed(scan)
    requires CheckOutcome(s, scan, config, existing).failures == map[]
    ensures s.failures == map[] && scan.orphaned == [] && scan.unknown == [] && s.unattributedAssets == []
    ensures forall a :: a in scan.assets ==> a in CheckOutcome(s, scan, config, existing).attributionDict
  {
    var f1 := if |scan.orphaned| > 0 then Recorded(s.failures, Orphaned, List(Files(scan.orphaned)), None) else s.failures;
    RecordedExtends(s.failures, Orphaned, List(Files(scan.orphaned)), None);
    var f2 := ScanRecords(s.failures, scan);
    RecordedExtends(f1, Unknown, List(Files(scan.unknown)), None);
    var l := FilesProcessed(Ledger(f2, s.attributionDict), scan.attributions, config, existing);
    FilesProcessedExtends(Ledger(f2, s.attributionDict), scan.attributions, config, existing);
    var c := Counted(s.(attributionDict := l.attributed, failures := l.failures), scan.assets);
    if |c.unattributedAssets| > 0 {
      MissingYmlKeeps(Recorded(l.failures, Unattributed, List(Files(c.unattributedAssets)), None), c.unattributedFolderOrder, existing);
    }
    assert l.failures == map[];
    assert f2.Keys == {};
    forall a | a in scan.assets ensures a in l.attributed {
      if a !in l.attributed {
        UnattributedHas(scan.assets, l.attributed, a);
      }
    }
  }

  /** The counting pass and the report leave every unattributed asset among
      the UNATTRIBUTED items. */
  lemma CountedReportsUnattributed(t: Snapshot, assets: seq<Path>, existing: set<Path>, a: Path)
    requires a in assets && a !in t.attributionDict
    ensures var c := Counted(t, assets);
      var r := Reported(c.failures, c.unattributedAssets, c.unattributedFolderOrder, existing);
      Unattributed in r && File(a) in r[Unattributed]
  {
    var c := Counted(t, assets);
    UnattributedHas(assets, t.attributionDict, a);
    assert a in c.unattributedAssets;
    var k :| 0 <= k < |c.unattributedAssets| && c.unattributedAssets[k] == a;
    ReportedOutcome(c.failures, c.unattributedAssets, c.unattributedFolderOrder, existing);
    var r := Reported(c.failures, c.unattributedAssets, c.unattributedFolderOrder, existing);
    assert r[Unattributed][|Listed(c.failures, Unattributed)| + k] == File(a);
  }

  /** `check()` reports every scanned asset that ends up without an
      attribution as UNATTRIBUTED. */
  lemma CheckReportsUnattributed(s: Snapshot, scan: LicensingScan, config: LicensingConfig, existing: set<Path>)
    requires AttributionsNamed(scan)
    ensures var o := CheckOutcome(s, scan, config, existing);
      forall a :: a in scan.assets && a !in o.attributionDict ==> Unattributed in o.failures && File(a) in o.failures[Unattributed]
  {
    var l := FilesProcessed(Ledger(ScanRecords(s.failures, scan), s.attributionDict), scan.attributions, config, existing);
    var t := s.(attributionDict := l.attributed, failures := l.failures);
    forall a | a in scan.assets && a !in t.attributionDict
      ensures var c := Counted(t, scan.assets);
        var r := Reported(c.failures, c.unattributedAssets, c.unattributedFolderOrder, existing);
        Unattributed in r && File(a) in r[Unattributed]
    {
      CountedReportsUnattributed(t, scan.assets, existing, a);
    }
  }

  /** The folds above, one element further. */
  lemma TallySnoc(m: map<Path, int>, assets: seq<Path>, x: Path)
    ensures Tally(m, assets + [x]) == Tally(m, assets)[Parent(x) := Count(Tally(m, assets), Parent(x)) + 1]
  {
    assert (assets + [x])[..|assets|] == assets;
  }

  lemma FolderOrderSnoc(order: seq<Path>, assets: seq<Path>, x: Path)
    ensures FolderOrder(order, assets + [x]) ==
      if Parent(x) in FolderOrder(order, assets) then FolderOrder(order, assets) else FolderOrder(order, assets) + [Parent(x)]
  {
    assert (assets + [x])[..|assets|] == assets;
  }

  lemma UnattributedSnoc(assets: seq<Path>, x: Path, attributed: map<Path, seq<Attribution>>)
    ensures UnattributedOf(assets + [x], attributed) ==
      if x in attributed then UnattributedOf(assets, attributed) else UnattributedOf(assets, attributed) + [x]
  {
    assert (assets + [x])[..|assets|] == assets;
  }

  lemma MissingYmlSnoc(failures: Failures, folders: seq<Path>, x: Path, existing: set<Path>)
    ensures MissingYmlFold(failures, folders + [x], existing) ==
      if Child(x, "attributions.yml") !in existing
      then Recorded(MissingYmlFold(failures, folders, existing), AttributionsYmlMissing, Single(File(x)), None)
      else MissingYmlFold(failures, folders, existing)
  {
    assert (folders + [x])[..|folders|] == folders;
  }

  /** The counting pass for one asset. */
  function CountStep(t: Snapshot, asset: Path): Snapshot {
    var parent := Parent(asset);
    var t1 := t.(assetFoldersCount := t.assetFoldersCount[parent := Count(t.assetFoldersCount, parent) + 1]);
    if asset in t.attributionDict then t1
    else
      t1.(unattributedFoldersCount := t.unattributedFoldersCount[parent := Count(t.unattributedFoldersCount, parent) + 1],
          unattributedFolderOrder := if parent in t.unattributedFolderOrder then t.unattributedFolderOrder
                                     else t.unattributedFolderOrder + [parent],
          unattributedAssets := t.unattributedAssets + [asset])
  }

  /** The counting pass is the one-asset step repeated. */
  lemma CountedSnoc(s: Snapshot, assets: seq<Path>, x: Path)
    ensures Counted(s, assets + [x]) == CountStep(Counted(s, assets), x)
  {
    var c := Counted(s, assets);
    var d := Counted(s, assets + [x]);
    var e := CountStep(c, x);
    CountedTotalsSnoc(s, assets, x);
    CountedUnattributedSnoc(s, assets, x);
    assert d.attributionDict == e.attributionDict && d.failures == e.failures;
  }

  lemma CountedTotalsSnoc(s: Snapshot, assets: seq<Path>, x: Path)
    ensures Counted(s, assets + [x]).assetFoldersCount == CountStep(Counted(s, assets), x).assetFoldersCount
  {
    TallySnoc(s.assetFoldersCount, assets, x);
  }

  lemma CountedUnattributedSnoc(s: Snapshot, assets: seq<Path>, x: Path)
    ensures var d := Counted(s, assets + [x]);
      var e := CountStep(Counted(s, assets), x);
      d.unattributedAssets == e.unattributedAssets && d.unattributedFoldersCount == e.unattributedFoldersCount &&
      d.unattributedFolderOrder == e.unattributedFolderOrder
  {
    UnattributedSnoc(assets, x, s.attributionDict);
    CountedFoldersSnoc(s, assets, x);
  }

  lemma CountedFoldersSnoc(s: Snapshot, assets: seq<Path>, x: Path)
    requires UnattributedOf(assets + [x], s.attributionDict) ==
      if x in s.attributionDict then UnattributedOf(assets, s.attributionDict) else UnattributedOf(assets, s.attributionDict) + [x]
    ensures var d := Counted(s, assets + [x]);
      var e := CountStep(Counted(s, assets), x);
      d.unattributedFoldersCount == e.unattributedFoldersCount && d.unattributedFolderOrder == e.unattributedFolderOrder
  {
    var fresh_ := UnattributedOf(assets, s.attributionDict);
    if x !in s.attributionDict {
      TallySnoc(s.unattributedFoldersCount, fresh_, x);
      FolderOrderSnoc(s.unattributedFolderOrder, fresh_, x);
    }
  }

  /** The missing-`attributions.yml` records only add to their own kind. */
  lemma {:induction false} MissingYmlKeeps(failures: Failures, folders: seq<Path>, existing: set<Path>)
    ensures failures.Keys <= MissingYmlFold(failures, folders, existing).Keys
    ensures Extends(failures, MissingYmlFold(failures, folders, existing))
    ensures forall k :: k in failures && k != AttributionsYmlMissing ==> MissingYmlFold(failures, folders, existing)[k] == failures[k]
    decreases |folders|
  {
    if folders != [] {
      var init := folders[..|folders| - 1];
      var x := folders[|folders| - 1];
      var f := MissingYmlFold(failures, init, existing);
      MissingYmlKeeps(failures, init, existing);
      RecordedExtends(f, AttributionsYmlMissing, Single(File(x)), None);
      ExtendsTransitive(failures, f, MissingYmlFold(failures, folders, existing));
    }
  }

  /** Each listed folder without an `attributions.yml` is recorded as missing one. */
  lemma {:induction false} MissingYmlRecorded(failures: Failures, folders: seq<Path>, existing: set<Path>, i: nat)
    requires i < |folders| && Child(folders[i], "attributions.yml") !in existing
    ensures var r := MissingYmlFold(failures, folders, existing);
      AttributionsYmlMissing in r && File(folders[i]) in r[AttributionsYmlMissing]
    decreases |folders|
  {
    var init := folders[..|folders| - 1];
    var x := folders[|folders| - 1];
    var f := MissingYmlFold(failures, init, existing);
    var r := MissingYmlFold(failures, folders, existing);
    if i == |folders| - 1 {
      RecordIfOutcome(true, f, AttributionsYmlMissing, File(x), None);
      LastIn(r, AttributionsYmlMissing, File(x));
    } else {
      assert folders[i] == init[i];
      MissingYmlRecorded(failures, init, existing, i);
      RecordedExtends(f, AttributionsYmlMissing, Single(File(x)), None);
      ExtendsKeepsItem(f, r, AttributionsYmlMissing, File(folders[i]));
    }
  }

  /** The unattributed report: nothing without unattributed assets; otherwise
      all of them, in order, after the earlier UNATTRIBUTED items, and a
      record for every listed folder without an `attributions.yml`. Earlier
      records are kept. */
  lemma ReportedOutcome(failures: Failures, unattributed: seq<Path>, folders: seq<Path>, existing: set<Path>)
    ensures |unattributed| == 0 ==> Reported(failures, unattributed, folders, existing) == failures
    ensures Extends(failures, Reported(failures, unattributed, folders, existing))
    ensures var r := Reported(failures, unattributed, folders, existing);
      |unattributed| > 0 ==>
        Unattributed in r && r[Unattributed] == Listed(failures, Unattributed) + Files(unattributed)
    ensures var r := Reported(failures, unattributed, folders, existing);
      |unattributed| > 0 ==>
        forall i :: 0 <= i < |folders| && Child(folders[i], "attributions.yml") !in existing ==>
          AttributionsYmlMissing in r && File(folders[i]) in r[AttributionsYmlMissing]
  {
    if |unattributed| > 0 {
      var g := Recorded(failures, Unattributed, List(Files(unattributed)), None);
      var n := |Listed(failures, Unattributed)|;
      assert g[Unattributed] == g[Unattributed][..n] + g[Unattributed][n..];
      RecordedExtends(failures, Unattributed, List(Files(unattributed)), None);
      MissingYmlKeeps(g, folders, existing);
      ExtendsTransitive(failures, g, Reported(failures, unattributed, folders, existing));
      forall i | 0 <= i < |folders| && Child(folders[i], "attributions.yml") !in existing
        ensures var r := Reported(failures, unattributed, folders, existing);
          AttributionsYmlMissing in r && File(folders[i]) in r[AttributionsYmlMissing]
      {
        MissingYmlRecorded(g, folders, existing, i);
      }
    }
  }

  lemma {:induction false} UnattributedHas(assets: seq<Path>, attributed: map<Path, seq<Attribution>>, a: Path)
    requires a in assets && a !in attributed
    ensures a in UnattributedOf(assets, attributed)
    decreases |assets|
  {
    if a != assets[|assets| - 1] {
      assert a in assets[..|assets| - 1];
      UnattributedHas(assets[..|assets| - 1], attributed, a);
    }
  }
}
