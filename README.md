# Jug-based chemistry master routing and asset-attribution validation

The project models two independent pieces of sequential decision logic. For each one, it proves what the logic promises.

**1. The routing engine of the two-slot chemical transfer station.** The server side of the jug-based chemistry master works on one device at a time.

- An operator press names a slot role: Primary, Secondary or Buffer. The role, the device state and a two-entry inventory snapshot resolve into one concrete (source, target) slot pair, or the press is declined. The device state is the selected buffer slot and the role that buffer transfers go to.
- The handlers update the device's two fields. They emit:
  - the transfer call;
  - full or partial UI states (a partial one omits the buffer listing);
  - the click sound.

The device is the class `TodoMasterComponents.TodoMasterComponent`. Its collaborator calls are recorded in a ghost `trace`. Inventory queries are inputs: the dispenser view queried when a press arrives, and the dispenser and buffer views the full UI update queries after the transfer.

**2. The decision rules of the asset-attribution checker.**

- It classifies attribution entries into failure kinds with license and source rules, and gathers the failures in a map keyed by kind.
- It counts assets per folder, and reports unattributed assets and folders without an `attributions.yml`.
- The file system is a finite set of existing paths.
- Every `attributions.yml` is already parsed into its entries.
- Pure functions in `RgaValidation` state what each step computes. The class `RgaValidator.LicensingValidation` runs the same steps in place on its fields, and each of its methods is proved to leave exactly the state its function describes. The properties are proved as lemmas about those functions.

The amount handed to the transfer is the enum's integer, as the code has it. `All` therefore becomes 101, one past `U100`. `GetFixedPoint` is a separate helper that maps `All` to `FixedPoint2.MaxValue`, and it is not used on this path. The model keeps both behaviours and proves each one: `TodoMasterSystem.AllTransfersOneHundredOne` and `SharedTodoMaster.GetFixedPoint`. What the transfer receives for `All` is therefore not the maximum quantity that `GetFixedPoint` gives it.

- The source of FixedPoint2 is not part of this model. `SharedTodoMaster.FixedPoint2` takes it to be a count of hundredths, with `MaxValue` the largest 32-bit signed raw value.
- `record_failure` tests the list, not the item, for being a details record. A details item given with a relevant path is therefore wrapped a second time (`RgaValidation.DetailsWrappedAgain`).
- The directory scan only collects files named `attributions.yml`. The model assumes this as a precondition (`AttributionsNamed`), because the scan itself is not modelled.

Modules:

| file | module | holds |
|---|---|---|
| wrappers.dfy | Wrappers | `Option`, `Result` |
| shared_todo_master.dfy | SharedTodoMaster | slot roles, amounts, `GetFixedPoint`, messages, UI state |
| todo_master_component.dfy | TodoMasterComponents | the device state class |
| todo_master_system.dfy | TodoMasterCollaborators, TodoMasterSystem | the recorded calls; the resolution functions, their lemmas, and the handlers |
| rga_text.dfy | RgaText | Python's substring `in` and `str.split(",")` |
| rga_failures.dfy | RgaFailures | the failure kinds, `validation_enum`, `ExtendSetAction` |
| rga_config.dfy | RgaConfig | `LicensingConfig.__init__` |
| rga_validation.dfy | RgaValidation | the checker's rules as functions, and the lemmas about them |
| rga_validator.dfy | RgaValidator | `LicensingValidation` as a class, proved against those functions |

## Model

| member | source | states |
|---|---|---|
| SharedTodoMaster.SlotValue | Content.Shared/Chemistry/SharedTODOMaster.cs:51-56 | each of the three roles has an integer in 0..2 |
| SharedTodoMaster.SlotFromValue | Content.Shared/Chemistry/SharedTODOMaster.cs:51-56 | an integer names a role exactly when it is 0, 1 or 2, and then it is that role's value |
| SharedTodoMaster.SlotValueRoundTrip | Content.Shared/Chemistry/SharedTODOMaster.cs:51-56 | decoding a role's integer gives the role back, so the enum has exactly these three distinct values |
| SharedTodoMaster.AmountValue | Content.Shared/Chemistry/SharedTODOMaster.cs:58-67 | every amount's integer lies in 1..101, and it is 101 exactly for `All` |
| SharedTodoMaster.AllFollowsU100 | Content.Shared/Chemistry/SharedTODOMaster.cs:65-66 | `All` is one more than `U100`, that is 101 |
| SharedTodoMaster.AmountValueInjective | Content.Shared/Chemistry/SharedTODOMaster.cs:58-67 | no two amounts share an integer |
| SharedTodoMaster.GetFixedPoint | Content.Shared/Chemistry/SharedTODOMaster.cs:69-78 | the result is MaxValue exactly for `All`; any other amount gives New of its integer; no result exceeds MaxValue |
| SharedTodoMaster.GetFixedPointMonotone | Content.Shared/Chemistry/SharedTODOMaster.cs:71-77 | a larger amount never gives a smaller quantity, and `All` gives the greatest |
| TodoMasterComponents.TodoMasterComponent.constructor | Content.Server/Chemistry/Components/TODOMasterComponent.cs:18-22 | a new device has no selected slot and target Primary, has made no calls, and satisfies "target is not Buffer" |
| TodoMasterSystem.ResolveTransfer | Content.Server/Chemistry/EntitySystems/TODOMasterSystem.cs:74-109 | a transfer happens only with two container entries and a defined source role; it carries the amount's integer and the message's reagent id; a filtered transfer never comes from the buffer |
| TodoMasterSystem.ResolveSource | Content.Server/Chemistry/EntitySystems/TODOMasterSystem.cs:78-84 | the source switch: entry 0's slot id for Primary, entry 1's for Secondary, the selection for Buffer, none otherwise; its meaning is stated by ResolveFollowsRoute and the two transfer lemmas below |
| TodoMasterSystem.ResolveTarget | Content.Server/Chemistry/EntitySystems/TODOMasterSystem.cs:86-104 | the two target switches, unfiltered and filtered; their meaning is stated by ResolveFollowsRoute, FilteredTransferSwapsContainers, UnfilteredTransferUsesSelection and FilteredBufferPressDeclined |
| TodoMasterSystem.ResolveFollowsRoute | Content.Server/Chemistry/EntitySystems/TODOMasterSystem.cs:78-107 | the two switch tables agree with the routing table (filtered: container into container, none from the buffer; unfiltered: between a container and the selected slot, and out of the buffer into the target role's container) for every press, state and inventory |
| TodoMasterSystem.DeclinedWithoutContainerPair | Content.Server/Chemistry/EntitySystems/TODOMasterSystem.cs:74-76 | a null inventory, or one without exactly two entries, declines every press |
| TodoMasterSystem.UndefinedSourceDeclined | Content.Server/Chemistry/EntitySystems/TODOMasterSystem.cs:78-84 | a source value outside the enum is declined |
| TodoMasterSystem.FilteredBufferPressDeclined | Content.Server/Chemistry/EntitySystems/TODOMasterSystem.cs:98-104 | a filtered press from the buffer is declined whatever the state |
| TodoMasterSystem.FilteredTransferSwapsContainers | Content.Server/Chemistry/EntitySystems/TODOMasterSystem.cs:78-81 | a filtered transfer goes from entry 0 to entry 1 for Primary, and from entry 1 to entry 0 for Secondary |
| TodoMasterSystem.UnfilteredTransferUsesSelection | Content.Server/Chemistry/EntitySystems/TODOMasterSystem.cs:78-96 | an unfiltered transfer goes from a container to the selected slot, or from the selected slot to entry 0 when the target is Primary and to entry 1 otherwise |
| TodoMasterSystem.BufferPressAfterSelection | Content.Server/Chemistry/EntitySystems/TODOMasterSystem.cs:82-96 | once slot x is selected, an unfiltered buffer press moves out of x into the container the target names, and is declined only if that container has no slot id |
| TodoMasterSystem.BufferPressIntoTargetRole | Content.Server/Chemistry/EntitySystems/TODOMasterSystem.cs:92-94 | while the target is not Buffer (the device invariant), an unfiltered buffer press goes from the selection into the container whose index is the target role's integer, and is declined only when nothing is selected or that container has no slot id |
| TodoMasterSystem.AllTransfersOneHundredOne | Content.Server/Chemistry/EntitySystems/TODOMasterSystem.cs:109 | an `All` press transfers the integer 101, and that integer's fixed-point quantity is not GetFixedPoint(All) |
| TodoMasterSystem.UiRefresh | Content.Server/Chemistry/EntitySystems/TODOMasterSystem.cs:136-156 | at most one UI state is sent; it is sent exactly when there are two container entries and the update is partial or a buffer listing exists; it carries the target, the selection and both entries verbatim; a partial update sends no buffer listing, a full one sends the listing |
| TodoMasterSystem.PressEvents | Content.Server/Chemistry/EntitySystems/TODOMasterSystem.cs:106-112 | the calls of one press; PressEventsOrder states their shape and order |
| TodoMasterSystem.PressEventsOrder | Content.Server/Chemistry/EntitySystems/TODOMasterSystem.cs:106-112 | a press either makes no call, or exactly one transfer first, at most one full UI update, and the click last |
| TodoMasterSystem.AcceptedTarget | Content.Server/Chemistry/EntitySystems/TODOMasterSystem.cs:127-128 | a switch is accepted exactly for Primary and Secondary, and the accepted role is never Buffer |
| TodoMasterSystem.SubscribeUpdateUiState | Content.Server/Chemistry/EntitySystems/TODOMasterSystem.cs:61-64 | a host notification makes exactly the calls of a full UI update |
| TodoMasterSystem.UpdateUiState | Content.Server/Chemistry/EntitySystems/TODOMasterSystem.cs:136-156 | the trace grows by exactly the calls described by UiRefresh for the current state |
| TodoMasterSystem.OnReagentButtonMessage | Content.Server/Chemistry/EntitySystems/TODOMasterSystem.cs:71-113 | the selection and the target are unchanged; the trace grows by exactly the press's calls |
| TodoMasterSystem.OnStorageSelected | Content.Server/Chemistry/EntitySystems/TODOMasterSystem.cs:115-123 | the selection becomes the message's slot id, unchecked; the target is unchanged; a partial update and the click follow |
| TodoMasterSystem.OnTargetSwitched | Content.Server/Chemistry/EntitySystems/TODOMasterSystem.cs:125-134 | an undefined value or Buffer changes nothing and makes no call; another role becomes the target, followed by a partial update and the click; the selection is unchanged; "target is not Buffer" is preserved |
| RgaText.ContainsIff | Tools/rga_check.py:333 | the substring test holds exactly when the needle occurs at some position |
| RgaText.Contains | Tools/rga_check.py:333 | Python's substring `in`; ContainsIff states it means an occurrence at some position |
| RgaText.Split | Tools/rga_check.py:44 | splitting on "," gives at least one piece, and no piece holds a comma |
| RgaText.JoinSplit | Tools/rga_check.py:44 | joining the pieces with commas gives the string back |
| RgaText.Join | Tools/rga_check.py:44 | the inverse of the split, joining with commas; JoinSplit and SplitJoin state both round trips |
| RgaText.SplitJoin | Tools/rga_check.py:44 | splitting comma-free pieces joined with commas gives the pieces back |
| RgaFailures.FailureFromName | Tools/rga_check.py:11-40 | a name look-up finds only a kind with that exact name |
| RgaFailures.FailureName | Tools/rga_check.py:11-40 | each kind's member name; FailureNamesRoundTrip states that FailureFromName inverts it |
| RgaFailures.FailureNamesRoundTrip | Tools/rga_check.py:11-40 | every kind is found again by its own name, so no two kinds share a name |
| RgaFailures.AllFailuresComplete | Tools/rga_check.py:64 | the set of all kinds holds every kind |
| RgaFailures.ParseNames | Tools/rga_check.py:44 | the look-up of every name in order succeeds exactly when each name is a kind's; otherwise the error is the first name that is not |
| RgaFailures.ValidationEnum | Tools/rga_check.py:42-47 | the result succeeds exactly when every comma-separated piece names a kind; the set holds exactly the named kinds; the error names the first piece, in order, that is not a kind |
| RgaFailures.ExtendSet | Tools/rga_check.py:58-66 | a kind is stored exactly when it was stored before, or was given, or no values were given |
| RgaFailures.ExtendSetIdempotent | Tools/rga_check.py:58-66 | repeating an option adds nothing, and an option never drops an earlier kind |
| RgaFailures.ExtendSetAction | Tools/rga_check.py:58-66 | only the option's own attribute changes, to ExtendSet of its previous value |
| RgaConfig.MakeConfig | Tools/rga_check.py:196-202 | a document that is not a mapping is refused; otherwise the non-commercial flag is set only by an explicit true; the invalid licenses default to empty; the ignored kinds are exactly the listed names; an error names a listed name that is no kind's |
| RgaConfig.ConfigFrom | Tools/rga_check.py:199-202 | the same, for a mapping |
| RgaConfig.ParsedKinds | Tools/rga_check.py:201 | the set of the parsed kinds holds exactly the kinds whose names were listed |
| RgaConfig.DefaultConfigIsStrict | Tools/rga_check.py:189-194 | the empty configuration is commercial, ignores nothing, and lists no invalid license |
| RgaValidator.InitialConfig | Tools/rga_check.py:292-300 | without `licensing.yml` the configuration is the strict default, otherwise it is the one the file's document gives |
| RgaValidator.NewLicensingValidation | Tools/rga_check.py:292-300 | `LicensingValidation(scan)`: fails exactly when the configuration does, with its error; otherwise a fresh, empty, valid validation holding the InitialConfig configuration |
| RgaValidation.WithName | Tools/rga_check.py:365 | the sibling path has the same parent and the given last name |
| RgaValidation.Detailed | Tools/rga_check.py:306-313 | with a relevant path, every item (details records too) becomes a details record pointing at that path, in order; without one, the items are kept |
| RgaValidation.Recorded | Tools/rga_check.py:302-318 | the kind's list exists afterwards; it keeps its old items, followed in order by the wrapped new ones; every other kind is unchanged |
| RgaValidation.DetailsWrappedAgain | Tools/rga_check.py:308-312 | a details record given with a relevant path is stored wrapped twice |
| RgaValidation.ExtendsTransitive | Tools/rga_check.py:316 | "every list only grows" composes |
| RgaValidation.RecordedExtends | Tools/rga_check.py:316 | recording never drops or changes an earlier item of any kind |
| RgaValidation.NonCommercialMisuse | Tools/rga_check.py:331-337 | misuse is only raised for a commercial project; a Custom license is misused exactly when commercial use is not explicitly allowed; any other license is misused exactly when it contains "-NC-" |
| RgaValidation.LicenseMismatch | Tools/rga_check.py:347-355 | a matched source's license verdict; ComputeLicenseMismatch runs the loop against it and SourceTableVerdicts states it for the table's rows |
| RgaValidation.SourceFold | Tools/rga_check.py:344-358 | the mismatch records of one entry; SourceFoldOutcome states them |
| RgaValidation.SourceChecks | Tools/rga_check.py:343-361 | the mismatch records, then SOURCE_UNKNOWN; SourceChecksOutcome states them |
| RgaValidation.EntryChecks | Tools/rga_check.py:323-329 | the opening records of an entry; EntryChecksOutcome states them |
| RgaValidation.SourceTableVerdicts | Tools/rga_check.py:131-146 | the space-station-14 source admits every license; goonstation admits only CC-BY-NC-SA-3.0; freesound admits CC0-1.0 and refuses MIT |
| RgaValidation.SourceFoldOutcome | Tools/rga_check.py:344-358 | the mismatch pass keeps every earlier record; it records the entry's source if some matching source refuses its license, and changes nothing otherwise |
| RgaValidation.SourceChecksOutcome | Tools/rga_check.py:343-361 | a source matching no known prefix records SOURCE_UNKNOWN; a known source with no mismatch records nothing; earlier records are kept |
| RgaValidation.EntryChecksOutcome | Tools/rga_check.py:323-329 | an entry without files records its attributions file as INVALID_FILE_ENTRY; a Custom license without `commercialUseAllowed` records every file of the entry, with the path, as CUSTOM_LICENSE_UNCLARIFIED; earlier records are kept |
| RgaValidation.EntryHeader | Tools/rga_check.py:323-361 | the opening records and the source checks of an entry, before its files; EntryHeaderExtends and EntryChecksOutcome state them |
| RgaValidation.EntryHeaderExtends | Tools/rga_check.py:323-361 | the checks that open an entry keep every earlier record, and their opening records survive the source checks |
| RgaValidation.FileChecks | Tools/rga_check.py:366-369 | the misuse and invalid-license records of one file; FileChecksOutcome states them |
| RgaValidation.AssetStep | Tools/rga_check.py:371-377 | attributing or missing one asset; AssetStepOutcome states it |
| RgaValidation.InvalidName | Tools/rga_check.py:365-384 | the names `with_name` refuses with ValueError; FileStepFailures states that such a name is recorded as INVALID_FILE_ENTRY without a path, and that any other name gets the file checks |
| RgaValidation.FileStep | Tools/rga_check.py:364-383 | one file of an entry; FileStepFailures and FileStepAttributed state it |
| RgaValidation.FilesFold | Tools/rga_check.py:363-386 | the file loop; FilesFoldExtends, FilesFoldAttributed, FilesFoldAccounted and FilesFoldFlagged state it |
| RgaValidation.EntryStep | Tools/rga_check.py:321-386 | one entry: its opening and source records, then its files; EntryHeaderExtends and the DataFold lemmas state it |
| RgaValidation.DataFold | Tools/rga_check.py:321-386 | the entry loop; DataFoldExtends, DataFoldAccounted, DataFoldEntriesRecorded and DataFoldFlagged state it |
| RgaValidation.ProcessData | Tools/rga_check.py:320-386 | `process_attribution_data`, the entry loop over the file's own entries; the DataFold lemmas state it |
| RgaValidation.FileChecksOutcome | Tools/rga_check.py:366-369 | a flagged entry records each file as NON_COMMERCIAL_LICENSE_VIOLATION, and an invalid license records it as LICENSE_INVALID |
| RgaValidation.AssetStepOutcome | Tools/rga_check.py:371-377 | an existing asset is attributed to this file's entries, after a duplicate record if it was already attributed; a missing one is recorded as ASSET_MISSING, and the attributions are unchanged |
| RgaValidation.FileStepFailures | Tools/rga_check.py:363-383 | a file name `with_name` refuses is recorded as INVALID_FILE_ENTRY; any other name gets its misuse, invalid-license, missing and duplicate records |
| RgaValidation.FilesFoldExtends | Tools/rga_check.py:363-386 | the file loop keeps every earlier record |
| RgaValidation.DataFoldExtends | Tools/rga_check.py:321-386 | the entry loop keeps every earlier record |
| RgaValidation.FileStepAttributed | Tools/rga_check.py:363-377 | after one file step, the file is accounted for (attributed or recorded); each attribution is either old or the file's existing sibling, mapped to this file's entries |
| RgaValidation.FilesFoldAttributed | Tools/rga_check.py:363-377 | after the file loop, every attribution is either old or an existing sibling named by one of the files, mapped to this file's entries |
| RgaValidation.FilesFoldAccounted | Tools/rga_check.py:363-386 | after the file loop, every file of the entry is accounted for |
| RgaValidation.DataFoldAccounted | Tools/rga_check.py:320-386 | after `process_attribution_data`, every file of every entry is accounted for, and no attribution is lost |
| RgaValidation.DataFoldEntriesRecorded | Tools/rga_check.py:321-329 | after the entry loop, every entry's opening records (no files, unclarified Custom) are among the failures |
| RgaValidation.FileFlaggedKept | Tools/rga_check.py:366-369 | later records never undo a file's NON_COMMERCIAL_LICENSE_VIOLATION and LICENSE_INVALID records |
| RgaValidation.FilesFoldFlagged | Tools/rga_check.py:363-369 | after the file loop, every validly named file of a flagged entry is recorded as NON_COMMERCIAL_LICENSE_VIOLATION, and every one of an entry with an invalid license as LICENSE_INVALID, each with the attributions file's path |
| RgaValidation.DataFoldFlagged | Tools/rga_check.py:321-369 | after the entry loop, the same holds for every file of every entry, with the misuse flag that NonCommercialMisuse gives that entry and the invalid flag from the configuration's invalid licenses |
| RgaValidation.NamedPathHasName | Tools/rga_check.py:228 | a path named `attributions.yml` has a last component, so it has siblings |
| RgaValidation.FilesProcessed | Tools/rga_check.py:395-398 | the loop over the scanned attributions files; FilesProcessedExtends states it |
| RgaValidation.ScanRecords | Tools/rga_check.py:389-392 | the orphaned and unknown records; CheckPassesOnlyWhenClean states that a passing check had none |
| RgaValidation.Tally | Tools/rga_check.py:400-402 | the per-folder totals; TallyCount states them |
| RgaValidation.UnattributedOf | Tools/rga_check.py:403-406 | the unattributed assets in scan order; UnattributedHas and UnattributedCount state them |
| RgaValidation.FolderOrder | Tools/rga_check.py:405 | the insertion order of the unattributed counts; FolderOrderCount states it |
| RgaValidation.MissingYmlFold | Tools/rga_check.py:412-418 | the missing-`attributions.yml` records; MissingYmlRecorded and MissingYmlKeeps state them |
| RgaValidation.Counted | Tools/rga_check.py:400-406 | the counting pass; CountingKeepsInvariants, CountedSnoc and CountedReportsUnattributed state it |
| RgaValidation.Reported | Tools/rga_check.py:408-418 | the unattributed report; ReportedOutcome states it |
| RgaValidation.CheckOutcome | Tools/rga_check.py:388-431 | the whole check on a state; CheckKeepsInvariants, CheckPassesOnlyWhenClean and CheckReportsUnattributed state it |
| RgaValidation.TallyCount | Tools/rga_check.py:400-402 | each folder's total grows by exactly the number of counted assets directly in it |
| RgaValidation.UnattributedCount | Tools/rga_check.py:403-406 | a folder holds no more unattributed assets than assets |
| RgaValidation.FolderOrderCount | Tools/rga_check.py:405 | a folder is in the order exactly when it was before or one of its assets is counted; the order never repeats a folder |
| RgaValidation.UnattributedHas | Tools/rga_check.py:403-406 | every asset without an attribution is collected |
| RgaValidation.MissingYmlKeeps | Tools/rga_check.py:412-418 | the missing-`attributions.yml` records never remove or change an earlier item, and leave every other kind unchanged |
| RgaValidation.MissingYmlRecorded | Tools/rga_check.py:412-418 | each listed folder without an `attributions.yml` gets an ATTRIBUTIONS_YML_MISSING record naming it |
| RgaValidation.ReportedOutcome | Tools/rga_check.py:408-418 | no unattributed asset means no record; otherwise the UNATTRIBUTED list is the earlier items followed by all unattributed assets in order, and every listed folder without an `attributions.yml` is recorded; earlier records are kept |
| RgaValidation.CountingKeepsInvariants | Tools/rga_check.py:400-406 | the counting pass keeps each unattributed count between 1 and its folder's total, and the order equal to the counted folders |
| RgaValidation.CheckKeepsInvariants | Tools/rga_check.py:388-431 | the whole check keeps those bounds, so the percentage at line 426 never divides by zero |
| RgaValidation.FilesProcessedExtends | Tools/rga_check.py:395-398 | processing the attributions files keeps every earlier record |
| RgaValidation.CheckPassesOnlyWhenClean | Tools/rga_check.py:388-431 | a passing check means no earlier failures, no orphaned or unknown files, no unattributed assets, and every scanned asset attributed |
| RgaValidation.CountedReportsUnattributed | Tools/rga_check.py:400-409 | after counting and reporting, every asset without an attribution is among the UNATTRIBUTED items |
| RgaValidation.CheckReportsUnattributed | Tools/rga_check.py:388-409 | `check()` reports every scanned asset that ends up unattributed as UNATTRIBUTED |
| RgaValidation.CountedSnoc | Tools/rga_check.py:400-406 | counting one more asset is one step of the counting loop |
| RgaValidator.ComputeLicenseMismatch | Tools/rga_check.py:347-355 | the loop decides the mismatch exactly as LicenseMismatch states it |
| RgaValidator.DetailItems | Tools/rga_check.py:307-313 | the loop builds exactly the details list Detailed describes |
| RgaValidator.ComputeMisuse | Tools/rga_check.py:331-337 | the flag is exactly NonCommercialMisuse |
| RgaValidator.CountPass | Tools/rga_check.py:400-406 | the counting loop leaves exactly the counters and the unattributed list that Counted describes |
| RgaValidator.LicensingValidation.constructor | Tools/rga_check.py:276-300 | a new validation has empty attributions, counters and failures, and satisfies its invariant |
| RgaValidator.LicensingValidation.RecordFailure | Tools/rga_check.py:302-318 | failures become exactly Recorded of the old failures |
| RgaValidator.LicensingValidation.RecordFileChecks | Tools/rga_check.py:366-369 | failures become exactly FileChecks |
| RgaValidator.LicensingValidation.AttributeAsset | Tools/rga_check.py:371-377 | failures and attributions become exactly AssetStep |
| RgaValidator.LicensingValidation.ProcessFile | Tools/rga_check.py:364-383 | failures and attributions become exactly FileStep |
| RgaValidator.LicensingValidation.CheckSources | Tools/rga_check.py:343-361 | failures become exactly SourceChecks over the known-source table |
| RgaValidator.LicensingValidation.RecordEntryChecks | Tools/rga_check.py:323-329 | failures become exactly EntryChecks, whose two records EntryChecksOutcome states |
| RgaValidator.LicensingValidation.ProcessFiles | Tools/rga_check.py:363-386 | failures and attributions become exactly FilesFold |
| RgaValidator.LicensingValidation.ProcessEntry | Tools/rga_check.py:321-386 | failures and attributions become exactly EntryStep |
| RgaValidator.LicensingValidation.ProcessAttributionData | Tools/rga_check.py:320-386 | failures and attributions become exactly ProcessData |
| RgaValidator.LicensingValidation.RecordScanFailures | Tools/rga_check.py:389-392 | failures become exactly ScanRecords: orphaned, then unknown files |
| RgaValidator.LicensingValidation.ProcessAttributionFiles | Tools/rga_check.py:395-398 | failures and attributions become exactly FilesProcessed |
| RgaValidator.LicensingValidation.CountAssets | Tools/rga_check.py:400-406 | the counters and the unattributed list become exactly Counted |
| RgaValidator.LicensingValidation.ReportUnattributed | Tools/rga_check.py:408-429 | failures become exactly Reported, whose records ReportedOutcome states; every visited folder has 0 < unattributed count <= total |
| RgaValidator.LicensingValidation.Check | Tools/rga_check.py:388-431 | the state becomes exactly CheckOutcome; the result is true exactly when no failure is recorded; the invariant is kept |

## Left out

- The `Console.WriteLine` of a press and the audio playback of the click sound are left out. The click is recorded as a trace event only.
- For `SetUiState`, only the state handed over is recorded. The UI transport itself is left out.
- `GetInventory` and `SolutionTransfer` are foreign calls. Their results are inputs, and their calls are recorded.
- The client window and message sending are not modelled. The client's storage-transfer button sends a selection followed by an unfiltered buffer press; `TodoMasterSystem.StorageTransferScenario` composes the server handlers for such a run (a selection, a Primary press, a target switch, then an unfiltered and a filtered buffer press).
- Component registration, serialization and the access attribute are left out. In the model, only the handler methods modify the device fields.
- For an inventory entry, only its slot id is modelled. The reagent data it reports is an opaque string.
- An amount value outside the declared enum members is not modelled. Amounts are the seven declared members.
- The argparse setup, the help formatter, `existing_path` and the `__main__` block are left out: they are command-line plumbing and printing.
- The file-system walk and the mimetype guessing of `LicensingScan.run` are left out. The scan is an input.
- YAML loading is left out. Every document is already parsed.
- All `print` output is left out, including the percentage printout at Tools/rga_check.py:426. Only the bound that makes its division safe is proved.
- The `OSError` path of the file loop (Tools/rga_check.py:384-386) is left out, because it comes from file-system errors.
- RgaValidation.InvalidName: the `ValueError` of `with_name` is modelled for POSIX paths only (an empty name, ".", or one holding "/"). A backslash is an ordinary character there.
- RgaValidation.NonCommercialMisuse: `commercialUseAllowed` is modelled as absent, true or false. Values that are not booleans are not modelled.
- record_failure's final `append` branch (Tools/rga_check.py:317-318) is not modelled, because the items are always a list by then.
- The class-level mutable defaults of `LicensingValidation` are shared across instances in Python. The model keeps them per instance.
- `list_unattributed_stats` is never read from `licensing.yml`, so `ConfigFrom` leaves it false. The `__main__` block sets it to true when `--unattributed-stats` is passed (Tools/rga_check.py:456-457). The flag only decides whether the per-folder lines print (lines 420 and 428), and the failures recorded do not depend on it. That output is left out with the other prints, so the model keeps the flag at false.
- Attribution, ConfigData, MakeConfig: the parsed documents are typed, so the crashes an ill-typed `attributions.yml` or `licensing.yml` causes in the script are not modelled. These are the KeyError of an entry without `files`, `license` or `source` (Tools/rga_check.py:322, 327, 345), the TypeError of an empty `attributions.yml` whose data is None (line 321), the TypeError of an `ignore_checks` or `invalid_licenses` key present with a null value (lines 201, 340), and a non-boolean `project_is_non_commercial_and_not_for_profit`, whose truthiness the script uses at line 332 where the model only accepts true or false.
