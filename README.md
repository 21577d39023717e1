# WorldUpdater: the 1.19.3 → 1.20 level migration

`1_19_3.py` opens a Minecraft world's `level.dat`, takes the level's `Data`
compound and switches on the experimental 1.20 content. It does this by editing three lists of
names:

- `Data.enabled_features`, the enabled feature flags;
- `Data.DataPacks.Enabled`, the enabled datapacks;
- `Data.DataPacks.Disabled`, the disabled datapacks.

The edits are guarded. The vanilla feature and the vanilla pack are added when
they are missing. Each experiment whose switch is on (`update_1_20`, `bundle`)
gets the same three edits:

- its feature flag is added when it is missing;
- its pack is removed from the disabled list when it is there;
- its pack is added to the enabled list when it is missing.

Unless the run is a dry run, the program then saves a backup when `backup` is
set (it is unless `--no-backup` is given). It writes the lists back into `Data`
and saves the level.

This project models that editing logic in Dafny:

- `wrappers.dfy` defines `Option` and `Result`.
- `tags.dfy` (module `Tags`) defines the tag tree, reduced to strings, numbers,
  lists and compounds. It also defines the "get with a default" lookups the program
  uses on compounds.
- `string_lists.dfy` (module `StringLists`) defines the guarded append and
  Python's `list.remove`. The second removes the first occurrence only.
- `migration.dfy` (module `Migration`) has the reading of `Data` (lines 24-40),
  one pure reference function per editing step (lines 43-72) and the write-back
  (lines 83-84). It also has `Migrate`, the imperative counterpart of `main`, and
  `EditLists`, its editing body. `EditLists` updates three local lists step
  by step under the same `if` guards as the source. It is proved equal to the
  reference functions.
- `properties.dfy` (module `MigrationProperties`) proves what the edit
  guarantees: which names are present afterwards, the exact count of every name
  in every list, prefix preservation, the effect of a switch that is off,
  idempotence, and the write-back round trip.
- `backup.dfy` (module `Backup`) models the backup as the code writes it (see
  Findings).

The binary tag format is read and written by the third-party `nbtlib`
package and is not modelled. A level whose `Data` lacks `Version` is rejected
before any edit (`ExampleLevelWithoutVersion`), because the code reads
`data['Version']['Name']` for its report.

## Model

| member | source | states |
|---|---|---|
| `StringLists.RemoveFirst` | 1_19_3.py:55-57 | `list.remove(x)` shortens the list by exactly one element. The `requires x in s` mirrors Python's ValueError; every call site in the source is guarded by an `in` test. |
| `StringLists.RemoveFirstSplits` | 1_19_3.py:55-57 | `list.remove(x)` leaves everything before the first occurrence of `x`, then everything after it, in order. |
| `StringLists.RemoveFirstAt` | 1_19_3.py:67-69 | Element by element: positions before the removed one keep their element, and later positions shift down by one. |
| `StringLists.FirstIndex` | 1_19_3.py:57 | The position `list.remove` deletes holds `x`, and no earlier element is `x`. |
| `StringLists.RemoveFirstCount` | 1_19_3.py:67-69 | A removal lowers the count of the removed name by exactly one and leaves every other count unchanged. |
| `StringLists.AddIfAbsent` | 1_19_3.py:43-45 | After `if x not in s: s.append(x)`, `x` is present and the old list is a prefix of the new one with at most one more element. `x` then occurs exactly once if it was absent; every other count is unchanged. |
| `Tags.FromStrings` | 1_19_3.py:83-84 | The list tag written back holds one string tag per name, in the same order. |
| `Tags.StringsOf` | 1_19_3.py:38-40 | A list tag reads as a list of names exactly when every element is a string tag, and then the tag is the encoding of those names. |
| `Tags.StringsRoundTrip` | 1_19_3.py:38-40 | Writing names as string tags and reading them back gives the same names. |
| `Tags.CompoundOrEmpty` | 1_19_3.py:37 | `data.get('DataPacks', {})` gives the empty compound when the key is missing and the stored compound when there is one. An entry of another tag type is a WrongTagType failure. |
| `Tags.StringListOrEmpty` | 1_19_3.py:38-40 | `get(key, List[String]())` gives `[]` when the key is missing. A present entry is read exactly when it is a list of string tags, and then it is the encoding of the names returned. |
| `Migration.ReadLevel` | 1_19_3.py:24-34 | The level is accepted exactly when `Data` is a compound holding `LevelName` and a compound `Version` that holds `Name`. A missing key is the caught KeyError (NotALevelFile). A non-compound where the code indexes is a WrongTagType failure. |
| `Migration.ReadLists` | 1_19_3.py:36-40 | The read succeeds exactly when `DataPacks` is missing or is a compound whose `Enabled` and `Disabled` are each missing or a list of string tags, and `enabled_features` is missing or a list of string tags. A missing `DataPacks`, `Enabled`, `Disabled` or `enabled_features` entry reads as an empty list, not as an error. A present entry reads as exactly the names it holds. The only failure is WrongTagType. |
| `Migration.WriteBack` | 1_19_3.py:83-84 | The written `Data` has the old keys plus `DataPacks` and `enabled_features`. Every other entry is unchanged. `DataPacks` becomes a compound with exactly the keys `Enabled` and `Disabled`. |
| `Migration.WithVanilla` | 1_19_3.py:43-48 | After the vanilla step `minecraft:vanilla` is a feature and one of the two vanilla pack spellings is enabled. The old feature and enabled lists are prefixes of the new ones, each grows by at most one, and the disabled list is unchanged. Exact counts: `VanillaStepCounts`. |
| `Migration.WithExperiment` | 1_19_3.py:52-72 | Turning on one experiment (the `update_1_20` block, lines 52-60, and the `bundle` block, lines 64-72, are the same edit) makes its feature and its pack present, keeps the old feature and enabled lists as prefixes, grows each by at most one, and shortens the disabled list by one exactly when the pack was disabled, leaving it unchanged otherwise. |
| `Migration.Edited` | 1_19_3.py:43-72 | The whole edit: the vanilla step, then each experiment whose switch is on. It has no contract of its own; `EditedEnables`, `EditedKeepsPrefixes`, `FeatureCounts`, `EnabledCounts`, `DisabledCounts`, `SwitchedOffExperimentUntouched`, `EnabledListsIdempotent` and `IdempotentWithoutDuplicateDisabled` state what it does. |
| `Migration.EditLists` | 1_19_3.py:43-72 | The step-by-step edits of three local lists under the source's `if` guards give exactly the reference function `Edited`. It is the vanilla step, then the `update_1_20` block if its switch is on, then the `bundle` block if its switch is on. |
| `Migration.Migrate` | 1_19_3.py:24-85 | The whole run. A rejected level gives the same error as reading it. Otherwise the edited lists equal the reference function `Edited` for the two switches. A backup is written exactly when `backup` is set and the run is not a dry run. That backup is the intended one, the level as loaded; what line 80 actually writes is `Backup.BackupAsWritten`, which already carries the in-place edits (see Findings). The level file is rewritten exactly when the run is not a dry run, with `Data` replaced by the write-back of the edited lists. |
| `MigrationProperties.EditedEnables` | 1_19_3.py:43-72 | After the edit, `enabled_features` holds `minecraft:vanilla`, and the enabled packs hold `vanilla` or `minecraft:vanilla`. For each experiment whose switch is on, its feature and its pack are enabled. |
| `MigrationProperties.EditedKeepsPrefixes` | 1_19_3.py:43-72 | The original feature list and enabled-pack list are prefixes of the edited ones. |
| `MigrationProperties.VanillaStepCounts` | 1_19_3.py:43-48 | The vanilla step appends `minecraft:vanilla` only when it is absent. It appends `vanilla` only when neither `vanilla` nor `minecraft:vanilla` is enabled. The disabled list is untouched. |
| `MigrationProperties.FeatureCounts` | 1_19_3.py:43-66 | For every name, its count in the edited feature list is 1 if it is a target feature that was absent, and otherwise its old count. No name is appended twice, and none already present is added again. |
| `MigrationProperties.EnabledCounts` | 1_19_3.py:46-72 | For every name, its count in the edited enabled-pack list is 1 if it is `vanilla` and neither vanilla spelling was enabled, or a switched-on experiment pack that was absent. Otherwise it is the old count. |
| `MigrationProperties.DisabledCounts` | 1_19_3.py:55-69 | For every name, its count in the edited disabled list drops by one if it is a switched-on experiment pack that was present. Otherwise it is the old count. |
| `MigrationProperties.SwitchedOffExperimentUntouched` | 1_19_3.py:51-72 | When an experiment's switch is off, none of the three lists changes its count of that experiment's names. |
| `MigrationProperties.EnabledListsIdempotent` | 1_19_3.py:43-72 | Running the edit again on its own output leaves `enabled_features` and the enabled packs exactly as they were. |
| `MigrationProperties.IdempotentWithoutDuplicateDisabled` | 1_19_3.py:55-57 | If no switched-on experiment pack appears more than once among the disabled packs, a second run changes none of the three lists. |
| `MigrationProperties.DuplicateDisabledPackStaysDisabled` | 1_19_3.py:55-60 | Suppose `update_1_20` is listed as disabled twice. One occurrence is removed, so after the edit the pack is both enabled and still disabled. |
| `MigrationProperties.WriteBackRoundTrip` | 1_19_3.py:83-84 | Reading the three lists from the written `Data` gives exactly the edited lists. |
| `MigrationProperties.SavedLevelReadsBack` | 1_19_3.py:83-85 | The saved level passes the level check again, and its `Data` is the write-back. Its lists are the edited ones, and a second edit leaves its enabled lists unchanged. |
| `MigrationProperties.ExampleLevelWithoutVersion` | 1_19_3.py:29-34 | A level with `LevelName` and `DataPacks` but no `Version` is rejected as not a level file. |
| `MigrationProperties.ExampleLevelReads` | 1_19_3.py:36-40 | For that level with a `Version` added, the lists read are: no features, `["vanilla"]` enabled, `["update_1_20"]` disabled. |
| `MigrationProperties.ExampleLevelEdits` | 1_19_3.py:43-60 | On those lists with `update_1_20` on and `bundle` off, the edited disabled list is empty. The enabled packs are `vanilla, update_1_20`, and the features are `minecraft:vanilla, minecraft:update_1_20`. |
| `Backup.EditedPacks` | 1_19_3.py:48-72 | `DataPacks` after the in-place edits keeps its keys and every entry other than `Enabled` and `Disabled`. An `Enabled` or `Disabled` that existed holds the edited enabled or disabled packs, and a missing one stays missing. |
| `Backup.EditedInPlace` | 1_19_3.py:37-72 | `Data` after the in-place edits keeps its keys and every other entry. An `enabled_features` that existed holds the edited features. An existing `DataPacks` becomes `EditedPacks` of it: its keys and every entry other than `Enabled` and `Disabled` stay, and an `Enabled` or `Disabled` that existed holds the edited enabled or disabled packs. `WriteBackOverridesInPlaceEdits` relates it to the saved level. |
| `Backup.BackupAsWritten` | 1_19_3.py:77-80 | The tree saved as the backup has the level's keys and differs from it only under `Data`, which is `EditedInPlace` of the loaded `Data`. `BackupAsWrittenCarriesEdits` shows it is not the level as loaded. |
| `Backup.WriteBackOverridesInPlaceEdits` | 1_19_3.py:83-84 | The in-place edits change nothing in the saved level beyond what lines 83-84 write. Those lines overwrite both entries the edits touch, so treating the lists as separate values gives the same saved tree. |
| `Backup.BackupAsWrittenCarriesEdits` | 1_19_3.py:77-80 | Suppose `enabled_features` exists and lacks `minecraft:vanilla`. Then the tree the code saves as the backup differs from the level as loaded. |
| `Backup.BackupCounterexample` | 1_19_3.py:77-80 | A concrete level on which that happens: `enabled_features` holding only `minecraft:bundle`, with the default switches. |

## Left out

- Loading and saving: `nbtlib.load`, `f.save` and the whole binary tag format
  with its compression. They belong to a third-party library and are not part
  of this model. `Migrate` takes the loaded tree and returns the trees that
  would be saved.
- Path handling with `os.path.isdir` / `os.path.join`, and the
  `FileNotFoundError` branch. These are file-system I/O (lines 17-22).
- The backup's file name, which uses `random.choice` (lines 78-79). Only the
  backup's contents are modelled.
- All `print` output. `LevelName` and `Version.Name` are read only for that
  output, and are modelled only through the KeyError check they cause.
- The argparse command line (lines 89-104). `Migration.Defaults` records the
  switches' default values.
- Compound key order: a compound is a `map`, so the position of a new key
  (`enabled_features` added at the end of `Data`) is not modelled.
- Tag types: the number, float and array tags are all one `TNumber` variant. The
  migration never reads them; it only preserves them.
- Tags.CompoundOrEmpty, Tags.StringListOrEmpty, Migration.ReadLevel and
  Migration.ReadLists: any entry of an unexpected tag type becomes a single
  WrongTagType failure, whereas Python's `get` itself never fails. The source
  raises different exceptions at different points (a TypeError when indexing,
  an AttributeError on `.get`), and in some cases it runs on and saves where
  the model fails: a `Disabled` list of non-string tags is never appended to,
  so nbtlib never casts anything; a compound where a list is expected makes
  the `in` tests look at its keys; and a string tag in place of a list is
  searched as a substring. A list with a non-string element that is appended
  to fails only when nbtlib casts the appended name.
- An empty list read from the file may carry nbtlib's End element type, and
  nbtlib may then refuse an appended string tag; nbtlib is not part of this
  model, so an empty list is read like any other list of names.
- Aliasing between the live nbtlib list objects and `Data`. `Migrate` threads
  the three lists as separate values. `Backup.EditedInPlace` models the aliasing,
  and `Backup.WriteBackOverridesInPlaceEdits` shows it does not change the saved
  level.

## Findings

| source | as written | input that shows it | evidently intended | confidence | as-written member | corrected member |
|---|---|---|---|---|---|---|
| 1_19_3.py:77-80 | The backup is saved after the lists were edited in place at lines 43-72. Lists that existed in the file are the loaded tree's own objects, so the `.bak` file already holds the edited lists. | A `level.dat` whose `Data.enabled_features` exists and lacks `minecraft:vanilla`, with the default switches | The backup is the level as it was loaded | medium, not executed; relies on nbtlib's `Compound.get` returning the stored list and `List.append` changing it in place | `Backup.BackupAsWrittenCarriesEdits` | `Migration.Migrate` |
