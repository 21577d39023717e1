/**
 * The backup written at line 80 of 1_19_3.py, as the code writes it.
 * `datapacks.get(...)` and `data.get(...)` return the live list objects of
 * the loaded tree when the entries exist, so the appends and removals of
 * lines 43-72 already changed the tree before `f.save(backup_name)` runs.
 */
module Backup {
  import opened Wrappers
  import opened Tags
  import opened Migration
  import MigrationProperties

  /**
   * `DataPacks` as it stands after lines 48-72: an `Enabled` or `Disabled`
   * entry that existed is the list object that was edited in place.
   */
  function EditedPacks(packs: Compound, edited: Lists): (r: Compound)
    ensures r.Keys == packs.Keys
    ensures "Enabled" in packs ==> r["Enabled"] == TList(FromStrings(edited.enabled))
    ensures "Disabled" in packs ==> r["Disabled"] == TList(FromStrings(edited.disabled))
    ensures forall k :: k in packs && k != "Enabled" && k != "Disabled" ==> r[k] == packs[k]
  {
    var packs1 := if "Enabled" in packs then packs["Enabled" := TList(FromStrings(edited.enabled))] else packs;
    if "Disabled" in packs1 then packs1["Disabled" := TList(FromStrings(edited.disabled))] else packs1
  }

  /**
   * `Data` as it stands after lines 43-72: every list entry that existed is
   * the object that was edited in place; entries that were missing are still missing.
   */
  function EditedInPlace(data: Compound, edited: Lists): (r: Compound)
    requires ReadLists(data).Ok?
    ensures r.Keys == data.Keys
    ensures forall k :: k in data && k != "DataPacks" && k != "enabled_features" ==> r[k] == data[k]
    ensures "enabled_features" in data ==> r["enabled_features"] == TList(FromStrings(edited.features))
    ensures "DataPacks" in data ==>
              && r["DataPacks"].TCompound?
              && r["DataPacks"].entries == EditedPacks(data["DataPacks"].entries, edited)
  {
    var data1 := if "enabled_features" in data
                 then data["enabled_features" := TList(FromStrings(edited.features))] else data;
    if "DataPacks" in data then data1["DataPacks" := TCompound(EditedPacks(data["DataPacks"].entries, edited))]
    else data1
  }

  /** The tree that line 80 saves as the backup file. */
  function BackupAsWritten(root: Compound, opts: Options): (r: Compound)
    requires ReadLevel(root).Ok? && ReadLists(ReadLevel(root).value).Ok?
    ensures r.Keys == root.Keys
    ensures forall k :: k in root && k != "Data" ==> r[k] == root[k]
  {
    var data := ReadLevel(root).value;
    root["Data" := TCompound(EditedInPlace(data, Edited(ReadLists(data).value, opts.update120, opts.bundle)))]
  }

  /**
   * The in-place edits change nothing in the level file beyond lines 83-84: they
   * overwrite both entries they touched, so the saved tree is the same as
   * if the lists had been separate values all along.
   */
  lemma WriteBackOverridesInPlaceEdits(data: Compound, edited: Lists)
    requires ReadLists(data).Ok?
    ensures WriteBack(EditedInPlace(data, edited), edited) == WriteBack(data, edited)
  {
  }

  /**
   * The backup is not the original level: when `enabled_features` exists
   * and lacks the vanilla feature, the backup already holds the appended name.
   */
  lemma BackupAsWrittenCarriesEdits(root: Compound, opts: Options)
    requires ReadLevel(root).Ok? && ReadLists(ReadLevel(root).value).Ok?
    requires "enabled_features" in ReadLevel(root).value
    requires VanillaFeature !in ReadLists(ReadLevel(root).value).value.features
    ensures BackupAsWritten(root, opts) != root
  {
    var data := ReadLevel(root).value;
    var st := ReadLists(data).value;
    var edited := Edited(st, opts.update120, opts.bundle);
    MigrationProperties.EditedEnables(st, opts.update120, opts.bundle);
    MigrationProperties.EditedKeepsPrefixes(st, opts.update120, opts.bundle);
    assert |edited.features| > |st.features|;
    var backupData := EditedInPlace(data, edited);
    assert backupData["enabled_features"] == TList(FromStrings(edited.features));
    assert data["enabled_features"] == TList(FromStrings(st.features));
    assert BackupAsWritten(root, opts)["Data"] == TCompound(backupData);
    assert backupData != data by {
      assert |backupData["enabled_features"].items| != |data["enabled_features"].items|;
    }
  }

  /** A concrete level on which the backup differs from the file it backs up. */
  lemma BackupCounterexample()
    ensures
      var root := map["Data" := TCompound(map[
        "LevelName" := TString("World"),
        "Version" := TCompound(map["Name" := TString("1.19.3")]),
        "enabled_features" := TList([TString("minecraft:bundle")])])];
      && ReadLevel(root).Ok? && ReadLists(ReadLevel(root).value).Ok?
      && BackupAsWritten(root, Defaults) != root
  {
    var root := map["Data" := TCompound(map[
      "LevelName" := TString("World"),
      "Version" := TCompound(map["Name" := TString("1.19.3")]),
      "enabled_features" := TList([TString("minecraft:bundle")])])];
    assert FromStrings(["minecraft:bundle"]) == [TString("minecraft:bundle")];
    StringsRoundTrip(["minecraft:bundle"]);
    assert |VanillaFeature| != |"minecraft:bundle"|;
    BackupAsWrittenCarriesEdits(root, Defaults);
  }
}
