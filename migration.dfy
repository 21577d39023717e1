/**
 * The world migration performed by `main` in 1_19_3.py: it reads the
 * level's `Data` compound, makes guarded edits to the three name lists
 * `enabled_features`, `DataPacks.Enabled` and `DataPacks.Disabled`, and
 * writes them back into `Data` before the level is saved.
 */
module Migration {
  import opened Wrappers
  import opened Tags
  import opened StringLists

  const VanillaFeature: string := "minecraft:vanilla"
  const VanillaPack: string := "vanilla"
  /** The other spelling of the vanilla pack that the source accepts as already enabled. */
  const NamespacedVanillaPack: string := "minecraft:vanilla"

  /** An experimental feature flag together with the datapack of the same name. */
  datatype Experiment = Experiment(feature: string, pack: string)

  const Update120: Experiment := Experiment("minecraft:update_1_20", "update_1_20")
  const Bundle: Experiment := Experiment("minecraft:bundle", "bundle")

  /** The three name lists the migration edits. */
  datatype Lists = Lists(features: seq<string>, enabled: seq<string>, disabled: seq<string>)

  /** The command-line switches that reach the editing logic. */
  datatype Options = Options(backup: bool, dryRun: bool, update120: bool, bundle: bool)

  /** The switches' values when no flag is given. */
  const Defaults: Options := Options(backup := true, dryRun := false, update120 := true, bundle := true)

  /**
   * What a run leaves behind: the edited lists, the tree written as the
   * backup file, and the tree written over the level file (None: not written).
   */
  datatype Outcome = Outcome(edited: Lists, backup: Option<Compound>, saved: Option<Compound>)

  /**
   * `f['Data']`, checked the way the source checks it by reading
   * `data['LevelName']` and `data['Version']['Name']` for its report.
   * A missing key is the KeyError the source catches; indexing a tag that
   * is not a compound is a TypeError it does not catch.
   */
  function ReadLevel(root: Compound): (r: Result<Compound, Failure>)
    ensures r.Ok? <==>
      && "Data" in root && root["Data"].TCompound?
      && "LevelName" in root["Data"].entries
      && "Version" in root["Data"].entries && root["Data"].entries["Version"].TCompound?
      && "Name" in root["Data"].entries["Version"].entries
    ensures r.Ok? ==> root["Data"] == TCompound(r.value)
    ensures r == Err(WrongTagType) <==>
      || ("Data" in root && !root["Data"].TCompound?)
      || ("Data" in root && root["Data"].TCompound? && "LevelName" in root["Data"].entries
          && "Version" in root["Data"].entries && !root["Data"].entries["Version"].TCompound?)
  {
    if "Data" !in root then Err(NotALevelFile)
    else match root["Data"]
      case TCompound(data) =>
        if "LevelName" !in data || "Version" !in data then Err(NotALevelFile)
        else (match data["Version"]
              case TCompound(version) =>
                if "Name" in version then Ok(data) else Err(NotALevelFile)
              case _ => Err(WrongTagType))
      case _ => Err(WrongTagType)
  }

  /** The three lists, each defaulting to the empty list when its entry is missing. */
  function ReadLists(data: Compound): (r: Result<Lists, Failure>)
    ensures r.Ok? <==>
      && ("DataPacks" in data ==>
            && data["DataPacks"].TCompound?
            && NamesOrAbsent(data["DataPacks"].entries, "Enabled")
            && NamesOrAbsent(data["DataPacks"].entries, "Disabled"))
      && NamesOrAbsent(data, "enabled_features")
    ensures "DataPacks" !in data && "enabled_features" !in data ==> r == Ok(Lists([], [], []))
    ensures r.Ok? && "DataPacks" !in data ==> r.value.enabled == [] && r.value.disabled == []
    ensures r.Ok? && "enabled_features" !in data ==> r.value.features == []
    ensures r.Ok? && "enabled_features" in data ==>
      data["enabled_features"] == TList(FromStrings(r.value.features))
    ensures r.Ok? && "DataPacks" in data ==>
      data["DataPacks"].TCompound? &&
      var packs := data["DataPacks"].entries;
      && ("Enabled" in packs ==> packs["Enabled"] == TList(FromStrings(r.value.enabled)))
      && ("Enabled" !in packs ==> r.value.enabled == [])
      && ("Disabled" in packs ==> packs["Disabled"] == TList(FromStrings(r.value.disabled)))
      && ("Disabled" !in packs ==> r.value.disabled == [])
    ensures r.Err? ==> r.error == WrongTagType
  {
    var packs :- CompoundOrEmpty(data, "DataPacks");
    var enabled :- StringListOrEmpty(packs, "Enabled");
    var disabled :- StringListOrEmpty(packs, "Disabled");
    var features :- StringListOrEmpty(data, "enabled_features");
    Ok(Lists(features, enabled, disabled))
  }

  /** Lines 43-48: the vanilla feature and the vanilla datapack. */
  function WithVanilla(st: Lists): (r: Lists)
    ensures VanillaFeature in r.features
    ensures VanillaPack in r.enabled || NamespacedVanillaPack in r.enabled
    ensures st.features <= r.features && st.enabled <= r.enabled
    ensures |r.features| <= |st.features| + 1 && |r.enabled| <= |st.enabled| + 1
    ensures r.disabled == st.disabled
  {
    Lists(AddIfAbsent(st.features, VanillaFeature),
          if NamespacedVanillaPack in st.enabled || VanillaPack in st.enabled then st.enabled
          else st.enabled + [VanillaPack],
          st.disabled)
  }

  /** Lines 52-60 (and 64-72): turn on one experiment. */
  function WithExperiment(st: Lists, e: Experiment): (r: Lists)
    ensures e.feature in r.features && e.pack in r.enabled
    ensures st.features <= r.features && st.enabled <= r.enabled
    ensures |r.features| <= |st.features| + 1 && |r.enabled| <= |st.enabled| + 1
    ensures e.pack in st.disabled ==> |r.disabled| + 1 == |st.disabled|
    ensures e.pack !in st.disabled ==> r.disabled == st.disabled
  {
    Lists(AddIfAbsent(st.features, e.feature),
          AddIfAbsent(st.enabled, e.pack),
          if e.pack in st.disabled then RemoveFirst(st.disabled, e.pack) else st.disabled)
  }

  /** Lines 43-72: the whole edit, driven by the two experiment switches. */
  function Edited(st: Lists, update120: bool, bundle: bool): Lists {
    var s1 := WithVanilla(st);
    var s2 := if update120 then WithExperiment(s1, Update120) else s1;
    if bundle then WithExperiment(s2, Bundle) else s2
  }

  /**
   * Lines 83-84: `DataPacks` becomes a new compound of exactly `Enabled`
   * and `Disabled`, and `enabled_features` is set; every other entry stays.
   */
  function WriteBack(data: Compound, st: Lists): (r: Compound)
    ensures r.Keys == data.Keys + {"DataPacks", "enabled_features"}
    ensures forall k :: k in data && k != "DataPacks" && k != "enabled_features" ==> r[k] == data[k]
    ensures r["DataPacks"].TCompound? && r["DataPacks"].entries.Keys == {"Enabled", "Disabled"}
  {
    data["DataPacks" := TCompound(map["Enabled" := TList(FromStrings(st.enabled)),
                                      "Disabled" := TList(FromStrings(st.disabled))])]
        ["enabled_features" := TList(FromStrings(st.features))]
  }

  /** Lines 43-72: the guarded edits, made step by step on three local lists. */
  method EditLists(st: Lists, update120: bool, bundle: bool) returns (edited: Lists)
    ensures edited == Edited(st, update120, bundle)
  {
    var features, enabled, disabled := st.features, st.enabled, st.disabled;

    if VanillaFeature !in features {
      features := features + [VanillaFeature];
    }
    if !(NamespacedVanillaPack in enabled || VanillaPack in enabled) {
      enabled := enabled + [VanillaPack];
    }
    ghost var expected := WithVanilla(st);
    assert Lists(features, enabled, disabled) == expected;

    if update120 {
      if Update120.feature !in features {
        features := features + [Update120.feature];
      }
      if Update120.pack in disabled {
        disabled := RemoveFirst(disabled, Update120.pack);
      }
      if Update120.pack !in enabled {
        enabled := enabled + [Update120.pack];
      }
      expected := WithExperiment(expected, Update120);
    }
    assert Lists(features, enabled, disabled) == expected;

    if bundle {
      if Bundle.feature !in features {
        features := features + [Bundle.feature];
      }
      if Bundle.pack in disabled {
        disabled := RemoveFirst(disabled, Bundle.pack);
      }
      if Bundle.pack !in enabled {
        enabled := enabled + [Bundle.pack];
      }
      expected := WithExperiment(expected, Bundle);
    }
    assert Lists(features, enabled, disabled) == expected;

    edited := Lists(features, enabled, disabled);
  }

  /**
   * `main` from line 24 on, with the opened file's tree as `root`.
   * The backup here is the intended one, the level as loaded; the tree that
   * line 80 actually writes already carries the in-place edits
   * (`Backup.BackupAsWritten`). The report, the path handling and the
   * backup's file name are not modelled.
   */
  method Migrate(root: Compound, opts: Options) returns (r: Result<Outcome, Failure>)
    ensures ReadLevel(root).Err? ==> r == Err(ReadLevel(root).error)
    ensures ReadLevel(root).Ok? ==> (r.Ok? <==> ReadLists(ReadLevel(root).value).Ok?)
    ensures r.Err? ==> ReadLevel(root).Err? || r.error == WrongTagType
    ensures r.Ok? ==>
      && ReadLevel(root).Ok? && ReadLists(ReadLevel(root).value).Ok?
      && var data := ReadLevel(root).value;
         var edited := Edited(ReadLists(data).value, opts.update120, opts.bundle);
         && r.value.edited == edited
         && r.value.backup == (if opts.backup && !opts.dryRun then Some(root) else None)
         && r.value.saved == (if opts.dryRun then None
                              else Some(root["Data" := TCompound(WriteBack(data, edited))]))
  {
    var level := ReadLevel(root);
    if level.Err? {
      return Err(level.error);
    }
    var data := level.value;
    var lists := ReadLists(data);
    if lists.Err? {
      return Err(lists.error);
    }
    var edited := EditLists(lists.value, opts.update120, opts.bundle);
    var backup: Option<Compound> := None;
    var saved: Option<Compound> := None;
    if !opts.dryRun {
      if opts.backup {
        backup := Some(root);
      }
      saved := Some(root["Data" := TCompound(WriteBack(data, edited))]);
    }
    return Ok(Outcome(edited, backup, saved));
  }
}
