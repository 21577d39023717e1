/** What the edit of lines 43-72 and the write-back of lines 83-84 guarantee. */
module MigrationProperties {
  import opened Wrappers
  import opened Tags
  import opened StringLists
  import opened Migration

  /** The feature names the edit adds when they are missing. */
  function FeatureTargets(update120: bool, bundle: bool): set<string> {
    {VanillaFeature}
      + (if update120 then {Update120.feature} else {})
      + (if bundle then {Bundle.feature} else {})
  }

  /** The experiment packs the edit enables (and takes off the disabled list). */
  function PackTargets(update120: bool, bundle: bool): set<string> {
    (if update120 then {Update120.pack} else {}) + (if bundle then {Bundle.pack} else {})
  }

  /** The names the edit deals in are pairwise distinct. */
  lemma NamesDistinct()
    ensures VanillaFeature != Update120.feature && VanillaFeature != Bundle.feature
    ensures Update120.feature != Bundle.feature
    ensures VanillaPack != Update120.pack && VanillaPack != Bundle.pack && Update120.pack != Bundle.pack
    ensures NamespacedVanillaPack != Update120.pack && NamespacedVanillaPack != Bundle.pack
    ensures NamespacedVanillaPack != VanillaPack
  {
    assert |VanillaFeature| == 17 && |Update120.feature| == 21 && |Bundle.feature| == 16;
    assert |VanillaPack| == 7 && |Update120.pack| == 11 && |Bundle.pack| == 6;
  }

  /**
   * After the edit the vanilla feature and one spelling of the vanilla pack
   * are enabled, and so is every experiment whose switch is on.
   */
  lemma EditedEnables(st: Lists, update120: bool, bundle: bool)
    ensures VanillaFeature in Edited(st, update120, bundle).features
    ensures VanillaPack in Edited(st, update120, bundle).enabled
         || NamespacedVanillaPack in Edited(st, update120, bundle).enabled
    ensures update120 ==>
      Update120.feature in Edited(st, update120, bundle).features &&
      Update120.pack in Edited(st, update120, bundle).enabled
    ensures bundle ==>
      Bundle.feature in Edited(st, update120, bundle).features &&
      Bundle.pack in Edited(st, update120, bundle).enabled
  {
    EditedKeepsPrefixes(WithVanilla(st), update120, bundle);
  }

  /** Every step only appends to the enabled lists, so the originals stay prefixes. */
  lemma EditedKeepsPrefixes(st: Lists, update120: bool, bundle: bool)
    ensures st.features <= Edited(st, update120, bundle).features
    ensures st.enabled <= Edited(st, update120, bundle).enabled
  {
  }

  /** How the vanilla step changes the count of a name in each list. */
  lemma VanillaStepCounts(st: Lists, x: string)
    ensures multiset(WithVanilla(st).features)[x] ==
      if x == VanillaFeature && x !in st.features then 1 else multiset(st.features)[x]
    ensures multiset(WithVanilla(st).enabled)[x] ==
      if x == VanillaPack && VanillaPack !in st.enabled && NamespacedVanillaPack !in st.enabled then 1
      else multiset(st.enabled)[x]
    ensures WithVanilla(st).disabled == st.disabled
  {
    if !(NamespacedVanillaPack in st.enabled || VanillaPack in st.enabled) {
      assert multiset(st.enabled + [VanillaPack]) == multiset(st.enabled) + multiset{VanillaPack};
    }
  }

  // AppendIfOn, RemoveIfOn and EditedAsListEdits are the per-list view of
  // WithExperiment: they let the count lemmas below reason about one list at a time.

  /** `if x not in s: s.append(x)`, run only when the switch is on. */
  function AppendIfOn(s: seq<string>, x: string, on: bool): seq<string> {
    if on then AddIfAbsent(s, x) else s
  }

  /** `if x in s: s.remove(x)`, run only when the switch is on. */
  function RemoveIfOn(s: seq<string>, x: string, on: bool): seq<string> {
    if on && x in s then RemoveFirst(s, x) else s
  }

  /** The list edits of the two experiment blocks, as the lists see them. */
  lemma EditedAsListEdits(st: Lists, update120: bool, bundle: bool)
    ensures Edited(st, update120, bundle).features ==
      AppendIfOn(AppendIfOn(WithVanilla(st).features, Update120.feature, update120), Bundle.feature, bundle)
    ensures Edited(st, update120, bundle).enabled ==
      AppendIfOn(AppendIfOn(WithVanilla(st).enabled, Update120.pack, update120), Bundle.pack, bundle)
    ensures Edited(st, update120, bundle).disabled ==
      RemoveIfOn(RemoveIfOn(st.disabled, Update120.pack, update120), Bundle.pack, bundle)
  {
  }

  /** Two guarded appends of distinct names. */
  lemma AppendsCount(s: seq<string>, a: string, onA: bool, b: string, onB: bool, x: string)
    requires a != b
    ensures multiset(AppendIfOn(AppendIfOn(s, a, onA), b, onB))[x] ==
      if ((onA && x == a) || (onB && x == b)) && x !in s then 1 else multiset(s)[x]
  {
  }

  /** An unconditional guarded append followed by two switched ones, of distinct names. */
  lemma ThreeAppendsCount(s: seq<string>, v: string, a: string, onA: bool, b: string, onB: bool, x: string)
    requires v != a && v != b && a != b
    ensures multiset(AppendIfOn(AppendIfOn(AddIfAbsent(s, v), a, onA), b, onB))[x] ==
      if (x == v || (onA && x == a) || (onB && x == b)) && x !in s then 1 else multiset(s)[x]
  {
    var s1 := AddIfAbsent(s, v);
    AppendsCount(s1, a, onA, b, onB, x);
    assert multiset(s1)[a] == multiset(s)[a] && multiset(s1)[b] == multiset(s)[b];
  }

  /** The vanilla pack's double-guarded append followed by two guarded appends. */
  lemma VanillaThenAppendsCount(s: seq<string>, alias: string, v: string,
                                a: string, onA: bool, b: string, onB: bool, x: string)
    requires v != a && v != b && a != b && alias != a && alias != b
    ensures multiset(AppendIfOn(AppendIfOn(if alias in s || v in s then s else s + [v], a, onA), b, onB))[x] ==
      if x == v && v !in s && alias !in s then 1
      else if ((onA && x == a) || (onB && x == b)) && x !in s then 1
      else multiset(s)[x]
  {
    var s1 := if alias in s || v in s then s else s + [v];
    assert forall y :: multiset(s1)[y] == if y == v && v !in s && alias !in s then 1 else multiset(s)[y];
    AppendsCount(s1, a, onA, b, onB, x);
  }

  /** One guarded first-occurrence removal. */
  lemma RemovalCount(s: seq<string>, a: string, onA: bool, x: string)
    ensures multiset(RemoveIfOn(s, a, onA))[x] ==
      if onA && x == a && x in s then multiset(s)[x] - 1 else multiset(s)[x]
  {
    if onA && a in s {
      RemoveFirstCount(s, a);
    }
  }

  /** Two guarded first-occurrence removals of distinct names. */
  lemma RemovalsCount(s: seq<string>, a: string, onA: bool, b: string, onB: bool, x: string)
    requires a != b
    ensures multiset(RemoveIfOn(RemoveIfOn(s, a, onA), b, onB))[x] ==
      if ((onA && x == a) || (onB && x == b)) && x in s then multiset(s)[x] - 1 else multiset(s)[x]
  {
    var s1 := RemoveIfOn(s, a, onA);
    RemovalCount(s, a, onA, x);
    RemovalCount(s, a, onA, b);
    RemovalCount(s1, b, onB, x);
  }

  /**
   * Appends are guarded, so a target feature missing before occurs exactly
   * once afterwards, and every other count is unchanged.
   */
  lemma FeatureCounts(st: Lists, update120: bool, bundle: bool, x: string)
    ensures multiset(Edited(st, update120, bundle).features)[x] ==
      if x in FeatureTargets(update120, bundle) && x !in st.features then 1
      else multiset(st.features)[x]
  {
    NamesDistinct();
    EditedAsListEdits(st, update120, bundle);
    ThreeAppendsCount(st.features, VanillaFeature, Update120.feature, update120, Bundle.feature, bundle, x);
  }

  /**
   * "vanilla" is appended only when neither spelling of the vanilla pack is
   * enabled; an experiment pack only when it is missing; nothing else changes.
   */
  lemma EnabledCounts(st: Lists, update120: bool, bundle: bool, x: string)
    ensures multiset(Edited(st, update120, bundle).enabled)[x] ==
      if x == VanillaPack && VanillaPack !in st.enabled && NamespacedVanillaPack !in st.enabled then 1
      else if x in PackTargets(update120, bundle) && x !in st.enabled then 1
      else multiset(st.enabled)[x]
  {
    NamesDistinct();
    EditedAsListEdits(st, update120, bundle);
    VanillaThenAppendsCount(st.enabled, NamespacedVanillaPack, VanillaPack,
                            Update120.pack, update120, Bundle.pack, bundle, x);
  }

  /**
   * One occurrence of each switched-on experiment pack is taken off the
   * disabled list when it is there; every other count is unchanged.
   */
  lemma DisabledCounts(st: Lists, update120: bool, bundle: bool, x: string)
    ensures multiset(Edited(st, update120, bundle).disabled)[x] ==
      if x in PackTargets(update120, bundle) && x in st.disabled then multiset(st.disabled)[x] - 1
      else multiset(st.disabled)[x]
  {
    NamesDistinct();
    EditedAsListEdits(st, update120, bundle);
    RemovalsCount(st.disabled, Update120.pack, update120, Bundle.pack, bundle, x);
  }

  /** When an experiment's switch is off, none of the three lists changes for its names. */
  lemma SwitchedOffExperimentUntouched(st: Lists, update120: bool, bundle: bool, e: Experiment)
    requires (e == Update120 && !update120) || (e == Bundle && !bundle)
    ensures multiset(Edited(st, update120, bundle).features)[e.feature] == multiset(st.features)[e.feature]
    ensures multiset(Edited(st, update120, bundle).enabled)[e.pack] == multiset(st.enabled)[e.pack]
    ensures multiset(Edited(st, update120, bundle).disabled)[e.pack] == multiset(st.disabled)[e.pack]
  {
    NamesDistinct();
    FeatureCounts(st, update120, bundle, e.feature);
    EnabledCounts(st, update120, bundle, e.pack);
    DisabledCounts(st, update120, bundle, e.pack);
  }

  /** Running the edit on its own output leaves both enabled lists as they are. */
  lemma EnabledListsIdempotent(st: Lists, update120: bool, bundle: bool)
    ensures Edited(Edited(st, update120, bundle), update120, bundle).features
         == Edited(st, update120, bundle).features
    ensures Edited(Edited(st, update120, bundle), update120, bundle).enabled
         == Edited(st, update120, bundle).enabled
  {
    var once := Edited(st, update120, bundle);
    EditedEnables(st, update120, bundle);
    EditedKeepsPrefixes(once, update120, bundle);
    FeatureCounts(once, update120, bundle, VanillaFeature);
    assert once.features <= Edited(once, update120, bundle).features;
    forall x ensures multiset(Edited(once, update120, bundle).features)[x] == multiset(once.features)[x] {
      FeatureCounts(once, update120, bundle, x);
    }
    forall x ensures multiset(Edited(once, update120, bundle).enabled)[x] == multiset(once.enabled)[x] {
      EnabledCounts(once, update120, bundle, x);
    }
    PrefixWithSameCounts(once.features, Edited(once, update120, bundle).features);
    PrefixWithSameCounts(once.enabled, Edited(once, update120, bundle).enabled);
  }

  /**
   * The disabled list is idempotent too unless a switched-on experiment pack
   * occurred there more than once: `list.remove` takes off only the first occurrence.
   */
  lemma IdempotentWithoutDuplicateDisabled(st: Lists, update120: bool, bundle: bool)
    requires update120 ==> multiset(st.disabled)[Update120.pack] <= 1
    requires bundle ==> multiset(st.disabled)[Bundle.pack] <= 1
    ensures Edited(Edited(st, update120, bundle), update120, bundle) == Edited(st, update120, bundle)
  {
    var once := Edited(st, update120, bundle);
    EnabledListsIdempotent(st, update120, bundle);
    DisabledCounts(st, update120, bundle, Update120.pack);
    DisabledCounts(st, update120, bundle, Bundle.pack);
    assert update120 ==> Update120.pack !in once.disabled;
    assert bundle ==> Bundle.pack !in once.disabled;
  }

  /** A pack listed twice as disabled stays disabled while it is also enabled. */
  lemma DuplicateDisabledPackStaysDisabled(st: Lists, bundle: bool)
    requires multiset(st.disabled)[Update120.pack] >= 2
    ensures Update120.pack in Edited(st, true, bundle).disabled
    ensures Update120.pack in Edited(st, true, bundle).enabled
  {
    DisabledCounts(st, true, bundle, Update120.pack);
    EditedEnables(st, true, bundle);
  }

  /** Helper: a prefix with the same element counts is the whole sequence. */
  lemma PrefixWithSameCounts(s: seq<string>, t: seq<string>)
    requires s <= t
    requires forall x :: multiset(t)[x] == multiset(s)[x]
    ensures s == t
  {
    assert multiset(t) == multiset(s);
    assert |t| == |multiset(t)| == |multiset(s)| == |s|;
  }

  /** Reading the lists back from the written `Data` gives exactly the edited lists. */
  lemma WriteBackRoundTrip(data: Compound, st: Lists)
    ensures ReadLists(WriteBack(data, st)) == Ok(st)
  {
    var written := WriteBack(data, st);
    var packs := map["Enabled" := TList(FromStrings(st.enabled)), "Disabled" := TList(FromStrings(st.disabled))];
    assert |"DataPacks"| == 9 && |"enabled_features"| == 16 && |"Enabled"| == 7 && |"Disabled"| == 8;
    assert written["DataPacks"] == TCompound(packs);
    assert written["enabled_features"] == TList(FromStrings(st.features));
    assert CompoundOrEmpty(written, "DataPacks") == Ok(packs);
    StringsRoundTrip(st.features);
    StringsRoundTrip(st.enabled);
    StringsRoundTrip(st.disabled);
    assert StringListOrEmpty(packs, "Enabled") == Ok(st.enabled);
    assert StringListOrEmpty(packs, "Disabled") == Ok(st.disabled);
    assert StringListOrEmpty(written, "enabled_features") == Ok(st.features);
  }

  /**
   * The saved level is again a level file whose lists are the edited ones,
   * so a second run on it leaves both enabled lists unchanged.
   */
  lemma SavedLevelReadsBack(root: Compound, opts: Options)
    requires ReadLevel(root).Ok? && ReadLists(ReadLevel(root).value).Ok?
    ensures
      var data := ReadLevel(root).value;
      var edited := Edited(ReadLists(data).value, opts.update120, opts.bundle);
      var saved := root["Data" := TCompound(WriteBack(data, edited))];
      && ReadLevel(saved) == Ok(WriteBack(data, edited))
      && ReadLists(WriteBack(data, edited)) == Ok(edited)
      && Edited(edited, opts.update120, opts.bundle).features == edited.features
      && Edited(edited, opts.update120, opts.bundle).enabled == edited.enabled
  {
    var data := ReadLevel(root).value;
    var st := ReadLists(data).value;
    var edited := Edited(st, opts.update120, opts.bundle);
    WriteBackRoundTrip(data, edited);
    EnabledListsIdempotent(st, opts.update120, opts.bundle);
  }

  /**
   * A level whose Data holds LevelName and DataPacks but no Version is
   * rejected by the KeyError check before any edit.
   */
  lemma ExampleLevelWithoutVersion()
    ensures ReadLevel(map["Data" := TCompound(map[
              "LevelName" := TString("Test"),
              "DataPacks" := TCompound(map["Enabled" := TList([TString("vanilla")]),
                                           "Disabled" := TList([TString("update_1_20")])])])])
            == Err(NotALevelFile)
  {
  }

  /** The same level with a Version is read with an empty feature list. */
  lemma ExampleLevelReads()
    ensures
      var data := map[
        "LevelName" := TString("Test"),
        "Version" := TCompound(map["Name" := TString("1.19.3")]),
        "DataPacks" := TCompound(map["Enabled" := TList([TString("vanilla")]),
                                     "Disabled" := TList([TString("update_1_20")])])];
      && ReadLevel(map["Data" := TCompound(data)]) == Ok(data)
      && ReadLists(data) == Ok(Lists([], ["vanilla"], ["update_1_20"]))
  {
    assert FromStrings(["vanilla"]) == [TString("vanilla")];
    assert FromStrings(["update_1_20"]) == [TString("update_1_20")];
    StringsRoundTrip(["vanilla"]);
    StringsRoundTrip(["update_1_20"]);
  }

  /** On those lists, with update_1_20 switched on, the pack moves from disabled to enabled. */
  lemma ExampleLevelEdits()
    ensures Edited(Lists([], ["vanilla"], ["update_1_20"]), true, false)
         == Lists(["minecraft:vanilla", "minecraft:update_1_20"], ["vanilla", "update_1_20"], [])
  {
    var st := Lists([], ["vanilla"], ["update_1_20"]);
    NamesDistinct();
    assert VanillaPack in st.enabled;
    assert Update120.pack !in st.enabled;
    assert RemoveFirst(["update_1_20"], "update_1_20") == [];
  }
}
