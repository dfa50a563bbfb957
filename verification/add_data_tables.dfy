/**
 * UGameFeatureAction_AddDataTables: a game feature action that adds data tables
 * as parents of composite data tables while the feature is active (or, when the
 * preload policy says so, while it is registered), declares those tables in the
 * client and server asset bundles, and validates its configuration.
 *
 * Global engine state (IsRunningCommandlet, GIsEditor, whether the asset manager
 * is initialised) and the assets that can be loaded are parameters of the
 * operations that read them.
 */
module AddDataTables {
  import opened Engine
  import opened DataTableLists

  class GameFeatureActionAddDataTables {
    /** Entries to add to their composite tables when the feature is enabled. */
    var dataTableList: seq<Entry>
    /** Load the tables at registration time in the editor. */
    var preloadInEditor: bool
    /** Load the tables at registration time while a commandlet runs. */
    var preloadInCommandlets: bool

    constructor ()
      ensures dataTableList == [] && !preloadInEditor && !preloadInCommandlets
    {
      dataTableList := [];
      preloadInCommandlets := false;
      preloadInEditor := false;
    }

    /**
     * Whether the tables are loaded and added at registration time rather than
     * at activation time. A packaged game (no commandlet, no editor) never
     * preloads, and preloading always needs one of the two flags.
     */
    function ShouldPreloadAtRegistration(mode: RuntimeMode): (r: bool)
      reads this
      ensures r ==> preloadInEditor || preloadInCommandlets
      ensures !mode.isRunningCommandlet && !mode.isEditor ==> !r
    {
      if mode.isRunningCommandlet then preloadInCommandlets
      else mode.isEditor && preloadInEditor
    }

    /**
     * The loop shared by all four lifecycle hooks: for each entry whose composite
     * loads, add (or remove) each of its data tables that loads as a parent of it.
     */
    method UpdateParentTables(op: ParentOp, assets: AssetRegistry, composites: CompositeTables)
      modifies composites
      ensures composites.calls == old(composites.calls) + Calls(op, ResolvedPairs(dataTableList, assets))
    {
      var list := dataTableList;
      for i := 0 to |list|
        invariant composites.calls == old(composites.calls) + Calls(op, ResolvedPairs(list[..i], assets))
      {
        var entry := list[i];
        CallsEntryStep(op, list, i, assets);
        var composite := LoadComposite(entry.compositeTable, assets);
        if composite.None? {
          continue;
        }
        ghost var done := Calls(op, ResolvedPairs(list[..i], assets));
        UpdateParentTablesOf(op, composite.value, entry.dataTables, assets, composites);
        ConcatAssoc(old(composites.calls), done, Calls(op, EntryPairs(entry, assets)));
      }
      assert list[..|list|] == list;
    }

    /** The inner loop of UpdateParentTables: the data tables of one entry whose composite has loaded. */
    method UpdateParentTablesOf(op: ParentOp, composite: CompositeId, tables: seq<SoftObjectPtr>, assets: AssetRegistry,
                                composites: CompositeTables)
      modifies composites
      ensures composites.calls == old(composites.calls) + Calls(op, TablePairs(composite, tables, assets))
    {
      for j := 0 to |tables|
        invariant composites.calls == old(composites.calls) + Calls(op, TablePairs(composite, tables[..j], assets))
      {
        ghost var sofar := Calls(op, TablePairs(composite, tables[..j], assets));
        CallsTableStep(op, composite, tables, j, assets);
        var table := LoadTable(tables[j], assets);
        if table.Some? {
          if op == AddParent {
            composites.AddParentTable(composite, table.value);
          } else {
            composites.RemoveParentTable(composite, table.value);
          }
          assert composites.calls == old(composites.calls) + (sofar + [ParentTableCall(op, composite, table.value)]);
        }
      }
      assert tables[..|tables|] == tables;
    }

    method OnGameFeatureRegistering(mode: RuntimeMode, assets: AssetRegistry, composites: CompositeTables)
      modifies composites
      ensures composites.calls
           == old(composites.calls) + HookCalls(Registering, ShouldPreloadAtRegistration(mode), ResolvedPairs(dataTableList, assets))
    {
      if ShouldPreloadAtRegistration(mode) {
        UpdateParentTables(AddParent, assets, composites);
      }
    }

    method OnGameFeatureUnregistering(mode: RuntimeMode, assets: AssetRegistry, composites: CompositeTables)
      modifies composites
      ensures composites.calls
           == old(composites.calls) + HookCalls(Unregistering, ShouldPreloadAtRegistration(mode), ResolvedPairs(dataTableList, assets))
    {
      if ShouldPreloadAtRegistration(mode) {
        UpdateParentTables(RemoveParent, assets, composites);
      }
    }

    method OnGameFeatureActivating(mode: RuntimeMode, assets: AssetRegistry, composites: CompositeTables)
      modifies composites
      ensures composites.calls
           == old(composites.calls) + HookCalls(Activating, ShouldPreloadAtRegistration(mode), ResolvedPairs(dataTableList, assets))
    {
      if ShouldPreloadAtRegistration(mode) {
        // already done at registration
        return;
      }
      UpdateParentTables(AddParent, assets, composites);
    }

    method OnGameFeatureDeactivating(mode: RuntimeMode, assets: AssetRegistry, composites: CompositeTables)
      modifies composites
      ensures composites.calls
           == old(composites.calls) + HookCalls(Deactivating, ShouldPreloadAtRegistration(mode), ResolvedPairs(dataTableList, assets))
    {
      if ShouldPreloadAtRegistration(mode) {
        // already done at unregistration
        return;
      }
      UpdateParentTables(RemoveParent, assets, composites);
    }

    /**
     * Declares every non-null data table in the client and the server bundle,
     * provided the asset manager is initialised; otherwise adds nothing.
     */
    method AddAdditionalAssetBundleData(assetManagerIsInitialized: bool, bundleData: AssetBundleData)
      modifies bundleData
      ensures bundleData.added
           == old(bundleData.added) + (if assetManagerIsInitialized then BundleAssets(dataTableList) else [])
    {
      if assetManagerIsInitialized {
        var list := dataTableList;
        for i := 0 to |list|
          invariant bundleData.added == old(bundleData.added) + BundleAssets(list[..i])
        {
          BundleAssetsStep(list, i);
          AddTableBundleAssets(list[i].dataTables, bundleData);
        }
        assert list[..|list|] == list;
      }
    }

    /** The inner loop of AddAdditionalAssetBundleData: the data tables of one entry. */
    method AddTableBundleAssets(tables: seq<SoftObjectPtr>, bundleData: AssetBundleData)
      modifies bundleData
      ensures bundleData.added == old(bundleData.added) + TableBundleAssets(tables)
    {
      for j := 0 to |tables|
        invariant bundleData.added == old(bundleData.added) + TableBundleAssets(tables[..j])
      {
        var ptr := tables[j];
        ghost var sofar := TableBundleAssets(tables[..j]);
        assert TableBundleAssets(tables[..j + 1])
            == sofar + (if ptr.IsNull() then [] else [BundleAsset(LoadStateClient, ptr.path), BundleAsset(LoadStateServer, ptr.path)])
        by {
          assert tables[..j + 1][..j] == tables[..j];
        }
        if !ptr.IsNull() {
          bundleData.AddBundleAsset(LoadStateClient, ptr.path);
          bundleData.AddBundleAsset(LoadStateServer, ptr.path);
          assert bundleData.added
              == old(bundleData.added) + (sofar + [BundleAsset(LoadStateClient, ptr.path), BundleAsset(LoadStateServer, ptr.path)]);
        }
      }
      assert tables[..|tables|] == tables;
    }

    /**
     * Reports one error per null composite and per null data table, in list
     * order, and returns Invalid if it reported any; otherwise the result it
     * started from (the base class's result combined with Valid).
     */
    method IsDataValid(initialResult: DataValidationResult, context: DataValidationContext<ValidationError>)
      returns (result: DataValidationResult)
      modifies context
      ensures context.errors == old(context.errors) + NullErrors(dataTableList)
      ensures result == if NullErrors(dataTableList) == [] then initialResult else Invalid
    {
      var list := dataTableList;
      result := initialResult;
      var entryIdx := 0;
      while entryIdx < |list|
        invariant 0 <= entryIdx <= |list|
        invariant context.errors == old(context.errors) + NullErrors(list[..entryIdx])
        invariant result == if |context.errors| == |old(context.errors)| then initialResult else Invalid
      {
        var entry := list[entryIdx];
        NullErrorsStep(list, entryIdx);
        ghost var done := NullErrors(list[..entryIdx]);
        ghost var composite := CompositeNullErrors(entry, entryIdx);
        if entry.compositeTable.IsNull() {
          result := Invalid;
          context.AddError(CompositeTableIsNull(entryIdx));
        }
        assert context.errors == old(context.errors) + done + composite;
        var foundNullTable := ValidateDataTables(entry.dataTables, entryIdx, context);
        if foundNullTable {
          result := Invalid;
        }
        ghost var tables := TableNullErrors(entry.dataTables, entryIdx);
        ConcatAssoc(old(context.errors) + done, composite, tables);
        ConcatAssoc(old(context.errors), done, composite + tables);
        ConcatAssoc(done, composite, tables);
        entryIdx := entryIdx + 1;
      }
      assert list[..|list|] == list;
    }

    /**
     * The inner loop of IsDataValid: reports one error per null data table of
     * entry entryIdx, in list order, and says whether it reported any.
     */
    method ValidateDataTables(tables: seq<SoftObjectPtr>, entryIdx: nat, context: DataValidationContext<ValidationError>)
      returns (foundNull: bool)
      modifies context
      ensures context.errors == old(context.errors) + TableNullErrors(tables, entryIdx)
      ensures foundNull <==> TableNullErrors(tables, entryIdx) != []
    {
      foundNull := false;
      var tableIdx := 0;
      while tableIdx < |tables|
        invariant 0 <= tableIdx <= |tables|
        invariant context.errors == old(context.errors) + TableNullErrors(tables[..tableIdx], entryIdx)
        invariant foundNull <==> TableNullErrors(tables[..tableIdx], entryIdx) != []
      {
        TableNullErrorsStep(tables, tableIdx, entryIdx);
        if tables[tableIdx].IsNull() {
          foundNull := true;
          context.AddError(DataTableIsNull(tableIdx, entryIdx));
        }
        tableIdx := tableIdx + 1;
      }
      assert tables[..|tables|] == tables;
    }
  }

  /**
   * The preload rule: in a commandlet it is bPreloadInCommandlets, whatever the
   * editor flags; elsewhere it holds only in the editor with bPreloadInEditor.
   */
  lemma PreloadPolicy(action: GameFeatureActionAddDataTables, mode: RuntimeMode)
    ensures mode.isRunningCommandlet ==> action.ShouldPreloadAtRegistration(mode) == action.preloadInCommandlets
    ensures !mode.isRunningCommandlet ==>
      (action.ShouldPreloadAtRegistration(mode) <==> mode.isEditor && action.preloadInEditor)
  {
  }

  /**
   * With both flags cleared, as the constructor leaves them, the policy is false
   * in every mode, so all the work happens at activation and deactivation.
   */
  lemma DefaultsDeferToActivation(action: GameFeatureActionAddDataTables, mode: RuntimeMode, assets: AssetRegistry)
    requires !action.preloadInEditor && !action.preloadInCommandlets
    ensures !action.ShouldPreloadAtRegistration(mode)
    ensures HookCalls(Registering, action.ShouldPreloadAtRegistration(mode), ResolvedPairs(action.dataTableList, assets)) == []
    ensures HookCalls(Activating, action.ShouldPreloadAtRegistration(mode), ResolvedPairs(action.dataTableList, assets))
         == Calls(AddParent, ResolvedPairs(action.dataTableList, assets))
  {
  }

  /**
   * A host driving one whole lifecycle with a fixed mode and fixed loadable
   * assets: the composite tables receive every resolved add and then every
   * matching remove, whatever the preload policy.
   */
  method RunLifecycle(action: GameFeatureActionAddDataTables, mode: RuntimeMode, assets: AssetRegistry, composites: CompositeTables)
    modifies composites
    ensures composites.calls == old(composites.calls)
      + Calls(AddParent, ResolvedPairs(action.dataTableList, assets)) + Calls(RemoveParent, ResolvedPairs(action.dataTableList, assets))
  {
    ghost var preload := action.ShouldPreloadAtRegistration(mode);
    ghost var pairs := ResolvedPairs(action.dataTableList, assets);
    ghost var adds, removes := Calls(AddParent, pairs), Calls(RemoveParent, pairs);
    ghost var start := composites.calls;
    action.OnGameFeatureRegistering(mode, assets, composites);
    ghost var registered := composites.calls;
    action.OnGameFeatureActivating(mode, assets, composites);
    ghost var activated := composites.calls;
    action.OnGameFeatureDeactivating(mode, assets, composites);
    ghost var deactivated := composites.calls;
    action.OnGameFeatureUnregistering(mode, assets, composites);
    if preload {
      assert registered == start + adds;
      assert activated == registered && deactivated == registered;
      assert composites.calls == start + adds + removes;
    } else {
      assert registered == start;
      assert activated == start + adds;
      assert deactivated == start + adds + removes;
      assert composites.calls == deactivated;
    }
  }

  // Worked examples: one entry {A: [T1, T2]} in the editor, with and without
  // editor preloading, and the lifecycle and validation of a null composite and
  // of a null table.

  function ExampleAssets(): AssetRegistry
  {
    AssetRegistry(map["A" := 1], map["T1" := 10, "T2" := 20])
  }

  const Editor := RuntimeMode(false, true)

  lemma ExamplePairs()
    ensures ResolvedPairs([Entry(Ptr("A"), [Ptr("T1"), Ptr("T2")])], ExampleAssets()) == [(1, 10), (1, 20)]
  {
    var assets, entry := ExampleAssets(), Entry(Ptr("A"), [Ptr("T1"), Ptr("T2")]);
    assert LoadComposite(Ptr("A"), assets) == Some(1);
    assert LoadTable(Ptr("T1"), assets) == Some(10);
    assert LoadTable(Ptr("T2"), assets) == Some(20);
    assert [Ptr("T1"), Ptr("T2")][..1] == [Ptr("T1")];
    assert [Ptr("T1")][..0] == [];
    assert TablePairs(1, [Ptr("T1")], assets) == [(1, 10)];
    assert TablePairs(1, [Ptr("T1"), Ptr("T2")], assets) == [(1, 10), (1, 20)];
    assert [entry][..0] == [];
  }

  method ExamplePreloadInEditor()
  {
    ExamplePairs();
    var action := new GameFeatureActionAddDataTables();
    action.dataTableList := [Entry(Ptr("A"), [Ptr("T1"), Ptr("T2")])];
    action.preloadInEditor := true;
    var composites := new CompositeTables();
    action.OnGameFeatureRegistering(Editor, ExampleAssets(), composites);
    assert composites.calls == [ParentTableCall(AddParent, 1, 10), ParentTableCall(AddParent, 1, 20)];
    action.OnGameFeatureActivating(Editor, ExampleAssets(), composites);
    assert composites.calls == [ParentTableCall(AddParent, 1, 10), ParentTableCall(AddParent, 1, 20)];
  }

  method ExampleNoPreload()
  {
    ExamplePairs();
    var action := new GameFeatureActionAddDataTables();
    action.dataTableList := [Entry(Ptr("A"), [Ptr("T1"), Ptr("T2")])];
    var composites := new CompositeTables();
    action.OnGameFeatureRegistering(Editor, ExampleAssets(), composites);
    assert composites.calls == [];
    action.OnGameFeatureActivating(Editor, ExampleAssets(), composites);
    assert composites.calls == [ParentTableCall(AddParent, 1, 10), ParentTableCall(AddParent, 1, 20)];
  }

  method ExampleNullComposite()
  {
    var action := new GameFeatureActionAddDataTables();
    action.dataTableList := [Entry(Null, [Ptr("T1")])];
    var context := new DataValidationContext<ValidationError>();
    var result := action.IsDataValid(Valid, context);
    assert [Entry(Null, [Ptr("T1")])][..0] == [] && [Ptr("T1")][..0] == [];
    assert context.errors == [CompositeTableIsNull(0)] && result == Invalid;
    var composites := new CompositeTables();
    action.OnGameFeatureActivating(Editor, ExampleAssets(), composites);
    assert composites.calls == [];
  }

  method ExampleNullTable()
  {
    var action := new GameFeatureActionAddDataTables();
    var entry := Entry(Ptr("A"), [Null, Ptr("T2")]);
    action.dataTableList := [entry];
    var context := new DataValidationContext<ValidationError>();
    var result := action.IsDataValid(Valid, context);
    assert [entry][..0] == [] && [Null, Ptr("T2")][..1] == [Null] && [Null][..0] == [];
    assert context.errors == [DataTableIsNull(0, 0)] && result == Invalid;
    var composites := new CompositeTables();
    action.OnGameFeatureActivating(Editor, ExampleAssets(), composites);
    assert LoadTable(Ptr("T2"), ExampleAssets()) == Some(20);
    assert composites.calls == [ParentTableCall(AddParent, 1, 20)];
  }
}
