# Add Data Tables game feature action, in Dafny

This project models `UGameFeatureAction_AddDataTables`, a game feature action.
While its feature is enabled, the action adds a configured list of data tables as
parents of composite data tables. When the feature is disabled, it removes them.

The action's configuration is a list of entries and two flags:
- Each entry is a soft reference to a composite table plus an ordered list of soft references to data tables.
- `bPreloadInEditor` and `bPreloadInCommandlets` control preloading.

The preload policy decides where the add/remove work happens:
- If the policy holds, tables are added at registration and removed at unregistration.
- Otherwise they are added at activation and removed at deactivation.

The action also does two other things:
- It declares every non-null table in the client and the server asset bundle.
- It validates that no reference in its configuration is null.

The project has three modules:

- `Engine` (`engine.dfy`) holds stand-ins for the engine services the action calls:
  - soft object references, and `LoadSynchronous` as a lookup in an `AssetRegistry` of loadable assets;
  - the runtime mode (`IsRunningCommandlet()`, `GIsEditor`);
  - the composite tables, the asset bundle data and the data validation context. These are classes that only record the calls they receive: `AddParentTable`/`RemoveParentTable`, `AddBundleAsset` and `AddError`.
- `DataTableLists` (`data_table_lists.dfy`) holds the entry datatype and the specification functions:
  - `ResolvedPairs` gives the (composite, table) pairs the add/remove loop visits.
  - `HookCalls` gives the calls each lifecycle hook issues.
  - `BundleAssets` gives the bundle assets declared.
  - `NullErrors` gives the validation errors reported.
  - The lemmas about these functions live here too.
- `AddDataTables` (`add_data_tables.dfy`) holds the action itself, as a class with the source's three fields. Its hooks, bundle declaration and validation are methods whose loops are proved against the specification functions.

The four hooks run the same nested loop. The model writes that loop once, as `UpdateParentTables` with `UpdateParentTablesOf` for its inner loop, and each hook calls it with add or remove. The bundle and validation methods likewise put their inner loops in methods of their own.

## Model

| member | source | states |
|---|---|---|
| `AddDataTables.GameFeatureActionAddDataTables.constructor` | Source/GameFeatureDataTables/Private/GameFeatureAction_AddDataTables.cpp:18-22 | a new action has an empty entry list and both preload flags false |
| `AddDataTables.GameFeatureActionAddDataTables.ShouldPreloadAtRegistration` | Source/GameFeatureDataTables/Private/GameFeatureAction_AddDataTables.cpp:138-146 | preloading needs one of the two flags; outside commandlets and the editor it never happens |
| `AddDataTables.PreloadPolicy` | Source/GameFeatureDataTables/Private/GameFeatureAction_AddDataTables.cpp:138-146 | in a commandlet the policy equals bPreloadInCommandlets whatever the editor state; otherwise it holds iff running in the editor with bPreloadInEditor |
| `AddDataTables.DefaultsDeferToActivation` | Source/GameFeatureDataTables/Private/GameFeatureAction_AddDataTables.cpp:18-22 | with the constructor's flags the policy is false in every mode, so registration adds nothing and activation adds every resolved pair |
| `AddDataTables.GameFeatureActionAddDataTables.UpdateParentTables` | Source/GameFeatureDataTables/Private/GameFeatureAction_AddDataTables.cpp:88-105 | the loop issues exactly one add (or remove) call per resolved pair, in entry order and then table order, and nothing else |
| `AddDataTables.GameFeatureActionAddDataTables.UpdateParentTablesOf` | Source/GameFeatureDataTables/Private/GameFeatureAction_AddDataTables.cpp:97-104 | for one loaded composite, one call per data table that loads, in list order; tables that do not load are skipped |
| `AddDataTables.GameFeatureActionAddDataTables.OnGameFeatureRegistering` | Source/GameFeatureDataTables/Private/GameFeatureAction_AddDataTables.cpp:24-49 | when the policy holds, appends the adds of all resolved pairs; otherwise appends nothing |
| `AddDataTables.GameFeatureActionAddDataTables.OnGameFeatureUnregistering` | Source/GameFeatureDataTables/Private/GameFeatureAction_AddDataTables.cpp:51-76 | when the policy holds, appends the removes of all resolved pairs; otherwise appends nothing |
| `AddDataTables.GameFeatureActionAddDataTables.OnGameFeatureActivating` | Source/GameFeatureDataTables/Private/GameFeatureAction_AddDataTables.cpp:78-106 | appends nothing when the policy holds; otherwise the adds of all resolved pairs |
| `AddDataTables.GameFeatureActionAddDataTables.OnGameFeatureDeactivating` | Source/GameFeatureDataTables/Private/GameFeatureAction_AddDataTables.cpp:108-136 | appends nothing when the policy holds; otherwise the removes of all resolved pairs |
| `DataTableLists.ResolvedPairsExact` | Source/GameFeatureDataTables/Private/GameFeatureAction_AddDataTables.cpp:30-47 | a pair is visited iff some entry's composite loads as its composite and a table of that same entry loads as its table; no call names an unresolved reference or a table outside its entry |
| `DataTableLists.TablePairsExact` | Source/GameFeatureDataTables/Private/GameFeatureAction_AddDataTables.cpp:39-46 | for one loaded composite, a pair is visited iff it names that composite and a table of the list that loads |
| `DataTableLists.UnresolvedCompositeSkipped` | Source/GameFeatureDataTables/Private/GameFeatureAction_AddDataTables.cpp:32-37 | an entry whose composite does not load contributes nothing: the pairs are those of the list without it |
| `DataTableLists.UnresolvedTableSkipped` | Source/GameFeatureDataTables/Private/GameFeatureAction_AddDataTables.cpp:41-45 | a table that does not load is skipped alone: the pairs are those of the list without that one reference, so the rest of its entry still counts |
| `DataTableLists.WorkHappensInOnePhase` | Source/GameFeatureDataTables/Private/GameFeatureAction_AddDataTables.cpp:82-86 | registration and activation never both add, unregistration and deactivation never both remove; with the policy false, activation issues exactly the adds registration issues with it true |
| `DataTableLists.RemovesMirrorAdds` | Source/GameFeatureDataTables/Private/GameFeatureAction_AddDataTables.cpp:51-76 | under the same policy and assets, the removes name the same (composite, table) pairs as the matching adds, in the same order |
| `DataTableLists.LifecycleBalanced` | Source/GameFeatureDataTables/Private/GameFeatureAction_AddDataTables.cpp:24-136 | over register, activate, deactivate, unregister, the calls are all adds then all removes of the same pairs; add and remove counts both equal the number of pairs, whatever the policy |
| `DataTableLists.PolicyChangeUnbalances` | Source/GameFeatureDataTables/Private/GameFeatureAction_AddDataTables.cpp:28-28 | each hook re-reads the policy; if it holds at registration and not afterwards, every pair is added twice and removed once |
| `AddDataTables.RunLifecycle` | Source/GameFeatureDataTables/Private/GameFeatureAction_AddDataTables.cpp:24-136 | calling the four hooks in lifecycle order with a fixed mode and fixed assets leaves the adds of every resolved pair followed by their removes |
| `AddDataTables.GameFeatureActionAddDataTables.AddAdditionalAssetBundleData` | Source/GameFeatureDataTables/Private/GameFeatureAction_AddDataTables.cpp:149-165 | bundle data unchanged when the asset manager is not initialised; otherwise, per non-null table in order, its path added to the client and then the server bundle |
| `AddDataTables.GameFeatureActionAddDataTables.AddTableBundleAssets` | Source/GameFeatureDataTables/Private/GameFeatureAction_AddDataTables.cpp:155-162 | for one entry, each non-null table's path goes to both bundles; null references add nothing |
| `DataTableLists.BundleAssetsExact` | Source/GameFeatureDataTables/Private/GameFeatureAction_AddDataTables.cpp:151-163 | a path is declared in the client (and equally the server) bundle iff some entry lists a non-null reference to it |
| `DataTableLists.TableBundleAssetsExact` | Source/GameFeatureDataTables/Private/GameFeatureAction_AddDataTables.cpp:155-162 | within one entry, a path is declared iff the list holds a non-null reference to it |
| `AddDataTables.GameFeatureActionAddDataTables.IsDataValid` | Source/GameFeatureDataTables/Private/GameFeatureAction_AddDataTables.cpp:169-197 | appends exactly the null-reference errors to the context; returns Invalid if there is one, else the initial combined result unchanged |
| `AddDataTables.GameFeatureActionAddDataTables.ValidateDataTables` | Source/GameFeatureDataTables/Private/GameFeatureAction_AddDataTables.cpp:182-191 | for one entry, one error per null table carrying table and entry index, and whether any was found |
| `DataTableLists.NullErrorsExact` | Source/GameFeatureDataTables/Private/GameFeatureAction_AddDataTables.cpp:174-194 | an error is reported iff it names a null composite (by entry index) or a null table (by table and entry index) of the list |
| `DataTableLists.NullErrorsOrdered` | Source/GameFeatureDataTables/Private/GameFeatureAction_AddDataTables.cpp:174-194 | errors come in traversal order (entry index, then composite before tables, tables by index), so none is reported twice |
| `DataTableLists.EntryNullErrorsOrdered` | Source/GameFeatureDataTables/Private/GameFeatureAction_AddDataTables.cpp:176-191 | one entry's errors are in traversal order and all carry that entry's index |
| `DataTableLists.TableNullErrorsExact` | Source/GameFeatureDataTables/Private/GameFeatureAction_AddDataTables.cpp:183-190 | within one entry, a table error is reported iff the table at its index is null |
| `DataTableLists.TableNullErrorsOrdered` | Source/GameFeatureDataTables/Private/GameFeatureAction_AddDataTables.cpp:183-190 | one entry's table errors are in increasing table index |
| `DataTableLists.NullErrorsIffNullReference` | Source/GameFeatureDataTables/Private/GameFeatureAction_AddDataTables.cpp:171-196 | some error is reported (so the result is Invalid) iff some entry has a null composite or a null data table |

Two behaviours of the code are easy to miss, and the model keeps both:
- Bundle assets are declared only when the asset manager is initialised (cpp:151). Otherwise the bundle data is left unchanged.
- A table is added only if its own entry's composite loads. A table that loads but sits under an unloadable composite is never added.

## Left out

- The `Super::` calls of every hook and of `IsDataValid`: the base class is not part of this model.
- `CombineDataValidationResults` and the base `IsDataValid` result: `IsDataValid` takes their combination as its `initialResult`.
- `LoadSynchronous`, `IsNull` and `ToSoftObjectPath().GetAssetPath()`: loading is a lookup in a fixed registry, a reference is null or a path, and that path is the asset path. Asynchronous loading, caching and load failures that change between calls within one hook are not modelled.
- `AddParentTable` and `RemoveParentTable`: their merge semantics in the composite table are engine code. The model records the calls in order and claims nothing about the resulting parent sets.
- `AddBundleAsset`: whether it removes duplicate paths is engine code. The model records each call.
- `AddError` message text (`LOCTEXT`, `FText::Format`, localisation): errors are structured values carrying the entry and table indices of the message.
- `GIsEditor`, `IsRunningCommandlet()` and `UAssetManager::IsInitialized()`: global engine state, passed in as parameters.
- The `FGameFeatureDeactivatingContext` argument of deactivation: only forwarded to the base class, so it is not modelled.
- The `WITH_EDITOR` / `WITH_EDITORONLY_DATA` build conditions: the model treats bundle declaration and validation as always compiled in.
- IsDataValid: entry and table indices are unbounded naturals; the `int32` overflow of `EntryIdx` and `TableIdx` beyond 2^31 - 1 items is not modelled.
- Reflection metadata (`UPROPERTY`, `UCLASS`), the module startup and shutdown (empty) and the build rules: no behaviour to model.
