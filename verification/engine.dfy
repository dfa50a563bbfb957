/**
 * Stand-ins for the engine services that the "Add Data Tables" game feature
 * action relies on but does not implement: soft object references and their
 * synchronous loading, the composite data tables it adds parents to, the asset
 * bundle data it declares assets in, and the data validation context it
 * reports errors to.
 *
 * The engine's own behaviour behind these services is not modelled. The
 * mutable services only record the calls they receive, so that what the
 * action does can be stated as "which calls, in which order".
 */
module Engine {

  datatype Option<+T> = None | Some(value: T)

  /** The path of an asset (the top-level asset path of a soft object path). */
  type AssetPath = string

  /** Identity of a loaded UCompositeDataTable object. */
  type CompositeId = nat

  /** Identity of a loaded UDataTable object. */
  type TableId = nat

  /** A soft object reference (TSoftObjectPtr): either null or naming an asset by path. */
  datatype SoftObjectPtr = Null | Ptr(path: AssetPath) {
    predicate IsNull() { Null? }
  }

  /**
   * What synchronous loading finds: the composite tables and the data tables
   * that can be loaded, by path. A path missing from a map does not load (the
   * asset is absent, of the wrong class, or fails to load).
   */
  datatype AssetRegistry = AssetRegistry(composites: map<AssetPath, CompositeId>, tables: map<AssetPath, TableId>)

  /** LoadSynchronous on a composite-table reference; a null reference loads nothing. */
  function LoadComposite(ptr: SoftObjectPtr, assets: AssetRegistry): Option<CompositeId>
  {
    match ptr
    case Null => None
    case Ptr(p) => if p in assets.composites then Some(assets.composites[p]) else None
  }

  /** LoadSynchronous on a data-table reference; a null reference loads nothing. */
  function LoadTable(ptr: SoftObjectPtr, assets: AssetRegistry): Option<TableId>
  {
    match ptr
    case Null => None
    case Ptr(p) => if p in assets.tables then Some(assets.tables[p]) else None
  }

  /** The two pieces of global engine state the preload policy reads: IsRunningCommandlet() and GIsEditor. */
  datatype RuntimeMode = RuntimeMode(isRunningCommandlet: bool, isEditor: bool)

  datatype ParentOp = AddParent | RemoveParent

  /** One call of UCompositeDataTable::AddParentTable or RemoveParentTable. */
  datatype ParentTableCall = ParentTableCall(op: ParentOp, composite: CompositeId, table: TableId)

  /** The engine's composite data tables, observed through the parent-table calls they receive. */
  class CompositeTables {
    var calls: seq<ParentTableCall>

    constructor ()
      ensures calls == []
    {
      calls := [];
    }

    method AddParentTable(composite: CompositeId, table: TableId)
      modifies this
      ensures calls == old(calls) + [ParentTableCall(AddParent, composite, table)]
    {
      calls := calls + [ParentTableCall(AddParent, composite, table)];
    }

    method RemoveParentTable(composite: CompositeId, table: TableId)
      modifies this
      ensures calls == old(calls) + [ParentTableCall(RemoveParent, composite, table)]
    {
      calls := calls + [ParentTableCall(RemoveParent, composite, table)];
    }
  }

  /** The load-state bundles of the game features subsystem settings (LoadStateClient, LoadStateServer). */
  datatype BundleName = LoadStateClient | LoadStateServer

  /** One call of FAssetBundleData::AddBundleAsset. */
  datatype BundleAsset = BundleAsset(bundle: BundleName, path: AssetPath)

  /** Asset bundle data, observed through the bundle assets added to it. */
  class AssetBundleData {
    var added: seq<BundleAsset>

    constructor ()
      ensures added == []
    {
      added := [];
    }

    method AddBundleAsset(bundle: BundleName, path: AssetPath)
      modifies this
      ensures added == old(added) + [BundleAsset(bundle, path)]
    {
      added := added + [BundleAsset(bundle, path)];
    }
  }

  /** EDataValidationResult. */
  datatype DataValidationResult = Invalid | Valid | NotValidated

  /** A data validation context, observed through the errors added to it. */
  class DataValidationContext<E> {
    var errors: seq<E>

    constructor ()
      ensures errors == []
    {
      errors := [];
    }

    method AddError(error: E)
      modifies this
      ensures errors == old(errors) + [error]
    {
      errors := errors + [error];
    }
  }
}
