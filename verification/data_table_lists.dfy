/**
 * The configuration of the "Add Data Tables" action (a list of entries, each a
 * composite table and the data tables to add to it) and what the action does
 * with it, as functions of the list: the (composite, table) pairs its add and
 * remove loops visit, the parent-table calls each lifecycle hook issues, the
 * bundle assets it declares and the validation errors it reports.
 *
 * Every list function is defined from the end of the list, so that
 * "the first i entries" is the state of a loop after i iterations.
 */
module DataTableLists {
  import opened Engine

  /** FGameFeatureDataTableEntry: a composite table and the data tables to add to it, in order. */
  datatype Entry = Entry(compositeTable: SoftObjectPtr, dataTables: seq<SoftObjectPtr>)

  type Pair = (CompositeId, TableId)

  lemma ConcatAssoc<T>(a: seq<T>, b: seq<T>, c: seq<T>)
    ensures a + b + c == a + (b + c)
  {
  }

  // ---------------------------------------------------------------------------
  // The pairs visited by the add/remove loops
  // ---------------------------------------------------------------------------

  /** The (composite, table) pairs for one resolved composite: one per data table that loads, in list order. */
  function TablePairs(composite: CompositeId, tables: seq<SoftObjectPtr>, assets: AssetRegistry): seq<Pair>
  {
    if tables == [] then []
    else
      var t := LoadTable(tables[|tables| - 1], assets);
      TablePairs(composite, tables[..|tables| - 1], assets) + (if t.Some? then [(composite, t.value)] else [])
  }

  /** The pairs for one entry: none when its composite does not load. */
  function EntryPairs(entry: Entry, assets: AssetRegistry): seq<Pair>
  {
    match LoadComposite(entry.compositeTable, assets)
    case None => []
    case Some(c) => TablePairs(c, entry.dataTables, assets)
  }

  /** The pairs for a whole entry list, in entry order and then table order. */
  function ResolvedPairs(list: seq<Entry>, assets: AssetRegistry): seq<Pair>
  {
    if list == [] then []
    else ResolvedPairs(list[..|list| - 1], assets) + EntryPairs(list[|list| - 1], assets)
  }

  lemma TablePairsStep(composite: CompositeId, tables: seq<SoftObjectPtr>, j: nat, assets: AssetRegistry)
    requires j < |tables|
    ensures TablePairs(composite, tables[..j + 1], assets)
         == TablePairs(composite, tables[..j], assets) + TablePairs(composite, [tables[j]], assets)
  {
    assert tables[..j + 1][..j] == tables[..j];
  }

  lemma ResolvedPairsStep(list: seq<Entry>, i: nat, assets: AssetRegistry)
    requires i < |list|
    ensures ResolvedPairs(list[..i + 1], assets) == ResolvedPairs(list[..i], assets) + EntryPairs(list[i], assets)
  {
    assert list[..i + 1][..i] == list[..i];
  }

  lemma {:induction false} TablePairsAppend(composite: CompositeId, a: seq<SoftObjectPtr>, b: seq<SoftObjectPtr>, assets: AssetRegistry)
    ensures TablePairs(composite, a + b, assets) == TablePairs(composite, a, assets) + TablePairs(composite, b, assets)
    decreases |b|
  {
    if b == [] {
      assert a + b == a;
    } else {
      var n := |b| - 1;
      assert (a + b)[..|a + b| - 1] == a + b[..n];
      assert (a + b)[|a + b| - 1] == b[n];
      TablePairsAppend(composite, a, b[..n], assets);
    }
  }

  lemma {:induction false} ResolvedPairsAppend(a: seq<Entry>, b: seq<Entry>, assets: AssetRegistry)
    ensures ResolvedPairs(a + b, assets) == ResolvedPairs(a, assets) + ResolvedPairs(b, assets)
    decreases |b|
  {
    if b == [] {
      assert a + b == a;
    } else {
      var n := |b| - 1;
      assert (a + b)[..|a + b| - 1] == a + b[..n];
      assert (a + b)[|a + b| - 1] == b[n];
      ResolvedPairsAppend(a, b[..n], assets);
    }
  }

  /** Entry i's composite loads as pair.0 and its table j loads as pair.1. */
  ghost predicate ResolvesAt(list: seq<Entry>, assets: AssetRegistry, i: int, j: int, pair: Pair)
  {
    && 0 <= i < |list|
    && 0 <= j < |list[i].dataTables|
    && LoadComposite(list[i].compositeTable, assets) == Some(pair.0)
    && LoadTable(list[i].dataTables[j], assets) == Some(pair.1)
  }

  lemma {:induction false} TablePairsExact(composite: CompositeId, tables: seq<SoftObjectPtr>, assets: AssetRegistry, pair: Pair)
    ensures pair in TablePairs(composite, tables, assets)
        <==> pair.0 == composite && exists j :: 0 <= j < |tables| && LoadTable(tables[j], assets) == Some(pair.1)
    decreases |tables|
  {
    if tables != [] {
      var n := |tables| - 1;
      var init := tables[..n];
      TablePairsExact(composite, init, assets, pair);
      if pair in TablePairs(composite, tables, assets) {
        if pair in TablePairs(composite, init, assets) {
          var j :| 0 <= j < |init| && LoadTable(init[j], assets) == Some(pair.1);
          assert tables[j] == init[j];
        } else {
          assert LoadTable(tables[n], assets) == Some(pair.1);
        }
      }
      if pair.0 == composite && exists j :: 0 <= j < |tables| && LoadTable(tables[j], assets) == Some(pair.1) {
        var j :| 0 <= j < |tables| && LoadTable(tables[j], assets) == Some(pair.1);
        if j < n {
          assert init[j] == tables[j];
        }
      }
    }
  }

  /**
   * The loops visit exactly the resolved pairs: a pair is visited iff some entry's
   * composite loads as its composite and some table of THAT entry loads as its table.
   * So no call names an unresolved reference or a table outside its entry's list.
   */
  lemma {:induction false} ResolvedPairsExact(list: seq<Entry>, assets: AssetRegistry, pair: Pair)
    ensures pair in ResolvedPairs(list, assets) <==> exists i, j :: ResolvesAt(list, assets, i, j, pair)
    decreases |list|
  {
    if list != [] {
      var n := |list| - 1;
      var init := list[..n];
      ResolvedPairsExact(init, assets, pair);
      var e := list[n];
      match LoadComposite(e.compositeTable, assets)
      case None =>
        if exists i, j :: ResolvesAt(list, assets, i, j, pair) {
          var i, j :| ResolvesAt(list, assets, i, j, pair);
          assert i != n;
          assert ResolvesAt(init, assets, i, j, pair);
        }
        if pair in ResolvedPairs(list, assets) {
          var i, j :| ResolvesAt(init, assets, i, j, pair);
          assert ResolvesAt(list, assets, i, j, pair);
        }
      case Some(c) =>
        TablePairsExact(c, e.dataTables, assets, pair);
        if exists i, j :: ResolvesAt(list, assets, i, j, pair) {
          var i, j :| ResolvesAt(list, assets, i, j, pair);
          if i < n {
            assert ResolvesAt(init, assets, i, j, pair);
          } else {
            assert pair.0 == c && LoadTable(e.dataTables[j], assets) == Some(pair.1);
          }
        }
        if pair in ResolvedPairs(list, assets) {
          if pair in ResolvedPairs(init, assets) {
            var i, j :| ResolvesAt(init, assets, i, j, pair);
            assert ResolvesAt(list, assets, i, j, pair);
          } else {
            var j :| 0 <= j < |e.dataTables| && LoadTable(e.dataTables[j], assets) == Some(pair.1);
            assert ResolvesAt(list, assets, n, j, pair);
          }
        }
    }
  }

  lemma ResolvedPairsSingleton(entry: Entry, assets: AssetRegistry)
    ensures ResolvedPairs([entry], assets) == EntryPairs(entry, assets)
  {
    assert [entry][..0] == [];
  }

  /** An entry whose composite does not load contributes no pair: the loop skips it whole. */
  lemma UnresolvedCompositeSkipped(before: seq<Entry>, entry: Entry, after: seq<Entry>, assets: AssetRegistry)
    requires LoadComposite(entry.compositeTable, assets).None?
    ensures ResolvedPairs(before + [entry] + after, assets) == ResolvedPairs(before + after, assets)
  {
    calc {
      ResolvedPairs(before + [entry] + after, assets);
    == { ResolvedPairsAppend(before + [entry], after, assets); }
      ResolvedPairs(before + [entry], assets) + ResolvedPairs(after, assets);
    == { ResolvedPairsAppend(before, [entry], assets); ResolvedPairsSingleton(entry, assets); }
      ResolvedPairs(before, assets) + ResolvedPairs(after, assets);
    == { ResolvedPairsAppend(before, after, assets); }
      ResolvedPairs(before + after, assets);
    }
  }

  lemma UnresolvedTableSkippedInEntry(composite: SoftObjectPtr, pre: seq<SoftObjectPtr>, table: SoftObjectPtr,
                                      post: seq<SoftObjectPtr>, assets: AssetRegistry)
    requires LoadTable(table, assets).None?
    ensures EntryPairs(Entry(composite, pre + [table] + post), assets) == EntryPairs(Entry(composite, pre + post), assets)
  {
    match LoadComposite(composite, assets)
    case None =>
    case Some(c) =>
      TablePairsAppend(c, pre + [table], post, assets);
      TablePairsAppend(c, pre, [table], assets);
      TablePairsAppend(c, pre, post, assets);
      assert [table][..0] == [];
  }

  /**
   * A data table that does not load is skipped alone: the pairs are those of the
   * same list with that one reference removed, so the rest of its entry still counts.
   */
  lemma UnresolvedTableSkipped(before: seq<Entry>, composite: SoftObjectPtr, pre: seq<SoftObjectPtr>,
                               table: SoftObjectPtr, post: seq<SoftObjectPtr>, after: seq<Entry>, assets: AssetRegistry)
    requires LoadTable(table, assets).None?
    ensures ResolvedPairs(before + [Entry(composite, pre + [table] + post)] + after, assets)
         == ResolvedPairs(before + [Entry(composite, pre + post)] + after, assets)
  {
    var withT, withoutT := Entry(composite, pre + [table] + post), Entry(composite, pre + post);
    calc {
      ResolvedPairs(before + [withT] + after, assets);
    == { ResolvedPairsAppend(before + [withT], after, assets); ResolvedPairsAppend(before, [withT], assets); }
      ResolvedPairs(before, assets) + ResolvedPairs([withT], assets) + ResolvedPairs(after, assets);
    == { ResolvedPairsSingleton(withT, assets); ResolvedPairsSingleton(withoutT, assets);
         UnresolvedTableSkippedInEntry(composite, pre, table, post, assets); }
      ResolvedPairs(before, assets) + ResolvedPairs([withoutT], assets) + ResolvedPairs(after, assets);
    == { ResolvedPairsAppend(before + [withoutT], after, assets); ResolvedPairsAppend(before, [withoutT], assets); }
      ResolvedPairs(before + [withoutT] + after, assets);
    }
  }

  // ---------------------------------------------------------------------------
  // Parent-table calls of the four lifecycle hooks
  // ---------------------------------------------------------------------------

  /** One parent-table call per pair, in pair order. */
  function Calls(op: ParentOp, pairs: seq<Pair>): seq<ParentTableCall>
  {
    seq(|pairs|, k requires 0 <= k < |pairs| => ParentTableCall(op, pairs[k].0, pairs[k].1))
  }

  lemma CallsAppend(op: ParentOp, a: seq<Pair>, b: seq<Pair>)
    ensures Calls(op, a + b) == Calls(op, a) + Calls(op, b)
  {
  }

  /** One step of the inner loop: table j adds its call when it loads and nothing otherwise. */
  lemma CallsTableStep(op: ParentOp, composite: CompositeId, tables: seq<SoftObjectPtr>, j: nat, assets: AssetRegistry)
    requires j < |tables|
    ensures var t := LoadTable(tables[j], assets);
      Calls(op, TablePairs(composite, tables[..j + 1], assets))
        == Calls(op, TablePairs(composite, tables[..j], assets)) + (if t.Some? then [ParentTableCall(op, composite, t.value)] else [])
  {
    assert tables[..j + 1][..j] == tables[..j];
    var t := LoadTable(tables[j], assets);
    CallsAppend(op, TablePairs(composite, tables[..j], assets), if t.Some? then [(composite, t.value)] else []);
  }

  /** One step of the outer loop: entry i adds the calls of its pairs. */
  lemma CallsEntryStep(op: ParentOp, list: seq<Entry>, i: nat, assets: AssetRegistry)
    requires i < |list|
    ensures Calls(op, ResolvedPairs(list[..i + 1], assets))
         == Calls(op, ResolvedPairs(list[..i], assets)) + Calls(op, EntryPairs(list[i], assets))
  {
    ResolvedPairsStep(list, i, assets);
    CallsAppend(op, ResolvedPairs(list[..i], assets), EntryPairs(list[i], assets));
  }

  /** The number of calls in a log that are of the given kind. */
  function Count(op: ParentOp, calls: seq<ParentTableCall>): nat
  {
    if calls == [] then 0
    else Count(op, calls[..|calls| - 1]) + (if calls[|calls| - 1].op == op then 1 else 0)
  }

  lemma {:induction false} CountAppend(op: ParentOp, a: seq<ParentTableCall>, b: seq<ParentTableCall>)
    ensures Count(op, a + b) == Count(op, a) + Count(op, b)
    decreases |b|
  {
    if b == [] {
      assert a + b == a;
    } else {
      var n := |b| - 1;
      assert (a + b)[..|a + b| - 1] == a + b[..n];
      CountAppend(op, a, b[..n]);
    }
  }

  /** Calls(op, pairs) holds |pairs| calls of kind op and none of any other kind. */
  lemma {:induction false} CountCalls(op: ParentOp, other: ParentOp, pairs: seq<Pair>)
    ensures Count(op, Calls(op, pairs)) == |pairs|
    ensures other != op ==> Count(other, Calls(op, pairs)) == 0
    decreases |pairs|
  {
    if pairs != [] {
      var n := |pairs| - 1;
      assert Calls(op, pairs)[..n] == Calls(op, pairs[..n]);
      CountCalls(op, other, pairs[..n]);
    }
  }

  datatype Hook = Registering | Unregistering | Activating | Deactivating

  /**
   * The parent-table calls a lifecycle hook issues, given the preload policy and
   * the pairs the loop visits: the add/remove loop runs at registration and
   * unregistration when the policy holds, and at activation and deactivation
   * otherwise.
   */
  function HookCalls(hook: Hook, preload: bool, pairs: seq<Pair>): seq<ParentTableCall>
  {
    match hook
    case Registering => if preload then Calls(AddParent, pairs) else []
    case Unregistering => if preload then Calls(RemoveParent, pairs) else []
    case Activating => if preload then [] else Calls(AddParent, pairs)
    case Deactivating => if preload then [] else Calls(RemoveParent, pairs)
  }

  /** The calls of a whole lifecycle: register, activate, deactivate, unregister. */
  function LifecycleCalls(preload: bool, pairs: seq<Pair>): seq<ParentTableCall>
  {
    HookCalls(Registering, preload, pairs) + HookCalls(Activating, preload, pairs)
      + HookCalls(Deactivating, preload, pairs) + HookCalls(Unregistering, preload, pairs)
  }

  /**
   * The adds happen either at registration or at activation, never both, and
   * the removes either at unregistration or at deactivation, never both. When
   * the policy is false, activation issues exactly the adds (and deactivation
   * exactly the removes) that registration (unregistration) issues when it is true.
   */
  lemma WorkHappensInOnePhase(preload: bool, pairs: seq<Pair>)
    ensures HookCalls(Registering, preload, pairs) == [] || HookCalls(Activating, preload, pairs) == []
    ensures HookCalls(Unregistering, preload, pairs) == [] || HookCalls(Deactivating, preload, pairs) == []
    ensures HookCalls(Activating, false, pairs) == HookCalls(Registering, true, pairs)
    ensures HookCalls(Deactivating, false, pairs) == HookCalls(Unregistering, true, pairs)
  {
  }

  /**
   * Removal mirrors addition: for the same policy and pairs, unregistration and
   * deactivation issue a remove for exactly the (composite, table) pairs that
   * registration and activation add, in the same order.
   */
  lemma RemovesMirrorAdds(preload: bool, pairs: seq<Pair>)
    ensures |HookCalls(Unregistering, preload, pairs)| == |HookCalls(Registering, preload, pairs)|
    ensures |HookCalls(Deactivating, preload, pairs)| == |HookCalls(Activating, preload, pairs)|
    ensures forall k :: 0 <= k < |HookCalls(Registering, preload, pairs)| ==>
      var add, remove := HookCalls(Registering, preload, pairs)[k], HookCalls(Unregistering, preload, pairs)[k];
      add.op == AddParent && remove.op == RemoveParent && add.composite == remove.composite && add.table == remove.table
    ensures forall k :: 0 <= k < |HookCalls(Activating, preload, pairs)| ==>
      var add, remove := HookCalls(Activating, preload, pairs)[k], HookCalls(Deactivating, preload, pairs)[k];
      add.op == AddParent && remove.op == RemoveParent && add.composite == remove.composite && add.table == remove.table
  {
  }

  /**
   * Over a whole lifecycle, whatever the policy, every visited pair is added once
   * and then removed once: the log is all the adds followed by all the removes,
   * and the two counts are equal.
   */
  lemma LifecycleBalanced(preload: bool, pairs: seq<Pair>)
    ensures LifecycleCalls(preload, pairs) == Calls(AddParent, pairs) + Calls(RemoveParent, pairs)
    ensures Count(AddParent, LifecycleCalls(preload, pairs)) == |pairs|
    ensures Count(RemoveParent, LifecycleCalls(preload, pairs)) == |pairs|
  {
    var adds, removes := Calls(AddParent, pairs), Calls(RemoveParent, pairs);
    if preload {
      assert LifecycleCalls(preload, pairs) == adds + [] + [] + removes;
    } else {
      assert LifecycleCalls(preload, pairs) == [] + adds + removes + [];
    }
    assert LifecycleCalls(preload, pairs) == adds + removes;
    CountAppend(AddParent, adds, removes);
    CountAppend(RemoveParent, adds, removes);
    CountCalls(AddParent, RemoveParent, pairs);
    CountCalls(RemoveParent, AddParent, pairs);
  }

  /**
   * Each hook reads the policy afresh. If it holds at registration and no longer
   * holds afterwards (the editor flag is changed in between), the lifecycle adds
   * every pair twice and removes it once.
   */
  lemma PolicyChangeUnbalances(pairs: seq<Pair>)
    ensures var log := HookCalls(Registering, true, pairs) + HookCalls(Activating, false, pairs)
                     + HookCalls(Deactivating, false, pairs) + HookCalls(Unregistering, false, pairs);
      Count(AddParent, log) == 2 * |pairs| && Count(RemoveParent, log) == |pairs|
  {
    var adds, removes := Calls(AddParent, pairs), Calls(RemoveParent, pairs);
    assert HookCalls(Registering, true, pairs) + HookCalls(Activating, false, pairs)
         + HookCalls(Deactivating, false, pairs) + HookCalls(Unregistering, false, pairs)
        == adds + adds + removes;
    CountAppend(AddParent, adds + adds, removes);
    CountAppend(RemoveParent, adds + adds, removes);
    CountAppend(AddParent, adds, adds);
    CountAppend(RemoveParent, adds, adds);
    CountCalls(AddParent, RemoveParent, pairs);
    CountCalls(RemoveParent, AddParent, pairs);
  }

  // ---------------------------------------------------------------------------
  // Bundle assets
  // ---------------------------------------------------------------------------

  /** The bundle assets for one entry's tables: each non-null reference in the client and then the server bundle. */
  function TableBundleAssets(tables: seq<SoftObjectPtr>): seq<BundleAsset>
  {
    if tables == [] then []
    else
      var ptr := tables[|tables| - 1];
      TableBundleAssets(tables[..|tables| - 1])
        + (if ptr.IsNull() then [] else [BundleAsset(LoadStateClient, ptr.path), BundleAsset(LoadStateServer, ptr.path)])
  }

  /** The bundle assets for a whole entry list, in entry order and then table order. */
  function BundleAssets(list: seq<Entry>): seq<BundleAsset>
  {
    if list == [] then []
    else BundleAssets(list[..|list| - 1]) + TableBundleAssets(list[|list| - 1].dataTables)
  }

  lemma TableBundleAssetsStep(tables: seq<SoftObjectPtr>, j: nat)
    requires j < |tables|
    ensures TableBundleAssets(tables[..j + 1]) == TableBundleAssets(tables[..j]) + TableBundleAssets([tables[j]])
  {
    assert tables[..j + 1][..j] == tables[..j];
  }

  lemma BundleAssetsStep(list: seq<Entry>, i: nat)
    requires i < |list|
    ensures BundleAssets(list[..i + 1]) == BundleAssets(list[..i]) + TableBundleAssets(list[i].dataTables)
  {
    assert list[..i + 1][..i] == list[..i];
  }

  /** The tables hold a non-null reference to the given path. */
  ghost predicate ListsPath(tables: seq<SoftObjectPtr>, path: AssetPath)
  {
    exists j :: 0 <= j < |tables| && tables[j] == Ptr(path)
  }

  /** Table j of entry i is a non-null reference to the given path. */
  ghost predicate DeclaresPathAt(list: seq<Entry>, i: int, j: int, path: AssetPath)
  {
    0 <= i < |list| && 0 <= j < |list[i].dataTables| && list[i].dataTables[j] == Ptr(path)
  }

  lemma TableBundleAssetsLast(ptr: SoftObjectPtr, asset: BundleAsset)
    ensures asset in TableBundleAssets([ptr]) <==> ptr == Ptr(asset.path)
  {
    assert [ptr][..0] == [];
    if ptr == Ptr(asset.path) {
      if asset.bundle == LoadStateClient {
        assert TableBundleAssets([ptr])[0] == asset;
      } else {
        assert TableBundleAssets([ptr])[1] == asset;
      }
    }
  }

  lemma {:induction false} TableBundleAssetsExact(tables: seq<SoftObjectPtr>, asset: BundleAsset)
    ensures asset in TableBundleAssets(tables) <==> ListsPath(tables, asset.path)
    decreases |tables|
  {
    if tables != [] {
      var n := |tables| - 1;
      var init := tables[..n];
      TableBundleAssetsExact(init, asset);
      TableBundleAssetsLast(tables[n], asset);
      assert TableBundleAssets(tables) == TableBundleAssets(init) + TableBundleAssets([tables[n]]) by {
        assert tables == init + [tables[n]];
        assert [tables[n]][..0] == [];
      }
      if ListsPath(init, asset.path) {
        var j :| 0 <= j < |init| && init[j] == Ptr(asset.path);
        assert tables[j] == init[j];
      }
      if ListsPath(tables, asset.path) {
        var j :| 0 <= j < |tables| && tables[j] == Ptr(asset.path);
        if j < n {
          assert init[j] == tables[j];
        }
      }
    }
  }

  /**
   * The bundle assets name exactly the paths of the non-null table references:
   * a path is in the client bundle iff it is in the server bundle iff some entry
   * lists a non-null reference to it. Null references declare nothing.
   */
  lemma {:induction false} BundleAssetsExact(list: seq<Entry>, asset: BundleAsset)
    ensures asset in BundleAssets(list) <==> exists i, j :: DeclaresPathAt(list, i, j, asset.path)
    decreases |list|
  {
    if list != [] {
      var n := |list| - 1;
      var init := list[..n];
      BundleAssetsExact(init, asset);
      TableBundleAssetsExact(list[n].dataTables, asset);
      assert BundleAssets(list) == BundleAssets(init) + TableBundleAssets(list[n].dataTables);
      if exists i, j :: DeclaresPathAt(init, i, j, asset.path) {
        var i, j :| DeclaresPathAt(init, i, j, asset.path);
        assert DeclaresPathAt(list, i, j, asset.path);
      }
      if ListsPath(list[n].dataTables, asset.path) {
        var j :| 0 <= j < |list[n].dataTables| && list[n].dataTables[j] == Ptr(asset.path);
        assert DeclaresPathAt(list, n, j, asset.path);
      }
      if exists i, j :: DeclaresPathAt(list, i, j, asset.path) {
        var i, j :| DeclaresPathAt(list, i, j, asset.path);
        if i < n {
          assert DeclaresPathAt(init, i, j, asset.path);
        } else {
          assert ListsPath(list[n].dataTables, asset.path);
        }
      }
    }
  }

  // ---------------------------------------------------------------------------
  // Validation errors
  // ---------------------------------------------------------------------------

  /** "CompositeTable is null at index {entryIdx}" / "DataTable is null at index {tableIdx} in DataTableList[{entryIdx}]". */
  datatype ValidationError = CompositeTableIsNull(entryIdx: nat) | DataTableIsNull(tableIdx: nat, entryIdx: nat)

  function CompositeNullErrors(entry: Entry, entryIdx: nat): seq<ValidationError>
  {
    if entry.compositeTable.IsNull() then [CompositeTableIsNull(entryIdx)] else []
  }

  /** One error per null table reference of entry entryIdx, in list order. */
  function TableNullErrors(tables: seq<SoftObjectPtr>, entryIdx: nat): seq<ValidationError>
  {
    if tables == [] then []
    else
      TableNullErrors(tables[..|tables| - 1], entryIdx)
        + (if tables[|tables| - 1].IsNull() then [DataTableIsNull(|tables| - 1, entryIdx)] else [])
  }

  /** The errors for a whole list: per entry, its composite's error and then its tables' errors. */
  function NullErrors(list: seq<Entry>): seq<ValidationError>
  {
    if list == [] then []
    else
      var n := |list| - 1;
      NullErrors(list[..n]) + CompositeNullErrors(list[n], n) + TableNullErrors(list[n].dataTables, n)
  }

  lemma TableNullErrorsStep(tables: seq<SoftObjectPtr>, j: nat, entryIdx: nat)
    requires j < |tables|
    ensures TableNullErrors(tables[..j + 1], entryIdx)
         == TableNullErrors(tables[..j], entryIdx) + (if tables[j].IsNull() then [DataTableIsNull(j, entryIdx)] else [])
  {
    assert tables[..j + 1][..j] == tables[..j];
  }

  lemma NullErrorsStep(list: seq<Entry>, i: nat)
    requires i < |list|
    ensures NullErrors(list[..i + 1])
         == NullErrors(list[..i]) + CompositeNullErrors(list[i], i) + TableNullErrors(list[i].dataTables, i)
  {
    assert list[..i + 1][..i] == list[..i];
  }

  /** The error names a null reference of the list, at the indices it carries. */
  ghost predicate IsNullAt(list: seq<Entry>, error: ValidationError)
  {
    match error
    case CompositeTableIsNull(i) => i < |list| && list[i].compositeTable.IsNull()
    case DataTableIsNull(j, i) => i < |list| && j < |list[i].dataTables| && list[i].dataTables[j].IsNull()
  }

  lemma {:induction false} TableNullErrorsExact(tables: seq<SoftObjectPtr>, entryIdx: nat, error: ValidationError)
    ensures error in TableNullErrors(tables, entryIdx)
        <==> error.DataTableIsNull? && error.entryIdx == entryIdx && error.tableIdx < |tables| && tables[error.tableIdx].IsNull()
    decreases |tables|
  {
    if tables != [] {
      var n := |tables| - 1;
      TableNullErrorsExact(tables[..n], entryIdx, error);
      if error.DataTableIsNull? && error.tableIdx < n {
        assert tables[..n][error.tableIdx] == tables[error.tableIdx];
      }
    }
  }

  /** The errors report exactly the null references: an error is reported iff the reference it names is null. */
  lemma {:induction false} NullErrorsExact(list: seq<Entry>, error: ValidationError)
    ensures error in NullErrors(list) <==> IsNullAt(list, error)
    decreases |list|
  {
    if list != [] {
      var n := |list| - 1;
      NullErrorsExact(list[..n], error);
      TableNullErrorsExact(list[n].dataTables, n, error);
      if error.entryIdx < n {
        assert list[..n][error.entryIdx] == list[error.entryIdx];
      }
    }
  }

  /** Where the validation loop reports an error: entry index, then 0 for the composite and 1 + index for a table. */
  function Slot(error: ValidationError): nat
  {
    match error
    case CompositeTableIsNull(_) => 0
    case DataTableIsNull(j, _) => j + 1
  }

  predicate Precedes(a: ValidationError, b: ValidationError)
  {
    a.entryIdx < b.entryIdx || (a.entryIdx == b.entryIdx && Slot(a) < Slot(b))
  }

  ghost predicate InTraversalOrder(errors: seq<ValidationError>)
  {
    forall a, b :: 0 <= a < b < |errors| ==> Precedes(errors[a], errors[b])
  }

  lemma OrderedConcat(x: seq<ValidationError>, y: seq<ValidationError>)
    requires InTraversalOrder(x) && InTraversalOrder(y)
    requires forall a, b :: 0 <= a < |x| && 0 <= b < |y| ==> Precedes(x[a], y[b])
    ensures InTraversalOrder(x + y)
  {
    forall a, b | 0 <= a < b < |x + y| ensures Precedes((x + y)[a], (x + y)[b]) {
      if b < |x| {
      } else if a < |x| {
        assert Precedes(x[a], y[b - |x|]);
      } else {
        assert Precedes(y[a - |x|], y[b - |x|]);
      }
    }
  }

  lemma {:induction false} TableNullErrorsOrdered(tables: seq<SoftObjectPtr>, entryIdx: nat)
    ensures InTraversalOrder(TableNullErrors(tables, entryIdx))
    decreases |tables|
  {
    if tables != [] {
      var n := |tables| - 1;
      var init := TableNullErrors(tables[..n], entryIdx);
      TableNullErrorsOrdered(tables[..n], entryIdx);
      var last := if tables[n].IsNull() then [DataTableIsNull(n, entryIdx)] else [];
      forall a, b | 0 <= a < |init| && 0 <= b < |last| ensures Precedes(init[a], last[b]) {
        TableNullErrorsExact(tables[..n], entryIdx, init[a]);
      }
      OrderedConcat(init, last);
    }
  }

  /** The errors of one entry are in traversal order and all carry that entry's index. */
  lemma EntryNullErrorsOrdered(entry: Entry, entryIdx: nat)
    ensures InTraversalOrder(CompositeNullErrors(entry, entryIdx) + TableNullErrors(entry.dataTables, entryIdx))
    ensures forall e :: e in CompositeNullErrors(entry, entryIdx) + TableNullErrors(entry.dataTables, entryIdx) ==> e.entryIdx == entryIdx
  {
    var comp := CompositeNullErrors(entry, entryIdx);
    var tabs := TableNullErrors(entry.dataTables, entryIdx);
    TableNullErrorsOrdered(entry.dataTables, entryIdx);
    forall e | e in tabs ensures e.DataTableIsNull? && e.entryIdx == entryIdx {
      TableNullErrorsExact(entry.dataTables, entryIdx, e);
    }
    OrderedConcat(comp, tabs);
  }

  /**
   * The errors come in the order the validation loop meets the null references:
   * by entry index, and within an entry the composite first and then the tables
   * by index. In particular no null reference is reported twice.
   */
  lemma {:induction false} NullErrorsOrdered(list: seq<Entry>)
    ensures InTraversalOrder(NullErrors(list))
    decreases |list|
  {
    if list != [] {
      var n := |list| - 1;
      var init := NullErrors(list[..n]);
      var last := CompositeNullErrors(list[n], n) + TableNullErrors(list[n].dataTables, n);
      NullErrorsOrdered(list[..n]);
      EntryNullErrorsOrdered(list[n], n);
      forall a, b | 0 <= a < |init| && 0 <= b < |last| ensures Precedes(init[a], last[b]) {
        NullErrorsExact(list[..n], init[a]);
        assert last[b] in last;
      }
      OrderedConcat(init, last);
      ConcatAssoc(init, CompositeNullErrors(list[n], n), TableNullErrors(list[n].dataTables, n));
    }
  }

  /** Entry i has a null composite or at least one null data table. */
  ghost predicate HasNullAt(list: seq<Entry>, i: int)
  {
    0 <= i < |list|
    && (list[i].compositeTable.IsNull() || exists j :: 0 <= j < |list[i].dataTables| && list[i].dataTables[j].IsNull())
  }

  /** Some error is reported iff some entry has a null composite or a null data table. */
  lemma NullErrorsIffNullReference(list: seq<Entry>)
    ensures NullErrors(list) != [] <==> exists i :: HasNullAt(list, i)
  {
    if NullErrors(list) != [] {
      var error := NullErrors(list)[0];
      NullErrorsExact(list, error);
      assert HasNullAt(list, error.entryIdx);
    }
    if exists i :: HasNullAt(list, i) {
      var i :| HasNullAt(list, i);
      if list[i].compositeTable.IsNull() {
        NullErrorsExact(list, CompositeTableIsNull(i));
      } else {
        var j :| 0 <= j < |list[i].dataTables| && list[i].dataTables[j].IsNull();
        NullErrorsExact(list, DataTableIsNull(j, i));
      }
    }
  }
}
