/** What composing requirements does to the value at a path, outside the lists that accumulate. */
module RequirementPaths {
  import opened Json
  import opened Requirements
  import opened Wrappers

  lemma {:induction false} MergeOverlays(target: Fields, incoming: Fields, path: seq<string>)
    requires WellFormedFields(incoming) && path != []
    ensures Overlaid(At(Merge(target, incoming), path), At(target, path), incoming, path)
    decreases |path|
  {
    var k, rest := path[0], path[1..];
    FindMerge(target, incoming, k);
    if rest != [] {
      CutOffFirst(incoming, path);
      var above, current := Find(incoming, k), Find(target, k);
      if IsTable(above) {
        DistinctNested(incoming, k);
        NothingBelowCut(above.value.fields, rest);
        if IsTable(current) {
          MergeOverlays(current.value.fields, above.value.fields, rest);
        }
      }
    }
  }

  /** The path is not, and does not lead into, a list that accumulates over the layers. */
  predicate OutsideLists(path: seq<string>) {
    && path != []
    && !(|path| > 2 && path[0] == "permissions" && path[1] == "filesystem" && path[2] == "deny_read")
    && !(|path| > 1 && path[0] == "hooks" && path[1] !in ["managed_dir", "windows_managed_dir"])
  }

  lemma {:induction false} SetElsewhere(fields: Fields, k: string, v: Value, path: seq<string>)
    requires path != [] && path[0] != k
    ensures At(Set(fields, k, v), path) == At(fields, path)
  {
    FindSet(fields, k, v, path[0]);
  }

  /** Storing the composed list changes nothing else, and leaves the tables above it tables. */
  lemma StoreDenyElsewhere(fields: Fields, deny: seq<string>, path: seq<string>)
    requires OutsideLists(path)
    requires Get(Table(fields), PERMISSIONS).Table? && Get(Get(Table(fields), PERMISSIONS), FILESYSTEM).Table?
    ensures SameButAbove(At(StoreDeny(fields, deny), path), At(fields, path), path)
    ensures At(StoreDeny(fields, deny), path) != At(fields, path) ==> path[0] == PERMISSIONS
  {
    var permissions := Find(fields, PERMISSIONS).value.fields;
    var filesystem := Find(permissions, FILESYSTEM).value.fields;
    var list := Array(TextsOf(deny));
    var files := Set(filesystem, DENY_READ, list);
    var inner := Set(permissions, FILESYSTEM, Table(files));
    FindSet(fields, PERMISSIONS, Table(inner), PERMISSIONS);
    FindSet(permissions, FILESYSTEM, Table(files), FILESYSTEM);
    if path == [PERMISSIONS] || path == [PERMISSIONS, FILESYSTEM] {
    } else if path[0] != PERMISSIONS {
      SetElsewhere(fields, PERMISSIONS, Table(inner), path);
    } else if path[1] != FILESYSTEM {
      SetElsewhere(permissions, FILESYSTEM, Table(files), path[1..]);
    } else {
      assert path[1..][1..] == path[2..];
      SetElsewhere(filesystem, DENY_READ, list, path[2..]);
    }
  }

  /** The tables that hold the accumulating lists. */
  predicate HoldsLists(path: seq<string>) { path == ["permissions"] || path == ["permissions", "filesystem"] || path == ["hooks"] }

  predicate SameButAbove(a: Option<Value>, b: Option<Value>, path: seq<string>) {
    a == b || (HoldsLists(path) && IsTable(a) && IsTable(b))
  }

  lemma StoreHooksElsewhere(fields: Fields, lists: Fields, path: seq<string>)
    requires OutsideLists(path) && DistinctKeys(lists)
    requires lists != [] ==> Get(Table(fields), HOOKS).Table?
    requires forall k | k in MANAGED :: !Has(lists, k)
    ensures SameButAbove(At(StoreHooks(fields, lists), path), At(fields, path), path)
    ensures At(StoreHooks(fields, lists), path) != At(fields, path) ==> lists != [] && path[0] == HOOKS
  {
    if lists != [] {
      var hooks := Find(fields, HOOKS).value.fields;
      FindSet(fields, HOOKS, Table(SetAll(hooks, lists)), path[0]);
      if |path| > 1 { FindSetAll(hooks, lists, path[1]); }
      assert |path| == 1 ==> path == [path[0]];
    }
  }

  lemma ManagedHasNoList(incoming: Fields, existing: Fields, k: string)
    requires WellFormedFields(incoming) && k in MANAGED
    ensures DistinctKeys(HookLists(incoming, existing)) && !Has(HookLists(incoming, existing), k)
  {
    var hooks := Get(Table(incoming), HOOKS);
    if hooks.Table? {
      DistinctNested(incoming, HOOKS);
      FindEventLists(hooks.fields, Get(Table(existing), HOOKS), k);
    }
  }

  /** The two lists that a layer stores after merging leave everything else as merged. */
  lemma StoredElsewhere(target: Fields, incoming: Fields, path: seq<string>)
    requires WellFormedFields(incoming) && OutsideLists(path)
    ensures SameButAbove(At(WithDeny(target, incoming), path), At(Merge(target, incoming), path), path)
    ensures SameButAbove(At(MergeLayer(target, incoming), path), At(WithDeny(target, incoming), path), path)
    ensures At(MergeLayer(target, incoming), path) != At(Merge(target, incoming), path) ==> IsTable(At(incoming, path))
  {
    hide StoreDeny, StoreHooks, HookLists, Merge, AddNew, IsStrings, DenyContribution;
    var merged := Merge(target, incoming);
    var lists := HookLists(incoming, target);
    DenyReadMerged(target, incoming);
    if DenyRead(incoming).Some? {
      StoreDenyElsewhere(merged, Dedup(DenyRead(incoming).value + OrEmpty(DenyRead(target))), path);
    }
    forall k | k in MANAGED
      ensures DistinctKeys(lists) && !Has(lists, k)
    {
      ManagedHasNoList(incoming, target, k);
    }
    assert MANAGED[0] in MANAGED;
    WithDenyKeepsHooks(target, incoming);
    HooksInPlace(target, incoming);
    StoreHooksElsewhere(WithDeny(target, incoming), lists, path);
    if HoldsLists(path) { TablesInTheWay(incoming, path); }
  }

  lemma HooksInPlace(target: Fields, incoming: Fields)
    requires WellFormedFields(incoming)
    ensures HookLists(incoming, target) != [] ==> Get(Table(incoming), HOOKS).Table? && Get(Table(WithDeny(target, incoming)), HOOKS).Table?
  {
    hide StoreDeny, StoreHooks, AddNew;
    FindMerge(target, incoming, HOOKS);
    WithDenyKeepsHooks(target, incoming);
  }

  /** Outside the accumulating lists a layer overlays what is below it, arrays replacing arrays. */
  lemma LayerOverlays(target: Fields, incoming: Fields, path: seq<string>)
    requires WellFormedFields(incoming) && OutsideLists(path)
    ensures Overlaid(At(MergeLayer(target, incoming), path), At(target, path), incoming, path)
  {
    hide At, MergeLayer, Merge, CutOff;
    MergeOverlays(target, incoming, path);
    StoredElsewhere(target, incoming, path);
  }

  /** A layer with lists of its own has the tables above them. */
  lemma TablesInTheWay(incoming: Fields, path: seq<string>)
    requires HoldsLists(path)
    ensures path[0] == PERMISSIONS && DenyRead(incoming).Some? ==> IsTable(At(incoming, path))
    ensures path[0] == HOOKS && Get(Table(incoming), HOOKS).Table? ==> IsTable(At(incoming, path))
  {
  }

  /** Layer `n` has the leaf, and no later layer has anything there or across the path. */
  ghost predicate HasLast(layers: seq<Fields>, n: int, path: seq<string>) {
    && 0 <= n < |layers| && IsLeaf(At(layers[n], path))
    && forall i | n < i < |layers| :: At(layers[i], path) == None && !CutOff(layers[i], path)
  }

  /**
   * Main result: outside the accumulating lists, a value is a leaf of the
   * composition exactly if it is that of the last layer with anything there,
   * and no later layer cuts the path off.
   */
  lemma {:induction false} ComposedLeafIff(layers: seq<Fields>, path: seq<string>, v: Value)
    requires (forall i | 0 <= i < |layers| :: WellFormedFields(layers[i])) && OutsideLists(path) && !v.Table?
    ensures At(Compose(layers), path) == Some(v) <==> exists n :: HasLast(layers, n, path) && At(layers[n], path) == Some(v)
    decreases |layers|
  {
    hide MergeLayer;
    if layers == [] {
      assert At([], path) == None;
    } else {
      hide At, CutOff, HasLast;
      var last := |layers| - 1;
      var below := layers[..last];
      ComposedLeafIff(below, path, v);
      LayerOverlays(Compose(below), layers[last], path);
      forall n
        ensures HasLast(layers, n, path) <==> HasLastSnoc(below, layers[last], n, path)
      {
        LastOfMore(layers, n, path);
      }
    }
  }

  ghost predicate HasLastSnoc(below: seq<Fields>, above: Fields, n: int, path: seq<string>) {
    if n == |below| then IsLeaf(At(above, path))
    else HasLast(below, n, path) && At(above, path) == None && !CutOff(above, path)
  }

  lemma LastOfMore(layers: seq<Fields>, n: int, path: seq<string>)
    requires layers != []
    ensures HasLast(layers, n, path) <==> HasLastSnoc(layers[..|layers| - 1], layers[|layers| - 1], n, path)
  {
  }
}
