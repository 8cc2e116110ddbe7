/**
 * What merging does to the value at a path, in terms of the two tables alone:
 * nothing of a lower layer is lost unless a higher one replaces it.
 */
module ConfigPaths {
  import opened ConfigLayers
  import opened Json
  import opened Wrappers

  /** No step of the path but the last leads through a shell policy. */
  predicate Ordinary(path: seq<string>) { path != [] && SHELL_POLICY !in path[..|path| - 1] }

  lemma OrdinaryRest(path: seq<string>)
    requires Ordinary(path) && |path| > 1
    ensures path[0] != SHELL_POLICY && Ordinary(path[1..])
  {
    assert path[0] == path[..|path| - 1][0];
    assert path[..|path| - 1] == [path[0]] + path[1..][..|path| - 2];
  }

  /** Where no shell policy is on the way, a merge overlays the lower table with the incoming one. */
  lemma {:induction false} MergeOverlays(target: Fields, incoming: Fields, fold: Fold, path: seq<string>)
    requires WellFormedFields(incoming) && Ordinary(path)
    ensures Overlaid(At(DeepMerge(target, incoming, fold), path), At(target, path), incoming, path)
    decreases |path|
  {
    var k, rest := path[0], path[1..];
    FindDeepMerge(target, incoming, fold, k);
    if rest != [] {
      OrdinaryRest(path);
      CutOffFirst(incoming, path);
      var above, current := Find(incoming, k), Find(target, k);
      if above.Some? && above.value.Table? {
        WellFormedAt(incoming, k);
        NothingBelowCut(above.value.fields, rest);
        if current.Some? && current.value.Table? {
          MergeOverlays(current.value.fields, above.value.fields, fold, rest);
        }
      }
    }
  }

  // ---------------------------------------------------------------------
  // Inside a shell policy
  // ---------------------------------------------------------------------

  /** A filter table replaces the lower legacy arrays, a legacy array the lower filter table. */
  predicate Displaces(policy: Fields, key: string) {
    || (Has(policy, "filters") && key in ["exclude", "include_only"])
    || (!Has(policy, "filters") && (Has(policy, "exclude") || Has(policy, "include_only")) && key == "filters")
  }

  /** Entry `i` is the last one that spells `pattern`, in any case. */
  ghost predicate SpellsLast(filters: Fields, i: int, pattern: string, fold: Fold) {
    && 0 <= i < |filters| && fold(filters[i].key) == fold(pattern)
    && forall j | i < j < |filters| :: fold(filters[j].key) != fold(pattern)
  }

  ghost predicate Respells(filters: Fields, pattern: string, fold: Fold) {
    exists i :: 0 <= i < |filters| && fold(filters[i].key) == fold(pattern)
  }

  /** The last incoming spelling of a pattern wins and evicts all others; without one the lower filter stays. */
  lemma {:induction false} FiltersOverlay(filters: Fields, incoming: Fields, fold: Fold, pattern: string, i: int)
    ensures var found := Find(MergeFilters(filters, incoming, fold), pattern);
            && (SpellsLast(incoming, i, pattern, fold) ==>
                  found == if incoming[i].key == pattern then Some(incoming[i].value) else None)
            && (!Respells(incoming, pattern, fold) ==> found == Find(filters, pattern))
    decreases |incoming|
  {
    if incoming != [] {
      var f, rest := incoming[0], incoming[1..];
      var lower := RemoveFolded(filters, f.key, fold);
      FindRemoveFolded(filters, f.key, fold, pattern);
      FindSet(lower, f.key, f.value, pattern);
      FiltersOverlay(Set(lower, f.key, f.value), rest, fold, pattern, i - 1);
      assert Respells(incoming, pattern, fold) <==> fold(f.key) == fold(pattern) || Respells(rest, pattern, fold) by {
        if i :| 0 <= i < |rest| && fold(rest[i].key) == fold(pattern) { assert incoming[i + 1] == rest[i]; }
      }
      assert forall j | 0 < j < |incoming| :: incoming[j] == rest[j - 1];
      if SpellsLast(incoming, i, pattern, fold) {
        if i > 0 {
          assert SpellsLast(rest, i - 1, pattern, fold);
        } else {
          assert !Respells(rest, pattern, fold) by {
            forall j | 0 <= j < |rest| ensures fold(rest[j].key) != fold(pattern) { assert incoming[j + 1] == rest[j]; }
          }
        }
      }
    }
  }

  /** The incoming policy has a filter table, and the path leads into it. */
  predicate IntoFilters(policy: Fields, path: seq<string>) {
    |path| > 1 && path[0] == "filters" && At(policy, ["filters"]).Some? && At(policy, ["filters"]).value.Table?
  }

  /** Outside the filter table a policy overlays the lower one, less what it displaces. */
  lemma ShellOverlays(current: Fields, incoming: Fields, fold: Fold, path: seq<string>)
    requires WellFormedFields(incoming) && Ordinary(path) && !IntoFilters(incoming, path)
    ensures Overlaid(At(MergeShell(current, incoming, fold), path),
                     if Displaces(incoming, path[0]) then None else At(current, path), incoming, path)
  {
    var k, rest := path[0], path[1..];
    var lower := Displaced(current, incoming);
    FindMergeShellFields(lower, incoming, fold, k);
    FindDisplaced(current, incoming, k);
    if rest != [] {
      OrdinaryRest(path);
      CutOffFirst(incoming, path);
      var above, below := Find(incoming, k), Find(lower, k);
      if above.Some? && above.value.Table? {
        WellFormedAt(incoming, k);
        NothingBelowCut(above.value.fields, rest);
        if below.Some? && below.value.Table? {
          MergeOverlays(below.value.fields, above.value.fields, fold, rest);
        }
      }
    }
  }

  lemma ShellFilters(current: Fields, incoming: Fields, fold: Fold, path: seq<string>)
    requires DistinctKeys(incoming) && IntoFilters(incoming, path)
    ensures var filters := At(incoming, ["filters"]).value.fields;
            At(MergeShell(current, incoming, fold), path) ==
            At(MergeFilters(FieldsOf(Find(current, "filters")), filters, fold), path[1..])
  {
    var lower := Displaced(current, incoming);
    FindMergeShellFields(lower, incoming, fold, "filters");
    FindDisplaced(current, incoming, "filters");
  }

  // ---------------------------------------------------------------------
  // A layer's part in one leaf
  // ---------------------------------------------------------------------

  /** The shell policy of a layer, if the path leads into it. */
  ghost function PolicyOn(layer: Fields, path: seq<string>): Option<Fields> {
    if |path| > 1 && path[0] == SHELL_POLICY && IsTable(Find(layer, SHELL_POLICY)) then Some(Find(layer, SHELL_POLICY).value.fields)
    else None
  }

  /** The filter table of a layer's shell policy, if the path leads into that. */
  ghost function FiltersOn(layer: Fields, path: seq<string>): Option<Fields> {
    var policy := PolicyOn(layer, path);
    if policy.Some? && IntoFilters(policy.value, path[1..]) then Some(At(policy.value, ["filters"]).value.fields) else None
  }

  /** The layer has a leaf at the path, for a filter one that no later entry of its own table spells again. */
  ghost predicate Provides(layer: Fields, path: seq<string>, fold: Fold) {
    && IsLeaf(At(layer, path))
    && (FiltersOn(layer, path).Some? ==>
          forall i | SpellsLast(FiltersOn(layer, path).value, i, path[2], fold) :: FiltersOn(layer, path).value[i].key == path[2])
  }

  /** The layer has nothing at the path, nothing across it, and no policy that displaces or respells it. */
  ghost predicate LeavesAlone(layer: Fields, path: seq<string>, fold: Fold) {
    && At(layer, path) == None && !CutOff(layer, path)
    && (PolicyOn(layer, path).Some? ==> !Displaces(PolicyOn(layer, path).value, path[1]))
    && (FiltersOn(layer, path).Some? ==> !Respells(FiltersOn(layer, path).value, path[2], fold))
  }

  /** The only shell policy on the path is the top-level one. */
  predicate Plain(path: seq<string>) { path != [] && (|path| > 1 ==> Ordinary(path[1..])) }

  ghost predicate LeafBy(merged: Option<Value>, lower: Option<Value>, incoming: Fields, path: seq<string>, fold: Fold) {
    if Provides(incoming, path, fold) then merged == At(incoming, path)
    else if LeavesAlone(incoming, path, fold) then merged == lower
    else !IsLeaf(merged)
  }

  lemma PolicyLeaf(target: Fields, incoming: Fields, fold: Fold, path: seq<string>)
    requires WellFormedFields(incoming) && Plain(path) && PolicyOn(incoming, path).Some? && FiltersOn(incoming, path).None?
    ensures LeafBy(At(DeepMerge(target, incoming, fold), path), At(target, path), incoming, path, fold)
  {
    var policy := PolicyOn(incoming, path).value;
    FindDeepMerge(target, incoming, fold, SHELL_POLICY);
    WellFormedAt(incoming, SHELL_POLICY);
    ShellOverlays(FieldsOf(Find(target, SHELL_POLICY)), policy, fold, path[1..]);
    CutOffFirst(incoming, path);
  }

  lemma FilterLeaf(target: Fields, incoming: Fields, fold: Fold, path: seq<string>)
    requires WellFormedFields(incoming) && Plain(path) && FiltersOn(incoming, path).Some?
    ensures LeafBy(At(DeepMerge(target, incoming, fold), path), At(target, path), incoming, path, fold)
  {
    var policy, filters := PolicyOn(incoming, path).value, FiltersOn(incoming, path).value;
    var current := FieldsOf(Find(target, SHELL_POLICY));
    FindDeepMerge(target, incoming, fold, SHELL_POLICY);
    WellFormedAt(incoming, SHELL_POLICY);
    ShellFilters(current, policy, fold, path[1..]);
    var pattern := path[2];
    var below := FieldsOf(Find(current, "filters"));
    var merged := MergeFilters(below, filters, fold);
    assert path[1..][1..] == path[2..] && !Displaces(policy, "filters");
    assert At(incoming, path) == At(filters, path[2..]) && At(target, path) == At(below, path[2..]);
    assert At(DeepMerge(target, incoming, fold), path) == At(merged, path[2..]);
    if Respells(filters, pattern, fold) {
      var i := LastSpelled(filters, pattern, fold);
      FiltersOverlay(below, filters, fold, pattern, i);
      WellFormedAt(policy, "filters");
      FindAt(filters, i);
      assert Provides(incoming, path, fold) ==> filters[i].key == pattern && Find(merged, pattern) == Find(filters, pattern);
    } else {
      FiltersOverlay(below, filters, fold, pattern, 0);
      if Has(filters, pattern) { var i := FindIndex(filters, pattern); }
      CutOffFirst(incoming, path);
      CutOffFirst(policy, path[1..]);
      if |path| > 3 { CutOffFirst(filters, path[2..]); }
      assert LeavesAlone(incoming, path, fold);
      assert Find(merged, pattern) == Find(below, pattern);
    }
  }

  lemma {:induction false} LastSpelled(filters: Fields, pattern: string, fold: Fold) returns (i: int)
    requires Respells(filters, pattern, fold)
    ensures SpellsLast(filters, i, pattern, fold)
    decreases |filters|
  {
    var n := |filters| - 1;
    if fold(filters[n].key) == fold(pattern) {
      i := n;
    } else {
      var j :| 0 <= j < |filters| && fold(filters[j].key) == fold(pattern);
      assert filters[..n][j] == filters[j];
      i := LastSpelled(filters[..n], pattern, fold);
    }
  }

  /** One merge: a leaf is the incoming layer's, or the lower one where the incoming layer leaves it alone, and nothing else. */
  lemma MergeLeafIff(target: Fields, incoming: Fields, fold: Fold, path: seq<string>)
    requires WellFormedFields(incoming) && Plain(path)
    ensures LeafBy(At(DeepMerge(target, incoming, fold), path), At(target, path), incoming, path, fold)
  {
    if FiltersOn(incoming, path).Some? {
      FilterLeaf(target, incoming, fold, path);
    } else if PolicyOn(incoming, path).Some? {
      PolicyLeaf(target, incoming, fold, path);
    } else if |path| > 1 && path[0] == SHELL_POLICY {
      FindDeepMerge(target, incoming, fold, SHELL_POLICY);
      CutOffFirst(incoming, path);
    } else {
      assert Ordinary(path) by {
        forall i | 0 <= i < |path| - 1 ensures path[i] != SHELL_POLICY {
          if i > 0 { assert path[1..][..|path| - 2][i - 1] == path[i]; }
        }
      }
      MergeOverlays(target, incoming, fold, path);
    }
  }

  // ---------------------------------------------------------------------
  // The effective configuration
  // ---------------------------------------------------------------------

  /** Layer `n` provides the leaf, and no later layer touches it. */
  ghost predicate ProvidesLast(layers: seq<Fields>, n: int, path: seq<string>, fold: Fold) {
    0 <= n < |layers| && Provides(layers[n], path, fold) && forall i | n < i < |layers| :: LeavesAlone(layers[i], path, fold)
  }

  /**
   * Main result: a value is a leaf of the effective configuration exactly if
   * some layer provides it there and every later layer leaves it alone.
   */
  lemma {:induction false} EffectiveLeafIff(layers: seq<Fields>, fold: Fold, path: seq<string>, v: Value)
    requires AllWellFormed(layers) && Plain(path) && !v.Table?
    ensures At(Effective(layers, fold), path) == Some(v) <==>
            exists n :: ProvidesLast(layers, n, path, fold) && At(layers[n], path) == Some(v)
    decreases |layers|
  {
    if layers == [] {
      assert At([], path) == None;
    } else {
      hide At, Provides, LeavesAlone, ProvidesLast;
      var last := |layers| - 1;
      var below := layers[..last];
      EffectiveLeafIff(below, fold, path, v);
      MergeLeafIff(Effective(below, fold), layers[last], fold, path);
      forall n
        ensures ProvidesLast(layers, n, path, fold) <==> ProvidesLastSnoc(below, layers[last], n, path, fold)
      {
        LastProvider(layers, n, path, fold);
      }
      LeafExcludes(layers[last], path, fold);
    }
  }

  ghost predicate ProvidesLastSnoc(below: seq<Fields>, above: Fields, n: int, path: seq<string>, fold: Fold) {
    if n == |below| then Provides(above, path, fold)
    else ProvidesLast(below, n, path, fold) && LeavesAlone(above, path, fold)
  }

  lemma LastProvider(layers: seq<Fields>, n: int, path: seq<string>, fold: Fold)
    requires layers != []
    ensures ProvidesLast(layers, n, path, fold) <==> ProvidesLastSnoc(layers[..|layers| - 1], layers[|layers| - 1], n, path, fold)
    ensures ProvidesLast(layers, n, path, fold) ==> 0 <= n < |layers|
    ensures ProvidesLast(layers[..|layers| - 1], n, path, fold) ==> 0 <= n < |layers| - 1
  {
  }

  lemma LeafExcludes(layer: Fields, path: seq<string>, fold: Fold)
    ensures !(Provides(layer, path, fold) && LeavesAlone(layer, path, fold))
    ensures Provides(layer, path, fold) ==> IsLeaf(At(layer, path))
  {
  }
}
