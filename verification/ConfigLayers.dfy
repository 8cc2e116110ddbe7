/** Merging layered configuration, and where each effective value comes from. */
module ConfigLayers {
  import opened Json
  import opened Wrappers

  /** Unicode case folding, which nothing here depends on. */
  type Fold = string -> string

  const SHELL_POLICY := "shell_environment_policy"
  const FILTERS := "filters"
  const EXCLUDE := "exclude"
  const INCLUDE_ONLY := "include_only"

  function FieldsOf(v: Option<Value>): Fields {
    if v.Some? && v.value.Table? then v.value.fields else []
  }

  // ---------------------------------------------------------------------
  // The merge
  // ---------------------------------------------------------------------

  function DeepMerge(target: Fields, incoming: Fields, fold: Fold): Fields
    decreases incoming, 0
  {
    if incoming == [] then target
    else
      var f := incoming[0];
      DeepMerge(Set(target, f.key, MergedValue(f.key, Find(target, f.key), f.value, fold)), incoming[1..], fold)
  }

  function MergedValue(key: string, current: Option<Value>, value: Value, fold: Fold): Value
    decreases value, 1
  {
    if key == SHELL_POLICY && value.Table? then Table(MergeShell(FieldsOf(current), value.fields, fold))
    else if current.Some? && current.value.Table? && value.Table? then Table(DeepMerge(current.value.fields, value.fields, fold))
    else value
  }

  /** The lower policy without the filter representation that the incoming one replaces. */
  function Displaced(current: Fields, incoming: Fields): Fields {
    if Has(incoming, FILTERS) then Remove(Remove(current, EXCLUDE), INCLUDE_ONLY)
    else if Has(incoming, EXCLUDE) || Has(incoming, INCLUDE_ONLY) then Remove(current, FILTERS)
    else current
  }

  function MergeShell(current: Fields, incoming: Fields, fold: Fold): Fields
    decreases incoming, 2
  {
    MergeShellFields(Displaced(current, incoming), incoming, fold)
  }

  function MergeShellFields(merged: Fields, incoming: Fields, fold: Fold): Fields
    decreases incoming, 0
  {
    if incoming == [] then merged
    else
      var f := incoming[0];
      MergeShellFields(Set(merged, f.key, ShellValue(f.key, Find(merged, f.key), f.value, fold)), incoming[1..], fold)
  }

  function ShellValue(key: string, existing: Option<Value>, value: Value, fold: Fold): Value
    decreases value, 1
  {
    if key == FILTERS && value.Table? then Table(MergeFilters(FieldsOf(existing), value.fields, fold))
    else if existing.Some? && existing.value.Table? && value.Table? then Table(DeepMerge(existing.value.fields, value.fields, fold))
    else value
  }

  /** The filters without those whose pattern is `pattern` up to case. */
  function RemoveFolded(filters: Fields, pattern: string, fold: Fold): Fields
    decreases |filters|
  {
    if filters == [] then []
    else if fold(filters[0].key) == fold(pattern) then RemoveFolded(filters[1..], pattern, fold)
    else [filters[0]] + RemoveFolded(filters[1..], pattern, fold)
  }

  function MergeFilters(filters: Fields, incoming: Fields, fold: Fold): Fields
    decreases |incoming|
  {
    if incoming == [] then filters
    else
      var f := incoming[0];
      MergeFilters(Set(RemoveFolded(filters, f.key, fold), f.key, f.value), incoming[1..], fold)
  }

  // ---------------------------------------------------------------------
  // Key by key
  // ---------------------------------------------------------------------

  lemma {:induction false} FindDeepMerge(target: Fields, incoming: Fields, fold: Fold, k: string)
    requires DistinctKeys(incoming)
    ensures Find(DeepMerge(target, incoming, fold), k) ==
            if Has(incoming, k) then Some(MergedValue(k, Find(target, k), Find(incoming, k).value, fold)) else Find(target, k)
    decreases |incoming|
  {
    if incoming != [] {
      var f := incoming[0];
      var v := MergedValue(f.key, Find(target, f.key), f.value, fold);
      FindDeepMerge(Set(target, f.key, v), incoming[1..], fold, k);
      FindSet(target, f.key, v, k);
      if f.key == k && Has(incoming[1..], k) {
        var i := FindIndex(incoming[1..], k);
      }
    }
  }

  lemma {:induction false} FindMergeShellFields(merged: Fields, incoming: Fields, fold: Fold, k: string)
    requires DistinctKeys(incoming)
    ensures Find(MergeShellFields(merged, incoming, fold), k) ==
            if Has(incoming, k) then Some(ShellValue(k, Find(merged, k), Find(incoming, k).value, fold)) else Find(merged, k)
    decreases |incoming|
  {
    if incoming != [] {
      var f := incoming[0];
      var v := ShellValue(f.key, Find(merged, f.key), f.value, fold);
      FindMergeShellFields(Set(merged, f.key, v), incoming[1..], fold, k);
      FindSet(merged, f.key, v, k);
      if f.key == k && Has(incoming[1..], k) {
        var i := FindIndex(incoming[1..], k);
      }
    }
  }

  lemma FindDisplaced(current: Fields, incoming: Fields, k: string)
    ensures Find(Displaced(current, incoming), k) ==
            if (Has(incoming, FILTERS) && k in {EXCLUDE, INCLUDE_ONLY})
               || (!Has(incoming, FILTERS) && (Has(incoming, EXCLUDE) || Has(incoming, INCLUDE_ONLY)) && k == FILTERS)
            then None else Find(current, k)
  {
    FindRemove(current, EXCLUDE, k);
    FindRemove(Remove(current, EXCLUDE), INCLUDE_ONLY, k);
    FindRemove(current, FILTERS, k);
  }

  lemma {:induction false} FindRemoveFolded(filters: Fields, pattern: string, fold: Fold, k: string)
    ensures Find(RemoveFolded(filters, pattern, fold), k) == if fold(k) == fold(pattern) then None else Find(filters, k)
    decreases |filters|
  {
    if filters != [] {
      FindRemoveFolded(filters[1..], pattern, fold, k);
    }
  }

  /** A filter of the merge is the incoming layer's, if it has that very pattern, and the lower one otherwise. */
  lemma {:induction false} FindMergeFilters(filters: Fields, incoming: Fields, fold: Fold, k: string)
    requires DistinctKeys(incoming)
    ensures var found := Find(MergeFilters(filters, incoming, fold), k);
            found.Some? ==> found == if Has(incoming, k) then Find(incoming, k) else Find(filters, k)
    decreases |incoming|
  {
    if incoming != [] {
      var f := incoming[0];
      var lower := RemoveFolded(filters, f.key, fold);
      FindMergeFilters(Set(lower, f.key, f.value), incoming[1..], fold, k);
      FindSet(lower, f.key, f.value, k);
      FindRemoveFolded(filters, f.key, fold, k);
      if f.key == k && Has(incoming[1..], k) {
        var i := FindIndex(incoming[1..], k);
      }
    }
  }

  // ---------------------------------------------------------------------
  // Leaf by leaf
  // ---------------------------------------------------------------------

  /** If `merged` has a leaf at `path`, it is the incoming value there, or, without one, the lower value. */
  ghost predicate LeafFrom(merged: Fields, target: Fields, incoming: Fields, path: seq<string>) {
    IsLeaf(At(merged, path)) ==>
      At(merged, path) == if At(incoming, path).Some? then At(incoming, path) else At(target, path)
  }

  lemma WellFormedAt(fields: Fields, k: string)
    requires WellFormedFields(fields) && Has(fields, k)
    ensures WellFormed(Find(fields, k).value)
  {
    var i := FindIndex(fields, k);
  }

  lemma {:induction false} MergeLeaf(target: Fields, incoming: Fields, fold: Fold, path: seq<string>)
    requires WellFormedFields(incoming)
    ensures LeafFrom(DeepMerge(target, incoming, fold), target, incoming, path)
    decreases |path|
  {
    if path != [] {
      var k := path[0];
      FindDeepMerge(target, incoming, fold, k);
      if Has(incoming, k) && |path| > 1 {
        WellFormedAt(incoming, k);
        var value := Find(incoming, k).value;
        var current := Find(target, k);
        if k == SHELL_POLICY && value.Table? {
          MergeShellLeaf(FieldsOf(current), value.fields, fold, path[1..]);
        } else if current.Some? && current.value.Table? && value.Table? {
          MergeLeaf(current.value.fields, value.fields, fold, path[1..]);
        }
      }
    }
  }

  lemma {:induction false} MergeShellLeaf(current: Fields, incoming: Fields, fold: Fold, path: seq<string>)
    requires WellFormedFields(incoming)
    ensures LeafFrom(MergeShell(current, incoming, fold), current, incoming, path)
    decreases |path|
  {
    if path != [] {
      var k := path[0];
      var lower := Displaced(current, incoming);
      FindMergeShellFields(lower, incoming, fold, k);
      FindDisplaced(current, incoming, k);
      if Has(incoming, k) && |path| > 1 {
        WellFormedAt(incoming, k);
        var value := Find(incoming, k).value;
        var existing := Find(lower, k);
        if k == FILTERS && value.Table? {
          FindMergeFilters(FieldsOf(existing), value.fields, fold, path[1]);
        } else if existing.Some? && existing.value.Table? && value.Table? {
          MergeLeaf(existing.value.fields, value.fields, fold, path[1..]);
        }
      }
    }
  }

  // ---------------------------------------------------------------------
  // The effective configuration and its origins
  // ---------------------------------------------------------------------

  /** `effective_config` over ordinary layers, lowest precedence first. */
  function Effective(layers: seq<Fields>, fold: Fold): Fields
    decreases |layers|
  {
    if layers == [] then []
    else DeepMerge(Effective(layers[..|layers| - 1], fold), layers[|layers| - 1], fold)
  }

  /** The last layer that has anything at `path`. */
  function LastWith(layers: seq<Fields>, path: seq<string>): Option<nat>
    decreases |layers|
  {
    if layers == [] then None
    else if At(layers[|layers| - 1], path).Some? then Some(|layers| - 1)
    else LastWith(layers[..|layers| - 1], path)
  }

  /** Every leaf of the effective configuration is the value of the last layer containing its path. */
  lemma {:induction false} LeavesComeFromTheLastLayer(layers: seq<Fields>, fold: Fold, path: seq<string>)
    requires forall i | 0 <= i < |layers| :: WellFormedFields(layers[i])
    ensures IsLeaf(At(Effective(layers, fold), path)) ==>
              && LastWith(layers, path).Some? && LastWith(layers, path).value < |layers|
              && At(layers[LastWith(layers, path).value], path) == At(Effective(layers, fold), path)
    decreases |layers|
  {
    if layers != [] {
      var n := |layers| - 1;
      MergeLeaf(Effective(layers[..n], fold), layers[n], fold, path);
      LeavesComeFromTheLastLayer(layers[..n], fold, path);
    } else {
      assert At([], path).None?;
    }
  }

  function Join(path: seq<string>): string
    decreases |path|
  {
    if path == [] then "" else if |path| == 1 then path[0] else path[0] + "." + Join(path[1..])
  }

  /** `_record_origins`: every path of the table, spelled with dots, now comes from `layer`. */
  function RecordOrigins(fields: Fields, layer: nat, prefix: seq<string>, output: map<string, nat>): map<string, nat>
    decreases fields
  {
    if fields == [] then output
    else
      var path := prefix + [fields[0].key];
      var here := output[Join(path) := layer];
      var below := if fields[0].value.Table? then RecordOrigins(fields[0].value.fields, layer, path, here) else here;
      RecordOrigins(fields[1..], layer, prefix, below)
  }

  function Origins(layers: seq<Fields>): map<string, nat>
    decreases |layers|
  {
    if layers == [] then map[]
    else RecordOrigins(layers[|layers| - 1], |layers| - 1, [], Origins(layers[..|layers| - 1]))
  }

  /** Some path of the table has the dotted name `name` under `prefix`. */
  ghost predicate Spells(fields: Fields, prefix: seq<string>, name: string) {
    exists path :: path != [] && At(fields, path).Some? && Join(prefix + path) == name
  }

  lemma SpellsFirst(fields: Fields, prefix: seq<string>, name: string)
    requires fields != [] && DistinctKeys(fields)
    ensures var here := prefix + [fields[0].key];
            Spells(fields, prefix, name) <==>
              || Join(here) == name
              || (fields[0].value.Table? && Spells(fields[0].value.fields, here, name))
              || Spells(fields[1..], prefix, name)
  {
    var key, value := fields[0].key, fields[0].value;
    var here := prefix + [key];
    if Spells(fields, prefix, name) {
      var path :| path != [] && At(fields, path).Some? && Join(prefix + path) == name;
      assert prefix + path == prefix + [path[0]] + path[1..];
      if path[0] == key {
        if |path| == 1 { assert path == [key]; }
      } else {
        assert At(fields[1..], path) == At(fields, path);
      }
    }
    if Join(here) == name {
      assert At(fields, [key]).Some?;
    }
    if value.Table? && Spells(value.fields, here, name) {
      var path :| path != [] && At(value.fields, path).Some? && Join(here + path) == name;
      assert ([key] + path)[1..] == path && prefix + ([key] + path) == here + path;
      assert At(fields, [key] + path).Some?;
    }
    if Spells(fields[1..], prefix, name) {
      var path :| path != [] && At(fields[1..], path).Some? && Join(prefix + path) == name;
      var i := FindIndex(fields[1..], path[0]);
      assert path[0] != key;
      assert At(fields, path) == At(fields[1..], path);
    }
  }

  lemma {:induction false} RecordOriginsAt(fields: Fields, layer: nat, prefix: seq<string>, output: map<string, nat>, name: string)
    requires WellFormedFields(fields)
    ensures var r := RecordOrigins(fields, layer, prefix, output);
            if Spells(fields, prefix, name) then name in r && r[name] == layer
            else (name in r <==> name in output) && (name in r ==> r[name] == output[name])
    decreases fields
  {
    if fields != [] {
      var path := prefix + [fields[0].key];
      var here := output[Join(path) := layer];
      SpellsFirst(fields, prefix, name);
      var below := here;
      if fields[0].value.Table? {
        below := RecordOrigins(fields[0].value.fields, layer, path, here);
        assert WellFormed(fields[0].value);
        RecordOriginsAt(fields[0].value.fields, layer, path, here, name);
      }
      RecordOriginsAt(fields[1..], layer, prefix, below, name);
    }
  }

  /** The last layer with a path that is spelled `name`. */
  ghost function LastSpelling(layers: seq<Fields>, name: string): Option<nat>
    decreases |layers|
  {
    if layers == [] then None
    else if Spells(layers[|layers| - 1], [], name) then Some(|layers| - 1)
    else LastSpelling(layers[..|layers| - 1], name)
  }

  ghost predicate AllWellFormed(layers: seq<Fields>) {
    forall i | 0 <= i < |layers| :: WellFormedFields(layers[i])
  }

  /** `origins()` reports, for a dotted name, the last layer with any path so spelled. */
  lemma {:induction false} OriginsAt(layers: seq<Fields>, name: string)
    requires AllWellFormed(layers)
    ensures var found := LastSpelling(layers, name);
            (name in Origins(layers) <==> found.Some?) && (found.Some? ==> Origins(layers)[name] == found.value)
    decreases |layers|
  {
    if layers != [] {
      var n := |layers| - 1;
      OriginsAt(layers[..n], name);
      RecordOriginsAt(layers[n], n, [], Origins(layers[..n]), name);
    }
  }

  lemma {:induction false} LastSpellingBounds(layers: seq<Fields>, path: seq<string>, n: nat)
    requires path != [] && LastWith(layers, path) == Some(n)
    ensures n < |layers| && At(layers[n], path).Some? && Spells(layers[n], [], Join(path))
    ensures LastSpelling(layers, Join(path)).Some?
    ensures LastSpelling(layers, Join(path)) == Some(n) <==> forall i | n < i < |layers| :: !Spells(layers[i], [], Join(path))
    decreases |layers|
  {
    var last := |layers| - 1;
    assert [] + path == path;
    if !At(layers[last], path).Some? {
      LastSpellingBounds(layers[..last], path, n);
      if Spells(layers[last], [], Join(path)) {
        assert LastSpelling(layers, Join(path)) == Some(last);
      } else {
        assert forall i | n < i < last :: layers[..last][i] == layers[i];
      }
    }
  }

  /**
   * The origin reported for a path is the last layer containing it exactly when
   * no later layer has another path with the same dotted spelling.
   */
  lemma OriginIsLastLayerIff(layers: seq<Fields>, path: seq<string>, n: nat)
    requires AllWellFormed(layers) && path != [] && LastWith(layers, path) == Some(n)
    ensures Join(path) in Origins(layers)
    ensures Origins(layers)[Join(path)] == n <==> forall i | n < i < |layers| :: !Spells(layers[i], [], Join(path))
  {
    OriginsAt(layers, Join(path));
    LastSpellingBounds(layers, path, n);
  }

  predicate NoDot(s: string) { '.' !in s }

  /** No key of the table contains a dot, at any depth. */
  predicate NoDots(fields: Fields) {
    forall i | 0 <= i < |fields| :: NoDot(fields[i].key) && (fields[i].value.Table? ==> NoDots(fields[i].value.fields))
  }

  lemma {:induction false} PathHasNoDots(fields: Fields, path: seq<string>)
    requires NoDots(fields) && At(fields, path).Some?
    ensures forall i | 0 <= i < |path| :: NoDot(path[i])
    decreases |path|
  {
    var i := FindIndex(fields, path[0]);
    if |path| > 1 {
      PathHasNoDots(fields[i].value.fields, path[1..]);
      assert path == [path[0]] + path[1..];
    }
  }

  lemma FirstDot(a: string, x: string, i: int)
    requires NoDot(a) && 0 <= i < |a + "." + x|
    ensures (a + "." + x)[i] == '.' ==> i >= |a|
    ensures (a + "." + x)[|a|] == '.'
  {
    if i < |a| {
      assert (a + "." + x)[i] == a[i];
    }
  }

  lemma DottedSplit(a: string, x: string, b: string, y: string)
    requires NoDot(a) && NoDot(b) && a + "." + x == b + "." + y
    ensures a == b && x == y
  {
    FirstDot(a, x, |b|);
    FirstDot(b, y, |a|);
    var s := a + "." + x;
    assert a == s[..|a|] && x == s[|a| + 1..];
    assert b == s[..|b|] && y == s[|b| + 1..];
  }

  lemma JoinHasDot(path: seq<string>)
    requires path != [] && NoDot(path[0])
    ensures NoDot(Join(path)) <==> |path| == 1
  {
    if |path| > 1 {
      assert Join(path)[|path[0]|] == '.';
    }
  }

  lemma {:induction false} JoinInjective(p: seq<string>, q: seq<string>)
    requires p != [] && q != [] && Join(p) == Join(q)
    requires (forall i | 0 <= i < |p| :: NoDot(p[i])) && forall i | 0 <= i < |q| :: NoDot(q[i])
    ensures p == q
    decreases |p|
  {
    JoinHasDot(p);
    JoinHasDot(q);
    if |p| == 1 {
      assert p == [p[0]] && q == [q[0]];
    } else {
      DottedSplit(p[0], Join(p[1..]), q[0], Join(q[1..]));
      JoinInjective(p[1..], q[1..]);
      assert p == [p[0]] + p[1..] && q == [q[0]] + q[1..];
    }
  }

  lemma SpellingIsPath(fields: Fields, path: seq<string>)
    requires NoDots(fields) && path != [] && forall i | 0 <= i < |path| :: NoDot(path[i])
    ensures Spells(fields, [], Join(path)) ==> At(fields, path).Some?
  {
    if Spells(fields, [], Join(path)) {
      var q :| q != [] && At(fields, q).Some? && Join([] + q) == Join(path);
      assert [] + q == q;
      PathHasNoDots(fields, q);
      JoinInjective(q, path);
    }
  }

  lemma {:induction false} LastWithIsLast(layers: seq<Fields>, path: seq<string>, n: nat)
    requires LastWith(layers, path) == Some(n)
    ensures n < |layers| && forall i | n < i < |layers| :: At(layers[i], path).None?
    decreases |layers|
  {
    var last := |layers| - 1;
    if !At(layers[last], path).Some? {
      LastWithIsLast(layers[..last], path, n);
      assert forall i | 0 <= i < last :: layers[..last][i] == layers[i];
    }
  }

  /**
   * Main result: with keys free of dots, every leaf of the effective
   * configuration has an origin, which is the last layer containing its path,
   * and that layer's value there is the effective value.
   */
  lemma EveryLeafHasItsTrueOrigin(layers: seq<Fields>, fold: Fold, path: seq<string>)
    requires AllWellFormed(layers) && forall i | 0 <= i < |layers| :: NoDots(layers[i])
    requires IsLeaf(At(Effective(layers, fold), path))
    ensures Join(path) in Origins(layers)
    ensures var n := Origins(layers)[Join(path)];
            && n < |layers| && LastWith(layers, path) == Some(n)
            && At(layers[n], path) == At(Effective(layers, fold), path)
  {
    LeavesComeFromTheLastLayer(layers, fold, path);
    var n := LastWith(layers, path).value;
    OriginIsLastLayerIff(layers, path, n);
    LastWithIsLast(layers, path, n);
    PathHasNoDots(layers[n], path);
    forall i | n < i < |layers|
      ensures !Spells(layers[i], [], Join(path))
    {
      SpellingIsPath(layers[i], path);
    }
  }

  const QUOTED: Fields := [Field("a.b", Number(1))]
  const NESTED: Fields := [Field("a", Table([Field("b", Number(2))]))]

  lemma QuotedKeyStays(fold: Fold)
    ensures Find(Effective([QUOTED, NESTED], fold), "a.b") == Some(Number(1))
    ensures LastWith([QUOTED, NESTED], ["a.b"]) == Some(0)
  {
    var layers := [QUOTED, NESTED];
    assert layers[..1] == [QUOTED] && [QUOTED][..0] == [];
    assert "a.b" != "a" by { assert |"a.b"| != |"a"|; }
    FindDeepMerge(Effective([QUOTED], fold), NESTED, fold, "a.b");
    FindDeepMerge([], QUOTED, fold, "a.b");
    assert Effective([QUOTED], fold) == DeepMerge([], QUOTED, fold);
    assert LastWith([QUOTED], ["a.b"]) == Some(0);
  }

  lemma NestedKeySpellsTheSame()
    ensures Spells(NESTED, [], "a.b")
  {
    var inner: Fields := [Field("b", Number(2))];
    assert NESTED[0].value == Table(inner);
    assert ["a", "b"][1..] == ["b"] && At(inner, ["b"]) == Some(Number(2));
    assert At(NESTED, ["a", "b"]).Some?;
    assert Join(["b"]) == "b";
    assert Join(["a", "b"]) == "a" + "." + "b" == "a.b";
    assert [] + ["a", "b"] == ["a", "b"];
  }

  /** A key with a dot can be shadowed: the effective value is the first layer's, its reported origin the second. */
  lemma DottedKeyGetsWrongOrigin(fold: Fold)
    ensures At(Effective([QUOTED, NESTED], fold), ["a.b"]) == At(QUOTED, ["a.b"]) == Some(Number(1))
    ensures LastWith([QUOTED, NESTED], ["a.b"]) == Some(0)
    ensures Join(["a.b"]) in Origins([QUOTED, NESTED]) && Origins([QUOTED, NESTED])[Join(["a.b"])] == 1
  {
    QuotedKeyStays(fold);
    NestedKeySpellsTheSame();
    OriginsAt([QUOTED, NESTED], "a.b");
  }
}
