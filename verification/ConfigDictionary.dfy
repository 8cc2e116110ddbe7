/** The merge and provenance loops, as updates of mutable dictionaries. */
module ConfigDictionary {
  import opened Json
  import opened ConfigLayers
  import opened Wrappers

  class Dictionary {
    var fields: Fields

    constructor (fields: Fields)
      ensures this.fields == fields
    {
      this.fields := fields;
    }

    /** `_deep_merge(self, incoming)`. */
    method Merge(incoming: Fields, fold: Fold)
      modifies this
      ensures fields == DeepMerge(old(fields), incoming, fold)
      decreases incoming, 0
    {
      for i := 0 to |incoming|
        invariant DeepMerge(fields, incoming[i..], fold) == DeepMerge(old(fields), incoming, fold)
      {
        var key, value := incoming[i].key, incoming[i].value;
        var current := Find(fields, key);
        assert incoming[i..][0] == incoming[i] && incoming[i..][1..] == incoming[i + 1..];
        if key == SHELL_POLICY && value.Table? {
          var policy := new Dictionary(FieldsOf(current));
          policy.MergeShellPolicy(value.fields, fold);
          fields := Set(fields, key, Table(policy.fields));
        } else if current.Some? && current.value.Table? && value.Table? {
          var nested := new Dictionary(current.value.fields);
          nested.Merge(value.fields, fold);
          fields := Set(fields, key, Table(nested.fields));
        } else {
          fields := Set(fields, key, value);
        }
      }
    }

    /** `_merge_shell_environment_policy(self, incoming)`. */
    method MergeShellPolicy(incoming: Fields, fold: Fold)
      modifies this
      ensures fields == MergeShell(old(fields), incoming, fold)
      decreases incoming, 0
    {
      if Has(incoming, FILTERS) {
        fields := Remove(Remove(fields, EXCLUDE), INCLUDE_ONLY);
      } else if Has(incoming, EXCLUDE) || Has(incoming, INCLUDE_ONLY) {
        fields := Remove(fields, FILTERS);
      }
      assert fields == Displaced(old(fields), incoming);
      for i := 0 to |incoming|
        invariant MergeShellFields(fields, incoming[i..], fold) == MergeShell(old(fields), incoming, fold)
      {
        var key, value := incoming[i].key, incoming[i].value;
        var existing := Find(fields, key);
        assert incoming[i..][0] == incoming[i] && incoming[i..][1..] == incoming[i + 1..];
        if key == FILTERS && value.Table? {
          var filters := new Dictionary(FieldsOf(existing));
          filters.MergeFilterTable(value.fields, fold);
          fields := Set(fields, key, Table(filters.fields));
        } else if existing.Some? && existing.value.Table? && value.Table? {
          var nested := new Dictionary(existing.value.fields);
          nested.Merge(value.fields, fold);
          fields := Set(fields, key, Table(nested.fields));
        } else {
          fields := Set(fields, key, value);
        }
      }
    }

    /** The filter loop: a pattern evicts every spelling of itself, then enters. */
    method MergeFilterTable(incoming: Fields, fold: Fold)
      modifies this
      ensures fields == MergeFilters(old(fields), incoming, fold)
    {
      for i := 0 to |incoming|
        invariant MergeFilters(fields, incoming[i..], fold) == MergeFilters(old(fields), incoming, fold)
      {
        var pattern := incoming[i].key;
        assert incoming[i..][0] == incoming[i] && incoming[i..][1..] == incoming[i + 1..];
        Evict(pattern, fold);
        fields := Set(fields, pattern, incoming[i].value);
      }
    }

    method Evict(pattern: string, fold: Fold)
      modifies this
      ensures fields == RemoveFolded(old(fields), pattern, fold)
    {
      var kept: Fields := [];
      for i := 0 to |fields|
        invariant fields == old(fields)
        invariant kept + RemoveFolded(fields[i..], pattern, fold) == RemoveFolded(fields, pattern, fold)
      {
        assert fields[i..][0] == fields[i] && fields[i..][1..] == fields[i + 1..];
        if fold(fields[i].key) != fold(pattern) {
          kept := kept + [fields[i]];
        }
      }
      fields := kept;
    }
  }

  /** `effective_config` over ordinary layers. */
  method EffectiveConfig(layers: seq<Fields>, fold: Fold) returns (merged: Dictionary)
    ensures fresh(merged) && merged.fields == Effective(layers, fold)
  {
    merged := new Dictionary([]);
    for i := 0 to |layers|
      invariant merged.fields == Effective(layers[..i], fold)
    {
      merged.Merge(layers[i], fold);
      assert layers[..i + 1][..i] == layers[..i];
    }
    assert layers[..|layers|] == layers;
  }

  class OriginTable {
    var origins: map<string, nat>

    constructor ()
      ensures origins == map[]
    {
      origins := map[];
    }

    /** `_record_origins(fields, layer, prefix, self)`. */
    method Record(fields: Fields, layer: nat, prefix: seq<string>)
      modifies this
      ensures origins == RecordOrigins(fields, layer, prefix, old(origins))
      decreases fields
    {
      for i := 0 to |fields|
        invariant RecordOrigins(fields[i..], layer, prefix, origins) == RecordOrigins(fields, layer, prefix, old(origins))
      {
        assert fields[i..][0] == fields[i] && fields[i..][1..] == fields[i + 1..];
        var path := prefix + [fields[i].key];
        origins := origins[Join(path) := layer];
        if fields[i].value.Table? {
          Record(fields[i].value.fields, layer, path);
        }
      }
    }
  }

  /** `origins()` over ordinary layers. */
  method LayerOrigins(layers: seq<Fields>) returns (table: OriginTable)
    ensures fresh(table) && table.origins == Origins(layers)
  {
    table := new OriginTable();
    for i := 0 to |layers|
      invariant table.origins == Origins(layers[..i])
    {
      table.Record(layers[i], i, []);
      assert layers[..i + 1][..i] == layers[..i];
    }
    assert layers[..|layers|] == layers;
  }
}
