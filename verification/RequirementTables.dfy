/** Requirement composition as updates of mutable tables. */
module RequirementTables {
  import opened Json
  import opened Requirements
  import opened RequirementNormalization
  import opened Wrappers

  /** `list(dict.fromkeys(s))`. */
  method UniqueInOrder(s: seq<string>) returns (r: seq<string>)
    ensures r == Dedup(s)
  {
    r := [];
    for i := 0 to |s|
      invariant r == Dedup(s[..i])
    {
      if s[i] !in r {
        r := r + [s[i]];
      }
      assert s[..i + 1][..i] == s[..i];
    }
    assert s[..|s|] == s;
  }

  /** `_requirement_event_lists`. */
  method CollectEventLists(incoming: Fields, previous: Value) returns (lists: Fields)
    ensures lists == EventLists(incoming, previous)
  {
    lists := [];
    for i := 0 to |incoming|
      invariant lists == EventLists(incoming[..i], previous)
    {
      var f := incoming[i];
      if f.key !in MANAGED && f.value.Array? {
        lists := Set(lists, f.key, Array(f.value.items + Lower(previous, f.key)));
      }
      assert incoming[..i + 1][..i] == incoming[..i];
    }
    assert incoming[..|incoming|] == incoming;
  }

  /** The loops that turn a legacy list into decisions. */
  method DecideAll(table: Fields, items: seq<Value>, decision: string, show: Show) returns (r: Fields)
    ensures r == Decide(table, items, decision, show)
  {
    r := table;
    for i := 0 to |items|
      invariant r == Decide(table, items[..i], decision, show)
    {
      r := Set(r, show(items[i]), Text(decision));
      assert items[..i + 1][..i] == items[..i];
    }
    assert items[..|items|] == items;
  }

  class RequirementTable {
    var fields: Fields

    constructor (fields: Fields)
      ensures this.fields == fields
    {
      this.fields := fields;
    }

    /** `_deep_merge(self, incoming)`. */
    method DeepMerge(incoming: Fields)
      modifies this
      ensures fields == Merge(old(fields), incoming)
      decreases incoming
    {
      for i := 0 to |incoming|
        invariant Merge(fields, incoming[i..]) == Merge(old(fields), incoming)
      {
        var key, value := incoming[i].key, incoming[i].value;
        var current := Find(fields, key);
        assert incoming[i..][0] == incoming[i] && incoming[i..][1..] == incoming[i + 1..];
        if current.Some? && current.value.Table? && value.Table? {
          var nested := new RequirementTable(current.value.fields);
          nested.DeepMerge(value.fields);
          fields := Set(fields, key, Table(nested.fields));
        } else {
          fields := Set(fields, key, value);
        }
      }
    }

    method Store(updates: Fields)
      modifies this
      ensures fields == SetAll(old(fields), updates)
    {
      for i := 0 to |updates|
        invariant fields == SetAll(old(fields), updates[..i])
      {
        fields := Set(fields, updates[i].key, updates[i].value);
        assert updates[..i + 1][..i] == updates[..i];
      }
      assert updates[..|updates|] == updates;
    }

    /** `_merge_requirement_layer(self, incoming, existing)`, `existing` being a copy of this table. */
    method Add(incoming: Fields)
      modifies this
      ensures fields == MergeLayer(old(fields), incoming)
    {
      var incomingDeny, existingDeny := DenyRead(incoming), DenyRead(fields);
      var lists: Fields := [];
      var hooks := Get(Table(incoming), HOOKS);
      if hooks.Table? {
        lists := CollectEventLists(hooks.fields, Get(Table(fields), HOOKS));
      }
      assert lists == HookLists(incoming, old(fields));
      DeepMerge(incoming);
      if incomingDeny.Some? {
        var deny := UniqueInOrder(incomingDeny.value + OrEmpty(existingDeny));
        fields := StoreDeny(fields, deny);
      }
      assert fields == WithDeny(old(fields), incoming);
      if lists != [] {
        fields := SetDefaultTable(fields, HOOKS);
        var target := Find(fields, HOOKS).value;
        if target.Table? {
          var table := new RequirementTable(target.fields);
          table.Store(lists);
          fields := Set(fields, HOOKS, Table(table.fields));
        }
      }
    }

    /** The first half of `_normalize_network_requirements`. */
    method CompileLegacyDomains(show: Show) returns (ok: bool)
      modifies this
      ensures ok <==> CompileDomains(old(fields), show).Ok?
      ensures fields == if ok then CompileDomains(old(fields), show).value else old(fields)
    {
      var allowed, denied := Read(fields, ALLOWED_DOMAINS), Read(fields, DENIED_DOMAINS);
      if allowed.Null? && denied.Null? {
        return true;
      }
      if !Read(fields, DOMAINS).Null? || Items(allowed).None? || Items(denied).None? {
        return false;
      }
      var compiled := DecideAll([], Items(allowed).value, "allow", show);
      compiled := DecideAll(compiled, Items(denied).value, "deny", show);
      if compiled != [] {
        fields := Set(fields, DOMAINS, Table(compiled));
      }
      fields := Remove(fields, ALLOWED_DOMAINS);
      fields := Remove(fields, DENIED_DOMAINS);
      ok := true;
    }
  }

  /** `compose_requirements`, up to its last validation. */
  method ComposeRequirements(layers: seq<Layer>, show: Show, check: Check) returns (merged: Result<Fields>)
    ensures merged == ComposeLayers(layers, show, check)
  {
    var table := new RequirementTable([]);
    for i := 0 to |layers|
      invariant ComposeLayers(layers[..i], show, check) == Ok(table.fields)
    {
      var payload := Normalize(layers[i].requirements, layers[i].base, show, check);
      assert layers[..i + 1][..i] == layers[..i];
      if payload.Err? {
        PrefixFails(layers, i + 1, show, check);
        return payload;
      }
      table.Add(payload.value);
    }
    assert layers[..|layers|] == layers;
    merged := Ok(table.fields);
  }

  lemma {:induction false} PrefixFails(layers: seq<Layer>, n: nat, show: Show, check: Check)
    requires n <= |layers| && ComposeLayers(layers[..n], show, check).Err?
    ensures ComposeLayers(layers, show, check) == ComposeLayers(layers[..n], show, check)
    decreases |layers|
  {
    if n < |layers| {
      var shorter := layers[..|layers| - 1];
      assert shorter[..n] == layers[..n];
      PrefixFails(shorter, n, show, check);
    } else {
      assert layers[..n] == layers;
    }
  }
}
