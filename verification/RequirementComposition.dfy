/** What composing raw layers of requirements gives, normalization included. */
module RequirementComposition {
  import opened Json
  import opened Requirements
  import opened RequirementNormalization
  import opened Wrappers

  // ---------------------------------------------------------------------
  // Normalization keeps tables well-formed
  // ---------------------------------------------------------------------

  lemma WellFormedEntries(fields: Fields)
    ensures WellFormedFields(fields) <==> DistinctKeys(fields) && forall i | 0 <= i < |fields| :: WellFormed(fields[i].value)
  {
  }

  lemma FindWellFormed(fields: Fields, k: string)
    requires WellFormedFields(fields) && Has(fields, k)
    ensures WellFormed(Find(fields, k).value)
  {
    var i := FindIndex(fields, k);
  }

  lemma {:induction false} SetKeepsValues(fields: Fields, k: string, v: Value)
    requires WellFormed(v) && forall i | 0 <= i < |fields| :: WellFormed(fields[i].value)
    ensures forall i | 0 <= i < |Set(fields, k, v)| :: WellFormed(Set(fields, k, v)[i].value)
    decreases |fields|
  {
    if fields != [] && fields[0].key != k {
      SetKeepsValues(fields[1..], k, v);
    }
  }

  lemma SetKeeps(fields: Fields, k: string, v: Value)
    requires WellFormedFields(fields) && WellFormed(v)
    ensures WellFormedFields(Set(fields, k, v))
  {
    WellFormedEntries(fields);
    SetKeepsDistinct(fields, k, v);
    SetKeepsValues(fields, k, v);
    WellFormedEntries(Set(fields, k, v));
  }

  lemma {:induction false} RemoveEntries(fields: Fields, k: string)
    ensures forall f :: f in Remove(fields, k) ==> f in fields
    decreases |fields|
  {
    if fields != [] {
      RemoveEntries(fields[1..], k);
    }
  }

  lemma {:induction false} RemoveKeeps(fields: Fields, k: string)
    requires WellFormedFields(fields)
    ensures WellFormedFields(Remove(fields, k))
    decreases |fields|
  {
    WellFormedEntries(fields);
    if fields != [] {
      WellFormedEntries(fields[1..]);
      RemoveKeeps(fields[1..], k);
      RemoveEntries(fields[1..], k);
      var rest := Remove(fields[1..], k);
      WellFormedEntries(rest);
      forall i | 0 <= i < |rest|
        ensures rest[i].key != fields[0].key
      {
        assert rest[i] in fields[1..];
        var j :| 0 <= j < |fields[1..]| && fields[1..][j] == rest[i];
        assert fields[j + 1] == rest[i];
      }
      WellFormedEntries([fields[0]] + rest);
    }
  }

  lemma RenameKeeps(fields: Fields, from: string, to: string)
    requires WellFormedFields(fields) && Has(fields, from)
    ensures WellFormedFields(Rename(fields, from, to))
  {
    FindWellFormed(fields, from);
    RemoveKeeps(fields, from);
    SetKeeps(Remove(fields, from), to, Find(fields, from).value);
  }

  lemma {:induction false} DecideKeeps(table: Fields, items: seq<Value>, decision: string, show: Show)
    requires WellFormedFields(table)
    ensures WellFormedFields(Decide(table, items, decision, show))
    decreases |items|
  {
    if items != [] {
      var n := |items| - 1;
      DecideKeeps(table, items[..n], decision, show);
      SetKeeps(Decide(table, items[..n], decision, show), show(items[n]), Text(decision));
    }
  }

  lemma CompileDomainsKeeps(network: Fields, show: Show)
    requires WellFormedFields(network) && CompileDomains(network, show).Ok?
    ensures WellFormedFields(CompileDomains(network, show).value)
  {
    var allowed, denied := Read(network, ALLOWED_DOMAINS), Read(network, DENIED_DOMAINS);
    if !allowed.Null? || !denied.Null? {
      WellFormedEntries([]);
      DecideKeeps([], Items(allowed).value, "allow", show);
      DecideKeeps(Decide([], Items(allowed).value, "allow", show), Items(denied).value, "deny", show);
      var compiled := Decide(Decide([], Items(allowed).value, "allow", show), Items(denied).value, "deny", show);
      SetKeeps(network, DOMAINS, Table(compiled));
      var stored := if compiled == [] then network else Set(network, DOMAINS, Table(compiled));
      RemoveKeeps(stored, ALLOWED_DOMAINS);
      RemoveKeeps(Remove(stored, ALLOWED_DOMAINS), DENIED_DOMAINS);
    }
  }

  lemma CompileSocketsKeeps(network: Fields, show: Show)
    requires WellFormedFields(network) && CompileSockets(network, show).Ok?
    ensures WellFormedFields(CompileSockets(network, show).value)
  {
    var legacy := Read(network, ALLOW_UNIX_SOCKETS);
    if !legacy.Null? {
      WellFormedEntries([]);
      DecideKeeps([], Items(legacy).value, "allow", show);
      var sockets := Decide([], Items(legacy).value, "allow", show);
      SetKeeps(network, UNIX_SOCKETS, Table(sockets));
      RemoveKeeps(if Falsy(legacy) then network else Set(network, UNIX_SOCKETS, Table(sockets)), ALLOW_UNIX_SOCKETS);
    }
  }

  lemma NetworkKeeps(fields: Fields, show: Show)
    requires WellFormedFields(fields) && NormalizeNetwork(fields, show).Ok?
    ensures WellFormedFields(NormalizeNetwork(fields, show).value)
  {
    var network := Read(fields, NETWORK);
    if network.Table? {
      FindWellFormed(fields, NETWORK);
      CompileDomainsKeeps(network.fields, show);
      var domains := CompileDomains(network.fields, show).value;
      CompileSocketsKeeps(domains, show);
      SetKeeps(fields, NETWORK, Table(CompileSockets(domains, show).value));
    }
  }

  lemma MapArrayKeeps(fields: Fields, key: string, f: Value -> Value)
    requires WellFormedFields(fields) && forall v :: WellFormed(v) ==> WellFormed(f(v))
    ensures WellFormedFields(MapArray(fields, key, f))
  {
    var v := Read(fields, key);
    if v.Array? {
      FindWellFormed(fields, key);
      assert WellFormed(Array(MapItems(v.items, f)));
      SetKeeps(fields, key, Array(MapItems(v.items, f)));
    }
  }

  lemma FilesystemKeeps(fields: Fields, base: Option<Resolve>)
    requires WellFormedFields(fields)
    ensures WellFormedFields(NormalizeFilesystem(fields, base))
  {
    var permissions := Read(fields, PERMISSIONS);
    var filesystem := Get(permissions, FILESYSTEM);
    if base.Some? && Get(filesystem, DENY_READ).Array? {
      FindWellFormed(fields, PERMISSIONS);
      FindWellFormed(permissions.fields, FILESYSTEM);
      var f := v => ResolveEntry(v, base.value);
      MapArrayKeeps(filesystem.fields, DENY_READ, f);
      var outer := Set(permissions.fields, FILESYSTEM, Table(MapArray(filesystem.fields, DENY_READ, f)));
      SetKeeps(permissions.fields, FILESYSTEM, Table(MapArray(filesystem.fields, DENY_READ, f)));
      SetKeeps(fields, PERMISSIONS, Table(outer));
    }
  }

  /** Normalizing a well-formed layer gives a well-formed one. */
  lemma NormalizeKeepsWellFormed(payload: Fields, base: Option<Resolve>, show: Show, check: Check)
    requires WellFormedFields(payload) && Normalize(payload, base, show, check).Ok?
    ensures WellFormedFields(Normalize(payload, base, show, check).value)
  {
    var features := RenameFeatures(payload);
    if Has(payload, FEATURE_REQUIREMENTS) && !Has(payload, FEATURES) { RenameKeeps(payload, FEATURE_REQUIREMENTS, FEATURES); }
    var renamed := RenameNetwork(features);
    if Has(features, EXPERIMENTAL_NETWORK) { RenameKeeps(features, EXPERIMENTAL_NETWORK, NETWORK); }
    NetworkKeeps(renamed, show);
    var network := NormalizeNetwork(renamed, show).value;
    FilesystemKeeps(network, base);
    var filesystem := NormalizeFilesystem(network, base);
    var f := v => Replaced(v, "guardian_subagent", "auto_review");
    var g := v => Replaced(v, "on-failure", "on-request");
    MapArrayKeeps(filesystem, REVIEWERS, f);
    MapArrayKeeps(MapArray(filesystem, REVIEWERS, f), POLICIES, g);
  }

  // ---------------------------------------------------------------------
  // What normalization does to the lists that accumulate
  // ---------------------------------------------------------------------

  function ResolveAll(paths: seq<string>, base: Option<Resolve>): seq<string> {
    if base.None? then paths
    else seq(|paths|, i requires 0 <= i < |paths| => if paths[i] == "" then "" else base.value(paths[i]))
  }

  /** What a raw layer contributes to `deny_read`: its list, with every path made absolute below the layer's directory. */
  function RawDeny(layer: Layer): Contribution<string> {
    match DenyContribution(layer.requirements)
    case Prepend(paths) => Prepend(ResolveAll(paths, layer.base))
    case c => c
  }

  lemma NormalizeKeepsOthers(payload: Fields, base: Option<Resolve>, show: Show, check: Check)
    requires Normalize(payload, base, show, check).Ok?
    ensures var n := Normalize(payload, base, show, check).value;
            && Find(n, HOOKS) == Find(payload, HOOKS)
            && ShapeOk(n)
            && exists m: Fields :: Find(m, PERMISSIONS) == Find(payload, PERMISSIONS)
                                   && Find(n, PERMISSIONS) == Find(NormalizeFilesystem(m, base), PERMISSIONS)
  {
    var features := RenameFeatures(payload);
    RenameFeaturesDone(payload);
    NormalizeNetworkDone(features, show);
    var network := NormalizeNetwork(RenameNetwork(features), show).value;
    FilesystemTouches(network, base, HOOKS);
    RenameValuesDone(NormalizeFilesystem(network, base));
    assert Find(network, PERMISSIONS) == Find(payload, PERMISSIONS);
  }

  lemma FilesystemTouches(fields: Fields, base: Option<Resolve>, k: string)
    requires k != PERMISSIONS
    ensures Find(NormalizeFilesystem(fields, base), k) == Find(fields, k)
  {
    var permissions := Read(fields, PERMISSIONS);
    var filesystem := Get(permissions, FILESYSTEM);
    if base.Some? && Get(filesystem, DENY_READ).Array? {
      var resolved := MapArray(filesystem.fields, DENY_READ, v => ResolveEntry(v, base.value));
      FindSet(fields, PERMISSIONS, Table(Set(permissions.fields, FILESYSTEM, Table(resolved))), k);
    }
  }

  lemma FilesystemResolves(fields: Fields, base: Option<Resolve>)
    ensures DenyContribution(NormalizeFilesystem(fields, base)) == RawDeny(Layer(fields, base))
  {
    var permissions := Read(fields, PERMISSIONS);
    var filesystem := Get(permissions, FILESYSTEM);
    var deny := Get(filesystem, DENY_READ);
    if base.Some? && deny.Array? {
      var f := v => ResolveEntry(v, base.value);
      var resolved := MapArray(filesystem.fields, DENY_READ, f);
      FindMapArray(filesystem.fields, DENY_READ, f, DENY_READ);
      var outer := Set(permissions.fields, FILESYSTEM, Table(resolved));
      FindSet(permissions.fields, FILESYSTEM, Table(resolved), FILESYSTEM);
      FindSet(fields, PERMISSIONS, Table(outer), PERMISSIONS);
      assert Find(filesystem.fields, DENY_READ) == Some(deny);
      var items := MapItems(deny.items, f);
      ResolvedStrings(deny.items, base.value);
    } else if base.Some? {
      assert !DenyContribution(fields).Prepend?;
    }
  }

  lemma ResolvedStrings(items: seq<Value>, resolve: Resolve)
    ensures var mapped := Array(MapItems(items, v => ResolveEntry(v, resolve)));
            && (IsStrings(mapped) <==> IsStrings(Array(items)))
            && (IsStrings(mapped) ==> StringsOf(mapped) == ResolveAll(StringsOf(Array(items)), Some(resolve)))
  {
    var f := v => ResolveEntry(v, resolve);
    var mapped := MapItems(items, f);
    assert forall i | 0 <= i < |items| :: mapped[i].Text? <==> items[i].Text?;
  }

  lemma PayloadDeny(layer: Layer, show: Show, check: Check)
    requires Normalize(layer.requirements, layer.base, show, check).Ok?
    ensures DenyContribution(Payload(layer, show, check)) == RawDeny(layer)
  {
    hide Find, Normalize;
    NormalizeKeepsOthers(layer.requirements, layer.base, show, check);
    var n := Payload(layer, show, check);
    var m: Fields :| Find(m, PERMISSIONS) == Find(layer.requirements, PERMISSIONS)
                     && Find(n, PERMISSIONS) == Find(NormalizeFilesystem(m, layer.base), PERMISSIONS);
    FilesystemResolves(m, layer.base);
  }

  lemma PayloadEvent(layer: Layer, show: Show, check: Check, event: string)
    requires Normalize(layer.requirements, layer.base, show, check).Ok?
    ensures EventContribution(Payload(layer, show, check), event) == EventContribution(layer.requirements, event)
  {
    NormalizeKeepsOthers(layer.requirements, layer.base, show, check);
  }

  // ---------------------------------------------------------------------
  // End to end
  // ---------------------------------------------------------------------

  ghost predicate LayersWellFormed(layers: seq<Layer>) {
    forall i | 0 <= i < |layers| :: WellFormedFields(layers[i].requirements)
  }

  function RawDenies(layers: seq<Layer>): seq<Contribution<string>> {
    seq(|layers|, i requires 0 <= i < |layers| => RawDeny(layers[i]))
  }

  function RawEvents(layers: seq<Layer>, event: string): seq<Contribution<Value>> {
    seq(|layers|, i requires 0 <= i < |layers| => EventContribution(layers[i].requirements, event))
  }

  lemma PayloadsWellFormed(layers: seq<Layer>, show: Show, check: Check)
    requires LayersWellFormed(layers) && Loadable(layers, show, check)
    ensures forall i | 0 <= i < |layers| :: WellFormedFields(Payloads(layers, show, check)[i])
  {
    forall i | 0 <= i < |layers|
      ensures WellFormedFields(Payloads(layers, show, check)[i])
    {
      NormalizeKeepsWellFormed(layers[i].requirements, layers[i].base, show, check);
    }
  }

  /**
   * Main result: the `deny_read` that composing raw layers gives is the
   * order-preserving dedup of their lists, each resolved in its own layer, from
   * last to first since the last layer that discarded it.
   */
  lemma ComposedLayersDenyRead(layers: seq<Layer>, show: Show, check: Check)
    requires LayersWellFormed(layers) && Loadable(layers, show, check)
    ensures ComposeLayers(layers, show, check).Ok?
    ensures DenyRead(ComposeLayers(layers, show, check).value) == MapDedup(Accumulated(RawDenies(layers)))
  {
    ComposesIffLoadable(layers, show, check);
    ComposeLayersMerges(layers, show, check);
    PayloadsWellFormed(layers, show, check);
    var payloads := Payloads(layers, show, check);
    ComposedDenyRead(payloads);
    forall i | 0 <= i < |layers|
      ensures DenyContributions(payloads)[i] == RawDenies(layers)[i]
    {
      PayloadDeny(layers[i], show, check);
    }
    assert DenyContributions(payloads) == RawDenies(layers);
  }

  /** Main result: and a hook event's list is the concatenation of the raw layers' lists in the same order. */
  lemma ComposedLayersEventList(layers: seq<Layer>, show: Show, check: Check, event: string)
    requires LayersWellFormed(layers) && Loadable(layers, show, check) && event !in MANAGED
    ensures ComposeLayers(layers, show, check).Ok?
    ensures EventList(ComposeLayers(layers, show, check).value, event) == Accumulated(RawEvents(layers, event))
  {
    ComposesIffLoadable(layers, show, check);
    ComposeLayersMerges(layers, show, check);
    PayloadsWellFormed(layers, show, check);
    var payloads := Payloads(layers, show, check);
    ComposedEventList(payloads, event);
    forall i | 0 <= i < |layers|
      ensures EventContributions(payloads, event)[i] == RawEvents(layers, event)[i]
    {
      PayloadEvent(layers[i], show, check, event);
    }
    assert EventContributions(payloads, event) == RawEvents(layers, event);
  }
}
