/** Normalizing one layer of requirements, which composition repeats. */
module RequirementNormalization {
  import opened Json
  import opened Requirements
  import opened Wrappers

  const FEATURES := "features"
  const FEATURE_REQUIREMENTS := "feature_requirements"
  const NETWORK := "network"
  const EXPERIMENTAL_NETWORK := "experimental_network"
  const DOMAINS := "domains"
  const ALLOWED_DOMAINS := "allowed_domains"
  const DENIED_DOMAINS := "denied_domains"
  const UNIX_SOCKETS := "unix_sockets"
  const ALLOW_UNIX_SOCKETS := "allow_unix_sockets"
  const REVIEWERS := "allowed_approvals_reviewers"
  const POLICIES := "allowed_approval_policies"

  /** `str()` of a value. */
  type Show = Value -> string

  /** Makes a non-empty path absolute below the layer's directory. */
  type Resolve = string -> string

  /** The validation that is not part of `ShapeOk`. */
  type Check = Fields -> bool

  /** `fields.get(k)`. */
  function Read(fields: Fields, k: string): Value { Get(Table(fields), k) }

  // ---------------------------------------------------------------------
  // The steps
  // ---------------------------------------------------------------------

  function Rename(fields: Fields, from: string, to: string): Fields
    requires Has(fields, from)
  {
    Set(Remove(fields, from), to, Find(fields, from).value)
  }

  function RenameFeatures(fields: Fields): Fields {
    if Has(fields, FEATURE_REQUIREMENTS) && !Has(fields, FEATURES) then Rename(fields, FEATURE_REQUIREMENTS, FEATURES) else fields
  }

  function RenameNetwork(fields: Fields): Fields {
    if Has(fields, EXPERIMENTAL_NETWORK) then Rename(fields, EXPERIMENTAL_NETWORK, NETWORK) else fields
  }

  predicate Falsy(v: Value) {
    match v
    case Null => true
    case Flag(b) => !b
    case Number(n) => n == 0
    case Text(s) => s == ""
    case Array(items) => items == []
    case Table(fields) => fields == []
  }

  /** What `for item in v or []` visits; `None` where that raises. */
  function Items(v: Value): Option<seq<Value>> {
    if Falsy(v) then Some([])
    else match v
      case Array(items) => Some(items)
      case Text(s) => Some(seq(|s|, i requires 0 <= i < |s| => Text([s[i]])))
      case Table(fields) => Some(seq(|fields|, i requires 0 <= i < |fields| => Text(fields[i].key)))
      case _ => None
  }

  /** `for item in items: table[str(item)] = decision`. */
  function Decide(table: Fields, items: seq<Value>, decision: string, show: Show): Fields
    decreases |items|
  {
    if items == [] then table
    else Set(Decide(table, items[..|items| - 1], decision, show), show(items[|items| - 1]), Text(decision))
  }

  function CompileDomains(network: Fields, show: Show): Result<Fields> {
    var allowed, denied := Read(network, ALLOWED_DOMAINS), Read(network, DENIED_DOMAINS);
    if allowed.Null? && denied.Null? then Ok(network)
    else if !Read(network, DOMAINS).Null? then Err("domains cannot be combined with allowed_domains or denied_domains")
    else if Items(allowed).None? || Items(denied).None? then Err("not iterable")
    else
      var compiled := Decide(Decide([], Items(allowed).value, "allow", show), Items(denied).value, "deny", show);
      var stored := if compiled == [] then network else Set(network, DOMAINS, Table(compiled));
      Ok(Remove(Remove(stored, ALLOWED_DOMAINS), DENIED_DOMAINS))
  }

  function CompileSockets(network: Fields, show: Show): Result<Fields> {
    var legacy := Read(network, ALLOW_UNIX_SOCKETS);
    if legacy.Null? then Ok(network)
    else if !Read(network, UNIX_SOCKETS).Null? then Err("unix_sockets cannot be combined with allow_unix_sockets")
    else if Items(legacy).None? then Err("not iterable")
    else
      var stored := if Falsy(legacy) then network
        else Set(network, UNIX_SOCKETS, Table(Decide([], Items(legacy).value, "allow", show)));
      Ok(Remove(stored, ALLOW_UNIX_SOCKETS))
  }

  function NormalizeNetwork(fields: Fields, show: Show): Result<Fields> {
    var network := Read(fields, NETWORK);
    if network.Null? then Ok(fields)
    else if !network.Table? then Err("network must be a table")
    else
      var domains := CompileDomains(network.fields, show);
      if domains.Err? then domains
      else
        var sockets := CompileSockets(domains.value, show);
        if sockets.Err? then sockets else Ok(Set(fields, NETWORK, Table(sockets.value)))
  }

  function ResolveEntry(v: Value, resolve: Resolve): Value {
    if v.Text? && v.text != "" then Text(resolve(v.text)) else v
  }

  function MapItems(items: seq<Value>, f: Value -> Value): seq<Value> {
    seq(|items|, i requires 0 <= i < |items| => f(items[i]))
  }

  /** The array under `key`, if any, with `f` applied to its items. */
  function MapArray(fields: Fields, key: string, f: Value -> Value): Fields {
    var v := Read(fields, key);
    if v.Array? then Set(fields, key, Array(MapItems(v.items, f))) else fields
  }

  function NormalizeFilesystem(fields: Fields, base: Option<Resolve>): Fields {
    var permissions := Read(fields, PERMISSIONS);
    var filesystem := Get(permissions, FILESYSTEM);
    if base.None? || !Get(filesystem, DENY_READ).Array? then fields
    else
      var resolved := MapArray(filesystem.fields, DENY_READ, v => ResolveEntry(v, base.value));
      Set(fields, PERMISSIONS, Table(Set(permissions.fields, FILESYSTEM, Table(resolved))))
  }

  function Replaced(v: Value, from: string, to: string): Value { if v == Text(from) then Text(to) else v }

  function RenameValues(fields: Fields): Fields {
    MapArray(MapArray(fields, REVIEWERS, v => Replaced(v, "guardian_subagent", "auto_review")),
             POLICIES, v => Replaced(v, "on-failure", "on-request"))
  }

  /** `_normalize_requirements`. */
  function Normalize(payload: Fields, base: Option<Resolve>, show: Show, check: Check): Result<Fields> {
    var features := RenameFeatures(payload);
    if Has(features, EXPERIMENTAL_NETWORK) && Has(features, NETWORK) then Err("experimental_network and network cannot both be set")
    else
      var network := NormalizeNetwork(RenameNetwork(features), show);
      if network.Err? then network
      else
        var normalized := RenameValues(NormalizeFilesystem(network.value, base));
        if ShapeOk(normalized) && check(normalized) then Ok(normalized) else Err("invalid requirements")
  }

  // ---------------------------------------------------------------------
  // A denied pattern is denied
  // ---------------------------------------------------------------------

  predicate Shows(items: seq<Value>, pattern: string, show: Show) {
    exists i | 0 <= i < |items| :: show(items[i]) == pattern
  }

  lemma {:induction false} FindDecide(table: Fields, items: seq<Value>, decision: string, show: Show, pattern: string)
    ensures Find(Decide(table, items, decision, show), pattern) ==
            if Shows(items, pattern, show) then Some(Text(decision)) else Find(table, pattern)
    decreases |items|
  {
    if items != [] {
      var n := |items| - 1;
      FindDecide(table, items[..n], decision, show, pattern);
      FindSet(Decide(table, items[..n], decision, show), show(items[n]), Text(decision), pattern);
      assert Shows(items, pattern, show) <==> show(items[n]) == pattern || Shows(items[..n], pattern, show) by {
        if Shows(items[..n], pattern, show) {
          var i :| 0 <= i < n && show(items[..n][i]) == pattern;
          assert show(items[i]) == pattern;
        }
        if i :| 0 <= i < n && show(items[i]) == pattern {
          assert show(items[..n][i]) == pattern;
        }
      }
    }
  }

  /** A pattern in both legacy lists is denied; one in neither has no decision. */
  lemma DeniedPatternsWin(network: Fields, show: Show, pattern: string)
    requires CompileDomains(network, show).Ok?
    requires !Read(network, ALLOWED_DOMAINS).Null? || !Read(network, DENIED_DOMAINS).Null?
    ensures var allowed := Items(Read(network, ALLOWED_DOMAINS)).value;
            var denied := Items(Read(network, DENIED_DOMAINS)).value;
            Get(Read(CompileDomains(network, show).value, DOMAINS), pattern) ==
            if Shows(denied, pattern, show) then Text("deny") else if Shows(allowed, pattern, show) then Text("allow") else Null
  {
    var allowed := Items(Read(network, ALLOWED_DOMAINS)).value;
    var denied := Items(Read(network, DENIED_DOMAINS)).value;
    FindDecide([], allowed, "allow", show, pattern);
    FindDecide(Decide([], allowed, "allow", show), denied, "deny", show, pattern);
    var compiled := Decide(Decide([], allowed, "allow", show), denied, "deny", show);
    var stored := if compiled == [] then network else Set(network, DOMAINS, Table(compiled));
    FindSet(network, DOMAINS, Table(compiled), DOMAINS);
    FindRemove(stored, ALLOWED_DOMAINS, DOMAINS);
    FindRemove(Remove(stored, ALLOWED_DOMAINS), DENIED_DOMAINS, DOMAINS);
  }

  /** Exactly what the legacy socket list names is allowed. */
  lemma LegacySocketsAreAllowed(network: Fields, show: Show, path: string)
    requires CompileSockets(network, show).Ok? && !Read(network, "allow_unix_sockets").Null?
    ensures var named := Items(Read(network, "allow_unix_sockets")).value;
            var r := CompileSockets(network, show).value;
            && Get(Read(r, "unix_sockets"), path) == (if Shows(named, path, show) then Text("allow") else Null)
            && !Has(r, "allow_unix_sockets")
  {
    var legacy := Read(network, ALLOW_UNIX_SOCKETS);
    var sockets := Decide([], Items(legacy).value, "allow", show);
    var stored := if Falsy(legacy) then network else Set(network, UNIX_SOCKETS, Table(sockets));
    FindDecide([], Items(legacy).value, "allow", show, path);
    FindSet(network, UNIX_SOCKETS, Table(sockets), UNIX_SOCKETS);
    FindRemove(stored, ALLOW_UNIX_SOCKETS, UNIX_SOCKETS);
    FindRemove(stored, ALLOW_UNIX_SOCKETS, ALLOW_UNIX_SOCKETS);
  }

  // ---------------------------------------------------------------------
  // Normalization is idempotent
  // ---------------------------------------------------------------------

  predicate FeaturesDone(fields: Fields) { Has(fields, FEATURE_REQUIREMENTS) ==> Has(fields, FEATURES) }

  predicate NetworkDone(fields: Fields) {
    var network := Read(fields, NETWORK);
    && !Has(fields, EXPERIMENTAL_NETWORK)
    && (network.Null? || (network.Table? && Read(network.fields, ALLOWED_DOMAINS).Null?
                          && Read(network.fields, DENIED_DOMAINS).Null? && Read(network.fields, ALLOW_UNIX_SOCKETS).Null?))
  }

  ghost predicate FixedItems(v: Value, f: Value -> Value) {
    v.Array? ==> forall i | 0 <= i < |v.items| :: f(v.items[i]) == v.items[i]
  }

  ghost predicate FilesystemDone(fields: Fields, base: Option<Resolve>) {
    base.Some? ==> FixedItems(Get(Get(Read(fields, PERMISSIONS), FILESYSTEM), DENY_READ), v => ResolveEntry(v, base.value))
  }

  ghost predicate ValuesDone(fields: Fields) {
    && FixedItems(Read(fields, REVIEWERS), v => Replaced(v, "guardian_subagent", "auto_review"))
    && FixedItems(Read(fields, POLICIES), v => Replaced(v, "on-failure", "on-request"))
  }

  lemma {:induction false} SetSame(fields: Fields, k: string)
    requires Has(fields, k)
    ensures Set(fields, k, Find(fields, k).value) == fields
    decreases |fields|
  {
    if fields[0].key != k {
      SetSame(fields[1..], k);
    }
  }

  lemma MapArrayFixed(fields: Fields, key: string, f: Value -> Value)
    requires FixedItems(Read(fields, key), f)
    ensures MapArray(fields, key, f) == fields
  {
    var v := Read(fields, key);
    if v.Array? {
      assert MapItems(v.items, f) == v.items;
      SetSame(fields, key);
    }
  }

  lemma FindMapArray(fields: Fields, key: string, f: Value -> Value, k: string)
    ensures Find(MapArray(fields, key, f), k) ==
            if k == key && Read(fields, key).Array? then Some(Array(MapItems(Read(fields, key).items, f))) else Find(fields, k)
  {
    var v := Read(fields, key);
    if v.Array? {
      FindSet(fields, key, Array(MapItems(v.items, f)), k);
    }
  }

  lemma FilesystemFixed(fields: Fields, base: Option<Resolve>)
    requires FilesystemDone(fields, base)
    ensures NormalizeFilesystem(fields, base) == fields
  {
    var permissions := Read(fields, PERMISSIONS);
    var filesystem := Get(permissions, FILESYSTEM);
    if base.Some? && Get(filesystem, DENY_READ).Array? {
      MapArrayFixed(filesystem.fields, DENY_READ, v => ResolveEntry(v, base.value));
      SetSame(permissions.fields, FILESYSTEM);
      SetSame(fields, PERMISSIONS);
    }
  }

  lemma NetworkFixed(fields: Fields, show: Show)
    requires NetworkDone(fields)
    ensures NormalizeNetwork(RenameNetwork(fields), show) == Ok(fields)
  {
    var network := Read(fields, NETWORK);
    if network.Table? {
      SetSame(fields, NETWORK);
    }
  }

  lemma CompileDomainsDone(network: Fields, show: Show)
    requires CompileDomains(network, show).Ok?
    ensures var r := CompileDomains(network, show).value;
            Read(r, ALLOWED_DOMAINS).Null? && Read(r, DENIED_DOMAINS).Null?
  {
    var allowed, denied := Read(network, ALLOWED_DOMAINS), Read(network, DENIED_DOMAINS);
    if !allowed.Null? || !denied.Null? {
      var compiled := Decide(Decide([], Items(allowed).value, "allow", show), Items(denied).value, "deny", show);
      var stored := if compiled == [] then network else Set(network, DOMAINS, Table(compiled));
      FindRemove(stored, ALLOWED_DOMAINS, ALLOWED_DOMAINS);
      FindRemove(Remove(stored, ALLOWED_DOMAINS), DENIED_DOMAINS, ALLOWED_DOMAINS);
      FindRemove(Remove(stored, ALLOWED_DOMAINS), DENIED_DOMAINS, DENIED_DOMAINS);
    }
  }

  lemma CompileSocketsDone(network: Fields, show: Show)
    requires CompileSockets(network, show).Ok?
    ensures var r := CompileSockets(network, show).value;
            && Read(r, ALLOW_UNIX_SOCKETS).Null?
            && Find(r, ALLOWED_DOMAINS) == Find(network, ALLOWED_DOMAINS)
            && Find(r, DENIED_DOMAINS) == Find(network, DENIED_DOMAINS)
  {
    var legacy := Read(network, ALLOW_UNIX_SOCKETS);
    if !legacy.Null? {
      var sockets := Table(Decide([], Items(legacy).value, "allow", show));
      var stored := if Falsy(legacy) then network else Set(network, UNIX_SOCKETS, sockets);
      FindRemove(stored, ALLOW_UNIX_SOCKETS, ALLOW_UNIX_SOCKETS);
      FindRemove(stored, ALLOW_UNIX_SOCKETS, ALLOWED_DOMAINS);
      FindRemove(stored, ALLOW_UNIX_SOCKETS, DENIED_DOMAINS);
      FindSet(network, UNIX_SOCKETS, sockets, ALLOWED_DOMAINS);
      FindSet(network, UNIX_SOCKETS, sockets, DENIED_DOMAINS);
    }
  }

  lemma FindRename(fields: Fields, from: string, to: string, k: string)
    requires Has(fields, from) && from != to
    ensures Find(Rename(fields, from, to), k) ==
            if k == to then Find(fields, from) else if k == from then None else Find(fields, k)
  {
    FindSet(Remove(fields, from), to, Find(fields, from).value, k);
    FindRemove(fields, from, k);
  }

  /** The network step leaves a finished network table and touches nothing else. */
  lemma NormalizeNetworkDone(fields: Fields, show: Show)
    requires NormalizeNetwork(RenameNetwork(fields), show).Ok?
    ensures var r := NormalizeNetwork(RenameNetwork(fields), show).value;
            NetworkDone(r) && forall k | k != NETWORK && k != EXPERIMENTAL_NETWORK :: Find(r, k) == Find(fields, k)
  {
    var renamed := RenameNetwork(fields);
    forall k: string
      ensures k != NETWORK && k != EXPERIMENTAL_NETWORK ==> Find(renamed, k) == Find(fields, k)
      ensures !Has(renamed, EXPERIMENTAL_NETWORK)
    {
      if Has(fields, EXPERIMENTAL_NETWORK) {
        FindRename(fields, EXPERIMENTAL_NETWORK, NETWORK, k);
        FindRename(fields, EXPERIMENTAL_NETWORK, NETWORK, EXPERIMENTAL_NETWORK);
      }
    }
    var network := Read(renamed, NETWORK);
    if network.Table? {
      CompileDomainsDone(network.fields, show);
      CompileSocketsDone(CompileDomains(network.fields, show).value, show);
      var sockets := Table(CompileSockets(CompileDomains(network.fields, show).value, show).value);
      forall k: string
        ensures Find(Set(renamed, NETWORK, sockets), k) == if k == NETWORK then Some(sockets) else Find(renamed, k)
      {
        FindSet(renamed, NETWORK, sockets, k);
      }
    }
  }

  lemma NormalizeFilesystemDone(fields: Fields, base: Option<Resolve>)
    requires base.Some? ==> forall s :: s != "" ==> base.value(s) != "" && base.value(base.value(s)) == base.value(s)
    ensures var r := NormalizeFilesystem(fields, base);
            FilesystemDone(r, base) && forall k | k != PERMISSIONS :: Find(r, k) == Find(fields, k)
  {
    var permissions := Read(fields, PERMISSIONS);
    var filesystem := Get(permissions, FILESYSTEM);
    if base.Some? && Get(filesystem, DENY_READ).Array? {
      var f := v => ResolveEntry(v, base.value);
      var resolved := MapArray(filesystem.fields, DENY_READ, f);
      FindMapArray(filesystem.fields, DENY_READ, f, DENY_READ);
      var outer := Set(permissions.fields, FILESYSTEM, Table(resolved));
      FindSet(permissions.fields, FILESYSTEM, Table(resolved), FILESYSTEM);
      FindSet(fields, PERMISSIONS, Table(outer), PERMISSIONS);
      forall k | k != PERMISSIONS
        ensures Find(Set(fields, PERMISSIONS, Table(outer)), k) == Find(fields, k)
      {
        FindSet(fields, PERMISSIONS, Table(outer), k);
      }
    }
  }

  lemma RenameValuesDone(fields: Fields)
    ensures var r := RenameValues(fields);
            ValuesDone(r) && forall k | k != REVIEWERS && k != POLICIES :: Find(r, k) == Find(fields, k)
  {
    var f := v => Replaced(v, "guardian_subagent", "auto_review");
    var g := v => Replaced(v, "on-failure", "on-request");
    var first := MapArray(fields, REVIEWERS, f);
    forall k: string
      ensures Find(first, k) == if k == REVIEWERS && Read(fields, REVIEWERS).Array?
                                then Some(Array(MapItems(Read(fields, REVIEWERS).items, f))) else Find(fields, k)
      ensures Find(MapArray(first, POLICIES, g), k) == if k == POLICIES && Read(first, POLICIES).Array?
                                then Some(Array(MapItems(Read(first, POLICIES).items, g))) else Find(first, k)
    {
      FindMapArray(fields, REVIEWERS, f, k);
      FindMapArray(first, POLICIES, g, k);
    }
  }

  lemma RenameFeaturesDone(fields: Fields)
    ensures var r := RenameFeatures(fields);
            FeaturesDone(r) && forall k | k != FEATURES && k != FEATURE_REQUIREMENTS :: Find(r, k) == Find(fields, k)
  {
    if Has(fields, FEATURE_REQUIREMENTS) && !Has(fields, FEATURES) {
      forall k: string
        ensures Find(RenameFeatures(fields), k) ==
                if k == FEATURES then Find(fields, FEATURE_REQUIREMENTS) else if k == FEATURE_REQUIREMENTS then None else Find(fields, k)
      {
        FindRename(fields, FEATURE_REQUIREMENTS, FEATURES, k);
      }
    }
  }

  /** Resolving a path that is already absolute changes nothing. */
  ghost predicate ResolvesOnce(base: Option<Resolve>) {
    base.Some? ==> forall s :: s != "" ==> base.value(s) != "" && base.value(base.value(s)) == base.value(s)
  }

  /** Main result: normalizing a normalized layer gives it back. */
  lemma NormalizeIsIdempotent(payload: Fields, base: Option<Resolve>, show: Show, check: Check)
    requires ResolvesOnce(base) && Normalize(payload, base, show, check).Ok?
    ensures var n := Normalize(payload, base, show, check).value;
            Normalize(n, base, show, check) == Ok(n)
  {
    var features := RenameFeatures(payload);
    RenameFeaturesDone(payload);
    NormalizeNetworkDone(features, show);
    var network := NormalizeNetwork(RenameNetwork(features), show).value;
    NormalizeFilesystemDone(network, base);
    var filesystem := NormalizeFilesystem(network, base);
    RenameValuesDone(filesystem);
    var n := RenameValues(filesystem);
    assert Find(n, FEATURES) == Find(features, FEATURES) && Find(n, FEATURE_REQUIREMENTS) == Find(features, FEATURE_REQUIREMENTS);
    assert RenameFeatures(n) == n;
    assert Find(n, NETWORK) == Find(network, NETWORK) && Find(n, EXPERIMENTAL_NETWORK) == Find(network, EXPERIMENTAL_NETWORK);
    NetworkFixed(n, show);
    assert Find(n, PERMISSIONS) == Find(filesystem, PERMISSIONS);
    FilesystemFixed(n, base);
    var f := v => Replaced(v, "guardian_subagent", "auto_review");
    var g := v => Replaced(v, "on-failure", "on-request");
    MapArrayFixed(n, REVIEWERS, f);
    MapArrayFixed(n, POLICIES, g);
  }

  // ---------------------------------------------------------------------
  // Composing layers that were normalized when they were loaded
  // ---------------------------------------------------------------------

  datatype Layer = Layer(requirements: Fields, base: Option<Resolve>)

  /** `compose_requirements` up to its last validation: every layer is normalized, then merged. */
  function ComposeLayers(layers: seq<Layer>, show: Show, check: Check): Result<Fields>
    decreases |layers|
  {
    if layers == [] then Ok([])
    else
      var n := |layers| - 1;
      var below := ComposeLayers(layers[..n], show, check);
      if below.Err? then below
      else
        var payload := Normalize(layers[n].requirements, layers[n].base, show, check);
        if payload.Err? then payload else Ok(MergeLayer(below.value, payload.value))
  }

  /** `load_requirements_toml` keeps the normalized table. */
  function Loaded(layer: Layer, show: Show, check: Check): Layer
    requires Normalize(layer.requirements, layer.base, show, check).Ok?
  {
    Layer(Normalize(layer.requirements, layer.base, show, check).value, layer.base)
  }

  function Payload(layer: Layer, show: Show, check: Check): Fields
    requires Normalize(layer.requirements, layer.base, show, check).Ok?
  {
    Normalize(layer.requirements, layer.base, show, check).value
  }

  ghost predicate Loadable(layers: seq<Layer>, show: Show, check: Check) {
    forall i | 0 <= i < |layers| :: Normalize(layers[i].requirements, layers[i].base, show, check).Ok?
  }

  function Payloads(layers: seq<Layer>, show: Show, check: Check): seq<Fields>
    requires Loadable(layers, show, check)
  {
    seq(|layers|, i requires 0 <= i < |layers| => Payload(layers[i], show, check))
  }

  lemma LoadableSnoc(layers: seq<Layer>, show: Show, check: Check)
    requires layers != []
    ensures var n := |layers| - 1;
            Loadable(layers, show, check) <==>
              (Loadable(layers[..n], show, check) && Normalize(layers[n].requirements, layers[n].base, show, check).Ok?)
  {
    assert forall i | 0 <= i < |layers| - 1 :: layers[..|layers| - 1][i] == layers[i];
  }

  lemma PayloadsSnoc(layers: seq<Layer>, show: Show, check: Check)
    requires layers != [] && Loadable(layers, show, check) && Loadable(layers[..|layers| - 1], show, check)
    ensures var n := |layers| - 1;
            && Payloads(layers, show, check)[..n] == Payloads(layers[..n], show, check)
            && Payloads(layers, show, check)[n] == Payload(layers[n], show, check)
  {
  }

  /** Composition fails exactly if some layer is rejected. */
  lemma {:induction false} ComposesIffLoadable(layers: seq<Layer>, show: Show, check: Check)
    ensures ComposeLayers(layers, show, check).Ok? <==> Loadable(layers, show, check)
    decreases |layers|
  {
    if layers != [] {
      ComposesIffLoadable(layers[..|layers| - 1], show, check);
      LoadableSnoc(layers, show, check);
    }
  }

  /** Composition merges the normalized layers. */
  lemma {:induction false} ComposeLayersMerges(layers: seq<Layer>, show: Show, check: Check)
    requires Loadable(layers, show, check)
    ensures ComposeLayers(layers, show, check) == Ok(Compose(Payloads(layers, show, check)))
    decreases |layers|
  {
    if layers != [] {
      var n := |layers| - 1;
      LoadableSnoc(layers, show, check);
      ComposeLayersMerges(layers[..n], show, check);
      PayloadsSnoc(layers, show, check);
    }
  }

  /** Main result: composing loaded layers, which normalizes them again, gives what composing the raw ones gives. */
  lemma LoadingDoesNotChangeComposition(layers: seq<Layer>, show: Show, check: Check)
    requires Loadable(layers, show, check)
    requires forall i | 0 <= i < |layers| :: ResolvesOnce(layers[i].base)
    ensures ComposeLayers(seq(|layers|, i requires 0 <= i < |layers| => Loaded(layers[i], show, check)), show, check) ==
            ComposeLayers(layers, show, check)
  {
    var loaded := seq(|layers|, i requires 0 <= i < |layers| => Loaded(layers[i], show, check));
    forall i | 0 <= i < |layers|
      ensures Normalize(loaded[i].requirements, loaded[i].base, show, check) == Ok(Payload(layers[i], show, check))
    {
      NormalizeIsIdempotent(layers[i].requirements, layers[i].base, show, check);
    }
    ComposeLayersMerges(layers, show, check);
    ComposeLayersMerges(loaded, show, check);
    assert Payloads(loaded, show, check) == Payloads(layers, show, check);
  }
}
