/** Which layers of requirements are accepted, and what becomes of each key of an accepted one. */
module RequirementAcceptance {
  import opened Json
  import opened RequirementComposition
  import opened RequirementNormalization
  import opened Requirements
  import opened Wrappers

  // ---------------------------------------------------------------------
  // Iterating over anything
  // ---------------------------------------------------------------------

  /** `v or []` can be iterated over. */
  predicate CanIterate(v: Value) {
    v.Null? || v.Array? || v.Text? || v.Table? || v == Flag(false) || v == Number(0)
  }

  /** An array gives its items, a text its characters, a table its keys, and whatever is false nothing. */
  lemma ItemsMeaning(v: Value)
    ensures Items(v).Some? <==> CanIterate(v)
    ensures v.Array? ==> Items(v).value == v.items
    ensures v.Text? ==> |Items(v).value| == |v.text| && forall i | 0 <= i < |v.text| :: Items(v).value[i] == Text([v.text[i]])
    ensures v.Table? ==> |Items(v).value| == |v.fields| && forall i | 0 <= i < |v.fields| :: Items(v).value[i] == Text(v.fields[i].key)
    ensures v == Null || v == Flag(false) || v == Number(0) ==> Items(v).value == []
  {
  }

  // ---------------------------------------------------------------------
  // The network table
  // ---------------------------------------------------------------------

  /** The two spellings of domains and of sockets are not mixed, and the legacy lists can be iterated over. */
  predicate NetworkOk(network: Fields) {
    var allowed, denied := Read(network, "allowed_domains"), Read(network, "denied_domains");
    var sockets := Read(network, "allow_unix_sockets");
    && ((allowed.Null? && denied.Null?) || (Read(network, "domains").Null? && CanIterate(allowed) && CanIterate(denied)))
    && (sockets.Null? || (Read(network, "unix_sockets").Null? && CanIterate(sockets)))
  }

  lemma CompiledDomainsElsewhere(network: Fields, show: Show, k: string)
    requires CompileDomains(network, show).Ok? && k !in ["domains", "allowed_domains", "denied_domains"]
    ensures Find(CompileDomains(network, show).value, k) == Find(network, k)
  {
    var allowed, denied := Read(network, ALLOWED_DOMAINS), Read(network, DENIED_DOMAINS);
    if !allowed.Null? || !denied.Null? {
      var compiled := Decide(Decide([], Items(allowed).value, "allow", show), Items(denied).value, "deny", show);
      var stored := if compiled == [] then network else Set(network, DOMAINS, Table(compiled));
      FindSet(network, DOMAINS, Table(compiled), k);
      FindRemove(stored, ALLOWED_DOMAINS, k);
      FindRemove(Remove(stored, ALLOWED_DOMAINS), DENIED_DOMAINS, k);
    }
  }

  lemma NetworkCompilesIff(network: Fields, show: Show)
    ensures CompileDomains(network, show).Ok? && CompileSockets(CompileDomains(network, show).value, show).Ok? <==> NetworkOk(network)
  {
    hide Falsy;
    ItemsMeaning(Read(network, ALLOWED_DOMAINS));
    ItemsMeaning(Read(network, DENIED_DOMAINS));
    ItemsMeaning(Read(network, ALLOW_UNIX_SOCKETS));
    if CompileDomains(network, show).Ok? {
      CompiledDomainsElsewhere(network, show, "unix_sockets");
      CompiledDomainsElsewhere(network, show, "allow_unix_sockets");
    }
  }

  /** What a layer says about the network, under either name. */
  function NetworkOf(payload: Fields): Value {
    if Has(payload, "experimental_network") then Read(payload, "experimental_network") else Read(payload, "network")
  }

  predicate NetworkAccepted(payload: Fields) {
    && !(Has(payload, "experimental_network") && Has(payload, "network"))
    && (NetworkOf(payload).Null? || (NetworkOf(payload).Table? && NetworkOk(NetworkOf(payload).fields)))
  }

  lemma NetworkRenamed(payload: Fields)
    requires !(Has(payload, "experimental_network") && Has(payload, "network"))
    ensures Read(RenameNetwork(RenameFeatures(payload)), "network") == NetworkOf(payload)
  {
    RenameFeaturesDone(payload);
    var features := RenameFeatures(payload);
    assert Find(features, "network") == Find(payload, "network");
    assert Find(features, "experimental_network") == Find(payload, "experimental_network");
    if Has(features, "experimental_network") {
      FindRename(features, "experimental_network", "network", "network");
    }
  }

  // ---------------------------------------------------------------------
  // Acceptance
  // ---------------------------------------------------------------------

  lemma ResolvingKeepsShape(fields: Fields, base: Option<Resolve>)
    requires ResolvesOnce(base)
    ensures ShapeOk(NormalizeFilesystem(fields, base)) <==> ShapeOk(fields)
  {
    var permissions := Read(fields, PERMISSIONS);
    var filesystem := Get(permissions, FILESYSTEM);
    var deny := Get(filesystem, DENY_READ);
    FilesystemTouches(fields, base, HOOKS);
    if base.Some? && deny.Array? {
      var f := v => ResolveEntry(v, base.value);
      var resolved := MapArray(filesystem.fields, DENY_READ, f);
      FindMapArray(filesystem.fields, DENY_READ, f, DENY_READ);
      var outer := Set(permissions.fields, FILESYSTEM, Table(resolved));
      FindSet(permissions.fields, FILESYSTEM, Table(resolved), FILESYSTEM);
      FindSet(fields, PERMISSIONS, Table(outer), PERMISSIONS);
      var items := MapItems(deny.items, f);
      assert forall i | 0 <= i < |items| :: items[i].Text? <==> deny.items[i].Text?;
      assert forall i | 0 <= i < |items| && items[i].Text? :: items[i].text != "" <==> deny.items[i].text != "";
    }
  }

  lemma SameShape(a: Fields, b: Fields)
    requires Find(a, HOOKS) == Find(b, HOOKS) && Find(a, PERMISSIONS) == Find(b, PERMISSIONS)
    ensures ShapeOk(a) <==> ShapeOk(b)
  {
  }

  lemma NetworkStepIff(payload: Fields, show: Show)
    requires !(Has(payload, "experimental_network") && Has(payload, "network"))
    ensures NormalizeNetwork(RenameNetwork(RenameFeatures(payload)), show).Ok? <==> NetworkAccepted(payload)
  {
    hide CompileDomains, CompileSockets, NetworkOk, RenameFeatures, RenameNetwork;
    NetworkRenamed(payload);
    if NetworkOf(payload).Table? { NetworkCompilesIff(NetworkOf(payload).fields, show); }
  }

  lemma NormalizedShape(payload: Fields, base: Option<Resolve>, show: Show)
    requires ResolvesOnce(base) && NormalizeNetwork(RenameNetwork(RenameFeatures(payload)), show).Ok?
    ensures var network := NormalizeNetwork(RenameNetwork(RenameFeatures(payload)), show).value;
            ShapeOk(RenameValues(NormalizeFilesystem(network, base))) <==> ShapeOk(payload)
  {
    hide ShapeOk, NormalizeNetwork, NormalizeFilesystem, RenameValues, RenameNetwork, RenameFeatures, NetworkDone, ValuesDone, FeaturesDone;
    var features := RenameFeatures(payload);
    RenameFeaturesDone(payload);
    NormalizeNetworkDone(features, show);
    var network := NormalizeNetwork(RenameNetwork(features), show).value;
    var filesystem := NormalizeFilesystem(network, base);
    RenameValuesDone(filesystem);
    ResolvingKeepsShape(network, base);
    SameShape(RenameValues(filesystem), filesystem);
    SameShape(network, payload);
  }

  /** Main result: as far as networks, hooks and `deny_read` go, a layer is accepted exactly if they have the right shape. */
  lemma AcceptedIff(payload: Fields, base: Option<Resolve>, show: Show, check: Check)
    requires ResolvesOnce(base) && forall fields :: check(fields)
    ensures Normalize(payload, base, show, check).Ok? <==> NetworkAccepted(payload) && ShapeOk(payload)
  {
    hide ShapeOk, NormalizeNetwork, NormalizeFilesystem, RenameValues, RenameNetwork, RenameFeatures, NetworkOk;
    var features := RenameFeatures(payload);
    RenameFeaturesDone(payload);
    assert Find(features, EXPERIMENTAL_NETWORK) == Find(payload, EXPERIMENTAL_NETWORK) && Find(features, NETWORK) == Find(payload, NETWORK);
    if !(Has(payload, EXPERIMENTAL_NETWORK) && Has(payload, NETWORK)) {
      NetworkStepIff(payload, show);
      if NetworkAccepted(payload) { NormalizedShape(payload, base, show); }
    }
  }

  // ---------------------------------------------------------------------
  // Key by key
  // ---------------------------------------------------------------------

  /** An array with one text in place of another; anything else as it was. */
  ghost predicate WithReplaced(after: Option<Value>, before: Option<Value>, from: string, to: string) {
    if before.Some? && before.value.Array? then
      && after.Some? && after.value.Array? && |after.value.items| == |before.value.items|
      && forall i | 0 <= i < |before.value.items| ::
           after.value.items[i] == if before.value.items[i] == Text(from) then Text(to) else before.value.items[i]
    else after == before
  }

  lemma ValuesReplaced(fields: Fields, k: string)
    ensures WithReplaced(Find(RenameValues(fields), "allowed_approvals_reviewers"), Find(fields, "allowed_approvals_reviewers"),
                         "guardian_subagent", "auto_review")
    ensures WithReplaced(Find(RenameValues(fields), "allowed_approval_policies"), Find(fields, "allowed_approval_policies"),
                         "on-failure", "on-request")
    ensures k !in ["allowed_approvals_reviewers", "allowed_approval_policies"] ==> Find(RenameValues(fields), k) == Find(fields, k)
  {
    var f := v => Replaced(v, "guardian_subagent", "auto_review");
    var g := v => Replaced(v, "on-failure", "on-request");
    var first := MapArray(fields, REVIEWERS, f);
    FindMapArray(fields, REVIEWERS, f, REVIEWERS);
    FindMapArray(fields, REVIEWERS, f, POLICIES);
    FindMapArray(first, POLICIES, g, REVIEWERS);
    FindMapArray(first, POLICIES, g, POLICIES);
    FindMapArray(fields, REVIEWERS, f, k);
    FindMapArray(first, POLICIES, g, k);
  }

  lemma FeaturesRenamed(payload: Fields)
    ensures var n := RenameFeatures(payload);
            && Find(n, "features") == (if Has(payload, "features") then Find(payload, "features") else Find(payload, "feature_requirements"))
            && Find(n, "feature_requirements") == (if Has(payload, "features") then Find(payload, "feature_requirements") else None)
  {
    if Has(payload, FEATURE_REQUIREMENTS) && !Has(payload, FEATURES) {
      FindRename(payload, FEATURE_REQUIREMENTS, FEATURES, FEATURES);
      FindRename(payload, FEATURE_REQUIREMENTS, FEATURES, FEATURE_REQUIREMENTS);
    }
  }

  /**
   * Main result: an accepted layer keeps every key but those that are renamed,
   * the network, the permissions and the two lists with renamed values.
   */
  lemma NormalizedKeyByKey(payload: Fields, base: Option<Resolve>, show: Show, check: Check, k: string)
    requires Normalize(payload, base, show, check).Ok?
    ensures var n := Normalize(payload, base, show, check).value;
            && Find(n, "features") == (if Has(payload, "features") then Find(payload, "features") else Find(payload, "feature_requirements"))
            && Find(n, "feature_requirements") == (if Has(payload, "features") then Find(payload, "feature_requirements") else None)
            && !Has(n, "experimental_network")
            && WithReplaced(Find(n, "allowed_approvals_reviewers"), Find(payload, "allowed_approvals_reviewers"), "guardian_subagent", "auto_review")
            && WithReplaced(Find(n, "allowed_approval_policies"), Find(payload, "allowed_approval_policies"), "on-failure", "on-request")
            && (k !in CHANGED ==> Find(n, k) == Find(payload, k))
  {
    var features := RenameFeatures(payload);
    RenameFeaturesDone(payload);
    FeaturesRenamed(payload);
    NormalizeNetworkDone(features, show);
    var network := NormalizeNetwork(RenameNetwork(features), show).value;
    var filesystem := NormalizeFilesystem(network, base);
    forall key: string
      ensures key != PERMISSIONS ==> Find(filesystem, key) == Find(network, key)
    {
      if key != PERMISSIONS { FilesystemTouches(network, base, key); }
    }
    ValuesReplaced(filesystem, k);
    ValuesReplaced(filesystem, "features");
    ValuesReplaced(filesystem, "feature_requirements");
    ValuesReplaced(filesystem, "experimental_network");
  }

  const CHANGED := ["features", "feature_requirements", "network", "experimental_network", "permissions",
                    "allowed_approvals_reviewers", "allowed_approval_policies"]
}
