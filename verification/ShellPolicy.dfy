/** Which shell environment policies are accepted, and that merging keeps them so. */
module ShellPolicy {
  import opened Json
  import opened ConfigLayers
  import opened Wrappers

  /** `strip().lower()`, which nothing here depends on. */
  type Clean = string -> string

  datatype Policy = Policy(inherit: string, ignoreDefaultExcludes: bool, exclude: seq<string>,
                           setValues: Fields, includeOnly: seq<string>, useProfile: bool)

  const INHERIT := "inherit"
  const IGNORE_DEFAULTS := "ignore_default_excludes"
  const SET := "set"
  const USE_PROFILE := "experimental_use_profile"
  const ALLOWED := [INHERIT, IGNORE_DEFAULTS, EXCLUDE, SET, INCLUDE_ONLY, FILTERS, USE_PROFILE]

  // ---------------------------------------------------------------------
  // Acceptance
  // ---------------------------------------------------------------------

  predicate InheritOk(v: Option<Value>, clean: Clean) {
    v.None? || (v.value.Text? && Inherited(v, clean) in ["all", "core", "none"])
  }

  function Inherited(v: Option<Value>, clean: Clean): string
    requires v.None? || v.value.Text?
  {
    clean(if v.None? || v.value.text == "" then "all" else v.value.text)
  }

  predicate FlagOk(v: Option<Value>) { v.None? || v.value.Flag? }

  predicate StringsOk(v: Option<Value>) {
    v.None? || v.value.Null?
    || (v.value.Array? && forall i | 0 <= i < |v.value.items| :: v.value.items[i].Text?)
  }

  predicate Letter(c: char) { 'A' <= c <= 'Z' || 'a' <= c <= 'z' || c == '_' }

  predicate NameOk(name: string) {
    0 < |name| <= 128 && Letter(name[0]) && forall i | 0 <= i < |name| :: Letter(name[i]) || '0' <= name[i] <= '9'
  }

  predicate EntryOk(f: Field) {
    NameOk(f.key) && f.value.Text? && '\0' !in f.value.text && |f.value.text| <= 32768
  }

  predicate EntriesOk(fields: Fields) { forall i | 0 <= i < |fields| :: EntryOk(fields[i]) }

  predicate SetOk(v: Option<Value>) { v.None? || (v.value.Table? && EntriesOk(v.value.fields)) }

  predicate ActionOk(v: Value, clean: Clean) { v.Text? && clean(v.text) in ["exclude", "include"] }

  predicate ActionsOk(filters: Fields, clean: Clean) {
    forall i | 0 <= i < |filters| :: ActionOk(filters[i].value, clean)
  }

  predicate PatternsUnique(filters: Fields, fold: Fold) {
    forall i, j | 0 <= i < j < |filters| :: fold(filters[i].key) != fold(filters[j].key)
  }

  predicate FilterTableOk(filters: Fields, fold: Fold, clean: Clean) {
    ActionsOk(filters, clean) && PatternsUnique(filters, fold)
  }

  predicate HasLegacy(fields: Fields) { Has(fields, EXCLUDE) || Has(fields, INCLUDE_ONLY) }

  predicate HasLiveFilters(fields: Fields) { Has(fields, FILTERS) && !Find(fields, FILTERS).value.Null? }

  predicate FiltersOk(fields: Fields, fold: Fold, clean: Clean) {
    if HasLiveFilters(fields) then
      var v := Find(fields, FILTERS).value;
      !HasLegacy(fields) && v.Table? && FilterTableOk(v.fields, fold, clean)
    else
      StringsOk(Find(fields, EXCLUDE)) && StringsOk(Find(fields, INCLUDE_ONLY))
  }

  predicate KeysAllowed(fields: Fields) { forall i | 0 <= i < |fields| :: fields[i].key in ALLOWED }

  predicate AcceptsFields(fields: Fields, fold: Fold, clean: Clean) {
    && KeysAllowed(fields)
    && InheritOk(Find(fields, INHERIT), clean)
    && FlagOk(Find(fields, IGNORE_DEFAULTS)) && FlagOk(Find(fields, USE_PROFILE))
    && FiltersOk(fields, fold, clean)
    && SetOk(Find(fields, SET))
  }

  predicate Accepts(policy: Option<Value>, fold: Fold, clean: Clean) {
    policy.None? || policy.value.Null? || (policy.value.Table? && AcceptsFields(policy.value.fields, fold, clean))
  }

  // ---------------------------------------------------------------------
  // Reading a policy
  // ---------------------------------------------------------------------

  /** The patterns whose action is `action`, in table order. */
  function PatternsFor(filters: Fields, action: string, clean: Clean): seq<string>
    decreases |filters|
  {
    if filters == [] then []
    else
      var rest := PatternsFor(filters[..|filters| - 1], action, clean);
      var last := filters[|filters| - 1];
      if last.value.Text? && clean(last.value.text) == action then rest + [last.key] else rest
  }

  function Strings(v: Option<Value>): seq<string>
    requires StringsOk(v)
  {
    if v.None? || v.value.Null? then []
    else seq(|v.value.items|, i requires 0 <= i < |v.value.items| => v.value.items[i].text)
  }

  function FlagOr(v: Option<Value>, default: bool): bool
    requires FlagOk(v)
  {
    if v.None? then default else v.value.flag
  }

  // What reading yields, field by field, in terms of the table alone.

  predicate HasAction(f: Field, action: string, clean: Clean) { f.value.Text? && clean(f.value.text) == action }

  /** `patterns` are, in table order, the keys of the entries whose action cleans to `action`. */
  ghost predicate ArePatterns(patterns: seq<string>, filters: Fields, action: string, clean: Clean) {
    && (forall p :: p in patterns <==>
          exists i :: 0 <= i < |filters| && filters[i].key == p && HasAction(filters[i], action, clean))
    && forall j, k | 0 <= j < k < |patterns| :: KeysInOrder(filters, patterns[j], patterns[k])
  }

  /** Some entry for `p` is in front of one for `q`. */
  ghost predicate KeysInOrder(filters: Fields, p: string, q: string) {
    exists a, b :: 0 <= a < b < |filters| && filters[a].key == p && filters[b].key == q
  }

  /** `strings` are the texts of the array `v`, none for a missing or null one. */
  ghost predicate AreTexts(strings: seq<string>, v: Option<Value>) {
    if v.None? || v.value.Null? then strings == []
    else v.value.Array? && |v.value.items| == |strings| && forall i | 0 <= i < |strings| :: v.value.items[i] == Text(strings[i])
  }

  /** Both lists come from the filter table if there is one, and from the two legacy arrays otherwise. */
  ghost predicate AreFilters(exclude: seq<string>, included: seq<string>, fields: Fields, clean: Clean) {
    var filters := Find(fields, "filters");
    if filters.Some? && !filters.value.Null? then
      && filters.value.Table?
      && ArePatterns(exclude, filters.value.fields, "exclude", clean)
      && ArePatterns(included, filters.value.fields, "include", clean)
    else
      AreTexts(exclude, Find(fields, "exclude")) && AreTexts(included, Find(fields, "include_only"))
  }

  /** The value under a key, or the default when it is missing. */
  ghost predicate IsFlag(flag: bool, v: Option<Value>, default: bool) {
    if v.None? then flag == default else v.value == Flag(flag)
  }

  /** What a policy table means. */
  ghost predicate Means(policy: Policy, fields: Fields, clean: Clean) {
    var inherit, values := Find(fields, "inherit"), Find(fields, "set");
    && (inherit.Some? ==> policy.inherit in ["all", "core", "none"])
    && policy.inherit == clean(if inherit.Some? && inherit.value.Text? && inherit.value.text != "" then inherit.value.text else "all")
    && IsFlag(policy.ignoreDefaultExcludes, Find(fields, "ignore_default_excludes"), true)
    && IsFlag(policy.useProfile, Find(fields, "experimental_use_profile"), false)
    && AreFilters(policy.exclude, policy.includeOnly, fields, clean)
    && (if values.None? then policy.setValues == [] else values.value == Table(policy.setValues))
  }

  lemma {:induction false} PatternsForMember(filters: Fields, action: string, clean: Clean, p: string)
    ensures p in PatternsFor(filters, action, clean) <==>
            exists i :: 0 <= i < |filters| && filters[i].key == p && HasAction(filters[i], action, clean)
    decreases |filters|
  {
    if filters != [] {
      var n := |filters| - 1;
      PatternsForMember(filters[..n], action, clean, p);
      if i :| 0 <= i < n && filters[..n][i].key == p && HasAction(filters[..n][i], action, clean) {
        assert filters[i].key == p;
      }
      if i :| 0 <= i < |filters| && filters[i].key == p && HasAction(filters[i], action, clean) {
        assert i < n ==> filters[..n][i] == filters[i];
      }
    }
  }

  lemma {:induction false} PatternsForOrder(filters: Fields, action: string, clean: Clean, j: int, k: int)
    requires 0 <= j < k < |PatternsFor(filters, action, clean)|
    ensures KeysInOrder(filters, PatternsFor(filters, action, clean)[j], PatternsFor(filters, action, clean)[k])
    decreases |filters|
  {
    var n := |filters| - 1;
    var before := PatternsFor(filters[..n], action, clean);
    var patterns := PatternsFor(filters, action, clean);
    if k < |before| {
      PatternsForOrder(filters[..n], action, clean, j, k);
      var a, b :| 0 <= a < b < n && filters[..n][a].key == before[j] && filters[..n][b].key == before[k];
      assert filters[a].key == patterns[j] && filters[b].key == patterns[k];
    } else {
      assert before[j] in before;
      PatternsForMember(filters[..n], action, clean, before[j]);
      var a :| 0 <= a < n && filters[..n][a].key == before[j];
      assert filters[a].key == patterns[j] && filters[n].key == patterns[k];
    }
  }

  lemma PatternsForMeaning(filters: Fields, action: string, clean: Clean)
    ensures ArePatterns(PatternsFor(filters, action, clean), filters, action, clean)
  {
    forall p
      ensures p in PatternsFor(filters, action, clean) <==>
              exists i :: 0 <= i < |filters| && filters[i].key == p && HasAction(filters[i], action, clean)
    {
      PatternsForMember(filters, action, clean, p);
    }
    forall j, k | 0 <= j < k < |PatternsFor(filters, action, clean)|
      ensures KeysInOrder(filters, PatternsFor(filters, action, clean)[j], PatternsFor(filters, action, clean)[k])
    {
      PatternsForOrder(filters, action, clean, j, k);
    }
  }

  /** A policy in its legacy spelling. */
  function Written(p: Policy): Fields {
    [Field("inherit", Text(p.inherit)), Field("ignore_default_excludes", Flag(p.ignoreDefaultExcludes)),
     Field("exclude", Array(AsTexts(p.exclude))), Field("set", Table(p.setValues)),
     Field("include_only", Array(AsTexts(p.includeOnly))), Field("experimental_use_profile", Flag(p.useProfile))]
  }

  function AsTexts(s: seq<string>): seq<Value> { seq(|s|, i requires 0 <= i < |s| => Text(s[i])) }

  /** Main result: a written policy is accepted, and means itself and nothing else. */
  lemma WrittenMeansItself(p: Policy, q: Policy, fold: Fold, clean: Clean)
    requires p.inherit in ["all", "core", "none"] && clean(p.inherit) == p.inherit && EntriesOk(p.setValues)
    ensures Accepts(Some(Table(Written(p))), fold, clean)
    ensures Means(q, Written(p), clean) <==> q == p
  {
    var fields := Written(p);
    FindAllWritten(p);
    forall i | 0 <= i < |fields|
      ensures fields[i].key in ALLOWED
    {
    }
    assert |p.exclude| == |AsTexts(p.exclude)| && |p.includeOnly| == |AsTexts(p.includeOnly)|;
    if Means(q, fields, clean) {
      assert q.exclude == p.exclude && q.includeOnly == p.includeOnly;
    }
  }

  /** Two lists of patterns as a filter table. */
  function WrittenFilters(exclude: seq<string>, included: seq<string>): Fields {
    seq(|exclude| + |included|, i requires 0 <= i < |exclude| + |included| =>
      if i < |exclude| then Field(exclude[i], Text("exclude")) else Field(included[i - |exclude|], Text("include")))
  }

  /** No two of the patterns are the same in any case. */
  ghost predicate Unlike(patterns: seq<string>, fold: Fold) {
    forall i, j | 0 <= i < j < |patterns| :: fold(patterns[i]) != fold(patterns[j])
  }

  /** Main result: patterns that differ beyond case can be written as a filter table, which is accepted and means just them. */
  lemma WrittenFiltersMeanThemselves(exclude: seq<string>, included: seq<string>, fold: Fold, clean: Clean)
    requires Unlike(exclude + included, fold) && clean("exclude") == "exclude" && clean("include") == "include"
    ensures var fields := [Field("filters", Table(WrittenFilters(exclude, included)))];
            && Accepts(Some(Table(fields)), fold, clean)
            && AreFilters(exclude, included, fields, clean)
  {
    var filters := WrittenFilters(exclude, included);
    var fields := [Field("filters", Table(filters))];
    FiltersWritten(exclude, included, fold, clean);
    PartIs(exclude, included, exclude, "exclude", 0, clean);
    PartIs(exclude, included, included, "include", |exclude|, clean);
    FindOneField("filters", Table(filters));
    hide WrittenFilters, FilterTableOk, ArePatterns, EntriesOk, StringsOk;
    assert AcceptsFields(fields, fold, clean);
  }

  lemma FindOneField(k: string, v: Value)
    ensures forall other :: Find([Field(k, v)], other) == if other == k then Some(v) else None
  {
    assert [Field(k, v)][1..] == [];
  }

  lemma FiltersWritten(exclude: seq<string>, included: seq<string>, fold: Fold, clean: Clean)
    requires Unlike(exclude + included, fold) && clean("exclude") == "exclude" && clean("include") == "include"
    ensures FilterTableOk(WrittenFilters(exclude, included), fold, clean)
  {
    var filters := WrittenFilters(exclude, included);
    forall i | 0 <= i < |filters|
      ensures filters[i].key == (exclude + included)[i]
    {
    }
  }

  /** The part of the table from `from` on is what `patterns` is written to. */
  ghost predicate IsPart(filters: Fields, patterns: seq<string>, action: string, from: nat, clean: Clean) {
    && from + |patterns| <= |filters|
    && (forall k | 0 <= k < |patterns| :: filters[from + k].key == patterns[k])
    && forall i | 0 <= i < |filters| :: HasAction(filters[i], action, clean) <==> from <= i < from + |patterns|
  }

  lemma PartIs(exclude: seq<string>, included: seq<string>, patterns: seq<string>, action: string, from: nat, clean: Clean)
    requires clean("exclude") == "exclude" && clean("include") == "include"
    requires (patterns == exclude && action == "exclude" && from == 0) || (patterns == included && action == "include" && from == |exclude|)
    ensures ArePatterns(patterns, WrittenFilters(exclude, included), action, clean)
  {
    var filters := WrittenFilters(exclude, included);
    assert "exclude" != "include";
    forall i | 0 <= i < |filters|
      ensures HasAction(filters[i], action, clean) <==> from <= i < from + |patterns|
    {
      assert filters[i].value == Text("exclude") || filters[i].value == Text("include");
    }
    PartMeans(filters, patterns, action, from, clean);
  }

  lemma PartMeans(filters: Fields, patterns: seq<string>, action: string, from: nat, clean: Clean)
    requires IsPart(filters, patterns, action, from, clean)
    ensures ArePatterns(patterns, filters, action, clean)
  {
    forall p
      ensures p in patterns <==> exists i :: 0 <= i < |filters| && filters[i].key == p && HasAction(filters[i], action, clean)
    {
      if p in patterns { var k :| 0 <= k < |patterns| && patterns[k] == p; assert filters[from + k].key == p; }
      if i :| 0 <= i < |filters| && filters[i].key == p && HasAction(filters[i], action, clean) {
        assert patterns[i - from] == filters[from + (i - from)].key;
      }
    }
    forall j, k | 0 <= j < k < |patterns|
      ensures KeysInOrder(filters, patterns[j], patterns[k])
    {
      assert filters[from + j].key == patterns[j] && filters[from + k].key == patterns[k];
    }
  }

  /** By code point: A to Z, a to z, and the underscore. */
  predicate StartsName(c: char) { 65 <= c as int <= 90 || 97 <= c as int <= 122 || c as int == 95 }

  /** Or a digit. */
  predicate ContinuesName(c: char) { StartsName(c) || 48 <= c as int <= 57 }

  /** An override is valid if its name is one of a variable and its text has no null character and at most 32768 others. */
  lemma EntryOkIff(f: Field)
    ensures EntryOk(f) <==>
            && 1 <= |f.key| <= 128 && StartsName(f.key[0]) && (forall c | c in f.key :: ContinuesName(c))
            && f.value.Text? && |f.value.text| <= 32768 && forall c | c in f.value.text :: c as int != 0
  {
    forall c: char
      ensures Letter(c) <==> StartsName(c)
      ensures Letter(c) || '0' <= c <= '9' <==> ContinuesName(c)
    {
    }
    assert forall i | 0 <= i < |f.key| :: f.key[i] in f.key;
  }

  lemma FindAllWritten(p: Policy)
    ensures var f := Written(p);
            && Find(f, "inherit") == Some(Text(p.inherit))
            && Find(f, "ignore_default_excludes") == Some(Flag(p.ignoreDefaultExcludes))
            && Find(f, "exclude") == Some(Array(AsTexts(p.exclude)))
            && Find(f, "set") == Some(Table(p.setValues))
            && Find(f, "include_only") == Some(Array(AsTexts(p.includeOnly)))
            && Find(f, "experimental_use_profile") == Some(Flag(p.useProfile))
            && Find(f, "filters") == None
  {
    var f := Written(p);
    assert DistinctKeys(f);
    forall i | 0 <= i < |f|
      ensures Find(f, f[i].key) == Some(f[i].value)
    {
      FindAt(f, i);
    }
    assert f[0].key == "inherit" && f[1].key == "ignore_default_excludes" && f[2].key == "exclude";
    assert f[3].key == "set" && f[4].key == "include_only" && f[5].key == "experimental_use_profile";
    if Has(f, "filters") { var i := FindIndex(f, "filters"); }
  }

  /** `seen` are the folded patterns of the first `i` entries, which are well-formed. */
  ghost predicate ReadUpTo(filters: Fields, i: int, seen: set<string>, fold: Fold, clean: Clean) {
    && 0 <= i <= |filters| && FilterTableOk(filters[..i], fold, clean)
    && forall x :: x in seen <==> exists j :: 0 <= j < i && fold(filters[j].key) == x
  }

  lemma ReadNext(filters: Fields, i: int, seen: set<string>, fold: Fold, clean: Clean)
    requires ReadUpTo(filters, i, seen, fold, clean) && i < |filters|
    ensures if ActionOk(filters[i].value, clean) && fold(filters[i].key) !in seen
            then ReadUpTo(filters, i + 1, seen + {fold(filters[i].key)}, fold, clean)
            else !FilterTableOk(filters, fold, clean)
  {
    var next := filters[..i + 1];
    assert forall j | 0 <= j < i :: next[j] == filters[..i][j];
    if fold(filters[i].key) in seen {
      var j :| 0 <= j < i && fold(filters[j].key) == fold(filters[i].key);
    } else if ActionOk(filters[i].value, clean) {
      forall x
        ensures x in seen + {fold(filters[i].key)} <==> exists j :: 0 <= j < i + 1 && fold(filters[j].key) == x
      {
        if j :| 0 <= j < i + 1 && fold(filters[j].key) == x { assert j < i ==> x in seen; }
        if x == fold(filters[i].key) { assert fold(filters[i].key) == x; }
      }
    }
  }

  lemma ReadNone(filters: Fields, fold: Fold, clean: Clean)
    ensures ReadUpTo(filters, 0, {}, fold, clean)
  {
  }

  lemma ReadAll(filters: Fields, seen: set<string>, fold: Fold, clean: Clean)
    requires ReadUpTo(filters, |filters|, seen, fold, clean)
    ensures FilterTableOk(filters, fold, clean)
  {
    assert filters[..|filters|] == filters;
  }

  /** The filter loop with its set of folded patterns seen so far. */
  method ReadFilters(filters: Fields, fold: Fold, clean: Clean) returns (ok: bool, exclude: seq<string>, included: seq<string>)
    ensures ok <==> FilterTableOk(filters, fold, clean)
    ensures ok ==> exclude == PatternsFor(filters, "exclude", clean) && included == PatternsFor(filters, "include", clean)
  {
    hide FilterTableOk, ReadUpTo;
    var seen: set<string> := {};
    ReadNone(filters, fold, clean);
    exclude, included := [], [];
    for i := 0 to |filters|
      invariant ReadUpTo(filters, i, seen, fold, clean)
      invariant exclude == PatternsFor(filters[..i], "exclude", clean) && included == PatternsFor(filters[..i], "include", clean)
    {
      var pattern, value := filters[i].key, filters[i].value;
      ReadNext(filters, i, seen, fold, clean);
      if !value.Text? || fold(pattern) in seen {
        return false, [], [];
      }
      seen := seen + {fold(pattern)};
      var action := clean(value.text);
      assert filters[..i + 1][..i] == filters[..i];
      if action == "exclude" {
        exclude := exclude + [pattern];
      } else if action == "include" {
        included := included + [pattern];
      } else {
        return false, [], [];
      }
    }
    assert filters[..|filters|] == filters;
    ReadAll(filters, seen, fold, clean);
    ok := true;
  }

  /** `_validated_env_mapping` without `drop_invalid`: accepts a table of valid entries unchanged. */
  method ReadEnvironment(fields: Fields) returns (ok: bool)
    ensures ok <==> EntriesOk(fields)
  {
    for i := 0 to |fields|
      invariant EntriesOk(fields[..i])
    {
      if !EntryOk(fields[i]) {
        return false;
      }
    }
    assert fields[..|fields|] == fields;
    ok := true;
  }

  /** `ShellEnvironmentPolicy.from_mapping`: succeeds exactly on the accepted policies, and yields what they mean. */
  method FromMapping(policy: Option<Value>, fold: Fold, clean: Clean) returns (r: Result<Policy>)
    ensures r.Ok? <==> Accepts(policy, fold, clean)
    ensures r.Ok? ==> Means(r.value, FieldsOf(policy), clean)
  {
    if policy.None? || policy.value.Null? {
      return Ok(Policy(clean("all"), true, [], [], [], false));
    }
    if !policy.value.Table? {
      return Err("must be a table");
    }
    var fields := policy.value.fields;
    for i := 0 to |fields|
      invariant KeysAllowed(fields[..i])
    {
      if fields[i].key !in ALLOWED {
        return Err("unknown field");
      }
    }
    assert fields[..|fields|] == fields;
    var inherit := Find(fields, INHERIT);
    if inherit.Some? && !inherit.value.Text? {
      return Err("inherit must be a string");
    }
    var ignoreDefaults, useProfile := Find(fields, IGNORE_DEFAULTS), Find(fields, USE_PROFILE);
    if !FlagOk(ignoreDefaults) || !FlagOk(useProfile) {
      return Err("must be a boolean");
    }
    var exclude, included: seq<string> := [], [];
    if HasLiveFilters(fields) {
      var filters := Find(fields, FILTERS).value;
      if HasLegacy(fields) {
        return Err("cannot mix filters with exclude or include_only");
      }
      if !filters.Table? {
        return Err("filters must be a table");
      }
      var ok;
      ok, exclude, included := ReadFilters(filters.fields, fold, clean);
      if !ok {
        return Err("bad filters");
      }
      PatternsForMeaning(filters.fields, "exclude", clean);
      PatternsForMeaning(filters.fields, "include", clean);
    } else {
      if !StringsOk(Find(fields, EXCLUDE)) || !StringsOk(Find(fields, INCLUDE_ONLY)) {
        return Err("must be an array of strings");
      }
      exclude, included := Strings(Find(fields, EXCLUDE)), Strings(Find(fields, INCLUDE_ONLY));
    }
    var values := Find(fields, SET);
    if values.Some? && !values.value.Table? {
      return Err("set must be a table");
    }
    var valid := ReadEnvironment(FieldsOf(values));
    if !valid {
      return Err("invalid environment variable override");
    }
    if !InheritOk(inherit, clean) {
      return Err("inherit must be all, core, or none");
    }
    r := Ok(Policy(Inherited(inherit, clean), FlagOr(ignoreDefaults, true), exclude,
                   FieldsOf(values), included, FlagOr(useProfile, false)));
  }

  // ---------------------------------------------------------------------
  // Merging keeps policies accepted
  // ---------------------------------------------------------------------

  lemma {:induction false} SetEntries(fields: Fields, k: string, v: Value)
    ensures forall f :: f in Set(fields, k, v) ==> f in fields || f == Field(k, v)
    decreases |fields|
  {
    if fields != [] && fields[0].key != k {
      SetEntries(fields[1..], k, v);
    }
  }

  lemma {:induction false} SetNewKey(fields: Fields, k: string, v: Value)
    requires forall i | 0 <= i < |fields| :: fields[i].key != k
    ensures Set(fields, k, v) == fields + [Field(k, v)]
    decreases |fields|
  {
    if fields != [] {
      SetNewKey(fields[1..], k, v);
    }
  }

  lemma {:induction false} EnvironmentsMerge(target: Fields, incoming: Fields, fold: Fold)
    requires EntriesOk(target) && EntriesOk(incoming)
    ensures EntriesOk(DeepMerge(target, incoming, fold))
    decreases |incoming|
  {
    if incoming != [] {
      var f := incoming[0];
      SetEntries(target, f.key, f.value);
      var merged := Set(target, f.key, f.value);
      forall i | 0 <= i < |merged|
        ensures EntryOk(merged[i])
      {
        assert merged[i] in merged;
      }
      EnvironmentsMerge(merged, incoming[1..], fold);
    }
  }

  lemma {:induction false} RemoveFoldedEntries(filters: Fields, pattern: string, fold: Fold)
    ensures forall f :: f in RemoveFolded(filters, pattern, fold) ==> f in filters && fold(f.key) != fold(pattern)
    decreases |filters|
  {
    if filters != [] {
      RemoveFoldedEntries(filters[1..], pattern, fold);
    }
  }

  lemma {:induction false} RemoveFoldedKeeps(filters: Fields, pattern: string, fold: Fold, clean: Clean)
    requires FilterTableOk(filters, fold, clean)
    ensures FilterTableOk(RemoveFolded(filters, pattern, fold), fold, clean)
    decreases |filters|
  {
    if filters != [] {
      RemoveFoldedKeeps(filters[1..], pattern, fold, clean);
      if fold(filters[0].key) != fold(pattern) {
        RemoveFoldedEntries(filters[1..], pattern, fold);
        OneMoreFilter(filters[0], filters[1..], RemoveFolded(filters[1..], pattern, fold), fold, clean);
        assert filters == [filters[0]] + filters[1..];
      }
    }
  }

  lemma OneMoreFilter(first: Field, rest: Fields, kept: Fields, fold: Fold, clean: Clean)
    requires FilterTableOk([first] + rest, fold, clean) && FilterTableOk(kept, fold, clean)
    requires forall f :: f in kept ==> f in rest
    ensures FilterTableOk([first] + kept, fold, clean)
  {
    var filters := [first] + rest;
    forall i | 0 <= i < |kept|
      ensures fold(kept[i].key) != fold(first.key)
    {
      assert kept[i] in rest;
      var j :| 0 <= j < |rest| && rest[j] == kept[i];
      assert filters[0] == first && filters[j + 1] == kept[i];
    }
    assert ActionOk(filters[0].value, clean);
  }

  /** Filter patterns stay unique under case folding. */
  lemma {:induction false} FilterTablesMerge(filters: Fields, incoming: Fields, fold: Fold, clean: Clean)
    requires FilterTableOk(filters, fold, clean) && FilterTableOk(incoming, fold, clean)
    ensures FilterTableOk(MergeFilters(filters, incoming, fold), fold, clean)
    decreases |incoming|
  {
    if incoming != [] {
      var f := incoming[0];
      RemoveFoldedKeeps(filters, f.key, fold, clean);
      RemoveFoldedEntries(filters, f.key, fold);
      var kept := RemoveFolded(filters, f.key, fold);
      assert forall i | 0 <= i < |kept| :: kept[i] in kept;
      SetNewKey(kept, f.key, f.value);
      FilterTablesMerge(Set(kept, f.key, f.value), incoming[1..], fold, clean);
    }
  }

  lemma {:induction false} RemoveEntries(fields: Fields, k: string)
    ensures forall f :: f in Remove(fields, k) ==> f in fields
    decreases |fields|
  {
    if fields != [] {
      RemoveEntries(fields[1..], k);
    }
  }

  lemma {:induction false} KeysMerge(merged: Fields, incoming: Fields, fold: Fold)
    requires KeysAllowed(merged) && KeysAllowed(incoming)
    ensures KeysAllowed(MergeShellFields(merged, incoming, fold))
    decreases |incoming|
  {
    if incoming != [] {
      var f := incoming[0];
      var v := ShellValue(f.key, Find(merged, f.key), f.value, fold);
      SetEntries(merged, f.key, v);
      var next := Set(merged, f.key, v);
      forall i | 0 <= i < |next|
        ensures next[i].key in ALLOWED
      {
        assert next[i] in next;
      }
      KeysMerge(next, incoming[1..], fold);
    }
  }

  lemma DisplacedKeys(current: Fields, incoming: Fields)
    requires KeysAllowed(current)
    ensures KeysAllowed(Displaced(current, incoming))
  {
    RemoveEntries(current, EXCLUDE);
    RemoveEntries(Remove(current, EXCLUDE), INCLUDE_ONLY);
    RemoveEntries(current, FILTERS);
    var r := Displaced(current, incoming);
    forall i | 0 <= i < |r|
      ensures r[i].key in ALLOWED
    {
      assert r[i] in r;
    }
  }

  /** What the merged policy holds under a key other than `filters`. */
  lemma MergedField(current: Fields, incoming: Fields, fold: Fold, k: string)
    requires DistinctKeys(incoming)
    ensures var lower := Find(Displaced(current, incoming), k);
            Find(MergeShell(current, incoming, fold), k) ==
            if Has(incoming, k) then Some(ShellValue(k, lower, Find(incoming, k).value, fold)) else lower
  {
    FindMergeShellFields(Displaced(current, incoming), incoming, fold, k);
  }

  lemma FiltersMerge(current: Fields, incoming: Fields, fold: Fold, clean: Clean)
    requires DistinctKeys(incoming)
    requires FiltersOk(current, fold, clean) && FiltersOk(incoming, fold, clean)
    ensures FiltersOk(MergeShell(current, incoming, fold), fold, clean)
  {
    forall k: string
      ensures Find(Displaced(current, incoming), k) ==
              if (Has(incoming, FILTERS) && k in {EXCLUDE, INCLUDE_ONLY})
                 || (!Has(incoming, FILTERS) && HasLegacy(incoming) && k == FILTERS)
              then None else Find(current, k)
    {
      FindDisplaced(current, incoming, k);
    }
    MergedField(current, incoming, fold, FILTERS);
    MergedField(current, incoming, fold, EXCLUDE);
    MergedField(current, incoming, fold, INCLUDE_ONLY);
    if HasLiveFilters(incoming) {
      var below := FieldsOf(Find(current, FILTERS));
      assert FilterTableOk(below, fold, clean);
      FilterTablesMerge(below, Find(incoming, FILTERS).value.fields, fold, clean);
    }
  }

  /** Main result: merging an accepted policy over an accepted one gives an accepted one. */
  lemma MergeKeepsAccepted(current: Fields, incoming: Fields, fold: Fold, clean: Clean)
    requires DistinctKeys(incoming)
    requires AcceptsFields(current, fold, clean) && AcceptsFields(incoming, fold, clean)
    ensures AcceptsFields(MergeShell(current, incoming, fold), fold, clean)
  {
    DisplacedKeys(current, incoming);
    KeysMerge(Displaced(current, incoming), incoming, fold);
    FiltersMerge(current, incoming, fold, clean);
    FindDisplaced(current, incoming, INHERIT);
    FindDisplaced(current, incoming, IGNORE_DEFAULTS);
    FindDisplaced(current, incoming, USE_PROFILE);
    FindDisplaced(current, incoming, SET);
    MergedField(current, incoming, fold, INHERIT);
    MergedField(current, incoming, fold, IGNORE_DEFAULTS);
    MergedField(current, incoming, fold, USE_PROFILE);
    MergedField(current, incoming, fold, SET);
    if Has(incoming, SET) && Has(current, SET) {
      EnvironmentsMerge(Find(current, SET).value.fields, Find(incoming, SET).value.fields, fold);
    }
  }

  ghost predicate LayerAccepted(layer: Fields, fold: Fold, clean: Clean) {
    WellFormedFields(layer) && Accepts(Find(layer, SHELL_POLICY), fold, clean)
  }

  /** Main result: if every layer's policy is accepted, so is the effective one, for any number of layers. */
  lemma {:induction false} EffectivePolicyAccepted(layers: seq<Fields>, fold: Fold, clean: Clean)
    requires forall i | 0 <= i < |layers| :: LayerAccepted(layers[i], fold, clean)
    ensures Accepts(Find(Effective(layers, fold), SHELL_POLICY), fold, clean)
    decreases |layers|
  {
    if layers != [] {
      var n := |layers| - 1;
      EffectivePolicyAccepted(layers[..n], fold, clean);
      var below := Effective(layers[..n], fold);
      FindDeepMerge(below, layers[n], fold, SHELL_POLICY);
      var current, incoming := Find(below, SHELL_POLICY), Find(layers[n], SHELL_POLICY);
      if incoming.Some? && incoming.value.Table? {
        WellFormedAt(layers[n], SHELL_POLICY);
        assert AcceptsFields(FieldsOf(current), fold, clean);
        MergeKeepsAccepted(FieldsOf(current), incoming.value.fields, fold, clean);
      }
    }
  }

  /** Live filters never coexist with the legacy arrays, and their patterns are unique up to case. */
  lemma EffectiveFiltersAreExclusive(layers: seq<Fields>, fold: Fold, clean: Clean)
    requires forall i | 0 <= i < |layers| :: LayerAccepted(layers[i], fold, clean)
    ensures var policy := FieldsOf(Find(Effective(layers, fold), SHELL_POLICY));
            HasLiveFilters(policy) ==>
              !HasLegacy(policy) && PatternsUnique(FieldsOf(Find(policy, FILTERS)), fold)
  {
    EffectivePolicyAccepted(layers, fold, clean);
  }

  /** A pattern survives the merge exactly if the upper layer has it, or no upper pattern is a spelling of it. */
  lemma {:induction false} MergedFilterIff(filters: Fields, incoming: Fields, fold: Fold, k: string)
    requires PatternsUnique(incoming, fold)
    ensures Find(MergeFilters(filters, incoming, fold), k) ==
            if Has(incoming, k) then Find(incoming, k)
            else if exists i | 0 <= i < |incoming| :: fold(incoming[i].key) == fold(k) then None
            else Find(filters, k)
    decreases |incoming|
  {
    if incoming != [] {
      var f := incoming[0];
      var lower := RemoveFolded(filters, f.key, fold);
      var rest := incoming[1..];
      MergedFilterIff(Set(lower, f.key, f.value), rest, fold, k);
      FindSet(lower, f.key, f.value, k);
      FindRemoveFolded(filters, f.key, fold, k);
      assert (exists i | 0 <= i < |incoming| :: fold(incoming[i].key) == fold(k)) <==>
             fold(f.key) == fold(k) || exists i | 0 <= i < |rest| :: fold(rest[i].key) == fold(k) by {
        assert forall i | 1 <= i < |incoming| :: rest[i - 1] == incoming[i];
        assert incoming[0] == f;
      }
      if f.key == k && Has(rest, k) {
        var i := FindIndex(rest, k);
      }
      if Has(rest, k) {
        var i := FindIndex(rest, k);
        assert incoming[i + 1] == rest[i];
      }
    }
  }
}
