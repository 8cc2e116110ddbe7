/** Composing layers of configuration requirements. */
module Requirements {
  import opened Json
  import opened Wrappers

  const PERMISSIONS := "permissions"
  const FILESYSTEM := "filesystem"
  const DENY_READ := "deny_read"
  const HOOKS := "hooks"
  const MANAGED := ["managed_dir", "windows_managed_dir"]

  // ---------------------------------------------------------------------
  // Merging one layer
  // ---------------------------------------------------------------------

  function Merge(target: Fields, incoming: Fields): Fields
    decreases incoming, 0
  {
    if incoming == [] then target
    else
      var f := incoming[0];
      Merge(Set(target, f.key, Merged(Find(target, f.key), f.value)), incoming[1..])
  }

  function Merged(current: Option<Value>, value: Value): Value
    decreases value, 1
  {
    if current.Some? && current.value.Table? && value.Table? then Table(Merge(current.value.fields, value.fields))
    else value
  }

  /** `value.get(k)` of something that may not be a table, with a missing key read as null. */
  function Get(v: Value, k: string): Value {
    if v.Table? && Has(v.fields, k) then Find(v.fields, k).value else Null
  }

  predicate IsStrings(v: Value) { v.Array? && forall i | 0 <= i < |v.items| :: v.items[i].Text? }

  function StringsOf(v: Value): seq<string>
    requires IsStrings(v)
  {
    seq(|v.items|, i requires 0 <= i < |v.items| => v.items[i].text)
  }

  function TextsOf(strings: seq<string>): seq<Value> { seq(|strings|, i requires 0 <= i < |strings| => Text(strings[i])) }

  /** `permissions.filesystem.deny_read`, if it is an array of strings. */
  function DenyRead(fields: Fields): Option<seq<string>> {
    var v := Get(Get(Get(Table(fields), PERMISSIONS), FILESYSTEM), DENY_READ);
    if IsStrings(v) then Some(StringsOf(v)) else None
  }

  /** `dict.fromkeys` on top of the keys `seen`. */
  function AddNew<T(==)>(seen: seq<T>, s: seq<T>): seq<T>
    decreases |s|
  {
    if s == [] then seen
    else
      var before := AddNew(seen, s[..|s| - 1]);
      if s[|s| - 1] in before then before else before + [s[|s| - 1]]
  }

  function Dedup<T(==)>(s: seq<T>): seq<T> { AddNew([], s) }

  function OrEmpty<T>(s: Option<seq<T>>): seq<T> { if s.Some? then s.value else [] }

  /** `table.setdefault(key, {})`, and what is there afterwards. */
  function SetDefaultTable(fields: Fields, key: string): (r: Fields)
    ensures Has(r, key) && (Has(fields, key) ==> r == fields)
  {
    FindSet(fields, key, Table([]), key);
    if Has(fields, key) then fields else Set(fields, key, Table([]))
  }

  /** Stores the composed list, unless something other than a table is in the way. */
  function StoreDeny(fields: Fields, deny: seq<string>): Fields {
    var outer := SetDefaultTable(fields, PERMISSIONS);
    var permissions := Find(outer, PERMISSIONS).value;
    if !permissions.Table? then outer
    else
      var inner := SetDefaultTable(permissions.fields, FILESYSTEM);
      var filesystem := Find(inner, FILESYSTEM).value;
      var stored := if filesystem.Table?
        then Set(inner, FILESYSTEM, Table(Set(filesystem.fields, DENY_READ, Array(TextsOf(deny)))))
        else inner;
      Set(outer, PERMISSIONS, Table(stored))
  }

  predicate IsEventList(f: Field) { f.key !in MANAGED && f.value.Array? }

  function Lower(previous: Value, event: string): seq<Value> {
    var v := Get(previous, event);
    if v.Array? then v.items else []
  }

  /** `_requirement_event_lists`: each incoming event's list, followed by the lower one. */
  function EventLists(incoming: Fields, previous: Value): Fields
    decreases |incoming|
  {
    if incoming == [] then []
    else
      var rest := EventLists(incoming[..|incoming| - 1], previous);
      var f := incoming[|incoming| - 1];
      if IsEventList(f) then Set(rest, f.key, Array(f.value.items + Lower(previous, f.key))) else rest
  }

  function HookLists(incoming: Fields, existing: Fields): Fields {
    var hooks := Get(Table(incoming), HOOKS);
    if hooks.Table? then EventLists(hooks.fields, Get(Table(existing), HOOKS)) else []
  }

  function SetAll(fields: Fields, updates: Fields): Fields
    decreases |updates|
  {
    if updates == [] then fields
    else
      var f := updates[|updates| - 1];
      Set(SetAll(fields, updates[..|updates| - 1]), f.key, f.value)
  }

  function StoreHooks(fields: Fields, lists: Fields): Fields {
    if lists == [] then fields
    else
      var outer := SetDefaultTable(fields, HOOKS);
      var hooks := Find(outer, HOOKS).value;
      if hooks.Table? then Set(outer, HOOKS, Table(SetAll(hooks.fields, lists))) else outer
  }

  /** `_merge_requirement_layer`. */
  function MergeLayer(target: Fields, incoming: Fields): Fields {
    var merged := Merge(target, incoming);
    var withDeny := if DenyRead(incoming).Some?
      then StoreDeny(merged, Dedup(DenyRead(incoming).value + OrEmpty(DenyRead(target))))
      else merged;
    StoreHooks(withDeny, HookLists(incoming, target))
  }

  /** The layers, lowest first, merged in turn. */
  function Compose(layers: seq<Fields>): Fields
    decreases |layers|
  {
    if layers == [] then [] else MergeLayer(Compose(layers[..|layers| - 1]), layers[|layers| - 1])
  }

  // ---------------------------------------------------------------------
  // What validation guarantees of a layer
  // ---------------------------------------------------------------------

  predicate TableOrNull(v: Value) { v.Table? || v.Null? }

  /** The parts of layer validation that concern hooks and `deny_read`. */
  predicate ShapeOk(layer: Fields) {
    var permissions := Get(Table(layer), PERMISSIONS);
    var filesystem := Get(permissions, FILESYSTEM);
    var deny := Get(filesystem, DENY_READ);
    && TableOrNull(Get(Table(layer), HOOKS))
    && TableOrNull(permissions) && TableOrNull(filesystem)
    && (deny.Null? || (IsStrings(deny) && forall i | 0 <= i < |deny.items| :: deny.items[i].text != ""))
  }

  // ---------------------------------------------------------------------
  // Key by key
  // ---------------------------------------------------------------------

  lemma {:induction false} FindMerge(target: Fields, incoming: Fields, k: string)
    requires DistinctKeys(incoming)
    ensures Find(Merge(target, incoming), k) ==
            if Has(incoming, k) then Some(Merged(Find(target, k), Find(incoming, k).value)) else Find(target, k)
    decreases |incoming|
  {
    if incoming != [] {
      var f := incoming[0];
      var v := Merged(Find(target, f.key), f.value);
      FindMerge(Set(target, f.key, v), incoming[1..], k);
      FindSet(target, f.key, v, k);
      if f.key == k && Has(incoming[1..], k) {
        var i := FindIndex(incoming[1..], k);
      }
    }
  }

  lemma {:induction false} FindSetAll(fields: Fields, updates: Fields, k: string)
    requires DistinctKeys(updates)
    ensures Find(SetAll(fields, updates), k) == if Has(updates, k) then Find(updates, k) else Find(fields, k)
    decreases |updates|
  {
    if updates != [] {
      var n := |updates| - 1;
      FindSetAll(fields, updates[..n], k);
      FindSet(SetAll(fields, updates[..n]), updates[n].key, updates[n].value, k);
      FindSnoc(updates, k);
      FindAt(updates, n);
    }
  }

  lemma {:induction false} FindSnoc(fields: Fields, k: string)
    requires fields != []
    ensures var n := |fields| - 1;
            Find(fields, k) == if Has(fields[..n], k) then Find(fields[..n], k)
                               else if fields[n].key == k then Some(fields[n].value) else None
    decreases |fields|
  {
    var n := |fields| - 1;
    if n > 0 {
      assert fields[..n][1..] == fields[1..][..n - 1] && fields[1..][n - 1] == fields[n];
      FindSnoc(fields[1..], k);
    }
  }

  lemma {:induction false} SetKeepsDistinct(fields: Fields, k: string, v: Value)
    requires DistinctKeys(fields)
    ensures DistinctKeys(Set(fields, k, v))
    ensures forall i | 0 <= i < |Set(fields, k, v)| ::
              Set(fields, k, v)[i].key == k || exists j | 0 <= j < |fields| :: fields[j].key == Set(fields, k, v)[i].key
    decreases |fields|
  {
    if fields != [] && fields[0].key != k {
      SetKeepsDistinct(fields[1..], k, v);
      var rest := Set(fields[1..], k, v);
      forall i | 0 <= i < |rest|
        ensures rest[i].key != fields[0].key
        ensures rest[i].key == k || exists j | 0 <= j < |fields| :: fields[j].key == rest[i].key
      {
        if rest[i].key != k {
          var j :| 0 <= j < |fields[1..]| && fields[1..][j].key == rest[i].key;
          assert fields[j + 1].key == rest[i].key;
        }
      }
      assert fields[0].key == Set(fields, k, v)[0].key;
    }
  }

  lemma {:induction false} FindEventLists(incoming: Fields, previous: Value, event: string)
    requires DistinctKeys(incoming)
    ensures DistinctKeys(EventLists(incoming, previous))
    ensures Find(EventLists(incoming, previous), event) ==
            var v := Find(incoming, event);
            if event !in MANAGED && v.Some? && v.value.Array? then Some(Array(v.value.items + Lower(previous, event))) else None
    decreases |incoming|
  {
    if incoming != [] {
      var n := |incoming| - 1;
      var f := incoming[n];
      FindEventLists(incoming[..n], previous, event);
      FindSnoc(incoming, event);
      FindAt(incoming, n);
      if IsEventList(f) {
        var rest := EventLists(incoming[..n], previous);
        var v := Array(f.value.items + Lower(previous, f.key));
        FindSet(rest, f.key, v, event);
        SetKeepsDistinct(rest, f.key, v);
      }
      if Has(incoming[..n], event) {
        var i := FindIndex(incoming[..n], event);
        assert incoming[i].key == event;
      }
    }
  }

  // ---------------------------------------------------------------------
  // Contributions of a layer
  // ---------------------------------------------------------------------

  /** What a layer does to a list that accumulates: nothing, discard it, or put items in front. */
  datatype Contribution<T> = Silent | Discard | Prepend(items: seq<T>)

  /** The lists of the layers since the last one that discarded, from last to first; `None` without any. */
  function Accumulated<T>(layers: seq<Contribution<T>>): Option<seq<T>>
    decreases |layers|
  {
    if layers == [] then None
    else
      var below := Accumulated(layers[..|layers| - 1]);
      match layers[|layers| - 1]
      case Silent => below
      case Discard => None
      case Prepend(items) => Some(items + OrEmpty(below))
  }

  /** The lists of all the layers, from last to first. */
  function LastToFirst<T>(layers: seq<Contribution<T>>): seq<T>
    decreases |layers|
  {
    if layers == [] then []
    else
      var last := layers[|layers| - 1];
      (if last.Prepend? then last.items else []) + LastToFirst(layers[..|layers| - 1])
  }

  predicate LastDiscardBefore<T>(layers: seq<Contribution<T>>, start: nat) {
    && start <= |layers| && (start == 0 || layers[start - 1].Discard?)
    && forall i | start <= i < |layers| :: !layers[i].Discard?
  }

  lemma {:induction false} AccumulatedIsConcatenation<T>(layers: seq<Contribution<T>>, start: nat)
    requires LastDiscardBefore(layers, start)
    ensures OrEmpty(Accumulated(layers)) == LastToFirst(layers[start..])
    decreases |layers|
  {
    if start < |layers| {
      var n := |layers| - 1;
      var below, tail := layers[..n], layers[start..];
      assert LastDiscardBefore(below, start);
      AccumulatedIsConcatenation(below, start);
      assert tail[..|tail| - 1] == below[start..] && tail[|tail| - 1] == layers[n];
    }
  }

  lemma {:induction false} AccumulatedIffAny<T>(layers: seq<Contribution<T>>, start: nat)
    requires LastDiscardBefore(layers, start)
    ensures Accumulated(layers).Some? <==> exists i :: start <= i < |layers| && layers[i].Prepend?
    decreases |layers|
  {
    if start < |layers| {
      var n := |layers| - 1;
      assert LastDiscardBefore(layers[..n], start);
      AccumulatedIffAny(layers[..n], start);
      if i :| start <= i < n && layers[..n][i].Prepend? {
        assert layers[i].Prepend?;
      }
      if Accumulated(layers).Some? && layers[n].Silent? {
        var i :| start <= i < n && layers[..n][i].Prepend?;
        assert layers[i].Prepend?;
      }
    }
  }

  function DenyContribution(layer: Fields): Contribution<string> {
    var permissions := Find(layer, PERMISSIONS);
    if permissions.None? then Silent
    else if !permissions.value.Table? then Discard
    else
      var filesystem := Find(permissions.value.fields, FILESYSTEM);
      if filesystem.None? then Silent
      else if !filesystem.value.Table? then Discard
      else
        var deny := Find(filesystem.value.fields, DENY_READ);
        if deny.None? then Silent
        else if !IsStrings(deny.value) then Discard
        else Prepend(StringsOf(deny.value))
  }

  function EventContribution(layer: Fields, event: string): Contribution<Value> {
    var hooks := Find(layer, HOOKS);
    if hooks.None? then Silent
    else if !hooks.value.Table? then Discard
    else
      var list := Find(hooks.value.fields, event);
      if list.None? then Silent
      else if !list.value.Array? then Discard
      else Prepend(list.value.items)
  }

  /** `hooks.<event>`, if it is an array. */
  function EventList(fields: Fields, event: string): Option<seq<Value>> {
    var v := Get(Get(Table(fields), HOOKS), event);
    if v.Array? then Some(v.items) else None
  }

  // ---------------------------------------------------------------------
  // One merge step
  // ---------------------------------------------------------------------

  function Step<T>(below: Option<seq<T>>, c: Contribution<T>): Option<seq<T>> {
    match c
    case Silent => below
    case Discard => None
    case Prepend(items) => Some(items + OrEmpty(below))
  }

  lemma FindStoreHooks(fields: Fields, lists: Fields, k: string)
    requires k != HOOKS
    ensures Find(StoreHooks(fields, lists), k) == Find(fields, k)
  {
    if lists != [] {
      var outer := SetDefaultTable(fields, HOOKS);
      FindSet(fields, HOOKS, Table([]), k);
      FindSet(fields, HOOKS, Table([]), HOOKS);
      FindSet(outer, HOOKS, Table(SetAll(FieldsIn(Find(outer, HOOKS).value), lists)), k);
    }
  }

  function FieldsIn(v: Value): Fields { if v.Table? then v.fields else [] }

  lemma FindStoreDeny(fields: Fields, deny: seq<string>, k: string)
    requires k != PERMISSIONS
    ensures Find(StoreDeny(fields, deny), k) == Find(fields, k)
  {
    var outer := SetDefaultTable(fields, PERMISSIONS);
    FindSet(fields, PERMISSIONS, Table([]), k);
    FindSet(fields, PERMISSIONS, Table([]), PERMISSIONS);
    var permissions := Find(outer, PERMISSIONS).value;
    if permissions.Table? {
      var inner := SetDefaultTable(permissions.fields, FILESYSTEM);
      FindSet(permissions.fields, FILESYSTEM, Table([]), FILESYSTEM);
      var filesystem := Find(inner, FILESYSTEM).value;
      var stored := if filesystem.Table?
        then Set(inner, FILESYSTEM, Table(Set(filesystem.fields, DENY_READ, Array(TextsOf(deny)))))
        else inner;
      FindSet(outer, PERMISSIONS, Table(stored), k);
    }
  }

  /** Storing a list where the tables are in place makes it the list read back. */
  lemma DenyReadStored(fields: Fields, deny: seq<string>)
    requires Get(Table(fields), PERMISSIONS).Table? && Get(Get(Table(fields), PERMISSIONS), FILESYSTEM).Table?
    ensures DenyRead(StoreDeny(fields, deny)) == Some(deny)
  {
    var permissions := Find(fields, PERMISSIONS).value;
    var filesystem := Find(permissions.fields, FILESYSTEM).value;
    var list := Array(TextsOf(deny));
    var leaf := Set(filesystem.fields, DENY_READ, list);
    FindSet(filesystem.fields, DENY_READ, list, DENY_READ);
    var inner := Set(permissions.fields, FILESYSTEM, Table(leaf));
    FindSet(permissions.fields, FILESYSTEM, Table(leaf), FILESYSTEM);
    FindSet(fields, PERMISSIONS, Table(inner), PERMISSIONS);
    assert StoreDeny(fields, deny) == Set(fields, PERMISSIONS, Table(inner));
    assert StringsOf(list) == deny;
  }

  lemma DistinctNested(layer: Fields, k: string)
    requires WellFormedFields(layer) && Get(Table(layer), k).Table?
    ensures WellFormedFields(Get(Table(layer), k).fields)
  {
    var i := FindIndex(layer, k);
  }

  /** What a plain merge does to `deny_read`. */
  lemma DenyReadMerged(target: Fields, incoming: Fields)
    requires WellFormedFields(incoming)
    ensures var c := DenyContribution(incoming);
            var merged := Merge(target, incoming);
            && (c.Silent? ==> DenyRead(merged) == DenyRead(target))
            && (c.Discard? ==> DenyRead(merged).None?)
            && (c.Prepend? ==> DenyRead(incoming) == Some(c.items)
                               && Get(Table(merged), PERMISSIONS).Table?
                               && Get(Get(Table(merged), PERMISSIONS), FILESYSTEM).Table?)
            && (!c.Prepend? ==> DenyRead(incoming).None?)
  {
    FindMerge(target, incoming, PERMISSIONS);
    var permissions := Get(Table(incoming), PERMISSIONS);
    if permissions.Table? {
      DistinctNested(incoming, PERMISSIONS);
      var lower := Get(Table(target), PERMISSIONS);
      if lower.Table? {
        FindMerge(lower.fields, permissions.fields, FILESYSTEM);
      }
      var filesystem := Get(permissions, FILESYSTEM);
      if filesystem.Table? {
        DistinctNested(permissions.fields, FILESYSTEM);
        var below := Get(lower, FILESYSTEM);
        if below.Table? {
          FindMerge(below.fields, filesystem.fields, DENY_READ);
        }
      }
    }
  }

  lemma DenyReadStep(target: Fields, incoming: Fields)
    requires WellFormedFields(incoming)
    ensures DenyRead(MergeLayer(target, incoming)) ==
            match DenyContribution(incoming)
            case Silent => DenyRead(target)
            case Discard => None
            case Prepend(items) => Some(Dedup(items + OrEmpty(DenyRead(target))))
  {
    DenyReadMerged(target, incoming);
    var merged := Merge(target, incoming);
    if DenyRead(incoming).Some? {
      var deny := Dedup(DenyRead(incoming).value + OrEmpty(DenyRead(target)));
      DenyReadStored(merged, deny);
      FindStoreHooks(StoreDeny(merged, deny), HookLists(incoming, target), PERMISSIONS);
    } else {
      FindStoreHooks(merged, HookLists(incoming, target), PERMISSIONS);
    }
  }

  /** What a plain merge does to a hook event. */
  lemma EventMerged(target: Fields, incoming: Fields, event: string)
    requires WellFormedFields(incoming)
    ensures var c := EventContribution(incoming, event);
            var merged := Merge(target, incoming);
            && (c.Silent? ==> EventList(merged, event) == EventList(target, event))
            && (c.Discard? ==> EventList(merged, event).None?)
            && (c.Prepend? ==> Get(Table(merged), HOOKS).Table?)
  {
    FindMerge(target, incoming, HOOKS);
    var hooks := Get(Table(incoming), HOOKS);
    if hooks.Table? {
      DistinctNested(incoming, HOOKS);
      var lower := Get(Table(target), HOOKS);
      if lower.Table? {
        FindMerge(lower.fields, hooks.fields, event);
      }
    }
  }

  lemma EventStored(fields: Fields, lists: Fields, event: string)
    requires DistinctKeys(lists) && (lists != [] ==> Get(Table(fields), HOOKS).Table?)
    requires Has(lists, event) ==> Find(lists, event).value.Array?
    ensures EventList(StoreHooks(fields, lists), event) ==
            if Has(lists, event) then Some(Find(lists, event).value.items) else EventList(fields, event)
  {
    if lists != [] {
      var hooks := Find(fields, HOOKS).value;
      FindSetAll(hooks.fields, lists, event);
      FindSet(fields, HOOKS, Table(SetAll(hooks.fields, lists)), HOOKS);
    }
  }

  function WithDeny(target: Fields, incoming: Fields): Fields {
    var merged := Merge(target, incoming);
    if DenyRead(incoming).Some? then StoreDeny(merged, Dedup(DenyRead(incoming).value + OrEmpty(DenyRead(target)))) else merged
  }

  lemma WithDenyKeepsHooks(target: Fields, incoming: Fields)
    ensures Find(WithDeny(target, incoming), HOOKS) == Find(Merge(target, incoming), HOOKS)
    ensures MergeLayer(target, incoming) == StoreHooks(WithDeny(target, incoming), HookLists(incoming, target))
  {
    if DenyRead(incoming).Some? {
      FindStoreDeny(Merge(target, incoming), Dedup(DenyRead(incoming).value + OrEmpty(DenyRead(target))), HOOKS);
    }
  }

  lemma FindHookLists(target: Fields, incoming: Fields, event: string)
    requires WellFormedFields(incoming) && event !in MANAGED
    ensures var lists := HookLists(incoming, target);
            var c := EventContribution(incoming, event);
            && DistinctKeys(lists) && (lists != [] ==> Get(Table(incoming), HOOKS).Table?)
            && Find(lists, event) == if c.Prepend? then Some(Array(c.items + OrEmpty(EventList(target, event)))) else None
  {
    var hooks := Get(Table(incoming), HOOKS);
    if hooks.Table? {
      DistinctNested(incoming, HOOKS);
      FindEventLists(hooks.fields, Get(Table(target), HOOKS), event);
    }
  }

  lemma EventStep(target: Fields, incoming: Fields, event: string)
    requires WellFormedFields(incoming) && event !in MANAGED
    ensures EventList(MergeLayer(target, incoming), event) ==
            Step(EventList(target, event), EventContribution(incoming, event))
  {
    EventMerged(target, incoming, event);
    WithDenyKeepsHooks(target, incoming);
    FindHookLists(target, incoming, event);
    FindMerge(target, incoming, HOOKS);
    EventStored(WithDeny(target, incoming), HookLists(incoming, target), event);
  }

  // ---------------------------------------------------------------------
  // Deduplication
  // ---------------------------------------------------------------------

  lemma {:induction false} AddNewMembers<T>(seen: seq<T>, s: seq<T>)
    ensures forall x :: x in AddNew(seen, s) <==> x in seen || x in s
    decreases |s|
  {
    if s != [] {
      var n := |s| - 1;
      AddNewMembers(seen, s[..n]);
      assert s == s[..n] + [s[n]];
    }
  }

  lemma {:induction false} AddNewSplit<T>(seen: seq<T>, a: seq<T>, b: seq<T>)
    ensures AddNew(seen, a + b) == AddNew(AddNew(seen, a), b)
    decreases |b|
  {
    if b == [] {
      assert a + b == a;
    } else {
      var n := |b| - 1;
      assert (a + b)[..|a + b| - 1] == a + b[..n];
      AddNewSplit(seen, a, b[..n]);
    }
  }

  lemma {:induction false} AddNewDedup<T>(seen: seq<T>, s: seq<T>)
    ensures AddNew(seen, Dedup(s)) == AddNew(seen, s)
    decreases |s|
  {
    if s != [] {
      var n := |s| - 1;
      var before := Dedup(s[..n]);
      AddNewDedup(seen, s[..n]);
      AddNewMembers([], s[..n]);
      AddNewMembers(seen, s[..n]);
      if s[n] !in before {
        assert (before + [s[n]])[..|before|] == before;
      }
    }
  }

  lemma DedupOfDedup<T>(a: seq<T>, b: seq<T>)
    ensures Dedup(a + Dedup(b)) == Dedup(a + b)
  {
    AddNewSplit([], a, Dedup(b));
    AddNewSplit([], a, b);
    AddNewDedup(Dedup(a), b);
  }

  /** The position of the first occurrence. */
  function First<T(==)>(s: seq<T>, x: T): nat
    requires x in s
  {
    if s[0] == x then 0 else 1 + First(s[1..], x)
  }

  lemma {:induction false} FirstInPrefix<T>(s: seq<T>, n: nat, x: T)
    requires n <= |s| && x in s
    ensures x in s[..n] ==> First(s, x) == First(s[..n], x) < n
    ensures x !in s[..n] ==> First(s, x) >= n
    decreases n
  {
    if n > 0 && s[0] != x {
      assert s == [s[0]] + s[1..];
      assert s[..n] == [s[0]] + s[1..][..n - 1];
      FirstInPrefix(s[1..], n - 1, x);
    } else if n > 0 {
      assert s[..n][0] == x;
    }
  }

  lemma {:induction false} DedupMember<T>(s: seq<T>, x: T)
    ensures x in Dedup(s) <==> x in s
    decreases |s|
  {
    if s != [] {
      var n := |s| - 1;
      DedupMember(s[..n], x);
      assert s == s[..n] + [s[n]];
      assert Dedup(s) == if s[n] in Dedup(s[..n]) then Dedup(s[..n]) else Dedup(s[..n]) + [s[n]];
    }
  }

  /** Deduplication keeps exactly the members, once each, in the order of their first occurrences. */
  lemma {:induction false} DedupKeepsFirstOccurrences<T>(s: seq<T>, i: nat, j: nat)
    requires i < j < |Dedup(s)|
    ensures Dedup(s)[i] in s && Dedup(s)[j] in s && First(s, Dedup(s)[i]) < First(s, Dedup(s)[j])
    decreases |s|
  {
    var n := |s| - 1;
    var before := Dedup(s[..n]);
    var x, y := Dedup(s)[i], Dedup(s)[j];
    DedupMember(s, x);
    DedupMember(s, y);
    DedupMember(s[..n], x);
    DedupMember(s[..n], y);
    FirstInPrefix(s, n, x);
    FirstInPrefix(s, n, y);
    assert Dedup(s) == if s[n] in before then before else before + [s[n]];
    assert x == before[i] && x in before;
    if j < |before| {
      assert y == before[j] && y in before;
      DedupKeepsFirstOccurrences(s[..n], i, j);
    }
  }

  // ---------------------------------------------------------------------
  // Whole compositions
  // ---------------------------------------------------------------------

  function DenyContributions(layers: seq<Fields>): seq<Contribution<string>> {
    seq(|layers|, i requires 0 <= i < |layers| => DenyContribution(layers[i]))
  }

  function EventContributions(layers: seq<Fields>, event: string): seq<Contribution<Value>> {
    seq(|layers|, i requires 0 <= i < |layers| => EventContribution(layers[i], event))
  }

  function MapDedup(s: Option<seq<string>>): Option<seq<string>> { if s.Some? then Some(Dedup(s.value)) else None }

  /**
   * Main result: the composed `deny_read` is the order-preserving dedup of the
   * lists of all layers since the last one that discarded it, last to first.
   */
  lemma {:induction false} ComposedDenyRead(layers: seq<Fields>)
    requires forall i | 0 <= i < |layers| :: WellFormedFields(layers[i])
    ensures DenyRead(Compose(layers)) == MapDedup(Accumulated(DenyContributions(layers)))
    decreases |layers|
  {
    if layers == [] {
      assert Get(Table([]), PERMISSIONS).Null?;
    } else {
      var n := |layers| - 1;
      var below := layers[..n];
      ComposedDenyRead(below);
      DenyReadStep(Compose(below), layers[n]);
      var cs := DenyContributions(layers);
      assert cs[..n] == DenyContributions(below) && cs[n] == DenyContribution(layers[n]);
      if cs[n].Prepend? && Accumulated(cs[..n]).Some? {
        DedupOfDedup(cs[n].items, Accumulated(cs[..n]).value);
      }
    }
  }

  /** Main result: a hook event's lists concatenate in the same order, since the last layer that discarded them. */
  lemma {:induction false} ComposedEventList(layers: seq<Fields>, event: string)
    requires forall i | 0 <= i < |layers| :: WellFormedFields(layers[i])
    requires event !in MANAGED
    ensures EventList(Compose(layers), event) == Accumulated(EventContributions(layers, event))
    decreases |layers|
  {
    if layers == [] {
      assert Get(Table([]), HOOKS).Null?;
    } else {
      var n := |layers| - 1;
      ComposedEventList(layers[..n], event);
      EventStep(Compose(layers[..n]), layers[n], event);
      var cs := EventContributions(layers, event);
      assert cs[..n] == EventContributions(layers[..n], event) && cs[n] == EventContribution(layers[n], event);
    }
  }

  /** Without explicit nulls, a validated layer never discards: all lists are in the composition. */
  predicate NoNulls(layer: Fields) {
    var permissions := Find(layer, PERMISSIONS);
    var filesystem := if permissions.Some? && permissions.value.Table? then Find(permissions.value.fields, FILESYSTEM) else None;
    var deny := if filesystem.Some? && filesystem.value.Table? then Find(filesystem.value.fields, DENY_READ) else None;
    permissions != Some(Null) && filesystem != Some(Null) && deny != Some(Null)
  }

  lemma DiscardsOnlyByNull(layer: Fields)
    requires ShapeOk(layer)
    ensures DenyContribution(layer).Discard? <==> !NoNulls(layer)
  {
  }

  lemma NeverDiscarded(layers: seq<Fields>)
    requires forall i | 0 <= i < |layers| :: ShapeOk(layers[i]) && NoNulls(layers[i])
    ensures LastDiscardBefore(DenyContributions(layers), 0)
  {
    forall i | 0 <= i < |layers|
      ensures !DenyContributions(layers)[i].Discard?
    {
      DiscardsOnlyByNull(layers[i]);
    }
  }

  /** Without explicit nulls the composed `deny_read` has every layer's list, last to first, each entry once. */
  lemma AllDenyListsComposed(layers: seq<Fields>)
    requires forall i | 0 <= i < |layers| :: WellFormedFields(layers[i])
    requires forall i | 0 <= i < |layers| :: ShapeOk(layers[i]) && NoNulls(layers[i])
    ensures OrEmpty(DenyRead(Compose(layers))) == Dedup(LastToFirst(DenyContributions(layers)))
  {
    hide Compose;
    ComposedDenyRead(layers);
    NeverDiscarded(layers);
    var cs := DenyContributions(layers);
    AccumulatedIsConcatenation(cs, 0);
    assert cs[0..] == cs;
  }

  /** A validated layer discards a hook event exactly by an explicit null for all hooks, or by anything but an array for the event. */
  predicate DropsEvent(layer: Fields, event: string) {
    var hooks := Find(layer, HOOKS);
    hooks.Some? && (hooks.value.Null? || (hooks.value.Table? && Has(hooks.value.fields, event) && !Find(hooks.value.fields, event).value.Array?))
  }

  lemma DiscardsEventIff(layer: Fields, event: string)
    requires ShapeOk(layer)
    ensures EventContribution(layer, event).Discard? <==> DropsEvent(layer, event)
  {
  }

  /** A hook event that no validated layer drops has every layer's list, last to first. */
  lemma AllEventListsComposed(layers: seq<Fields>, event: string)
    requires event !in MANAGED && forall i | 0 <= i < |layers| :: WellFormedFields(layers[i])
    requires forall i | 0 <= i < |layers| :: ShapeOk(layers[i]) && !DropsEvent(layers[i], event)
    ensures OrEmpty(EventList(Compose(layers), event)) == LastToFirst(EventContributions(layers, event))
  {
    var cs := EventContributions(layers, event);
    ComposedEventList(layers, event);
    forall i | 0 <= i < |layers|
      ensures !cs[i].Discard?
    {
      DiscardsEventIff(layers[i], event);
    }
    AccumulatedIsConcatenation(cs, 0);
    assert cs[0..] == cs;
  }

  const LOWER: Fields := [Field(PERMISSIONS, Table([Field(FILESYSTEM, Table([Field(DENY_READ, Array([Text("/secret")]))]))]))]
  const NULLED: Fields := [Field(PERMISSIONS, Null)]

  /** An explicit null passes validation and drops what a lower layer denied. */
  lemma NullDropsLowerDenials()
    ensures ShapeOk(LOWER) && ShapeOk(NULLED) && DenyRead(LOWER) == Some(["/secret"])
    ensures DenyRead(Compose([LOWER, NULLED])) == None
  {
    var deny := Array([Text("/secret")]);
    var files: Fields := [Field(DENY_READ, deny)];
    var outer: Fields := [Field(FILESYSTEM, Table(files))];
    assert Find(LOWER, PERMISSIONS) == Some(Table(outer)) && Find(outer, FILESYSTEM) == Some(Table(files));
    assert Find(files, DENY_READ) == Some(deny) && StringsOf(deny) == ["/secret"];
    assert DenyContribution(NULLED).Discard?;
    assert Find(NULLED, PERMISSIONS) == Some(Null);
    assert HOOKS[0] == 'h' && PERMISSIONS[0] == 'p';
    assert Find(NULLED, HOOKS) == None && Find(LOWER, HOOKS) == None;
    DenyReadStep(Compose([LOWER]), NULLED);
    assert [LOWER, NULLED][..1] == [LOWER];
  }
}
