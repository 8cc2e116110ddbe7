/** Configuration values, with tables as insertion-ordered dictionaries. */
module Json {
  import opened Wrappers

  datatype Value =
    | Null
    | Flag(flag: bool)
    | Number(number: int)
    | Text(text: string)
    | Array(items: seq<Value>)
    | Table(fields: Fields)

  datatype Field = Field(key: string, value: Value)

  type Fields = seq<Field>

  /** `fields.get(k)`, with `None` for a missing key only. */
  function Find(fields: Fields, k: string): Option<Value>
    decreases |fields|
  {
    if fields == [] then None
    else if fields[0].key == k then Some(fields[0].value)
    else Find(fields[1..], k)
  }

  predicate Has(fields: Fields, k: string) { Find(fields, k).Some? }

  /** `fields[k] = v`: in place for a known key, at the end for a new one. */
  function Set(fields: Fields, k: string, v: Value): Fields
    decreases |fields|
  {
    if fields == [] then [Field(k, v)]
    else if fields[0].key == k then [Field(k, v)] + fields[1..]
    else [fields[0]] + Set(fields[1..], k, v)
  }

  /** `fields.pop(k, None)`. */
  function Remove(fields: Fields, k: string): Fields
    decreases |fields|
  {
    if fields == [] then []
    else if fields[0].key == k then Remove(fields[1..], k)
    else [fields[0]] + Remove(fields[1..], k)
  }

  predicate DistinctKeys(fields: Fields) {
    forall i, j | 0 <= i < j < |fields| :: fields[i].key != fields[j].key
  }

  /** What every Python dictionary is, at all depths. */
  predicate WellFormed(v: Value) {
    match v
    case Table(fields) => DistinctKeys(fields) && forall i | 0 <= i < |fields| :: WellFormed(fields[i].value)
    case Array(items) => forall i | 0 <= i < |items| :: WellFormed(items[i])
    case _ => true
  }

  predicate WellFormedFields(fields: Fields) { WellFormed(Table(fields)) }

  lemma {:induction false} FindSet(fields: Fields, k: string, v: Value, other: string)
    ensures Find(Set(fields, k, v), other) == if other == k then Some(v) else Find(fields, other)
    decreases |fields|
  {
    if fields != [] && fields[0].key != k {
      FindSet(fields[1..], k, v, other);
    }
  }

  lemma {:induction false} FindRemove(fields: Fields, k: string, other: string)
    ensures Find(Remove(fields, k), other) == if other == k then None else Find(fields, other)
    decreases |fields|
  {
    if fields != [] {
      FindRemove(fields[1..], k, other);
    }
  }

  lemma {:induction false} FindAt(fields: Fields, i: int)
    requires DistinctKeys(fields) && 0 <= i < |fields|
    ensures Find(fields, fields[i].key) == Some(fields[i].value)
    decreases |fields|
  {
    if i > 0 {
      assert fields[1..][i - 1] == fields[i];
      FindAt(fields[1..], i - 1);
    }
  }

  lemma {:induction false} FindIndex(fields: Fields, k: string) returns (i: int)
    requires Has(fields, k)
    ensures 0 <= i < |fields| && fields[i] == Field(k, Find(fields, k).value)
    decreases |fields|
  {
    if fields[0].key == k {
      i := 0;
    } else {
      var j := FindIndex(fields[1..], k);
      i := j + 1;
    }
  }

  lemma {:induction false} NotFound(fields: Fields, k: string)
    requires !Has(fields, k)
    ensures forall i | 0 <= i < |fields| :: fields[i].key != k
    decreases |fields|
  {
    if fields != [] {
      NotFound(fields[1..], k);
    }
  }

  /** The value at a path of keys. */
  function At(fields: Fields, path: seq<string>): Option<Value>
    decreases |path|
  {
    if path == [] then None
    else
      var v := Find(fields, path[0]);
      if |path| == 1 then v
      else if v.Some? && v.value.Table? then At(v.value.fields, path[1..])
      else None
  }

  predicate IsTable(v: Option<Value>) { v.Some? && v.value.Table? }

  predicate IsLeaf(v: Option<Value>) { v.Some? && !v.value.Table? }

  /** Something other than a table stands in the way of the path. */
  ghost predicate CutOff(fields: Fields, path: seq<string>) {
    exists n :: 0 < n < |path| && IsLeaf(At(fields, path[..n]))
  }

  /** The merged value at `path`, but for tables, of which it only says that they stay tables. */
  ghost predicate Overlaid(merged: Option<Value>, lower: Option<Value>, incoming: Fields, path: seq<string>) {
    var above := At(incoming, path);
    if IsLeaf(above) then merged == above
    else if above.Some? then merged.Some? && merged.value.Table?
    else if CutOff(incoming, path) then merged == None
    else merged == lower
  }

  lemma CutOffFirst(fields: Fields, path: seq<string>)
    requires |path| > 1
    ensures CutOff(fields, path) <==>
            var v := Find(fields, path[0]);
            v.Some? && (!v.value.Table? || CutOff(v.value.fields, path[1..]))
  {
    var v := Find(fields, path[0]);
    assert path[..1] == [path[0]];
    if CutOff(fields, path) {
      var n :| 0 < n < |path| && IsLeaf(At(fields, path[..n]));
      if n > 1 {
        assert path[..n][1..] == path[1..][..n - 1];
        assert IsLeaf(At(v.value.fields, path[1..][..n - 1]));
      }
    }
    if v.Some? && v.value.Table? && CutOff(v.value.fields, path[1..]) {
      var n :| 0 < n < |path[1..]| && IsLeaf(At(v.value.fields, path[1..][..n]));
      assert path[..n + 1][1..] == path[1..][..n];
      assert IsLeaf(At(fields, path[..n + 1]));
    }
    if v.Some? && !v.value.Table? {
      assert IsLeaf(At(fields, path[..1]));
    }
  }

  lemma {:induction false} NothingBelowCut(fields: Fields, path: seq<string>)
    ensures CutOff(fields, path) ==> At(fields, path) == None
    decreases |path|
  {
    if |path| > 1 {
      CutOffFirst(fields, path);
      var v := Find(fields, path[0]);
      if v.Some? && v.value.Table? { NothingBelowCut(v.value.fields, path[1..]); }
    }
  }
}
