/** The key/value store that code cells of one session share, and its byte limit. */
module CodeStore {

  /** A detached JSON value; only its encoded size matters here. */
  type Value = int

  /** The number of bytes of the encoded pair. */
  type Size = (string, Value) -> nat

  const MAX_BYTES := 8 * 1024 * 1024

  /** `values`, `_sizes` and `_bytes`. */
  datatype Store = Store(values: map<string, Value>, sizes: map<string, nat>, bytes: int)

  const EMPTY := Store(map[], map[], 0)

  datatype Update = Update(key: string, value: Value)

  function NewTotal(s: Store, u: Update, size: Size): int {
    s.bytes - (if u.key in s.sizes then s.sizes[u.key] else 0) + size(u.key, u.value)
  }

  predicate Fits(s: Store, u: Update, size: Size) {
    NewTotal(s, u, size) <= MAX_BYTES
  }

  function Put(s: Store, u: Update, size: Size): Store {
    Store(s.values[u.key := u.value], s.sizes[u.key := size(u.key, u.value)], NewTotal(s, u, size))
  }

  /** The puts of one packet, up to the first one that raises. */
  function PutAll(s: Store, updates: seq<Update>, size: Size): (Store, bool)
    decreases |updates|
  {
    if updates == [] then (s, true)
    else if !Fits(s, updates[0], size) then (s, false)
    else PutAll(Put(s, updates[0], size), updates[1..], size)
  }

  /** What the updates make of a plain key/value map, as the VM applies them to its storage. */
  function ApplyAll(values: map<string, Value>, updates: seq<Update>): map<string, Value>
    decreases |updates|
  {
    if updates == [] then values else ApplyAll(values[updates[0].key := updates[0].value], updates[1..])
  }

  ghost function AnyKey(sizes: map<string, nat>): (k: string)
    requires |sizes| > 0
    ensures k in sizes
  {
    var k :| k in sizes.Keys;
    k
  }

  /** The sum of all recorded sizes. */
  ghost function Total(sizes: map<string, nat>): int
    decreases |sizes|
  {
    if |sizes| == 0 then 0
    else
      var k := AnyKey(sizes);
      sizes[k] + Total(sizes - {k})
  }

  lemma {:induction false} TotalWithout(sizes: map<string, nat>, k: string)
    requires k in sizes
    ensures Total(sizes) == sizes[k] + Total(sizes - {k})
    decreases |sizes|
  {
    var first := AnyKey(sizes);
    if first != k {
      TotalWithout(sizes - {first}, k);
      TotalWithout(sizes - {k}, first);
      assert sizes - {first} - {k} == sizes - {k} - {first};
    }
  }

  lemma TotalUpdated(sizes: map<string, nat>, k: string, n: nat)
    ensures Total(sizes[k := n]) == Total(sizes) - (if k in sizes then sizes[k] else 0) + n
  {
    TotalWithout(sizes[k := n], k);
    assert sizes[k := n] - {k} == sizes - {k};
    if k in sizes {
      TotalWithout(sizes, k);
    } else {
      assert sizes - {k} == sizes;
    }
  }

  /** The byte count is exact, within the limit, and every value has its size recorded. */
  ghost predicate StoreInv(s: Store, size: Size) {
    && s.values.Keys == s.sizes.Keys
    && (forall k | k in s.values :: s.sizes[k] == size(k, s.values[k]))
    && s.bytes == Total(s.sizes) && s.bytes <= MAX_BYTES
  }

  lemma PutKeeps(s: Store, u: Update, size: Size)
    requires StoreInv(s, size) && Fits(s, u, size)
    ensures StoreInv(Put(s, u, size), size)
  {
    TotalUpdated(s.sizes, u.key, size(u.key, u.value));
  }

  /** A packet's updates keep the accounting; if all fit, the values are those of the plain map. */
  lemma {:induction false} PutAllKeeps(s: Store, updates: seq<Update>, size: Size)
    requires StoreInv(s, size)
    ensures StoreInv(PutAll(s, updates, size).0, size)
    ensures PutAll(s, updates, size).1 ==> PutAll(s, updates, size).0.values == ApplyAll(s.values, updates)
    decreases |updates|
  {
    if updates != [] && Fits(s, updates[0], size) {
      PutKeeps(s, updates[0], size);
      PutAllKeeps(Put(s, updates[0], size), updates[1..], size);
    }
  }

  /** The encoded sizes of a plain key/value map. */
  function SizesOf(values: map<string, Value>, size: Size): map<string, nat> { map k | k in values :: size(k, values[k]) }

  /** What the encoded pairs of a plain key/value map come to. */
  ghost function BytesOf(values: map<string, Value>, size: Size): int { Total(SizesOf(values, size)) }

  lemma SizesAfterPut(s: Store, u: Update, size: Size)
    requires StoreInv(s, size)
    ensures s.sizes == SizesOf(s.values, size)
    ensures SizesOf(s.values[u.key := u.value], size) == s.sizes[u.key := size(u.key, u.value)]
    ensures NewTotal(s, u, size) == BytesOf(s.values[u.key := u.value], size)
  {
    TotalUpdated(s.sizes, u.key, size(u.key, u.value));
  }

  /** A put succeeds exactly if the pairs there would be then are within 8 MiB. */
  lemma FitsIff(s: Store, u: Update, size: Size)
    requires StoreInv(s, size)
    ensures Fits(s, u, size) <==> BytesOf(s.values[u.key := u.value], size) <= 8388608
  {
    SizesAfterPut(s, u, size);
  }

  /** Main result: a packet's puts all succeed exactly if no prefix of them takes the map past the limit. */
  lemma {:induction false} PutAllSucceedsIff(s: Store, updates: seq<Update>, size: Size)
    requires StoreInv(s, size)
    ensures PutAll(s, updates, size).1 <==>
            forall n | 0 < n <= |updates| :: BytesOf(ApplyAll(s.values, updates[..n]), size) <= 8388608
    decreases |updates|
  {
    if updates != [] {
      var u, rest := updates[0], updates[1..];
      FitsIff(s, u, size);
      assert forall n | 0 < n <= |updates| :: updates[..n][0] == u && updates[..n][1..] == rest[..n - 1];
      if Fits(s, u, size) {
        PutKeeps(s, u, size);
        PutAllSucceedsIff(Put(s, u, size), rest, size);
        var next := s.values[u.key := u.value];
        assert forall n | 0 < n <= |updates| :: ApplyAll(s.values, updates[..n]) == ApplyAll(next, rest[..n - 1]);
        if PutAll(s, updates, size).1 {
          assert BytesOf(ApplyAll(next, rest[..0]), size) <= 8388608;
        } else {
          var n :| 0 < n <= |rest| && BytesOf(ApplyAll(next, rest[..n]), size) > 8388608;
          assert ApplyAll(s.values, updates[..n + 1]) == ApplyAll(next, rest[..n + 1 - 1]);
        }
      } else {
        assert ApplyAll(s.values, updates[..1]) == s.values[u.key := u.value];
      }
    }
  }

  lemma {:induction false} ApplyOneMore(values: map<string, Value>, updates: seq<Update>, u: Update)
    ensures ApplyAll(values, updates + [u]) == ApplyAll(values, updates)[u.key := u.value]
    decreases |updates|
  {
    if updates == [] {
      assert ([u])[1..] == [] && [] + [u] == [u];
      assert ApplyAll(values, [u]) == ApplyAll(values[u.key := u.value], []);
    } else {
      assert (updates + [u])[0] == updates[0] && (updates + [u])[1..] == updates[1..] + [u];
      ApplyOneMore(values[updates[0].key := updates[0].value], updates[1..], u);
    }
  }

  class CodeExecutionStore {
    const size: Size
    var values: map<string, Value>
    var sizes: map<string, nat>
    var bytes: int

    function View(): Store
      reads this
    {
      Store(values, sizes, bytes)
    }

    constructor (size: Size)
      ensures View() == EMPTY && this.size == size && StoreInv(View(), size)
    {
      this.size := size;
      values, sizes, bytes := map[], map[], 0;
    }

    /** `ok` is false when the put raises, and then nothing has changed. */
    method PutOne(key: string, value: Value) returns (ok: bool)
      requires StoreInv(View(), size)
      modifies this
      ensures StoreInv(View(), size)
      ensures ok == Fits(old(View()), Update(key, value), size)
      ensures ok <==> BytesOf(old(values)[key := value], size) <= 8388608
      ensures View() == if ok then Put(old(View()), Update(key, value), size) else old(View())
    {
      SizesAfterPut(View(), Update(key, value), size);
      var n := size(key, value);
      var total := bytes - (if key in sizes then sizes[key] else 0) + n;
      ok := total <= MAX_BYTES;
      if ok {
        PutKeeps(View(), Update(key, value), size);
        values := values[key := value];
        sizes := sizes[key := n];
        bytes := total;
      }
    }

    /** The host's loop over a packet's updates. */
    method PutUpdates(updates: seq<Update>) returns (ok: bool)
      requires StoreInv(View(), size)
      modifies this
      ensures StoreInv(View(), size)
      ensures (View(), ok) == PutAll(old(View()), updates, size)
    {
      ok := true;
      var i := 0;
      while ok && i < |updates|
        invariant 0 <= i <= |updates| && StoreInv(View(), size)
        invariant PutAll(old(View()), updates, size) == if ok then PutAll(View(), updates[i..], size) else (View(), false)
        decreases |updates| - i, ok
      {
        assert updates[i..][0] == updates[i] && updates[i..][1..] == updates[i + 1..];
        ok := PutOne(updates[i].key, updates[i].value);
        if ok { i := i + 1; }
      }
    }
  }
}
