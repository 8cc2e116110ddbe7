/**
 * Which nestings of `with file_mutation_locks(paths)` blocks can deadlock:
 * exactly those of a block on some key that the thread does not hold already,
 * inside a block that holds any.
 */
module NestedLocks {
  import opened LockGuarantees
  import opened MutationLocks
  import opened SortedKeys
  import opened Wrappers

  /** A thread lock that no context of another thread of the process holds is free. */
  lemma LockIsFree(s: State, c: ContextId)
    requires Inv(s) && c in s.contexts && NextMove(s.contexts[c]) == Lock
    requires forall d | d in s.contexts && s.contexts[d].thread.process == s.contexts[c].thread.process
                        && s.contexts[d].thread != s.contexts[c].thread ::
               Awaited(s.contexts[c]) !in s.contexts[d].keys[..s.contexts[d].locked]
    ensures CanAdvance(s, c)
  {
    var x := s.contexts[c];
    var e := x.entries[x.locked];
    assert LockOk(s, e);
    if s.entries[e].owner != None {
      var d := Member(Lockers(s, e));
      var y := s.contexts[d];
      var j :| 0 <= j < y.locked && y.entries[j] == e;
      assert y.keys[..y.locked][j] == s.entries[e].key;
    }
  }

  /** A context of another thread, in any process, holds the file lock that `c` asks for. */
  lemma FileBusy(s: State, c: ContextId, d: ContextId)
    requires Inv(s) && c in s.contexts && NextMove(s.contexts[c]) == File
    requires d in s.contexts && s.contexts[d].Files(Awaited(s.contexts[c])) && s.contexts[d].thread != s.contexts[c].thread
    ensures !CanAdvance(s, c)
  {
    var k := Awaited(s.contexts[c]);
    assert FileOk(s, k);
    assert d in Filers(s, k);
  }

  /** A file lock that no context holds is free. */
  lemma FileIsFree(s: State, c: ContextId)
    requires Inv(s) && c in s.contexts && NextMove(s.contexts[c]) == File
    requires forall d | d in s.contexts :: !s.contexts[d].Files(Awaited(s.contexts[c]))
    ensures CanAdvance(s, c)
  {
    var k := Awaited(s.contexts[c]);
    assert FileOk(s, k);
    assert forall d :: d !in Filers(s, k);
    assert Filers(s, k) == {};
  }

  /** `t` is `s`, but for what context `c` has become; its thread and keys are the same. */
  ghost predicate OnlyMoved(s: State, t: State, c: ContextId) {
    && c in s.contexts && c in t.contexts && t.next == s.next
    && t.contexts == s.contexts[c := t.contexts[c]]
    && t.contexts[c].thread == s.contexts[c].thread && t.contexts[c].keys == s.contexts[c].keys
  }

  function ToGo(x: Context): int {
    3 * |x.keys| - |x.entries| - x.locked - x.filed + if x.phase == Entering then 1 else 0
  }

  lemma EnteringAdvances(s: State, c: ContextId)
    requires Shape(s) && c in s.contexts && s.contexts[c].phase == Entering && CanAdvance(s, c)
    ensures var t := Advanced(s, c);
            OnlyMoved(s, t, c) && t.contexts[c].phase in {Entering, Inside} && 0 <= ToGo(t.contexts[c]) < ToGo(s.contexts[c])
  {
    var x := s.contexts[c];
    assert 0 <= x.filed <= x.locked <= |x.entries| <= |x.keys|;
  }

  /** `c` is inside, or waits for a lock. */
  ghost predicate RanOn(s: State, c: ContextId)
    requires Shape(s) && c in s.contexts
  {
    s.contexts[c].phase == Inside || (s.contexts[c].phase == Entering && Waits(s.contexts[c]) && !CanAdvance(s, c))
  }

  /** A block runs on until it is inside or has to wait. */
  lemma {:induction false} RunOn(s: State, c: ContextId) returns (events: seq<Event>, r: State)
    requires Inv(s) && Top(s, c) && s.contexts[c].phase in {Entering, Inside}
    ensures r == After(s, events) && Inv(r) && OnlyMoved(s, r, c) && RanOn(r, c)
    decreases ToGo(s.contexts[c])
  {
    hide Shape, RegistryInv, Users;
    if s.contexts[c].phase == Entering && CanAdvance(s, c) {
      var t := Advanced(s, c);
      AdvanceIsStep(s, c);
      EnteringAdvances(s, c);
      StaysTop(s, c);
      AfterOne(s, Advance(c));
      var more;
      more, r := RunOn(t, c);
      AfterConcat(s, [Advance(c)], more);
      events := [Advance(c)] + more;
    } else {
      events, r := [], s;
    }
  }

  /** `r` is `s` with one more block, of thread `t` on `keys`, run on until it is inside or has to wait. */
  ghost predicate OpenedOn(s: State, r: State, t: Thread, keys: seq<Key>) {
    && Shape(r) && r.next == s.next + 1 && s.next !in s.contexts && s.next in r.contexts
    && r.contexts == s.contexts[s.next := r.contexts[s.next]]
    && r.contexts[s.next].thread == t && r.contexts[s.next].keys == keys && RanOn(r, s.next)
  }

  lemma Open(s: State, t: Thread, keys: seq<Key>) returns (events: seq<Event>, r: State)
    requires Inv(s) && CanBegin(s, t) && Ascending(keys)
    ensures r == After(s, events) && Inv(r) && OpenedOn(s, r, t, keys)
  {
    hide RegistryInv, LockInv, FileInv, ThreadInv;
    SortedSetOfAscending(keys);
    StepKeeps(s, Begin(t, keys));
    AfterOne(s, Begin(t, keys));
    var begun := Step(s, Begin(t, keys));
    var more;
    more, r := RunOn(begun, s.next);
    AfterConcat(s, [Begin(t, keys)], more);
    events := [Begin(t, keys)] + more;
  }

  /** Every nesting is one of a block on `inner` in a block on `outer`. */
  ghost predicate OnlyNesting(s: State, outer: seq<Key>, inner: seq<Key>) {
    forall c, d | Nests(s, c, d) :: s.contexts[c].keys == outer && s.contexts[d].keys == inner
  }

  ghost predicate Deadlocked(s: State)
    requires Shape(s)
  {
    (exists c :: c in s.contexts) && forall c :: !Movable(s, c)
  }

  lemma NotYetFiled(x: Context)
    requires ContextShape(x) && Waits(x) && NextMove(x) == File
    ensures !x.Files(Awaited(x))
  {
  }

  /** The only block there is gets all its locks. */
  lemma AloneGetsIn(s: State, c: ContextId)
    requires Inv(s) && s.contexts.Keys == {c} && RanOn(s, c)
    ensures s.contexts[c].phase == Inside
  {
    if s.contexts[c].phase == Entering {
      if NextMove(s.contexts[c]) == Lock {
        LockIsFree(s, c);
      } else {
        NotYetFiled(s.contexts[c]);
        FileIsFree(s, c);
      }
    }
  }

  /** A file held by another thread is not held by `c`. */
  lemma FileIsTheOthers(s: State, c: ContextId, d: ContextId, k: Key)
    requires Inv(s) && c in s.contexts && d in s.contexts && s.contexts[d].Files(k)
    requires s.contexts[c].thread != s.contexts[d].thread
    ensures !s.contexts[c].Files(k)
  {
    assert FileOk(s, k) && d in Filers(s, k);
  }

  /** A thread lock held by another thread is not held by `c`. */
  lemma LockIsTheOthers(s: State, c: ContextId, d: ContextId, e: EntryId)
    requires Inv(s) && c in s.contexts && d in s.contexts && 0 <= e < |s.entries| && s.contexts[d].Locks(e)
    requires s.contexts[c].thread != s.contexts[d].thread
    ensures c !in Lockers(s, e)
  {
    assert LockOk(s, e) && d in Lockers(s, e);
  }

  /** A block is not inside while another thread holds the file of one of its keys. */
  lemma NotInside(s: State, c: ContextId, d: ContextId, k: Key)
    requires Inv(s) && c in s.contexts && d in s.contexts && s.contexts[d].Files(k) && k in s.contexts[c].keys
    requires s.contexts[c].thread != s.contexts[d].thread
    ensures s.contexts[c].phase != Inside
  {
    var x := s.contexts[c];
    assert x.filed == |x.keys| ==> x.keys[..x.filed] == x.keys;
    FileIsTheOthers(s, c, d, k);
  }

  /** A block waits for no thread lock if the other contexts of its process have none of its keys. */
  lemma WaitsForNoLock(s: State, c: ContextId)
    requires Inv(s) && c in s.contexts && RanOn(s, c) && s.contexts[c].phase == Entering
    requires forall d, k | d in s.contexts && s.contexts[d].thread.process == s.contexts[c].thread.process
                           && s.contexts[d].thread != s.contexts[c].thread && k in s.contexts[c].keys :: k !in s.contexts[d].keys
    ensures NextMove(s.contexts[c]) == File
  {
    var x := s.contexts[c];
    if NextMove(x) == Lock {
      assert x.keys[x.locked] in x.keys;
      forall d | d in s.contexts && s.contexts[d].thread.process == x.thread.process && s.contexts[d].thread != x.thread
        ensures Awaited(x) !in s.contexts[d].keys[..s.contexts[d].locked]
      {
        assert Awaited(x) !in s.contexts[d].keys;
      }
      LockIsFree(s, c);
    }
  }

  /** A block that waits for a file has the files of all lower keys, and does not wait for one that nobody holds. */
  lemma WaitsForHeldFile(s: State, c: ContextId)
    requires Inv(s) && c in s.contexts && RanOn(s, c) && s.contexts[c].phase == Entering && NextMove(s.contexts[c]) == File
    ensures exists d :: d in s.contexts && d != c && s.contexts[d].Files(Awaited(s.contexts[c]))
  {
    NotYetFiled(s.contexts[c]);
    if forall d | d in s.contexts && d != c :: !s.contexts[d].Files(Awaited(s.contexts[c])) {
      FileIsFree(s, c);
    }
  }

  /** Where the second and third blocks get stuck: at the file lock of their `n`-th key. */
  ghost predicate StuckAtFile(x: Context, n: int)
    requires ContextShape(x)
  {
    x.phase == Entering && NextMove(x) == File && x.filed == n && x.locked == |x.keys| && x.gone == 0
  }

  lemma WaitsAtOneOfTwo(x: Context, low: Key, a: Key)
    requires ContextShape(x) && x.phase == Entering && NextMove(x) == File && x.keys == [low, a]
    ensures StuckAtFile(x, x.filed) && x.filed in {0, 1} && (x.filed == 1 <==> x.Files(low))
    ensures Awaited(x) == if x.filed == 0 then low else a
  {
    assert x.filed == 1 ==> x.keys[..x.filed] == [low];
  }

  /** In another process than `holder`, a block on `low` and a key of `holder` gets the file of `low` and waits for the other one. */
  lemma SecondWaits(s: State, holder: ContextId, c: ContextId, low: Key, a: Key)
    requires Inv(s) && s.contexts.Keys == {holder, c} && holder != c && RanOn(s, c)
    requires s.contexts[holder].phase == Inside && a in s.contexts[holder].keys && low !in s.contexts[holder].keys
    requires s.contexts[holder].thread.process != s.contexts[c].thread.process && s.contexts[c].keys == [low, a]
    ensures StuckAtFile(s.contexts[c], 1) && s.contexts[c].Files(low)
  {
    hide RegistryInv, LockInv, FileInv, ThreadInv;
    var x := s.contexts[c];
    assert holder in s.contexts && c in s.contexts && x.keys[1] == a;
    assert s.contexts[holder].Files(a) by { var _ := InsideHolds(s, holder, a); }
    NotInside(s, c, holder, a);
    WaitsForNoLock(s, c);
    WaitsForHeldFile(s, c);
    WaitsAtOneOfTwo(x, low, a);
    assert s.contexts[holder].Files(Awaited(x)) by {
      var d :| d in s.contexts && d != c && s.contexts[d].Files(Awaited(x));
      assert d in s.contexts.Keys;
    }
  }

  /** A block on `low`, whose file `d` of another process holds, and a key used nowhere gets both thread locks and waits for the file. */
  lemma ThirdWaits(s: State, holder: ContextId, d: ContextId, c: ContextId, low: Key, b: Key)
    requires Inv(s) && s.contexts.Keys == {holder, d, c} && holder != c && d != c && RanOn(s, c)
    requires low !in s.contexts[holder].keys && b !in s.contexts[holder].keys && s.contexts[c].keys == [low, b]
    requires s.contexts[d].thread.process != s.contexts[c].thread.process && s.contexts[d].Files(low)
    ensures StuckAtFile(s.contexts[c], 0)
  {
    hide RegistryInv, LockInv, FileInv, ThreadInv;
    var x := s.contexts[c];
    assert holder in s.contexts && d in s.contexts && c in s.contexts && x.keys[0] == low;
    NotInside(s, c, d, low);
    forall e, k | e in s.contexts && s.contexts[e].thread.process == x.thread.process && s.contexts[e].thread != x.thread && k in x.keys
      ensures k !in s.contexts[e].keys
    {
      assert e in s.contexts.Keys;
    }
    WaitsForNoLock(s, c);
    WaitsAtOneOfTwo(x, low, b);
    FileIsTheOthers(s, c, d, low);
  }

  /** A block on a key whose thread lock another thread of the process holds never gets in. */
  lemma NeverGetsIn(s: State, d: ContextId, c: ContextId, b: Key)
    requires Inv(s) && c in s.contexts && d in s.contexts && RanOn(s, c) && b in s.contexts[c].keys
    requires s.contexts[d].thread.process == s.contexts[c].thread.process && s.contexts[d].thread != s.contexts[c].thread
    requires s.contexts[d].keys[..s.contexts[d].locked] == s.contexts[d].keys && b in s.contexts[d].keys && s.contexts[d].gone == 0
    ensures Waits(s.contexts[c]) && !CanAdvance(s, c)
  {
    if s.contexts[c].phase == Inside {
      var y := s.contexts[d];
      var i := InsideHolds(s, c, b);
      var j :| 0 <= j < |y.keys| && y.keys[j] == b;
      NamedEntry(s, c, i);
      NamedEntry(s, d, j);
      assert y.entries[..y.locked][j] == y.entries[j];
      LockIsTheOthers(s, c, d, y.entries[j]);
    }
  }

  /** A key below all of `a` and `b`. */
  function Below(a: seq<Key>, b: seq<Key>): Key
    requires a != [] && b != []
  {
    (if a[0] <= b[0] then a[0] else b[0]) - 1
  }

  ghost predicate BlockIs(s: State, c: ContextId, t: Thread, keys: seq<Key>) {
    c in s.contexts && s.contexts[c].thread == t && s.contexts[c].keys == keys
  }

  ghost predicate OneOpen(s: State, t: Thread, outer: seq<Key>) {
    Inv(s) && s.next == 1 && s.contexts.Keys == {0} && BlockIs(s, 0, t, outer) && s.contexts[0].phase == Inside
  }

  ghost predicate TwoOpen(s: State, t: Thread, v: Thread, outer: seq<Key>, low: Key)
    requires outer != []
  {
    && Inv(s) && s.next == 2 && s.contexts.Keys == {0, 1}
    && BlockIs(s, 0, t, outer) && s.contexts[0].phase == Inside
    && BlockIs(s, 1, v, [low, outer[0]]) && StuckAtFile(s.contexts[1], 1) && s.contexts[1].Files(low)
  }

  /** Blocks 0, 1 and 2 are where they must be for a nested block of `t` on `b` to close the circle. */
  ghost predicate Trap(s: State, t: Thread, u: Thread, v: Thread, outer: seq<Key>, low: Key, b: Key)
    requires outer != []
  {
    && Inv(s) && s.next == 3 && s.contexts.Keys == {0, 1, 2}
    && BlockIs(s, 0, t, outer) && s.contexts[0].phase == Inside
    && BlockIs(s, 1, v, [low, outer[0]]) && StuckAtFile(s.contexts[1], 1) && s.contexts[1].Files(low)
    && BlockIs(s, 2, u, [low, b]) && StuckAtFile(s.contexts[2], 0)
  }

  lemma FirstOpens(t: Thread, outer: seq<Key>) returns (events: seq<Event>, s: State)
    requires Ascending(outer)
    ensures s == Run(events) && OneOpen(s, t, outer)
  {
    InitialInv();
    events, s := Open(INITIAL, t, outer);
    AloneGetsIn(s, 0);
  }

  lemma SecondOpens(s: State, t: Thread, v: Thread, outer: seq<Key>, low: Key) returns (events: seq<Event>, r: State)
    requires outer != [] && OneOpen(s, t, outer) && t.process != v.process && low < outer[0] && low !in outer
    ensures r == After(s, events) && TwoOpen(r, t, v, outer, low)
  {
    hide RegistryInv, LockInv, FileInv, ThreadInv;
    events, r := Open(s, v, [low, outer[0]]);
    assert r.contexts[0] == s.contexts[0];
    SecondWaits(r, 0, 1, low, outer[0]);
  }

  lemma ThirdOpens(s: State, t: Thread, u: Thread, v: Thread, outer: seq<Key>, low: Key, b: Key) returns (events: seq<Event>, r: State)
    requires outer != [] && TwoOpen(s, t, v, outer, low) && t != u && t.process == u.process != v.process
    requires low !in outer && b !in outer && low < b
    ensures r == After(s, events) && Trap(r, t, u, v, outer, low, b)
  {
    hide RegistryInv, LockInv, FileInv, ThreadInv;
    events, r := Open(s, u, [low, b]);
    assert r.contexts[0] == s.contexts[0] && r.contexts[1] == s.contexts[1];
    ThirdWaits(r, 0, 1, 2, low, b);
  }

  lemma SetTrap(t: Thread, u: Thread, v: Thread, outer: seq<Key>, low: Key, b: Key) returns (events: seq<Event>, s: State)
    requires t != u && t.process == u.process != v.process
    requires Ascending(outer) && outer != [] && low < outer[0] && low !in outer && low < b && b !in outer
    ensures s == Run(events) && Trap(s, t, u, v, outer, low, b)
  {
    InitialInv();
    var e1, s1 := FirstOpens(t, outer);
    var e2, s2 := SecondOpens(s1, t, v, outer, low);
    var e3;
    e3, s := ThirdOpens(s2, t, u, v, outer, low, b);
    AfterConcat(INITIAL, e1, e2);
    AfterConcat(INITIAL, e1 + e2, e3);
    events := e1 + e2 + e3;
  }

  lemma SpringTrap(s: State, r: State, t: Thread, u: Thread, v: Thread, outer: seq<Key>, low: Key, inner: seq<Key>, b: Key)
    requires outer != [] && Trap(s, t, u, v, outer, low, b) && Inv(r) && OpenedOn(s, r, t, inner) && b in inner
    requires t != u && t.process == u.process != v.process
    ensures Deadlocked(r)
  {
    hide RegistryInv, LockInv, FileInv, ThreadInv;
    SameBlocks(s, r, t, inner);
    assert 0 in r.contexts && outer[0] in outer;
    CircleCloses(r, outer[0], low, b);
    forall c
      ensures !Movable(r, c)
    {
      assert Nests(r, 0, 3);
      assert c in r.contexts <==> c in {0, 1, 2, 3};
    }
  }

  lemma SameBlocks(s: State, r: State, t: Thread, inner: seq<Key>)
    requires s.next == 3 && s.contexts.Keys == {0, 1, 2} && OpenedOn(s, r, t, inner)
    ensures r.contexts.Keys == {0, 1, 2, 3}
    ensures r.contexts[0] == s.contexts[0] && r.contexts[1] == s.contexts[1] && r.contexts[2] == s.contexts[2]
  {
  }

  lemma OnlyOneNests(r: State, t: Thread, u: Thread, v: Thread)
    requires r.contexts.Keys == {0, 1, 2, 3} && t != u && t != v && u != v
    requires r.contexts[0].thread == r.contexts[3].thread == t && r.contexts[1].thread == v && r.contexts[2].thread == u
    ensures forall c, d | Nests(r, c, d) :: c == 0 && d == 3
  {
    forall c, d | Nests(r, c, d)
      ensures c == 0 && d == 3
    {
      assert c in r.contexts.Keys && d in r.contexts.Keys;
    }
  }

  /** Block 3 waits for 2, which waits for 1, which waits for 0. */
  lemma CircleCloses(r: State, a: Key, low: Key, b: Key)
    requires Inv(r) && 0 in r.contexts && 1 in r.contexts && 2 in r.contexts && 3 in r.contexts
    requires r.contexts[0].phase == Inside && a in r.contexts[0].keys && r.contexts[0].thread != r.contexts[1].thread
    requires r.contexts[1].keys == [low, a] && StuckAtFile(r.contexts[1], 1) && r.contexts[1].Files(low)
    requires r.contexts[2].keys == [low, b] && StuckAtFile(r.contexts[2], 0) && r.contexts[2].thread != r.contexts[1].thread
    requires r.contexts[2].thread.process == r.contexts[3].thread.process && r.contexts[2].thread != r.contexts[3].thread
    requires b in r.contexts[3].keys && RanOn(r, 3)
    ensures !CanAdvance(r, 1) && !CanAdvance(r, 2) && !CanAdvance(r, 3) && r.contexts[3].phase != Inside
  {
    var _ := InsideHolds(r, 0, a);
    FileBusy(r, 1, 0);
    FileBusy(r, 2, 1);
    assert r.contexts[2].keys[1] == b;
    NeverGetsIn(r, 2, 3, b);
  }

  /**
   * One nested block on a key that its thread does not hold is enough: with two
   * other, unnested blocks, one of them in another process, nothing can move.
   */
  lemma NestingOnOtherKeysDeadlocks(t: Thread, u: Thread, v: Thread, outer: seq<Key>, inner: seq<Key>, b: Key)
    returns (events: seq<Event>)
    requires t != u && t.process == u.process != v.process
    requires Ascending(outer) && Ascending(inner) && outer != [] && b in inner && b !in outer
    ensures Deadlocked(Run(events)) && OnlyNesting(Run(events), outer, inner)
    ensures forall c, d | Nests(Run(events), c, d) :: Run(events).contexts[c].thread == t
  {
    hide Inv;
    var low := Below(outer, inner);
    AllAbove(outer, low);
    AllAbove(inner, low);
    var before, s := SetTrap(t, u, v, outer, low, b);
    var more, r := Open(s, t, inner);
    InitialInv();
    AfterConcat(INITIAL, before, more);
    events := before + more;
    SpringTrap(s, r, t, u, v, outer, low, inner, b);
    SameBlocks(s, r, t, inner);
    OnlyOneNests(r, t, u, v);
  }

  lemma AllAbove(keys: seq<Key>, low: Key)
    requires Ascending(keys) && keys != [] && low < keys[0]
    ensures forall k | k in keys :: low < k
  {
    forall k | k in keys
      ensures low < k
    {
      var i :| 0 <= i < |keys| && keys[i] == k;
    }
  }

  /**
   * Main result: blocks on `inner` may be nested in blocks on `outer` without
   * any deadlock, whatever else runs unnested, exactly if the outer block has
   * no keys or has all the keys of the inner one.
   */
  lemma DeadlockIffNestingOnOtherKeys(outer: seq<Key>, inner: seq<Key>)
    requires Ascending(outer) && Ascending(inner)
    ensures (exists events :: Deadlocked(Run(events)) && OnlyNesting(Run(events), outer, inner)) <==>
            outer != [] && exists k :: k in inner && k !in outer
  {
    if outer != [] && exists k :: k in inner && k !in outer {
      var b :| b in inner && b !in outer;
      var events := NestingOnOtherKeysDeadlocks(Thread(1, 1), Thread(1, 2), Thread(2, 1), outer, inner, b);
    } else {
      forall events | OnlyNesting(Run(events), outer, inner) && exists c :: c in Run(events).contexts
        ensures !Deadlocked(Run(events))
      {
        var s := Run(events);
        SafeNesting(s, outer, inner);
        var c :| c in s.contexts;
        var d := NoDeadlock(events, c);
      }
    }
  }

  lemma SafeNesting(s: State, outer: seq<Key>, inner: seq<Key>)
    requires OnlyNesting(s, outer, inner) && (outer == [] || forall k | k in inner :: k in outer)
    ensures Disciplined(s)
  {
    forall c, d | Nests(s, c, d) && s.contexts[c].keys != []
      ensures forall k | k in s.contexts[d].keys :: HeldOutside(s, d, k)
    {
      assert s.contexts[c].keys == outer && s.contexts[d].keys == inner;
    }
  }
}
