/** What `with file_mutation_locks(paths)` guarantees in every run: exclusion, clean rest, progress. */
module LockGuarantees {
  import opened MutationLocks
  import opened SortedKeys
  import opened Wrappers

  // ---------------------------------------------------------------------
  // What holds in every run
  // ---------------------------------------------------------------------

  /** `users` is the number of contexts naming the entry, and only entries in use stay registered. */
  lemma UsersCountContexts(events: seq<Event>, e: EntryId)
    ensures var s := Run(events);
            0 <= e < |s.entries| ==>
              && s.entries[e].users == |set c | c in s.contexts && s.contexts[c].Names(e)|
              && (s.entries[e].users > 0 <==>
                    (s.entries[e].process, s.entries[e].key) in s.registry && s.registry[(s.entries[e].process, s.entries[e].key)] == e)
  {
    var s := Run(events);
    if 0 <= e < |s.entries| {
      assert s.entries[e].users == |Users(s, e)|;
      if s.entries[e].users > 0 {
        var c := Member(Users(s, e));
        var x := s.contexts[c];
        var i :| 0 <= i < |x.entries[x.gone..]| && x.entries[x.gone..][i] == e;
        assert x.entries[x.gone + i] == e && Linked(s, x);
      }
    }
  }

  lemma NamedEntry(s: State, c: ContextId, i: int)
    requires Inv(s) && c in s.contexts && s.contexts[c].gone <= i < |s.contexts[c].entries|
    ensures var at := (s.contexts[c].thread.process, s.contexts[c].keys[i]);
            at in s.registry && s.registry[at] == s.contexts[c].entries[i]
  {
    assert Linked(s, s.contexts[c]);
  }

  /** Contexts of one process that have registered the same key share one lock object. */
  lemma ContextsShareEntries(events: seq<Event>, c: ContextId, d: ContextId, i: int, j: int)
    ensures var s := Run(events);
            && c in s.contexts && s.contexts[c].gone <= i < |s.contexts[c].entries|
            && d in s.contexts && s.contexts[d].gone <= j < |s.contexts[d].entries|
            && s.contexts[c].thread.process == s.contexts[d].thread.process
            && s.contexts[c].keys[i] == s.contexts[d].keys[j]
            ==> s.contexts[c].entries[i] == s.contexts[d].entries[j]
  {
    var s := Run(events);
    if c in s.contexts && s.contexts[c].gone <= i < |s.contexts[c].entries| {
      NamedEntry(s, c, i);
    }
    if d in s.contexts && s.contexts[d].gone <= j < |s.contexts[d].entries| {
      NamedEntry(s, d, j);
    }
  }

  /** The thread locks alone keep the threads of one process apart. */
  lemma ThreadLocksExclude(events: seq<Event>, c: ContextId, d: ContextId, e: EntryId)
    ensures var s := Run(events);
            c in s.contexts && d in s.contexts && s.contexts[c].Locks(e) && s.contexts[d].Locks(e) ==>
              s.contexts[c].thread == s.contexts[d].thread
  {
    var s := Run(events);
    if c in s.contexts && d in s.contexts && s.contexts[c].Locks(e) && s.contexts[d].Locks(e) {
      var i :| 0 <= i < s.contexts[c].locked && s.contexts[c].entries[i] == e;
      assert LockOk(s, e);
      assert c in Lockers(s, e) && d in Lockers(s, e);
    }
  }

  lemma InsideHolds(s: State, c: ContextId, k: Key) returns (i: int)
    requires Inv(s) && c in s.contexts && s.contexts[c].phase == Inside && k in s.contexts[c].keys
    ensures 0 <= i < |s.contexts[c].entries| == |s.contexts[c].keys| && s.contexts[c].keys[i] == k
    ensures c in Lockers(s, s.contexts[c].entries[i]) && c in Filers(s, k) && s.contexts[c].gone == 0
  {
    var x := s.contexts[c];
    i :| 0 <= i < |x.keys| && x.keys[i] == k;
    assert x.entries[..x.locked] == x.entries && x.keys[..x.filed] == x.keys;
  }

  // What a block locks is what it was opened with.

  /** Event `i` opened block `c`, of thread `t`, on the paths with keys `raw`. */
  ghost predicate OpenedAt(events: seq<Event>, i: int, c: ContextId, t: Thread, raw: seq<Key>) {
    0 <= i < |events| && events[i] == Begin(t, raw) && Run(events[..i]).next == c && CanBegin(Run(events[..i]), t)
  }

  /** Context `c` is of thread `t`, on exactly the keys `raw`. */
  ghost predicate IsOn(s: State, c: ContextId, t: Thread, raw: seq<Key>) {
    c in s.contexts && s.contexts[c].thread == t && forall k :: k in s.contexts[c].keys <==> k in raw
  }

  lemma RunOneMore(events: seq<Event>)
    requires events != []
    ensures var n := |events| - 1;
            Run(events) == Step(Run(events[..n]), events[n])
  {
    var n := |events| - 1;
    InitialInv();
    assert events == events[..n] + [events[n]];
    AfterConcat(INITIAL, events[..n], [events[n]]);
    AfterOne(Run(events[..n]), events[n]);
  }

  /** What a step makes of a block that is not inside. */
  lemma AdvancedContext(s: State, c: ContextId)
    requires Shape(s) && c in s.contexts && CanAdvance(s, c) && s.contexts[c].phase != Inside
    ensures var x, t := s.contexts[c], Advanced(s, c);
            if NextMove(x) == Drop then t.contexts == s.contexts - {c}
            else
              && c in t.contexts && t.contexts == s.contexts[c := t.contexts[c]]
              && var y := t.contexts[c];
                 && y.thread == x.thread && y.keys == x.keys
                 && match NextMove(x)
                    case Register => y == x.(entries := y.entries) && |y.entries| == |x.entries| + 1
                    case Lock => y == x.(locked := x.locked + 1)
                    case File => y == x.(filed := x.filed + 1)
                    case Unfile => y == x.(filed := x.filed - 1)
                    case Unlock => y == x.(locked := x.locked - 1)
                    case Unregister => y == x.(gone := x.gone + 1)
                    case _ => y == x.(phase := Inside)
  {
  }

  lemma OthersOpenNone(s: State, e: Event, c: ContextId)
    requires Inv(s) && !e.Begin? && c in Step(s, e).contexts
    ensures Step(s, e).next == s.next && c in s.contexts
    ensures Step(s, e).contexts[c].thread == s.contexts[c].thread && Step(s, e).contexts[c].keys == s.contexts[c].keys
  {
    OthersKeepNext(s, e);
    if e.Advance? && Top(s, e.c) && CanAdvance(s, e.c) {
      AdvancedContext(s, e.c);
    }
    hide Advanced, Shape, Inv, CanAdvance, Top;
  }

  lemma OthersKeepNext(s: State, e: Event)
    requires Inv(s) && !e.Begin?
    ensures Step(s, e).next == s.next && s.next !in Step(s, e).contexts
  {
    hide RegistryInv, LockInv, FileInv, ThreadInv, ContextShape;
  }

  /** A step opens at most one block, and changes neither thread nor keys of any other. */
  lemma StepOpens(s: State, e: Event, c: ContextId)
    requires Inv(s)
    ensures var t := Step(s, e);
            && s.next <= t.next
            && (c in t.contexts && c != s.next ==>
                  c in s.contexts && t.contexts[c].thread == s.contexts[c].thread && t.contexts[c].keys == s.contexts[c].keys)
            && (s.next in t.contexts || t.next != s.next ==>
                  e.Begin? && CanBegin(s, e.thread) && t.next == s.next + 1 && IsOn(t, s.next, e.thread, e.raw))
            && (e.Begin? && CanBegin(s, e.thread) ==> IsOn(t, s.next, e.thread, e.raw) && t.next == s.next + 1)
  {
    if e.Begin? {
      hide RegistryInv, LockInv, FileInv, ThreadInv, ContextShape, Insert;
      assert forall k :: k in SortedSet(e.raw) <==> k in e.raw;
    } else {
      OthersKeepNext(s, e);
      if c in Step(s, e).contexts { OthersOpenNone(s, e, c); }
      hide Step, Inv;
    }
  }

  /** A block in flight is of the thread, and on the keys, that it was opened with. */
  lemma {:induction false} StaysOn(events: seq<Event>, i: int, c: ContextId, t: Thread, raw: seq<Key>)
    requires OpenedAt(events, i, c, t, raw)
    ensures c < Run(events).next && (c in Run(events).contexts ==> IsOn(Run(events), c, t, raw))
    decreases |events|
  {
    hide Step;
    var n := |events| - 1;
    RunOneMore(events);
    StepOpens(Run(events[..n]), events[n], c);
    if i < n {
      assert events[..n][..i] == events[..i];
      StaysOn(events[..n], i, c, t, raw);
    }
  }

  /** Every block in flight was opened. */
  lemma {:induction false} WasOpened(events: seq<Event>, c: ContextId) returns (i: int, t: Thread, raw: seq<Key>)
    requires c in Run(events).contexts
    ensures OpenedAt(events, i, c, t, raw) && IsOn(Run(events), c, t, raw)
    decreases |events|
  {
    hide Step;
    var n := |events| - 1;
    RunOneMore(events);
    var before := Run(events[..n]);
    StepOpens(before, events[n], c);
    if c == before.next {
      i, t, raw := n, events[n].thread, events[n].raw;
    } else {
      i, t, raw := WasOpened(events[..n], c);
      assert events[..n][..i] == events[..i];
    }
  }

  /**
   * Main result: over all threads and processes, two blocks that were opened
   * with a common key only run their bodies together when one thread nests them.
   */
  lemma MutualExclusion(events: seq<Event>, i: int, c: ContextId, t: Thread, raw: seq<Key>,
                        j: int, d: ContextId, u: Thread, other: seq<Key>, k: Key)
    requires OpenedAt(events, i, c, t, raw) && OpenedAt(events, j, d, u, other) && k in raw && k in other
    ensures var s := Run(events);
            c in s.contexts && s.contexts[c].phase == Inside && d in s.contexts && s.contexts[d].phase == Inside ==> t == u
  {
    var s := Run(events);
    StaysOn(events, i, c, t, raw);
    StaysOn(events, j, d, u, other);
    if c in s.contexts && s.contexts[c].phase == Inside && d in s.contexts && s.contexts[d].phase == Inside {
      var x := InsideHolds(s, c, k);
      var y := InsideHolds(s, d, k);
      assert FileOk(s, k);
    }
  }

  /** When no block is in flight, nothing is registered and no lock is held. */
  lemma RestIsClean(events: seq<Event>)
    ensures var s := Run(events);
            s.contexts == map[] ==>
              && s.registry == map[] && s.files == map[]
              && forall e | 0 <= e < |s.entries| :: s.entries[e].owner == None
  {
    var s := Run(events);
    if s.contexts == map[] {
      forall e | 0 <= e < |s.entries|
        ensures s.entries[e].users == 0 && s.entries[e].owner == None
      {
        assert Users(s, e) == {} && Lockers(s, e) == {} && LockOk(s, e);
      }
      forall k ensures k !in s.files {
        assert Filers(s, k) == {} && FileOk(s, k);
      }
      assert NoIdleEntry(s);
      assert s.registry.Keys == {};
    }
  }

  // ---------------------------------------------------------------------
  // No wait cycle
  // ---------------------------------------------------------------------

  /** Blocks opened inside another block of the same thread that has any keys name keys of such an outer block only. */
  ghost predicate Disciplined(s: State) {
    forall c, d | Nests(s, c, d) && s.contexts[c].keys != [] ::
      forall k | k in s.contexts[d].keys :: HeldOutside(s, d, k)
  }

  ghost predicate Nests(s: State, c: ContextId, d: ContextId) {
    c in s.contexts && d in s.contexts && c < d && s.contexts[c].thread == s.contexts[d].thread
  }

  ghost predicate HeldOutside(s: State, d: ContextId, k: Key)
    requires d in s.contexts
  {
    exists c :: c in s.contexts && c < d && s.contexts[c].thread == s.contexts[d].thread && k in s.contexts[c].keys
  }

  ghost predicate Movable(s: State, c: ContextId)
    requires Shape(s)
  {
    Top(s, c) && (CanAdvance(s, c) || s.contexts[c].phase == Inside)
  }

  ghost function Awaited(x: Context): Key
    requires ContextShape(x) && Waits(x)
  {
    if NextMove(x) == File then x.keys[x.filed] else x.keys[x.locked]
  }

  /** The lock `y` asks for is above the one `x` asks for: file locks after thread locks, then by key. */
  ghost predicate Above(y: Context, x: Context)
    requires ContextShape(x) && ContextShape(y)
  {
    && Waits(x) && Waits(y)
    && (NextMove(x) == NextMove(y) ==> Awaited(x) < Awaited(y))
    && (NextMove(y) == Lock ==> NextMove(x) == Lock)
  }

  /** The lock that `x` asks for is above every lock it holds. */
  lemma AsksAboveWhatItHolds(x: Context, i: int)
    requires ContextShape(x) && Waits(x) && 0 <= i
    ensures NextMove(x) == Lock ==> x.filed == 0 && (i < x.locked ==> x.keys[i] < Awaited(x))
    ensures NextMove(x) == File ==> x.locked == |x.keys| && (i < x.filed ==> x.keys[i] < Awaited(x))
  {
  }

  lemma {:induction false} TopOfThread(s: State, c: ContextId) returns (d: ContextId)
    requires Shape(s) && c in s.contexts
    ensures Top(s, d) && s.contexts[d].thread == s.contexts[c].thread && c <= d
    decreases s.next - c
  {
    if Top(s, c) {
      d := c;
    } else {
      var e :| e in s.contexts && s.contexts[e].thread == s.contexts[c].thread && e > c;
      d := TopOfThread(s, e);
    }
  }

  /** A block nested in a block on the same keys finds every lock already its own. */
  lemma NestedNeverWaits(s: State, d: ContextId, c: ContextId)
    requires Inv(s) && Disciplined(s) && Top(s, d) && c in s.contexts && c < d
    requires s.contexts[c].thread == s.contexts[d].thread && s.contexts[c].keys != []
    ensures Movable(s, d)
  {
    var x := s.contexts[d];
    assert Nests(s, c, d);
    if Waits(x) {
      var i := if NextMove(x) == File then x.filed else x.locked;
      var k := x.keys[i];
      assert k in x.keys && HeldOutside(s, d, k);
      var outer :| outer in s.contexts && outer < d && s.contexts[outer].thread == x.thread && k in s.contexts[outer].keys;
      var j := InsideHolds(s, outer, k);
      NamedEntry(s, outer, j);
      NamedEntry(s, d, i);
      assert LockOk(s, x.entries[i]) && FileOk(s, k);
      if NextMove(x) == File {
        FileEntryIs(s, outer, j);
      }
    }
  }

  lemma FileEntryIs(s: State, c: ContextId, j: int)
    requires Inv(s) && c in s.contexts && 0 <= j < |s.contexts[c].entries|
    requires s.contexts[c].keys[j] in s.files && c in Filers(s, s.contexts[c].keys[j])
    ensures s.files[s.contexts[c].keys[j]].entry == s.contexts[c].entries[j]
  {
    var x := s.contexts[c];
    assert FileOk(s, x.keys[j]);
    var e := s.files[x.keys[j]].entry;
    var i :| 0 <= i < x.locked && x.entries[i] == e;
    assert x.keys[i] == s.entries[e].key;
  }

  /** Who a waiting block waits for: a thread whose running block can move, or waits for a higher lock. */
  lemma WaitsForHigher(s: State, c: ContextId) returns (d: ContextId)
    requires Inv(s) && Disciplined(s) && Top(s, c) && !Movable(s, c)
    ensures Top(s, d) && (Movable(s, d) || Above(s.contexts[d], s.contexts[c]))
  {
    var x := s.contexts[c];
    assert Waits(x);
    var i := if NextMove(x) == File then x.filed else x.locked;
    var holder: ContextId;
    if NextMove(x) == Lock {
      assert LockOk(s, x.entries[i]);
      holder := Member(Lockers(s, x.entries[i]));
    } else {
      assert FileOk(s, x.keys[i]);
      holder := Member(Filers(s, x.keys[i]));
    }
    d := TopOfThread(s, holder);
    if d != holder {
      NestedNeverWaits(s, d, holder);
    } else if !Movable(s, d) {
      var y := s.contexts[d];
      var j: int;
      if NextMove(x) == Lock {
        j :| 0 <= j < y.locked && y.entries[j] == x.entries[i];
        assert y.keys[j] == x.keys[i];
      } else {
        j :| 0 <= j < y.filed && y.keys[j] == x.keys[i];
      }
      AsksAboveWhatItHolds(y, j);
    }
  }

  ghost function Higher(s: State, c: ContextId): set<ContextId>
    requires Shape(s) && c in s.contexts
  {
    set d | d in s.contexts && Above(s.contexts[d], s.contexts[c])
  }

  /** Following the waits upwards ends at a block that can move. */
  lemma {:induction false} FollowWaits(s: State, c: ContextId) returns (d: ContextId)
    requires Inv(s) && Disciplined(s) && Top(s, c)
    ensures Movable(s, d)
    decreases Higher(s, c)
  {
    if Movable(s, c) {
      d := c;
    } else {
      var e := WaitsForHigher(s, c);
      if Movable(s, e) {
        d := e;
      } else {
        assert e in Higher(s, c) && e !in Higher(s, e);
        forall z | z in Higher(s, e) ensures z in Higher(s, c) {
          assert Above(s.contexts[z], s.contexts[e]);
        }
        d := FollowWaits(s, e);
      }
    }
  }

  /** No deadlock: while any block is in flight, in any process, some block can take its next step without waiting. */
  lemma NoDeadlock(events: seq<Event>, c: ContextId) returns (d: ContextId)
    requires c in Run(events).contexts && Disciplined(Run(events))
    ensures Movable(Run(events), d)
  {
    var s := Run(events);
    var top := TopOfThread(s, c);
    d := FollowWaits(s, top);
  }
}
