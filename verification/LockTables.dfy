/** The registry of file locks itself: its methods have the effect of the steps. */
module LockTables {
  import opened MutationLocks
  import opened SortedKeys
  import opened Wrappers

  ghost function Advances(c: ContextId, n: nat): seq<Event> { seq(n, _ => Advance(c)) }

  lemma OneMoreAdvance(s: State, c: ContextId, n: nat)
    requires Inv(s)
    ensures After(s, Advances(c, n + 1)) == Step(After(s, Advances(c, n)), Advance(c))
  {
    assert Advances(c, n + 1) == Advances(c, n) + [Advance(c)];
    AfterConcat(s, Advances(c, n), [Advance(c)]);
    AfterOne(After(s, Advances(c, n)), Advance(c));
  }

  /** One more step of the running context extends the run. */
  lemma AdvanceInRun(before: State, now: State, c: ContextId, n: nat)
    requires Inv(before) && Inv(now) && now == After(before, Advances(c, n))
    requires Top(now, c) && CanAdvance(now, c)
    ensures Inv(Advanced(now, c)) && Advanced(now, c) == After(before, Advances(c, n + 1))
    ensures NextMove(now.contexts[c]) != Drop ==> Top(Advanced(now, c), c)
  {
    OneMoreAdvance(before, c, n);
    AdvanceIsStep(now, c);
    if NextMove(now.contexts[c]) != Drop { StaysTop(now, c); }
  }

  class LockTable {
    var contexts: map<ContextId, Context>
    var entries: seq<Entry>
    var registry: map<(int, Key), EntryId>
    var files: map<Key, FileHold>
    var next: ContextId

    function View(): State
      reads this
    {
      State(contexts, entries, registry, files, next)
    }

    constructor ()
      ensures View() == INITIAL
    {
      contexts, entries, registry, files, next := map[], [], map[], map[], 0;
    }

    /** `keys = sorted({...})`. */
    method Begin(t: Thread, raw: seq<Key>) returns (c: ContextId)
      requires Inv(View()) && CanBegin(View(), t)
      modifies this
      ensures c == old(next) && View() == Step(old(View()), Event.Begin(t, raw))
    {
      c := next;
      contexts := contexts[c := Context(t, SortedSet(raw), [], 0, 0, 0, Entering)];
      next := next + 1;
    }

    /** The loop under the registry guard, which counts this context in at every key's entry. */
    method RegisterKeys(c: ContextId)
      requires Inv(View()) && Top(View(), c) && contexts[c].phase == Entering && contexts[c].entries == []
      modifies this
      ensures View() == After(old(View()), Advances(c, |old(contexts)[c].keys|))
      ensures c in contexts && |contexts[c].entries| == |contexts[c].keys|
    {
      ghost var before := View();
      var n := |contexts[c].keys|;
      for i := 0 to n
        invariant Inv(View()) && Top(View(), c) && View() == After(before, Advances(c, i))
        invariant |contexts[c].entries| == i && |contexts[c].keys| == n && contexts[c].phase == Entering
      {
        AdvanceInRun(before, View(), c, i);
        RegisterOne(c);
      }
    }

    method RegisterOne(c: ContextId)
      requires Shape(View()) && c in contexts && NextMove(contexts[c]) == Register
      modifies this
      ensures View() == RegisterKey(old(View()), c)
    {
      var x := contexts[c];
      var k := x.keys[|x.entries|];
      var at := (x.thread.process, k);
      var e: EntryId;
      if at in registry {
        e := registry[at];
        assert registry == registry[at := e];
      } else {
        e := |entries|;
        entries := entries + [Entry(x.thread.process, k, None, 0, 0)];
        registry := registry[at := e];
      }
      entries := entries[e := entries[e].(users := entries[e].users + 1)];
      contexts := contexts[c := x.(entries := x.entries + [e])];
    }

    /** One `acquire()` of either lock; `false` means that the thread has to wait. */
    method Acquire(c: ContextId) returns (taken: bool)
      requires Shape(View()) && Top(View(), c) && Waits(contexts[c])
      modifies this
      ensures taken == CanAdvance(old(View()), c)
      ensures View() == Step(old(View()), Event.Advance(c))
    {
      var x := contexts[c];
      if x.locked < |x.entries| {
        var e := x.entries[x.locked];
        taken := entries[e].owner == None || entries[e].owner == Some(x.thread);
        if taken {
          entries := entries[e := entries[e].(owner := Some(x.thread), depth := entries[e].depth + 1)];
          contexts := contexts[c := x.(locked := x.locked + 1)];
        }
      } else {
        var k, e := x.keys[x.filed], x.entries[x.filed];
        taken := k in files ==> files[k].holder == x.thread && files[k].entry == e;
        if taken {
          files := files[k := FileHold(x.thread, e, (if k in files then files[k].depth else 0) + 1)];
          contexts := contexts[c := x.(filed := x.filed + 1)];
        }
      }
    }

    /** The `finally` block: file locks and thread locks in reverse, then the cleanup loop under the registry guard. */
    method Release(c: ContextId) returns (ghost steps: nat)
      requires Inv(View()) && Top(View(), c) && contexts[c].phase == Leaving
      modifies this
      ensures View() == After(old(View()), Advances(c, steps))
      ensures contexts == old(contexts) - {c}
    {
      ghost var before := View();
      steps := 0;
      steps := ReleaseFiles(c, before, steps);
      steps := ReleaseLocks(c, before, steps);
      steps := UnregisterKeys(c, before, steps);
      AdvanceInRun(before, View(), c, steps);
      contexts := contexts - {c};
      steps := steps + 1;
    }

    method ReleaseFiles(c: ContextId, ghost before: State, ghost done: nat) returns (ghost steps: nat)
      requires Leaves(before, c, done)
      modifies this
      ensures Leaves(before, c, steps) && contexts[c].filed == 0
    {
      hide RegistryInv, LinksOk, Advances;
      steps := done;
      while contexts[c].filed > 0
        invariant Leaves(before, c, steps)
        decreases contexts[c].filed
      {
        AdvanceInRun(before, View(), c, steps);
        ReleaseOneFile(c);
        steps := steps + 1;
      }
    }

    method ReleaseLocks(c: ContextId, ghost before: State, ghost done: nat) returns (ghost steps: nat)
      requires Leaves(before, c, done) && contexts[c].filed == 0
      modifies this
      ensures Leaves(before, c, steps) && contexts[c].filed == 0 && contexts[c].locked == 0
    {
      hide RegistryInv;
      steps := done;
      while contexts[c].locked > 0
        invariant Leaves(before, c, steps) && contexts[c].filed == 0
        decreases contexts[c].locked
      {
        AdvanceInRun(before, View(), c, steps);
        ReleaseOneLock(c);
        steps := steps + 1;
      }
    }

    method UnregisterKeys(c: ContextId, ghost before: State, ghost done: nat) returns (ghost steps: nat)
      requires Leaves(before, c, done) && contexts[c].filed == 0 && contexts[c].locked == 0
      modifies this
      ensures Leaves(before, c, steps) && NextMove(contexts[c]) == Drop
    {
      hide Shape;
      steps := done;
      while contexts[c].gone < |contexts[c].entries|
        invariant Leaves(before, c, steps) && contexts[c].filed == 0 && contexts[c].locked == 0
        decreases |contexts[c].entries| - contexts[c].gone
      {
        AdvanceInRun(before, View(), c, steps);
        UnregisterOne(c);
        steps := steps + 1;
      }
    }

    /** `c` is on its way out after `steps` steps since `before`. */
    ghost predicate Leaves(before: State, c: ContextId, steps: nat)
      reads this
    {
      && Inv(before) && Inv(View()) && View() == After(before, Advances(c, steps))
      && Top(View(), c) && contexts[c].phase == Leaving && contexts - {c} == before.contexts - {c}
    }

    method ReleaseOneFile(c: ContextId)
      requires Shape(View()) && c in contexts && NextMove(contexts[c]) == Unfile
      modifies this
      ensures View() == ReleaseFile(old(View()), c)
    {
      var x := contexts[c];
      var k := x.keys[x.filed - 1];
      if k !in files || files[k].depth <= 1 {
        files := files - {k};
      } else {
        files := files[k := files[k].(depth := files[k].depth - 1)];
      }
      contexts := contexts[c := x.(filed := x.filed - 1)];
    }

    method ReleaseOneLock(c: ContextId)
      requires Shape(View()) && c in contexts && NextMove(contexts[c]) == Unlock
      modifies this
      ensures View() == ReleaseLock(old(View()), c)
    {
      var x := contexts[c];
      var e := x.entries[x.locked - 1];
      var entry := entries[e];
      entries := entries[e := entry.(owner := if entry.depth <= 1 then None else entry.owner, depth := entry.depth - 1)];
      contexts := contexts[c := x.(locked := x.locked - 1)];
    }

    method UnregisterOne(c: ContextId)
      requires Shape(View()) && c in contexts && NextMove(contexts[c]) == Unregister
      modifies this
      ensures View() == UnregisterKey(old(View()), c)
    {
      var x := contexts[c];
      var k, e := x.keys[x.gone], x.entries[x.gone];
      var at := (x.thread.process, k);
      entries := entries[e := entries[e].(users := entries[e].users - 1)];
      if entries[e].users == 0 && at in registry && registry[at] == e {
        registry := registry - {at};
      }
      contexts := contexts[c := x.(gone := x.gone + 1)];
    }
  }
}
