/** Every run of the file locks can be finished: all blocks get in, leave, and nothing stays behind. */
module LockDraining {
  import opened LockGuarantees
  import opened MutationLocks
  import opened SortedKeys
  import opened Wrappers

  /** How many steps a block still has before it. */
  ghost function ToDo(x: Context): (n: int)
    requires ContextShape(x)
    ensures n > 0
  {
    match x.phase
    case Entering => (3 * |x.keys| - |x.entries| - x.locked - x.filed) + 3 * |x.keys| + 3
    case Inside => 3 * |x.keys| + 2
    case Leaving => x.filed + x.locked + |x.entries| - x.gone + 1
  }

  ghost function Pick<T>(s: set<T>): (x: T)
    requires |s| > 0
    ensures x in s
  {
    var x :| x in s;
    x
  }

  /** The sum of positive numbers. */
  ghost function Sum(work: map<ContextId, int>): (n: int)
    requires forall c | c in work :: work[c] > 0
    ensures n >= 0
    decreases |work|
  {
    if |work| == 0 then 0
    else
      var c := Pick(work.Keys);
      work[c] + Sum(work - {c})
  }

  lemma {:induction false} SumWithout(work: map<ContextId, int>, c: ContextId)
    requires c in work && forall d | d in work :: work[d] > 0
    ensures Sum(work) == work[c] + Sum(work - {c})
    decreases |work|
  {
    var first := Pick(work.Keys);
    if first != c {
      SumWithout(work - {first}, c);
      SumWithout(work - {c}, first);
      assert work - {first} - {c} == work - {c} - {first};
    }
  }

  ghost function Work(s: State): map<ContextId, int>
    requires Shape(s)
  {
    map c | c in s.contexts :: ToDo(s.contexts[c])
  }

  /** `t` is `s` one step of block `c` further: it has less to do, or is gone. */
  ghost predicate OneStep(s: State, t: State, c: ContextId)
    requires Shape(s) && Shape(t)
  {
    && c in s.contexts && t.contexts - {c} == s.contexts - {c}
    && (c in t.contexts ==>
          && t.contexts[c].thread == s.contexts[c].thread && t.contexts[c].keys == s.contexts[c].keys
          && ToDo(t.contexts[c]) < ToDo(s.contexts[c]))
  }

  lemma WorkElsewhere(s: State, t: State, c: ContextId)
    requires Shape(s) && Shape(t) && t.contexts - {c} == s.contexts - {c}
    ensures Work(t) - {c} == Work(s) - {c}
  {
    hide Shape, ToDo;
    forall d
      ensures d in Work(t) - {c} <==> d in Work(s) - {c}
      ensures d in Work(t) - {c} ==> (Work(t) - {c})[d] == (Work(s) - {c})[d]
    {
      assert d in t.contexts - {c} <==> d in s.contexts - {c};
      if d in t.contexts - {c} { assert (t.contexts - {c})[d] == (s.contexts - {c})[d]; }
    }
  }

  lemma OneStepSum(s: State, t: State, c: ContextId)
    requires Shape(s) && Shape(t) && OneStep(s, t, c)
    ensures Sum(Work(t)) < Sum(Work(s))
  {
    hide Shape, ToDo, Sum;
    SumWithout(Work(s), c);
    WorkElsewhere(s, t, c);
    if c in t.contexts {
      SumWithout(Work(t), c);
    } else {
      assert Work(t) - {c} == Work(t);
    }
  }

  /** Every step of a running block brings it nearer to its end. */
  lemma AdvanceProgresses(s: State, c: ContextId)
    requires Inv(s) && Top(s, c) && CanAdvance(s, c) && s.contexts[c].phase != Inside
    ensures Inv(Step(s, Advance(c))) && OneStep(s, Step(s, Advance(c)), c)
  {
    AdvanceIsStep(s, c);
    AdvancedContext(s, c);
    var t := Advanced(s, c);
    assert Shape(s) && Shape(t);
    assert c in t.contexts ==> ContextShape(t.contexts[c]);
    hide Inv, Shape, Advanced, CanAdvance, Step, Ascending;
    assert t.contexts - {c} == s.contexts - {c};
  }

  lemma LeaveProgresses(s: State, c: ContextId)
    requires Inv(s) && Top(s, c) && s.contexts[c].phase == Inside
    ensures Inv(Step(s, Leave(c))) && OneStep(s, Step(s, Leave(c)), c)
  {
    StepKeeps(s, Leave(c));
    hide RegistryInv, LockInv, FileInv, ThreadInv;
    var t := WithPhase(s, c, Leaving);
    assert Step(s, Leave(c)) == t;
    assert t.contexts - {c} == s.contexts - {c};
  }

  /** Finishing an innermost block leaves the nesting of the others as disciplined as it was. */
  lemma StaysDisciplined(s: State, t: State, c: ContextId)
    requires Inv(s) && Inv(t) && Top(s, c) && OneStep(s, t, c) && Disciplined(s)
    ensures Disciplined(t)
  {
    hide RegistryInv, LockInv, FileInv, ThreadInv, ToDo;
    forall d | d in t.contexts
      ensures d in s.contexts && t.contexts[d].thread == s.contexts[d].thread && t.contexts[d].keys == s.contexts[d].keys
    {
      if d != c { assert d in t.contexts - {c} && (t.contexts - {c})[d] == (s.contexts - {c})[d]; }
    }
    forall o, d, k | Nests(t, o, d) && t.contexts[o].keys != [] && k in t.contexts[d].keys
      ensures HeldOutside(t, d, k)
    {
      assert Nests(s, o, d) && HeldOutside(s, d, k);
      var e :| e in s.contexts && e < d && s.contexts[e].thread == s.contexts[d].thread && k in s.contexts[e].keys;
      assert e != c;
      assert e in s.contexts - {c} && e in t.contexts - {c};
    }
  }

  /** Lets blocks run, whichever can, until none is left. */
  lemma {:induction false} Drain(s: State) returns (events: seq<Event>)
    requires Inv(s) && Disciplined(s)
    ensures forall e | e in events :: e.Advance? || e.Leave?
    ensures After(s, events).contexts == map[]
    decreases Sum(Work(s))
  {
    hide RegistryInv, LockInv, FileInv, ThreadInv, ToDo, Sum, Disciplined, OneStep;
    if s.contexts == map[] {
      events := [];
    } else {
      var c := Member(s.contexts.Keys);
      var top := TopOfThread(s, c);
      var d := FollowWaits(s, top);
      var e := if s.contexts[d].phase == Inside then Leave(d) else Advance(d);
      if s.contexts[d].phase == Inside { LeaveProgresses(s, d); } else { AdvanceProgresses(s, d); }
      var t := Step(s, e);
      OneStepSum(s, t, d);
      StaysDisciplined(s, t, d);
      var rest := Drain(t);
      events := [e] + rest;
      assert events[1..] == rest;
    }
  }

  /**
   * Main result: whatever has happened, as long as nested blocks name keys that
   * their thread holds, the blocks in flight can all be run to their end by
   * their own steps, after which no entry is registered and no lock is held.
   */
  lemma EveryRunCanDrain(events: seq<Event>) returns (more: seq<Event>)
    requires Disciplined(Run(events))
    ensures forall e | e in more :: e.Advance? || e.Leave?
    ensures var s := Run(events + more);
            && s.contexts == map[] && s.registry == map[] && s.files == map[]
            && forall e | 0 <= e < |s.entries| :: s.entries[e].owner == None
  {
    InitialInv();
    more := Drain(Run(events));
    AfterConcat(INITIAL, events, more);
    RestIsClean(events + more);
  }

  /** A block on its way out never waits, and its own steps take it away, leaving every other block as it was. */
  lemma {:induction false} LeavingBlockGoes(s: State, c: ContextId) returns (events: seq<Event>)
    requires Inv(s) && Top(s, c) && s.contexts[c].phase == Leaving
    ensures forall e | e in events :: e == Advance(c)
    ensures After(s, events).contexts == s.contexts - {c}
    decreases ToDo(s.contexts[c])
  {
    hide RegistryInv, LockInv, FileInv, ThreadInv, ToDo;
    AdvanceProgresses(s, c);
    AdvanceIsStep(s, c);
    var t := Step(s, Advance(c));
    if c in t.contexts {
      assert t.contexts.Keys == s.contexts.Keys && t.contexts[c].phase == Leaving;
      StaysTop(s, c);
      var rest := LeavingBlockGoes(t, c);
      events := [Advance(c)] + rest;
      assert events[1..] == rest;
    } else {
      events := [Advance(c)];
      AfterOne(s, Advance(c));
      assert t.contexts == t.contexts - {c};
    }
  }

  /** A block whose acquisition raises can always be cleaned up, whatever it had acquired and whatever others hold. */
  lemma AbortedBlockGoes(s: State, c: ContextId) returns (events: seq<Event>)
    requires Inv(s) && Top(s, c) && Waits(s.contexts[c])
    ensures forall e | e in events :: e == Advance(c)
    ensures After(s, [Abort(c)] + events).contexts == s.contexts - {c}
  {
    StepKeeps(s, Abort(c));
    var t := Step(s, Abort(c));
    assert t.contexts == s.contexts[c := s.contexts[c].(phase := Leaving)];
    events := LeavingBlockGoes(t, c);
    assert ([Abort(c)] + events)[1..] == events;
    assert t.contexts - {c} == s.contexts - {c};
  }
}
