/** What each operation on the terminal table does, and that every kill can be answered. */
module PtyOperations {
  import opened Pty
  import opened StableSort
  import opened Wrappers

  // ---------------------------------------------------------------------
  // Limits
  // ---------------------------------------------------------------------

  /** A snapshot has 100000 characters unless another number is asked for, at least one and at most 200000. */
  lemma LimitIs(n: int)
    ensures Limit(None) == Limit(Some(0)) == 100000
    ensures n != 0 ==> Limit(Some(n)) == if n < 1 then 1 else if n > 200000 then 200000 else n
  {
  }

  /** A snapshot ends at the cursor and has as much of the scrollback as is asked for. */
  lemma SnapshotIsLongest(x: Session, maxChars: Option<int>)
    ensures var shot := SnapshotOf(x, maxChars);
            && shot.end == x.cursor && shot.end - shot.start == |shot.output|
            && |shot.output| == Min(|x.scrollback|, Limit(maxChars))
            && (shot.truncated <==> |shot.output| < |x.scrollback|)
  {
  }

  /** Between one and 32 sessions may live, and a new manager is open and empty. */
  lemma InitialIs(liveMax: int)
    ensures var s := Initial(liveMax);
            && s.liveMax == (if liveMax < 1 then 1 else if liveMax > 32 then 32 else liveMax)
            && !s.closed && s.table == [] && s.objects == map[] && s.next == 1
  {
  }

  // ---------------------------------------------------------------------
  // The table
  // ---------------------------------------------------------------------

  /** The session is listed and belongs to `owner`. */
  predicate BelongsTo(s: State, id: Id, owner: string) {
    owner != "" && id in s.table && id in s.objects && s.objects[id].owner == owner
  }

  /** A new session is added exactly if the manager is open, an owner is given, the limit is not reached and the process starts. */
  lemma SpawnIff(s: State, owner: string, ok: bool, now: int)
    requires Inv(s)
    ensures var t, looked := Step(s, Spawn(owner, ok, now)), Step(s, Look(now));
            if s.closed then t == s
            else if owner != "" && |Live(s)| < s.liveMax && ok then
              && t.table == looked.table + [s.next] && t.next == s.next + 1 && t.kills == s.kills
              && t.objects == s.objects[s.next := Session(owner, "", 0, true, false, false, None, "", [], false)]
            else t == looked
  {
    hide Inv;
    PruneKeeps(s, now);
    LiveAreListed(Pruned(s, now));
  }

  /** Looking at the table prunes it, and changes nothing else. */
  lemma LookPrunes(s: State, now: int)
    requires Inv(s)
    ensures var t := Step(s, Look(now));
            && t == s.(table := t.table)
            && (forall id | id in s.table && s.objects[id].alive :: id in t.table)
            && ExitedListed(t) <= RecentListed(s, now)
            && |ExitedListed(t)| == Min(|RecentListed(s, now)|, 24)
            && forall a, b | a in t.table && a in s.table && !s.objects[a].alive && b in s.table && b !in t.table && b in RecentListed(s, now) ::
                 s.objects[a].exitedAt.value >= s.objects[b].exitedAt.value
  {
    hide Inv, Surplus;
    PruneKeepsTheNewest(s, now);
    PruneKeepsTwentyFour(s, now);
    FilterMembers(s.table, id => Kept(id, s.table, s.objects, now));
    assert EXITED_TTL == 1800000;
  }

  /** Clearing prunes, and empties the scrollback of the owner's session, with its cursor and history kept. */
  lemma ClearIff(s: State, id: Id, owner: string, now: int)
    ensures var t, looked := Step(s, Clear(id, owner, now)), Step(s, Look(now));
            && t.table == looked.table && t.kills == s.kills && t.next == s.next
            && t.objects == if BelongsTo(looked, id, owner) then s.objects[id := s.objects[id].(scrollback := "")] else s.objects
  {
  }

  /** Acknowledging drops exactly the owner's session, and only an exited one. */
  lemma AcknowledgeIff(s: State, id: Id, owner: string)
    ensures var t := Step(s, Acknowledge(id, owner));
            && t == s.(table := t.table)
            && (forall other | other != id :: other in t.table <==> other in s.table)
            && (id in t.table <==> id in s.table && !(BelongsTo(s, id, owner) && !s.objects[id].alive))
  {
    FilterMembers(s.table, other => other != id);
  }

  /** A closed manager spawns nothing any more. */
  lemma CloseIsFinal(s: State, e: Event)
    ensures Step(s, Close) == s.(closed := true)
    ensures s.closed ==> Step(s, e).closed
    ensures s.closed && e.Spawn? ==> Step(s, e) == s
  {
  }

  lemma {:induction false} FilterOrder(table: seq<Id>, keep: Id -> bool, i: int, j: int)
    requires 0 <= i < j < |Filter(table, keep)|
    ensures InOrder(table, Filter(table, keep)[i], Filter(table, keep)[j])
    decreases |table|
  {
    var n := |table| - 1;
    var before, all := Filter(table[..n], keep), Filter(table, keep);
    if j < |before| {
      FilterOrder(table[..n], keep, i, j);
      var a, b :| 0 <= a < b < n && table[..n][a] == before[i] && table[..n][b] == before[j];
      assert table[a] == all[i] && table[b] == all[j];
    } else {
      FilterMembers(table[..n], keep);
      assert before[i] in before;
      var a :| 0 <= a < n && table[..n][a] == before[i];
      assert table[a] == all[i] && table[n] == all[j];
    }
  }

  ghost predicate InOrder(table: seq<Id>, x: Id, y: Id) { exists a, b :: 0 <= a < b < |table| && table[a] == x && table[b] == y }

  /** What stays in the table keeps its order. */
  lemma TableKeepsOrder(s: State, e: Event, i: int, j: int)
    requires e.Look? || e.Acknowledge? || e.KillReturns?
    requires 0 <= i < j < |Step(s, e).table|
    ensures InOrder(s.table, Step(s, e).table[i], Step(s, e).table[j])
  {
    if Step(s, e).table != s.table {
      match e {
        case Look(now) => FilterOrder(s.table, id => Kept(id, s.table, s.objects, now), i, j);
        case Acknowledge(id, _) => FilterOrder(s.table, other => other != id, i, j);
        case KillReturns(call) =>
          var id := s.kills.calls[call].id;
          FilterOrder(s.table, other => other != id, i, j);
      }
    } else {
      assert s.table[i] == Step(s, e).table[i];
    }
  }

  // ---------------------------------------------------------------------
  // Kills
  // ---------------------------------------------------------------------

  /** Only the owner can kill; the call joins the termination under way, or starts one unless the session has exited. */
  lemma StartKillIff(s: State, id: Id, owner: string)
    requires Inv(s)
    ensures var t, k := Step(s, StartKill(id, owner)), s.kills;
            && t == s.(kills := t.kills) && t.kills.answers == k.answers
            && (if !BelongsTo(s, id, owner) then t == s
                else
                  && t.kills.nextCall == k.nextCall + 1 && k.nextCall in t.kills.calls && t.kills.calls - {k.nextCall} == k.calls
                  && var call := t.kills.calls[k.nextCall];
                     && call.id == id
                     && (s.objects[id].settled ==> call.task == None && t.kills.tasks == k.tasks && t.kills.promise == k.promise)
                     && (!s.objects[id].settled && id in k.promise ==>
                           call.task == Some(k.promise[id]) && t.kills.tasks == k.tasks && t.kills.promise == k.promise)
                     && (!s.objects[id].settled && id !in k.promise ==>
                           && call.task == Some(|k.tasks|) && t.kills.tasks == k.tasks + [KillTask(id, Killing)]
                           && t.kills.promise == k.promise[id := |k.tasks|]))
  {
    hide Ordered, LiveListed;
    if id in s.objects { assert SessionOk(s.objects[id]); }
  }

  /** How a termination goes on: two waits for the exit, of which the second is final. */
  function NextStage(stage: Stage, exited: bool, e: Event): Stage {
    match (stage, e)
    case (Killing, TreeKilled(_)) => if exited then Done(true) else FirstWait
    case (FirstWait, ExitSeen(_)) => if exited then Done(true) else FirstWait
    case (FirstWait, WaitTimesOut(_)) => if exited then Done(true) else SecondWait
    case (SecondWait, ExitSeen(_)) => if exited then Done(true) else SecondWait
    case (SecondWait, WaitTimesOut(_)) => Done(false)
    case _ => stage
  }

  lemma TaskMoves(s: State, k: nat, e: Event)
    requires Inv(s) && k < |s.kills.tasks| && (e == TreeKilled(k) || e == ExitSeen(k) || e == WaitTimesOut(k))
    ensures var task := s.kills.tasks[k];
            && task.id in s.objects
            && Step(s, e) == WithStage(s, k, NextStage(task.stage, s.objects[task.id].settled, e))
  {
    hide Ordered, SortDesc, AnswerOk;
    var task := s.kills.tasks[k];
    assert SessionOk(s.objects[task.id]);
    assert s.kills.tasks[k := task] == s.kills.tasks;
    match task.stage {
      case Killing => assert !TaskAt(s, k, FirstWait) && !TaskAt(s, k, SecondWait);
      case FirstWait => assert !TaskAt(s, k, Killing) && !TaskAt(s, k, SecondWait);
      case SecondWait => assert !TaskAt(s, k, Killing) && !TaskAt(s, k, FirstWait);
      case Done(_) => assert !TaskAt(s, k, Killing) && !TaskAt(s, k, FirstWait) && !TaskAt(s, k, SecondWait);
    }
  }

  /** A call returns what its termination found, forgets the shared promise, and drops an exited session from the table. */
  lemma ReturnIs(s: State, call: int)
    requires Inv(s) && call in s.kills.calls
    ensures var c, t := s.kills.calls[call], Step(s, KillReturns(call));
            var done := c.task.None? || s.kills.tasks[c.task.value].stage.Done?;
            var exited := c.task.None? || s.kills.tasks[c.task.value].stage == Done(true);
            if !done then t == s
            else
              && t == s.(table := t.table, kills := t.kills)
              && t.kills.answers == s.kills.answers[call := KillAnswer(c.id, exited)]
              && t.kills.calls == s.kills.calls - {call} && t.kills.tasks == s.kills.tasks
              && t.kills.promise == (if c.task.Some? then s.kills.promise - {c.id} else s.kills.promise)
              && (if exited then forall id :: id in t.table <==> id in s.table && id != c.id else t.table == s.table)
  {
    hide SessionOk, Exited;
    var c := s.kills.calls[call];
    assert CallOk(s, c);
    FilterMembers(s.table, other => other != c.id);
  }

  /** What is left to do for a termination in this stage. */
  function Remaining(s: State, call: int): nat
    requires Inv(s) && call in s.kills.calls
  {
    var task := s.kills.calls[call].task;
    assert CallOk(s, s.kills.calls[call]);
    if task.None? then 0
    else match s.kills.tasks[task.value].stage
      case Killing => 3
      case FirstWait => 2
      case SecondWait => 1
      case Done(_) => 0
  }

  /** The termination has given up. */
  predicate GivenUp(s: State, call: int)
    requires Inv(s) && call in s.kills.calls
  {
    var task := s.kills.calls[call].task;
    assert CallOk(s, s.kills.calls[call]);
    task.Some? && s.kills.tasks[task.value].stage == Done(false)
  }

  predicate KillProgress(e: Event) { e.TreeKilled? || e.ExitSeen? || e.WaitTimesOut? || e.KillReturns? }

  lemma AfterOneEvent(s: State, e: Event)
    ensures After(s, [e]) == Step(s, e)
  {
    assert [e][1..] == [];
    assert After(Step(s, e), []) == Step(s, e);
  }

  /**
   * Main result: in every reachable state every kill under way can be answered
   * by its own steps alone, and truly: with whether the session has exited,
   * unless its termination has given up already.
   */
  lemma {:induction false} KillCanBeAnswered(s: State, call: int) returns (events: seq<Event>)
    requires Inv(s) && call in s.kills.calls
    ensures forall e | e in events :: KillProgress(e)
    ensures s.kills.calls[call].id in s.objects
    ensures var c, t := s.kills.calls[call], After(s, events);
            call in t.kills.answers && t.kills.answers[call] == KillAnswer(c.id, s.objects[c.id].settled && !GivenUp(s, call))
    decreases Remaining(s, call)
  {
    hide SessionOk, Returned, Step;
    var c := s.kills.calls[call];
    assert CallOk(s, c) && SessionOk(s.objects[c.id]);
    if Remaining(s, call) == 0 {
      ReturnIs(s, call);
      events := [KillReturns(call)];
      AfterOneEvent(s, KillReturns(call));
      if c.task.Some? { assert s.kills.tasks[c.task.value].stage == Done(true) ==> s.objects[c.id].settled; }
    } else {
      var k := c.task.value;
      var e := if s.kills.tasks[k].stage == Killing then TreeKilled(k)
               else if s.objects[c.id].settled then ExitSeen(k) else WaitTimesOut(k);
      TaskMoves(s, k, e);
      StepKeeps(s, e);
      var t := Step(s, e);
      var rest := KillCanBeAnswered(t, call);
      events := [e] + rest;
      assert events[1..] == rest;
    }
  }

  /** A kill after one that gave up starts a termination of its own. */
  lemma KillAgainStartsAgain(s: State, call: int, owner: string)
    requires Inv(s) && call in s.kills.calls && GivenUp(s, call)
    requires BelongsTo(s, s.kills.calls[call].id, owner) && !s.objects[s.kills.calls[call].id].settled
    ensures var id := s.kills.calls[call].id;
            var t := Step(Step(s, KillReturns(call)), StartKill(id, owner));
            t.kills.tasks == s.kills.tasks + [KillTask(id, Killing)]
  {
    ReturnIs(s, call);
    StepKeeps(s, KillReturns(call));
    StartKillIff(Step(s, KillReturns(call)), s.kills.calls[call].id, owner);
  }

  /** In every run. */
  lemma EveryKillCanBeAnswered(liveMax: int, before: seq<Event>, call: int) returns (more: seq<Event>)
    requires call in After(Initial(liveMax), before).kills.calls
    ensures forall e | e in more :: KillProgress(e)
    ensures var s := After(Initial(liveMax), before);
            var t := After(s, more);
            var id := s.kills.calls[call].id;
            && call in t.kills.answers && t.kills.answers[call].id == id && id in s.objects
            && (t.kills.answers[call].exited ==> s.objects[id].settled && id !in t.table)
            && (!t.kills.answers[call].exited && s.objects[id].settled ==>
                  var task := s.kills.calls[call].task;
                  task.Some? && task.value < |s.kills.tasks| && s.kills.tasks[task.value].stage == Done(false))
  {
    Reachable(liveMax, before);
    var s := After(Initial(liveMax), before);
    assert CallOk(s, s.kills.calls[call]);
    more := KillCanBeAnswered(s, call);
    AfterKeeps(s, more);
    assert AnswerOk(After(s, more), After(s, more).kills.answers[call]);
  }
}
