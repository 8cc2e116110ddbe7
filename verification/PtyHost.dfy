/** The session objects and the manager that owns them. */
module PtyHost {
  import opened Pty
  import opened StableSort
  import opened Wrappers

  class PtySession {
    const owner: string
    var scrollback: string
    var outputCursor: int
    var isAlive: bool
    var exitSettled: bool
    var exitResolved: bool
    var exitedAt: Option<int>
    ghost var stream: string
    ghost var sent: seq<DataEvent>
    ghost var missed: bool

    ghost function Value(): Session
      reads this
    {
      Session(owner, scrollback, outputCursor, isAlive, exitSettled, exitResolved, exitedAt, stream, sent, missed)
    }

    constructor (owner: string)
      ensures Value() == Opened(owner)
    {
      this.owner := owner;
      scrollback, outputCursor, isAlive, exitSettled, exitResolved, exitedAt := "", 0, true, false, false, None;
      stream, sent, missed := "", [], false;
    }

    /** `appendSessionOutput`; `sends` is the data event for the window, if there is one. */
    method AppendOutput(text: string, window: bool) returns (sends: Option<DataEvent>)
      modifies this
      ensures Value() == Append(old(Value()), text, window)
      ensures sends == if text != "" && window then Some(DataEvent(text, old(outputCursor), outputCursor)) else None
    {
      if text == "" {
        return None;
      }
      var startCursor := outputCursor;
      outputCursor := outputCursor + |text|;
      scrollback := scrollback + text;
      if |scrollback| > SCROLLBACK_MAX {
        scrollback := scrollback[|scrollback| - SCROLLBACK_MAX..];
      }
      stream := stream + text;
      if !window {
        missed := true;
        return None;
      }
      sends := Some(DataEvent(text, startCursor, outputCursor));
      sent := sent + [sends.value];
    }

    /** The `onData` callback. */
    method OnData(text: string, window: bool)
      modifies this
      ensures Value() == if old(isAlive) then Append(old(Value()), text, window) else old(Value())
    {
      if isAlive {
        var _ := AppendOutput(text, window);
      }
    }

    /** The part of the `onExit` callback that concerns the session. */
    method Settle(status: string, window: bool, now: int)
      modifies this
      ensures Value() == Exited(old(Value()), status, window, now)
    {
      var _ := AppendOutput(Banner(status), window);
      isAlive := false;
      exitedAt := Some(now);
      exitSettled := true;
      exitResolved := true;
    }

    /** `_snapshotEntry`. */
    method TakeSnapshot(maxChars: Option<int>) returns (shot: Snapshot)
      ensures shot == SnapshotOf(Value(), maxChars)
    {
      var limit := Limit(maxChars);
      var truncated := |scrollback| > limit;
      var output := if truncated then scrollback[|scrollback| - limit..] else scrollback;
      shot := Snapshot(output, outputCursor - |output|, outputCursor, truncated);
    }
  }

  // ---------------------------------------------------------------------
  // Deleting from a table one by one
  // ---------------------------------------------------------------------

  ghost function Minus(table: seq<Id>, doomed: set<Id>): seq<Id> { Filter(table, id => id !in doomed) }

  ghost predicate Expired(id: Id, values: map<Id, Session>, now: int) {
    id in values && !values[id].alive && !Recent(values[id], now)
  }

  ghost function AllExpired(ids: seq<Id>, values: map<Id, Session>, now: int): set<Id> {
    set id | id in ids && Expired(id, values, now)
  }

  lemma OneMoreId(ids: seq<Id>, values: map<Id, Session>, now: int, i: nat)
    requires i < |ids| && ids[i] in values
    ensures AllExpired(ids[..i + 1], values, now) ==
            AllExpired(ids[..i], values, now) + if Expired(ids[i], values, now) then {ids[i]} else {}
    ensures RecentIds(ids[..i + 1], values, now) ==
            RecentIds(ids[..i], values, now) + if Recent(values[ids[i]], now) then [ids[i]] else []
  {
    assert ids[..i + 1] == ids[..i] + [ids[i]] && ids[..i + 1][..i] == ids[..i];
  }

  lemma DoomedAreNotKept(ids: seq<Id>, values: map<Id, Session>, now: int, doomed: set<Id>)
    requires forall id | id in ids :: id in values
    requires doomed == AllExpired(ids, values, now) + Members(Surplus(ids, values, now))
    ensures forall id | id in ids :: id !in doomed <==> Kept(id, ids, values, now)
  {
    forall id | id in Surplus(ids, values, now)
      ensures id in ids && Recent(values[id], now)
    {
      var newestFirst := SortDesc(RecentIds(ids, values, now), ExitTime(values));
      assert newestFirst == newestFirst[..EXITED_MAX] + newestFirst[EXITED_MAX..];
      SortSameItem(RecentIds(ids, values, now), ExitTime(values), id);
      RecentMembers(ids, values, now);
    }
  }

  lemma StillListed(ids: seq<Id>, values: map<Id, Session>, now: int)
    ensures forall id :: id in Filter(ids, x => Kept(x, ids, values, now)) ==> id in ids
  {
    FilterMembers(ids, x => Kept(x, ids, values, now));
  }

  lemma PrunedInTwoLoops(ids: seq<Id>, values: map<Id, Session>, now: int)
    requires forall id | id in ids :: id in values
    ensures Minus(ids, AllExpired(ids, values, now) + Members(Surplus(ids, values, now))) ==
            Filter(ids, id => Kept(id, ids, values, now))
  {
    var doomed := AllExpired(ids, values, now) + Members(Surplus(ids, values, now));
    DoomedAreNotKept(ids, values, now, doomed);
    FilterSame(ids, id => id !in doomed, id => Kept(id, ids, values, now));
  }

  lemma {:induction false} FilterSame(table: seq<Id>, first: Id -> bool, second: Id -> bool)
    requires forall id | id in table :: first(id) == second(id)
    ensures Filter(table, first) == Filter(table, second)
    decreases |table|
  {
    if table != [] {
      assert table == table[..|table| - 1] + [table[|table| - 1]];
      FilterSame(table[..|table| - 1], first, second);
      var id := table[|table| - 1];
      assert id in table && first(id) == second(id);
    }
  }

  lemma {:induction false} FilterAll(table: seq<Id>, keep: Id -> bool)
    requires forall id | id in table :: keep(id)
    ensures Filter(table, keep) == table
    decreases |table|
  {
    if table != [] {
      assert table == table[..|table| - 1] + [table[|table| - 1]];
      FilterAll(table[..|table| - 1], keep);
      var id := table[|table| - 1];
      assert id in table && keep(id);
    }
  }

  lemma {:induction false} MinusOne(table: seq<Id>, doomed: set<Id>, id: Id)
    ensures Without(Minus(table, doomed), id) == Minus(table, doomed + {id})
    decreases |table|
  {
    if table != [] {
      var n := |table| - 1;
      MinusOne(table[..n], doomed, id);
      var before := Minus(table[..n], doomed);
      if table[n] !in doomed {
        assert (before + [table[n]])[..|before|] == before;
      }
    }
  }

  /** `exited.sort(...)`. */
  method SortNewestFirst(exited: seq<Id>, times: map<Id, int>, ghost values: map<Id, Session>) returns (sorted: seq<Id>)
    requires forall id | id in exited :: id in times && times[id] == ExitTime(values)(id)
    ensures sorted == SortDesc(exited, ExitTime(values))
  {
    var key := id => if id in times then times[id] else 0;
    forall id | id in exited
      ensures key(id) == ExitTime(values)(id)
    {
    }
    SortSameKeys(exited, key, ExitTime(values));
    sorted := SortDesc(exited, key);
  }

  class PtyManager {
    var sessions: map<Id, PtySession>
    var table: seq<Id>
    var nextId: Id
    var cleanupDone: bool
    const liveMax: int
    var tasks: seq<KillTask>
    var killPromises: map<Id, nat>
    var calls: map<int, KillCall>
    var nextCall: int
    var answers: map<int, KillAnswer>

    /** `sessions` keeps the objects of sessions that have left the table, whose callbacks still refer to them. */
    ghost predicate Valid()
      reads this
    {
      && (forall id | id in table :: id in sessions)
      && (forall id | id in sessions :: id < nextId)
      && forall a, b | a in sessions && b in sessions && a != b :: sessions[a] != sessions[b]
    }

    ghost function Values(): map<Id, Session>
      reads this, sessions.Values
    {
      map id | id in sessions :: sessions[id].Value()
    }

    ghost function Abs(): State
      reads this, sessions.Values
    {
      State(Values(), table, nextId, cleanupDone, liveMax, Kills(tasks, killPromises, calls, nextCall, answers))
    }

    constructor (liveMax: int)
      ensures Valid() && Abs() == Initial(liveMax)
    {
      sessions, table, nextId, cleanupDone := map[], [], 1, false;
      this.liveMax := Max(1, Min(liveMax, 32));
      tasks, killPromises, calls, nextCall, answers := [], map[], map[], 0, map[];
    }

    /** The first loop of `pruneExitedSessions`: deletes the expired sessions and collects the other exited ones. */
    method DropExpired(now: int) returns (exited: seq<Id>, times: map<Id, int>)
      requires Valid()
      modifies this`table
      ensures Valid() && Values() == old(Values())
      ensures table == Minus(old(table), AllExpired(old(table), Values(), now))
      ensures exited == RecentIds(old(table), Values(), now)
      ensures forall id | id in exited :: id in times && times[id] == ExitTime(Values())(id)
    {
      hide Filter;
      ghost var values := Values();
      var ids := table;
      exited, times := [], map[];
      ghost var doomed: set<Id> := {};
      FilterAll(ids, id => id !in doomed);
      for i := 0 to |ids|
        invariant table == Minus(ids, doomed)
        invariant doomed == AllExpired(ids[..i], values, now)
        invariant exited == RecentIds(ids[..i], values, now)
        invariant forall id | id in exited :: id in times && times[id] == ExitTime(values)(id)
      {
        var id := ids[i];
        assert id in ids;
        var session := sessions[id];
        assert values[id] == session.Value();
        OneMoreId(ids, values, now, i);
        if !session.isAlive {
          if session.exitedAt.None? || now - session.exitedAt.value > EXITED_TTL {
            MinusOne(ids, doomed, id);
            table := Without(table, id);
            doomed := doomed + {id};
          } else {
            exited := exited + [id];
            times := times[id := session.exitedAt.value];
          }
        }
      }
      assert ids[..|ids|] == ids;
      FilterMembers(ids, id => id !in doomed);
    }

    /** The last loop of `pruneExitedSessions`. */
    method DropFrom(newestFirst: seq<Id>, ghost ids: seq<Id>, ghost expired: set<Id>)
      requires table == Minus(ids, expired)
      modifies this`table
      ensures table == Minus(ids, expired + Members(Beyond(newestFirst)))
    {
      ghost var doomed := expired;
      for i := EXITED_MAX to Max(EXITED_MAX, |newestFirst|)
        invariant table == Minus(ids, doomed)
        invariant doomed == expired + Members(if i == EXITED_MAX then [] else newestFirst[EXITED_MAX..i])
      {
        MinusOne(ids, doomed, newestFirst[i]);
        table := Without(table, newestFirst[i]);
        doomed := doomed + {newestFirst[i]};
        assert newestFirst[EXITED_MAX..i + 1] == newestFirst[EXITED_MAX..i] + [newestFirst[i]];
      }
      assert |newestFirst| > EXITED_MAX ==> newestFirst[EXITED_MAX..|newestFirst|] == newestFirst[EXITED_MAX..];
    }

    /** `pruneExitedSessions`. */
    method Prune(now: int)
      requires Valid()
      modifies this`table
      ensures Valid() && Abs() == Pruned(old(Abs()), now)
    {
      hide Filter, ExitTime;
      ghost var values := Values();
      ghost var ids := table;
      var exited, times := DropExpired(now);
      var newestFirst := SortNewestFirst(exited, times, values);
      DropFrom(newestFirst, ids, AllExpired(ids, values, now));
      PrunedInTwoLoops(ids, values, now);
      StillListed(ids, values, now);
    }

    /** `spawnSession`; `started` says whether the directory is allowed and the process started. */
    method Spawn(owner: string, started: bool, now: int) returns (id: Option<Id>)
      requires Valid()
      modifies this
      ensures Valid() && Abs() == Step(old(Abs()), Event.Spawn(owner, started, now))
      ensures id.Some? ==> id.value in table && id.value in sessions && fresh(sessions[id.value])
    {
      if cleanupDone {
        return None;
      }
      Prune(now);
      if owner == "" {
        return None;
      }
      var live := CountLive();
      if live >= liveMax || !started {
        return None;
      }
      id := Some(nextId);
      var session := new PtySession(owner);
      Enter(session);
    }

    method Enter(session: PtySession)
      requires Valid() && session !in sessions.Values && session.Value() == Opened(session.owner)
      modifies this
      ensures Valid() && Abs() == Spawned(old(Abs()), session.owner)
      ensures old(nextId) in sessions && sessions[old(nextId)] == session
    {
      ghost var before := Values();
      var id: Id := nextId;
      assert id !in sessions;
      assert forall other | other in sessions :: sessions[other] in sessions.Values;
      sessions := sessions[id := session];
      assert Values() == before[id := session.Value()];
      table := table + [id];
      nextId := id + 1;
    }

    method CountLive() returns (count: nat)
      requires Valid()
      ensures count == |LiveListed(Abs())|
    {
      ghost var values := Values();
      ghost var live: set<Id> := {};
      var seen: set<Id> := {};
      count := 0;
      for i := 0 to |table|
        invariant seen == set j | 0 <= j < i :: table[j]
        invariant live == set id | id in seen && id in values && values[id].alive
        invariant count == |live|
      {
        var id := table[i];
        assert id in table && values[id] == sessions[id].Value();
        if id !in seen && sessions[id].isAlive {
          count := count + 1;
          live := live + {id};
        }
        seen := seen + {id};
      }
      assert live == LiveListed(Abs());
    }

    /** The `onData` callback of session `id`. */
    method OnData(id: Id, text: string, window: bool)
      requires Valid() && id in sessions
      modifies sessions[id]
      ensures Valid() && Abs() == Step(old(Abs()), Data(id, text, window))
    {
      hide Append, Pruned, KillStarted, Returned, WaitingFrom, WithStage, Spawned;
      sessions[id].OnData(text, window);
      assert forall other | other in sessions && other != id :: sessions[other].Value() == old(sessions[other].Value());
      assert Values() == old(Values())[id := sessions[id].Value()];
    }

    /** The `onExit` callback of session `id`. */
    method OnExit(id: Id, status: string, window: bool, now: int)
      requires Valid() && id in sessions
      modifies this`table, sessions[id]
      ensures Valid() && Abs() == Step(old(Abs()), Exit(id, status, window, now))
    {
      hide Returned;
      var session := sessions[id];
      if id !in table || session.exitSettled {
        return;
      }
      session.Settle(status, window, now);
      assert forall other | other in sessions && other != id :: sessions[other].Value() == old(sessions[other].Value());
      assert Values() == old(Values())[id := session.Value()];
      Prune(now);
    }

    predicate IsOwned(id: Id, owner: string)
      requires Valid()
      reads this, sessions.Values
    {
      owner != "" && id in table && sessions[id].owner == owner
    }

    /** `clearSession`. */
    method Clear(id: Id, owner: string, now: int) returns (cleared: bool, cursor: int)
      requires Valid()
      modifies this`table, sessions.Values
      ensures Valid() && Abs() == Step(old(Abs()), Event.Clear(id, owner, now))
      ensures cleared ==> id in sessions && cursor == sessions[id].outputCursor
      ensures cleared <==> Owned(Abs(), id, owner)
    {
      Prune(now);
      if !IsOwned(id, owner) {
        return false, 0;
      }
      Wipe(id);
      return true, sessions[id].outputCursor;
    }

    method Wipe(id: Id)
      requires Valid() && id in sessions
      modifies sessions[id]
      ensures Values() == old(Values()[id := sessions[id].Value().(scrollback := "")])
    {
      sessions[id].scrollback := "";
      assert forall other | other in sessions && other != id :: sessions[other].Value() == old(sessions[other].Value());
    }

    /** `killSession` up to its await: `call` is the pending call, none if the session is not the owner's. */
    method StartKill(id: Id, owner: string) returns (call: Option<int>)
      requires Valid()
      modifies this`tasks, this`killPromises, this`calls, this`nextCall
      ensures Valid() && Abs() == Step(old(Abs()), Event.StartKill(id, owner))
      ensures call == if Owned(old(Abs()), id, owner) then Some(old(nextCall)) else None
    {
      hide Append;
      hide Pruned, Returned, WaitingFrom, WithStage, Spawned, Append, Exited;
      if !IsOwned(id, owner) {
        return None;
      }
      var task: Option<nat> := None;
      if !(sessions[id].exitSettled || !sessions[id].isAlive) {
        if id !in killPromises {
          tasks, killPromises := tasks + [KillTask(id, Killing)], killPromises[id := |tasks|];
        }
        task := Some(killPromises[id]);
      }
      call := Some(nextCall);
      calls := calls[nextCall := KillCall(id, task)];
      nextCall := nextCall + 1;
      assert Values() == old(Values());
      assert Kills(tasks, killPromises, calls, nextCall, answers) == KillStarted(old(Abs()), id);
    }

    /** `waitForSessionExit` up to its race, which a session that has exited does not need. */
    method Wait(task: nat, wait: Stage)
      requires Valid() && task < |tasks| && tasks[task].id in sessions
      modifies this`tasks
      ensures Valid() && Abs() == WithStage(old(Abs()), task, WaitingFrom(old(Abs()), task, wait))
    {
      var session := sessions[tasks[task].id];
      var exited := session.exitSettled || !session.isAlive;
      tasks := tasks[task := tasks[task].(stage := if exited then Done(true) else wait)];
    }

    /** The first step of the terminating function is over. */
    method OnTreeKilled(task: nat)
      requires Valid() && TaskAt(Abs(), task, Killing)
      modifies this`tasks
      ensures Valid() && Abs() == Step(old(Abs()), TreeKilled(task))
    {
      Wait(task, FirstWait);
    }

    /** The exit promise wins a race. */
    method OnExitSeen(task: nat)
      requires Valid() && task < |tasks| && tasks[task].stage in {FirstWait, SecondWait}
      requires tasks[task].id in sessions && sessions[tasks[task].id].exitResolved
      modifies this`tasks
      ensures Valid() && Abs() == Step(old(Abs()), ExitSeen(task))
    {
      hide Pruned;
      tasks := tasks[task := tasks[task].(stage := Done(true))];
    }

    /** The timer wins a race: the process is killed for good and waited for once more, or given up. */
    method OnWaitTimesOut(task: nat)
      requires Valid() && task < |tasks| && tasks[task].stage in {FirstWait, SecondWait} && tasks[task].id in sessions
      modifies this`tasks
      ensures Valid() && Abs() == Step(old(Abs()), WaitTimesOut(task))
    {
      if tasks[task].stage == FirstWait {
        Wait(task, SecondWait);
      } else {
        tasks := tasks[task := tasks[task].(stage := Done(false))];
      }
    }

    /** `killSession` after its await; true for a session that exited, also if it has left the table meanwhile. */
    method FinishKill(call: int) returns (killed: bool)
      requires Valid() && CanReturn(Abs(), call)
      modifies this`table, this`killPromises, this`calls, this`answers
      ensures Valid() && Abs() == Step(old(Abs()), KillReturns(call))
      ensures killed == Answer(old(Abs()), call) && (killed ==> old(calls)[call].id !in table)
    {
      hide Beyond;
      hide Pruned, KillStarted, WaitingFrom, WithStage, Spawned, Append, Exited, Filter;
      var id, task := calls[call].id, calls[call].task;
      killed := true;
      if task.Some? {
        killed := tasks[task.value].stage.exited;
        killPromises := killPromises - {id};
      }
      if killed {
        FilterMembers(table, other => other != id);
        table := Without(table, id);
      }
      calls, answers := calls - {call}, answers[call := KillAnswer(id, killed)];
    }

    /** `acknowledgeExitedSession`. */
    method Acknowledge(id: Id, owner: string) returns (gone: bool)
      requires Valid()
      modifies this`table
      ensures Valid() && Abs() == Step(old(Abs()), Event.Acknowledge(id, owner))
      ensures gone <==> id in old(table) && id !in table
    {
      if !IsOwned(id, owner) || sessions[id].isAlive {
        return false;
      }
      FilterMembers(table, other => other != id);
      table := Without(table, id);
      gone := true;
    }
  }
}
