/**
 * Terminal sessions: bounded scrollback with absolute cursors, data events, and
 * the table of sessions.
 *
 * `resolved` says that the session's exit promise is. `stream`, `sent` and `missed` record a session's whole output, the data
 * events sent for it, and whether output was appended with no window to send it to.
 */
module Pty {
  import opened StableSort
  import opened Wrappers

  const SCROLLBACK_MAX := 200000
  const SNAPSHOT_DEFAULT := 100000
  const LIST_PREVIEW := 8000
  const EXITED_TTL := 30 * 60 * 1000
  const EXITED_MAX := 24

  type Id = int

  datatype DataEvent = DataEvent(data: string, start: int, end: int)

  datatype Session = Session(
    owner: string, scrollback: string, cursor: int, alive: bool, settled: bool, resolved: bool, exitedAt: Option<int>,
    stream: string, sent: seq<DataEvent>, missed: bool)

  datatype Snapshot = Snapshot(output: string, start: int, end: int, truncated: bool)

  // ---------------------------------------------------------------------
  // One session
  // ---------------------------------------------------------------------

  function Last(s: string, n: nat): string { if |s| > n then s[|s| - n..] else s }

  function Opened(owner: string): Session { Session(owner, "", 0, true, false, false, None, "", [], false) }

  /** `appendSessionOutput`; `window` says whether there is a window to send to. */
  function Append(x: Session, text: string, window: bool): Session {
    if text == "" then x
    else x.(
      scrollback := Last(x.scrollback + text, SCROLLBACK_MAX),
      cursor := x.cursor + |text|,
      stream := x.stream + text,
      sent := if window then x.sent + [DataEvent(text, x.cursor, x.cursor + |text|)] else x.sent,
      missed := x.missed || !window)
  }

  function Banner(status: string): string { "\r\n[Process exited with " + status + "]\r\n" }

  function Exited(x: Session, status: string, window: bool, now: int): Session {
    Append(x, Banner(status), window).(alive := false, settled := true, resolved := true, exitedAt := Some(now))
  }

  function Min(a: int, b: int): int { if a <= b then a else b }
  function Max(a: int, b: int): int { if a >= b then a else b }

  /** The requested size; a missing or zero one stands for the default. */
  function Limit(maxChars: Option<int>): nat {
    Max(1, Min(if maxChars.None? || maxChars.value == 0 then SNAPSHOT_DEFAULT else maxChars.value, SCROLLBACK_MAX))
  }

  /** `_snapshotEntry`. */
  function SnapshotOf(x: Session, maxChars: Option<int>): Snapshot {
    var output := Last(x.scrollback, Limit(maxChars));
    Snapshot(output, x.cursor - |output|, x.cursor, |x.scrollback| > Limit(maxChars))
  }

  function Concat(events: seq<DataEvent>): string
    decreases |events|
  {
    if events == [] then "" else Concat(events[..|events| - 1]) + events[|events| - 1].data
  }

  predicate IsSlice(e: DataEvent, stream: string) {
    0 <= e.start < e.end <= |stream| && e.data == stream[e.start..e.end]
  }

  /** Every event is a slice of the stream, and later events lie behind earlier ones. */
  ghost predicate Ordered(events: seq<DataEvent>, stream: string) {
    && (forall i | 0 <= i < |events| :: IsSlice(events[i], stream))
    && forall i, j | 0 <= i < j < |events| :: events[i].end <= events[j].start
  }

  /** The events tile `stream[from..to]` without gap or overlap. */
  ghost predicate Tiles(events: seq<DataEvent>, from: int, to: int) {
    if events == [] then from == to
    else
      && events[0].start == from && events[|events| - 1].end == to
      && forall i | 0 < i < |events| :: events[i - 1].end == events[i].start
  }

  ghost predicate SessionOk(x: Session) {
    && x.cursor == |x.stream|
    && |x.scrollback| <= Min(SCROLLBACK_MAX, x.cursor) && x.scrollback == x.stream[x.cursor - |x.scrollback|..]
    && x.alive == !x.settled && x.resolved == x.settled && x.exitedAt.Some? == x.settled
    && Ordered(x.sent, x.stream)
    && (if x.missed then |Concat(x.sent)| < x.cursor else Tiles(x.sent, 0, x.cursor) && Concat(x.sent) == x.stream)
  }

  lemma SliceStays(e: DataEvent, stream: string, text: string)
    requires IsSlice(e, stream)
    ensures IsSlice(e, stream + text)
  {
    assert (stream + text)[e.start..e.end] == stream[e.start..e.end];
  }

  lemma AppendScrollback(x: Session, text: string)
    requires x.cursor == |x.stream| && |x.scrollback| <= Min(SCROLLBACK_MAX, x.cursor)
    requires x.scrollback == x.stream[x.cursor - |x.scrollback|..]
    ensures var r := Last(x.scrollback + text, SCROLLBACK_MAX);
            var stream := x.stream + text;
            |r| <= Min(SCROLLBACK_MAX, |stream|) && r == stream[|stream| - |r|..]
  {
    var stream := x.stream + text;
    var r := Last(x.scrollback + text, SCROLLBACK_MAX);
    assert x.scrollback + text == stream[x.cursor - |x.scrollback|..];
    assert r == stream[|stream| - |r|..];
  }

  lemma AppendKeepsOrder(x: Session, text: string, window: bool)
    requires SessionOk(x) && text != ""
    ensures Ordered(Append(x, text, window).sent, x.stream + text)
  {
    var y := Append(x, text, window);
    forall i | 0 <= i < |x.sent|
      ensures IsSlice(x.sent[i], y.stream) && x.sent[i].end <= x.cursor
    {
      SliceStays(x.sent[i], x.stream, text);
    }
    assert y.stream[x.cursor..y.cursor] == text;
  }

  lemma AppendKeepsTiling(x: Session, text: string, window: bool)
    requires SessionOk(x) && text != ""
    ensures var y := Append(x, text, window);
            if y.missed then |Concat(y.sent)| < y.cursor else Tiles(y.sent, 0, y.cursor) && Concat(y.sent) == y.stream
  {
    var y := Append(x, text, window);
    if window {
      assert y.sent[..|x.sent|] == x.sent;
      assert Concat(y.sent) == Concat(x.sent) + text;
    }
  }

  lemma AppendKeeps(x: Session, text: string, window: bool)
    requires SessionOk(x)
    ensures SessionOk(Append(x, text, window))
  {
    if text != "" {
      AppendScrollback(x, text);
      AppendKeepsOrder(x, text, window);
      AppendKeepsTiling(x, text, window);
    }
  }

  lemma ExitKeeps(x: Session, status: string, window: bool, now: int)
    requires SessionOk(x)
    ensures SessionOk(Exited(x, status, window, now))
  {
    AppendKeeps(x, Banner(status), window);
  }

  /** Main result for one session: a snapshot is the slice of the whole output between its cursors, within both caps. */
  lemma SnapshotIsSlice(x: Session, maxChars: Option<int>)
    requires SessionOk(x)
    ensures var shot := SnapshotOf(x, maxChars);
            && 0 <= shot.start <= shot.end == |x.stream| && shot.output == x.stream[shot.start..shot.end]
            && |shot.output| <= Limit(maxChars) <= SCROLLBACK_MAX
            && (shot.truncated <==> |shot.output| < |x.scrollback|)
  {
    var shot := SnapshotOf(x, maxChars);
    assert shot.output == x.stream[shot.start..];
  }

  // ---------------------------------------------------------------------
  // The table
  // ---------------------------------------------------------------------

  /** Where the asynchronous function that terminates a session is: its first step, one of its two waits, or its result. */
  datatype Stage = Killing | FirstWait | SecondWait | Done(exited: bool)

  datatype KillTask = KillTask(id: Id, stage: Stage)

  /** A call of `killSession`: the task it awaits, or none if the session had already exited. */
  datatype KillCall = KillCall(id: Id, task: Option<nat>)

  datatype KillAnswer = KillAnswer(id: Id, exited: bool)

  /** `promise` holds the sessions' `killPromise` fields, `answers` what finished calls have returned. */
  datatype Kills = Kills(tasks: seq<KillTask>, promise: map<Id, nat>, calls: map<int, KillCall>, nextCall: int, answers: map<int, KillAnswer>)

  /** `table` holds the ids in insertion order; `objects` also keeps the sessions that have left it. */
  datatype State = State(objects: map<Id, Session>, table: seq<Id>, next: Id, closed: bool, liveMax: int, kills: Kills)

  datatype Event =
    | Spawn(owner: string, ok: bool, now: int)
    | Data(id: Id, text: string, window: bool)
    | Exit(id: Id, status: string, window: bool, now: int)
    | Clear(id: Id, owner: string, now: int)
    | StartKill(id: Id, owner: string)
    | TreeKilled(task: nat)
    | ExitSeen(task: nat)
    | WaitTimesOut(task: nat)
    | KillReturns(call: int)
    | Acknowledge(id: Id, owner: string)
    | Look(now: int)
    | Close

  function Initial(liveMax: int): State { State(map[], [], 1, false, Max(1, Min(liveMax, 32)), Kills([], map[], map[], 0, map[])) }

  predicate Listed(s: State, id: Id) { id in s.table && id in s.objects }

  predicate Owned(s: State, id: Id, owner: string) { owner != "" && Listed(s, id) && s.objects[id].owner == owner }

  predicate Recent(x: Session, now: int) { !x.alive && x.exitedAt.Some? && now - x.exitedAt.value <= EXITED_TTL }

  function ExitTime(objects: map<Id, Session>): Id -> int {
    (id: Id) => if id in objects && objects[id].exitedAt.Some? then objects[id].exitedAt.value else 0
  }

  function RecentIds(table: seq<Id>, objects: map<Id, Session>, now: int): seq<Id>
    decreases |table|
  {
    if table == [] then []
    else
      var before := RecentIds(table[..|table| - 1], objects, now);
      var id := table[|table| - 1];
      if id in objects && Recent(objects[id], now) then before + [id] else before
  }

  function Beyond(newestFirst: seq<Id>): seq<Id> {
    if |newestFirst| > EXITED_MAX then newestFirst[EXITED_MAX..] else []
  }

  /** The exited sessions beyond the newest `EXITED_MAX`. */
  function Surplus(table: seq<Id>, objects: map<Id, Session>, now: int): seq<Id> {
    Beyond(SortDesc(RecentIds(table, objects, now), ExitTime(objects)))
  }

  predicate Kept(id: Id, table: seq<Id>, objects: map<Id, Session>, now: int) {
    id in objects && (objects[id].alive || (Recent(objects[id], now) && id !in Surplus(table, objects, now)))
  }

  function Filter(table: seq<Id>, keep: Id -> bool): seq<Id>
    decreases |table|
  {
    if table == [] then []
    else
      var before := Filter(table[..|table| - 1], keep);
      if keep(table[|table| - 1]) then before + [table[|table| - 1]] else before
  }

  /** `pruneExitedSessions`. */
  function Pruned(s: State, now: int): State {
    s.(table := Filter(s.table, id => Kept(id, s.table, s.objects, now)))
  }

  function Without(table: seq<Id>, id: Id): seq<Id> { Filter(table, other => other != id) }

  function LiveListed(s: State): set<Id> { set id | id in s.table && id in s.objects && s.objects[id].alive }

  /** `exitSettled || isAlive === false`. */
  predicate HasExited(x: Session) { x.settled || !x.alive }

  /** `terminateSession` up to its await: a session that has not exited gets a task, unless it has one. */
  function KillStarted(s: State, id: Id): Kills
    requires Listed(s, id)
  {
    var k := s.kills;
    if HasExited(s.objects[id]) then
      k.(calls := k.calls[k.nextCall := KillCall(id, None)], nextCall := k.nextCall + 1)
    else if id in k.promise then
      k.(calls := k.calls[k.nextCall := KillCall(id, Some(k.promise[id]))], nextCall := k.nextCall + 1)
    else
      Kills(k.tasks + [KillTask(id, Killing)], k.promise[id := |k.tasks|],
            k.calls[k.nextCall := KillCall(id, Some(|k.tasks|))], k.nextCall + 1, k.answers)
  }

  predicate TaskAt(s: State, k: nat, stage: Stage) {
    k < |s.kills.tasks| && s.kills.tasks[k].stage == stage && s.kills.tasks[k].id in s.objects
  }

  function WithStage(s: State, k: nat, stage: Stage): State
    requires k < |s.kills.tasks|
  {
    s.(kills := s.kills.(tasks := s.kills.tasks[k := s.kills.tasks[k].(stage := stage)]))
  }

  /** A wait for an exit that has happened returns at once; otherwise it races the exit promise against a timer. */
  function WaitingFrom(s: State, k: nat, wait: Stage): Stage
    requires k < |s.kills.tasks| && s.kills.tasks[k].id in s.objects
  {
    if HasExited(s.objects[s.kills.tasks[k].id]) then Done(true) else wait
  }

  /** The call's await is over. */
  predicate CanReturn(s: State, call: int) {
    && call in s.kills.calls
    && var task := s.kills.calls[call].task;
       task.Some? ==> task.value < |s.kills.tasks| && s.kills.tasks[task.value].stage.Done?
  }

  predicate Answer(s: State, call: int)
    requires CanReturn(s, call)
  {
    var task := s.kills.calls[call].task;
    task.None? || s.kills.tasks[task.value].stage.exited
  }

  /** The rest of `killSession`: forget the promise, and drop the session from the table if it exited. */
  function Returned(s: State, call: int): State
    requires CanReturn(s, call)
  {
    var k, c := s.kills, s.kills.calls[call];
    s.(table := if Answer(s, call) then Without(s.table, c.id) else s.table,
    kills := k.(promise := if c.task.Some? then k.promise - {c.id} else k.promise,
    calls := k.calls - {call}, answers := k.answers[call := KillAnswer(c.id, Answer(s, call))]))
  }

  function Spawned(p: State, owner: string): State {
    p.(objects := p.objects[p.next := Opened(owner)], table := p.table + [p.next], next := p.next + 1)
  }

  function Step(s: State, e: Event): State {
    match e
    case Spawn(owner, ok, now) =>
      if s.closed then s
      else
        var p := Pruned(s, now);
        if owner == "" || |LiveListed(p)| >= p.liveMax || !ok then p
        else Spawned(p, owner)
    case Data(id, text, window) =>
      if id in s.objects && s.objects[id].alive
      then s.(objects := s.objects[id := Append(s.objects[id], text, window)])
      else s
    case Exit(id, status, window, now) =>
      if Listed(s, id) && !s.objects[id].settled
      then Pruned(s.(objects := s.objects[id := Exited(s.objects[id], status, window, now)]), now)
      else s
    case Clear(id, owner, now) =>
      var p := Pruned(s, now);
      if Owned(p, id, owner) then p.(objects := p.objects[id := p.objects[id].(scrollback := "")]) else p
    case StartKill(id, owner) => if Owned(s, id, owner) then s.(kills := KillStarted(s, id)) else s
    case TreeKilled(k) => if TaskAt(s, k, Killing) then WithStage(s, k, WaitingFrom(s, k, FirstWait)) else s
    case ExitSeen(k) =>
      if (TaskAt(s, k, FirstWait) || TaskAt(s, k, SecondWait)) && s.objects[s.kills.tasks[k].id].resolved
      then WithStage(s, k, Done(true))
      else s
    case WaitTimesOut(k) =>
      if TaskAt(s, k, FirstWait) then WithStage(s, k, WaitingFrom(s, k, SecondWait))
      else if TaskAt(s, k, SecondWait) then WithStage(s, k, Done(false))
      else s
    case KillReturns(call) => if CanReturn(s, call) then Returned(s, call) else s
    case Acknowledge(id, owner) =>
      if Owned(s, id, owner) && !s.objects[id].alive then s.(table := Without(s.table, id)) else s
    case Look(now) => Pruned(s, now)
    case Close => s.(closed := true)
  }

  function After(s: State, events: seq<Event>): State
    decreases |events|
  {
    if events == [] then s else After(Step(s, events[0]), events[1..])
  }

  // ---------------------------------------------------------------------
  // Invariant
  // ---------------------------------------------------------------------

  predicate Distinct(table: seq<Id>) { forall i, j | 0 <= i < j < |table| :: table[i] != table[j] }

  function Live(s: State): set<Id> { set id | id in s.objects && s.objects[id].alive }

  ghost predicate Inv(s: State) {
    && (forall id | id in s.objects :: id < s.next && SessionOk(s.objects[id]))
    && Distinct(s.table) && (forall id | id in s.table :: id in s.objects)
    && (forall id | id in s.objects && id !in s.table :: s.objects[id].settled)
    && |Live(s)| <= s.liveMax && KillsOk(s)
  }

  /** What a task or call has found out about its session is so. */
  ghost predicate KillsOk(s: State) {
    var k := s.kills;
    && (forall i | 0 <= i < |k.tasks| :: k.tasks[i].id in s.objects && (k.tasks[i].stage == Done(true) ==> s.objects[k.tasks[i].id].settled))
    && (forall id | id in k.promise :: k.promise[id] < |k.tasks| && k.tasks[k.promise[id]].id == id)
    && (forall c | c in k.calls :: c < k.nextCall && CallOk(s, k.calls[c]))
    && forall c | c in k.answers :: c < k.nextCall && AnswerOk(s, k.answers[c])
  }

  /** Whoever was told that a session exited finds it settled and out of the table. */
  ghost predicate AnswerOk(s: State, a: KillAnswer) {
    a.id < s.next && (a.exited ==> a.id in s.objects && s.objects[a.id].settled && a.id !in s.table)
  }

  ghost predicate CallOk(s: State, c: KillCall) {
    && c.id in s.objects && c.id < s.next
    && if c.task.None? then s.objects[c.id].settled else c.task.value < |s.kills.tasks| && s.kills.tasks[c.task.value].id == c.id
  }

  lemma {:induction false} FilterMembers(table: seq<Id>, keep: Id -> bool)
    ensures forall id :: id in Filter(table, keep) <==> id in table && keep(id)
    decreases |table|
  {
    if table != [] {
      FilterMembers(table[..|table| - 1], keep);
      assert table == table[..|table| - 1] + [table[|table| - 1]];
    }
  }

  lemma {:induction false} FilterDistinct(table: seq<Id>, keep: Id -> bool)
    requires Distinct(table)
    ensures Distinct(Filter(table, keep))
    decreases |table|
  {
    if table != [] {
      var n := |table| - 1;
      FilterDistinct(table[..n], keep);
      FilterMembers(table[..n], keep);
      var before := Filter(table[..n], keep);
      forall i | 0 <= i < |before|
        ensures before[i] != table[n]
      {
        assert before[i] in before;
      }
    }
  }

  /** Dropping only settled sessions from the table keeps everything else. */
  lemma DropKeeps(s: State, keep: Id -> bool)
    requires Inv(s) && forall id | id in s.table && !keep(id) :: s.objects[id].settled
    ensures Inv(s.(table := Filter(s.table, keep)))
  {
    FilterMembers(s.table, keep);
    FilterDistinct(s.table, keep);
    SameKills(s, s.(table := Filter(s.table, keep)));
    assert Live(s.(table := Filter(s.table, keep))) == Live(s);
  }

  lemma PruneKeeps(s: State, now: int)
    requires Inv(s)
    ensures Inv(Pruned(s, now))
  {
    DropKeeps(s, id => Kept(id, s.table, s.objects, now));
  }

  /** Changing one session that is as alive as before, or less. */
  lemma UpdateKeeps(s: State, id: Id, y: Session)
    requires Inv(s) && id in s.objects && SessionOk(y)
    requires (y.alive ==> s.objects[id].alive) && (s.objects[id].settled ==> y.settled)
    ensures Inv(s.(objects := s.objects[id := y]))
  {
    hide SessionOk, Distinct, CallOk;
    var t := s.(objects := s.objects[id := y]);
    SameKills(s, t);
    assert Live(t) <= Live(s);
    SubsetCount(Live(t), Live(s));
  }

  lemma SubsetCount<T>(a: set<T>, b: set<T>)
    requires a <= b
    ensures |a| <= |b|
  {
    assert b == a + (b - a);
  }

  lemma LiveAreListed(s: State)
    requires Inv(s)
    ensures LiveListed(s) == Live(s)
  {
    forall id | id in Live(s)
      ensures id in s.table
    {
      assert SessionOk(s.objects[id]);
    }
  }

  lemma SpawnKeepsLimit(p: State, owner: string)
    requires Inv(p) && |LiveListed(p)| < p.liveMax
    ensures |Live(Spawned(p, owner))| <= p.liveMax
  {
    LiveAreListed(p);
    assert Live(Spawned(p, owner)) == Live(p) + {p.next};
  }

  lemma SpawnKeepsKills(p: State, owner: string)
    requires Inv(p)
    ensures KillsOk(Spawned(p, owner))
  {
    hide SessionOk, Distinct, Live, KillsOk;
    SameKills(p, Spawned(p, owner));
  }

  lemma SpawnKeeps(p: State, owner: string)
    requires Inv(p) && |LiveListed(p)| < p.liveMax
    ensures Inv(Spawned(p, owner))
  {
    hide Distinct;
    SpawnKeepsLimit(p, owner);
    SpawnKeepsKills(p, owner);
    assert SessionOk(Opened(owner));
    hide SessionOk, KillsOk, Live, LiveListed;
    var t := Spawned(p, owner);
    assert forall id | id in p.table :: id < p.next;
    assert forall id :: id in t.table <==> id in p.table || id == p.next;
    DistinctSnoc(p.table, p.next);
  }

  lemma DistinctSnoc(table: seq<Id>, id: Id)
    requires Distinct(table) && id !in table
    ensures Distinct(table + [id])
  {
  }

  /** A step of the kills alone. */
  lemma KillsKeep(s: State, kills: Kills)
    requires Inv(s) && KillsOk(s.(kills := kills))
    ensures Inv(s.(kills := kills))
  {
    assert Live(s.(kills := kills)) == Live(s);
  }

  lemma StartKillKeeps(s: State, id: Id)
    requires Inv(s) && Listed(s, id)
    ensures Inv(s.(kills := KillStarted(s, id)))
  {
    hide Tiles, Ordered;
    assert SessionOk(s.objects[id]);
    var t := s.(kills := KillStarted(s, id));
    forall c | c in t.kills.calls
      ensures c < t.kills.nextCall && CallOk(t, t.kills.calls[c])
    {
      if c != s.kills.nextCall { assert CallOk(s, s.kills.calls[c]); }
    }
    forall c | c in t.kills.answers
      ensures c < t.kills.nextCall && AnswerOk(t, t.kills.answers[c])
    {
      assert AnswerOk(s, s.kills.answers[c]);
    }
    KillsKeep(s, t.kills);
  }

  lemma StageKeeps(s: State, k: nat, stage: Stage)
    requires Inv(s) && k < |s.kills.tasks| && (stage == Done(true) ==> HasExited(s.objects[s.kills.tasks[k].id]))
    ensures Inv(WithStage(s, k, stage))
  {
    hide Ordered, Tiles, Concat, Live;
    var t := WithStage(s, k, stage);
    assert SessionOk(s.objects[s.kills.tasks[k].id]);
    forall c | c in t.kills.calls
      ensures c < t.kills.nextCall && CallOk(t, t.kills.calls[c])
    {
      assert CallOk(s, s.kills.calls[c]);
    }
    forall c | c in t.kills.answers
      ensures c < t.kills.nextCall && AnswerOk(t, t.kills.answers[c])
    {
      assert AnswerOk(s, s.kills.answers[c]);
    }
    KillsKeep(s, t.kills);
  }

  /** A call that answers true has seen its session's exit. */
  lemma TrueMeansExited(s: State, call: int)
    requires Inv(s) && CanReturn(s, call) && Answer(s, call)
    ensures s.kills.calls[call].id in s.objects && s.objects[s.kills.calls[call].id].settled
  {
    assert CallOk(s, s.kills.calls[call]);
  }

  lemma ReturnKeeps(s: State, call: int)
    requires Inv(s) && CanReturn(s, call)
    ensures Inv(Returned(s, call))
  {
    var id := s.kills.calls[call].id;
    var dropped := s;
    if Answer(s, call) {
      TrueMeansExited(s, call);
      DropKeeps(s, other => other != id);
      dropped := s.(table := Without(s.table, id));
    }
    var t := Returned(s, call);
    forall c | c in t.kills.calls
      ensures c < t.kills.nextCall && CallOk(t, t.kills.calls[c])
    {
      assert CallOk(s, s.kills.calls[c]);
    }
    FilterMembers(s.table, other => other != id);
    forall c | c in t.kills.answers
      ensures c < t.kills.nextCall && AnswerOk(t, t.kills.answers[c])
    {
      if c != call { assert AnswerOk(s, s.kills.answers[c]); }
    }
    KillsKeep(dropped, t.kills);
  }

  lemma KillStepKeeps(s: State, e: Event)
    requires Inv(s) && (e.TreeKilled? || e.ExitSeen? || e.WaitTimesOut?)
    ensures Inv(Step(s, e))
  {
    hide Live, Ordered;
    var k := e.task;
    if k < |s.kills.tasks| {
      var x := s.objects[s.kills.tasks[k].id];
      assert SessionOk(x);
      assert x.resolved ==> HasExited(x);
      hide SessionOk, Distinct, KillsOk;
      if HasExited(x) {
        StageKeeps(s, k, Done(true));
      } else {
        StageKeeps(s, k, FirstWait);
        StageKeeps(s, k, SecondWait);
      }
      StageKeeps(s, k, Done(false));
    }
  }

  lemma StepKeeps(s: State, e: Event)
    requires Inv(s)
    ensures Inv(Step(s, e))
  {
    hide SessionOk, KillsOk, Distinct, Append, Banner, Kept, Filter;
    match e
    case Spawn(owner, ok, now) =>
      PruneKeeps(s, now);
      if |LiveListed(Pruned(s, now))| < s.liveMax { SpawnKeeps(Pruned(s, now), owner); }
    case Data(id, text, window) => if id in s.objects { DataKeeps(s, id, text, window); }
    case Exit(id, status, window, now) =>
      if Listed(s, id) { SettleKeeps(s, id, status, window, now); PruneKeeps(Settled(s, id, status, window, now), now); }
    case Clear(id, owner, now) =>
      PruneKeeps(s, now);
      if Owned(Pruned(s, now), id, owner) { ClearKeeps(Pruned(s, now), id); }
    case StartKill(id, owner) => if Owned(s, id, owner) { StartKillKeeps(s, id); }
    case KillReturns(call) => if CanReturn(s, call) { ReturnKeeps(s, call); }
    case Acknowledge(id, owner) => if Owned(s, id, owner) && !s.objects[id].alive { AcknowledgeKeeps(s, id); }
    case Look(now) => PruneKeeps(s, now);
    case Close => CloseKeeps(s);
    case _ => KillStepKeeps(s, e);
  }

  lemma DataKeeps(s: State, id: Id, text: string, window: bool)
    requires Inv(s) && id in s.objects
    ensures Inv(s.(objects := s.objects[id := Append(s.objects[id], text, window)]))
  {
    AppendKeeps(s.objects[id], text, window);
    UpdateKeeps(s, id, Append(s.objects[id], text, window));
  }

  function Settled(s: State, id: Id, status: string, window: bool, now: int): State
    requires id in s.objects
  {
    s.(objects := s.objects[id := Exited(s.objects[id], status, window, now)])
  }

  lemma SettleKeeps(s: State, id: Id, status: string, window: bool, now: int)
    requires Inv(s) && id in s.objects
    ensures Inv(Settled(s, id, status, window, now))
  {
    ExitKeeps(s.objects[id], status, window, now);
    UpdateKeeps(s, id, Exited(s.objects[id], status, window, now));
  }

  lemma ClearKeeps(s: State, id: Id)
    requires Inv(s) && id in s.objects
    ensures Inv(s.(objects := s.objects[id := s.objects[id].(scrollback := "")]))
  {
    assert SessionOk(s.objects[id]);
    UpdateKeeps(s, id, s.objects[id].(scrollback := ""));
  }

  lemma AcknowledgeKeeps(s: State, id: Id)
    requires Inv(s) && id in s.objects && !s.objects[id].alive
    ensures Inv(s.(table := Without(s.table, id)))
  {
    assert SessionOk(s.objects[id]);
    DropKeeps(s, other => other != id);
  }

  lemma CloseKeeps(s: State)
    requires Inv(s)
    ensures Inv(s.(closed := true))
  {
    SameKills(s, s.(closed := true));
    assert Live(s.(closed := true)) == Live(s);
  }

  /** Calls stay as they are while sessions only settle. */
  lemma SameKills(s: State, t: State)
    requires KillsOk(s) && t.kills == s.kills && t.next >= s.next
    requires forall id | id in s.objects :: id in t.objects && (s.objects[id].settled ==> t.objects[id].settled)
    requires forall id | id in t.table :: id in s.table || id >= s.next
    ensures KillsOk(t)
  {
    forall c | c in t.kills.answers
      ensures c < t.kills.nextCall && AnswerOk(t, t.kills.answers[c])
    {
      assert AnswerOk(s, s.kills.answers[c]);
    }
    forall c | c in t.kills.calls
      ensures c < t.kills.nextCall && CallOk(t, t.kills.calls[c])
    {
      assert CallOk(s, s.kills.calls[c]);
    }
  }

  lemma {:induction false} AfterKeeps(s: State, events: seq<Event>)
    requires Inv(s)
    ensures Inv(After(s, events))
    decreases |events|
  {
    if events != [] {
      StepKeeps(s, events[0]);
      AfterKeeps(Step(s, events[0]), events[1..]);
    }
  }

  // ---------------------------------------------------------------------
  // Whole runs
  // ---------------------------------------------------------------------

  lemma Reachable(liveMax: int, events: seq<Event>)
    ensures Inv(After(Initial(liveMax), events))
  {
    assert Live(Initial(liveMax)) == {};
    AfterKeeps(Initial(liveMax), events);
  }

  /** Main result: in every run, every snapshot is the slice of the whole output between its cursors. */
  lemma SnapshotsAreSlices(liveMax: int, events: seq<Event>, id: Id, maxChars: Option<int>)
    requires id in After(Initial(liveMax), events).objects
    ensures var x := After(Initial(liveMax), events).objects[id];
            var shot := SnapshotOf(x, maxChars);
            && 0 <= shot.start <= shot.end == |x.stream| && shot.output == x.stream[shot.start..shot.end]
            && |shot.output| <= Limit(maxChars) <= 200000
  {
    Reachable(liveMax, events);
    SnapshotIsSlice(After(Initial(liveMax), events).objects[id], maxChars);
  }

  /** Main result: the data events reproduce the whole output exactly if there always was a window to send them to. */
  lemma EventsTileIffAlwaysSent(liveMax: int, events: seq<Event>, id: Id)
    requires id in After(Initial(liveMax), events).objects
    ensures var x := After(Initial(liveMax), events).objects[id];
            && Ordered(x.sent, x.stream)
            && (Concat(x.sent) == x.stream <==> !x.missed)
            && (!x.missed ==> Tiles(x.sent, 0, |x.stream|))
  {
    Reachable(liveMax, events);
  }

  /** Main result: in every run, whoever is told that `killSession` succeeded finds the session settled and out of the table. */
  lemma KillAnswersTruly(liveMax: int, events: seq<Event>, call: int)
    ensures var s := After(Initial(liveMax), events);
            call in s.kills.answers && s.kills.answers[call].exited ==>
              var id := s.kills.answers[call].id;
              id in s.objects && s.objects[id].settled && id !in s.table
  {
    Reachable(liveMax, events);
    var s := After(Initial(liveMax), events);
    if call in s.kills.answers {
      assert AnswerOk(s, s.kills.answers[call]);
    }
  }

  /** Main result: a session leaves the table only after its exit settled, and the live ones stay within the limit. */
  lemma LeavesOnlyAfterExit(liveMax: int, events: seq<Event>)
    ensures var s := After(Initial(liveMax), events);
            && (forall id | id in s.objects && id !in s.table :: s.objects[id].settled)
            && (forall id | id in s.objects :: s.objects[id].alive == !s.objects[id].settled)
            && |Live(s)| <= s.liveMax
  {
    Reachable(liveMax, events);
  }

  /** Every event that appends output to session `id` finds a window. */
  predicate Watched(e: Event, id: Id) {
    match e
    case Data(d, _, window) => d == id ==> window
    case Exit(d, _, window, _) => d == id ==> window
    case _ => true
  }

  /** `y` is a later state of the same session: events sent since lie behind what there was. */
  ghost predicate Continues(x: Session, y: Session) {
    && x.sent <= y.sent && x.stream <= y.stream
    && forall i | |x.sent| <= i < |y.sent| :: |x.stream| <= y.sent[i].start
  }

  /** What was sent between the two. */
  function Since(x: Session, y: Session): string
    requires |x.sent| <= |y.sent|
  {
    Concat(y.sent[|x.sent|..])
  }

  lemma {:induction false} ConcatSplit(a: seq<DataEvent>, b: seq<DataEvent>)
    ensures Concat(a + b) == Concat(a) + Concat(b)
    decreases |b|
  {
    if b == [] {
      assert a + b == a;
    } else {
      var n := |b| - 1;
      assert (a + b)[..|a + b| - 1] == a + b[..n];
      ConcatSplit(a, b[..n]);
    }
  }

  lemma AppendContinues(x: Session, text: string, window: bool)
    requires x.cursor == |x.stream|
    ensures var y := Append(x, text, window);
            Continues(x, y) && (window ==> y.stream == x.stream + Since(x, y))
  {
    var y := Append(x, text, window);
    if text != "" && window {
      assert y.sent[|x.sent|..] == [DataEvent(text, x.cursor, x.cursor + |text|)];
      assert Concat(y.sent[|x.sent|..]) == Concat([]) + text;
    } else {
      assert y.sent[|x.sent|..] == [];
    }
  }

  /** What event `e` does to session `id`. */
  function Change(s: State, e: Event, id: Id): Session
    requires id in s.objects
  {
    var x := s.objects[id];
    match e
    case Data(d, text, window) => if d == id && x.alive then Append(x, text, window) else x
    case Exit(d, status, window, now) => if d == id && Listed(s, id) && !x.settled then Exited(x, status, window, now) else x
    case Clear(d, owner, now) => if d == id && Owned(Pruned(s, now), id, owner) then x.(scrollback := "") else x
    case _ => x
  }

  predicate KillEvent(e: Event) {
    e.StartKill? || e.TreeKilled? || e.ExitSeen? || e.WaitTimesOut? || e.KillReturns? || e.Acknowledge? || e.Look? || e.Close?
  }

  lemma KillsChangeNoSession(s: State, e: Event)
    requires KillEvent(e)
    ensures Step(s, e).objects == s.objects
  {
    hide KillStarted, WaitingFrom, CanReturn, Owned, TaskAt, Without, Kept, Filter;
  }

  lemma StepChanges(s: State, e: Event, id: Id)
    requires Inv(s) && id in s.objects
    ensures id in Step(s, e).objects && Step(s, e).objects[id] == Change(s, e, id)
  {
    hide SessionOk, KillsOk, Distinct, Kept, Filter, Append, Banner;
    if KillEvent(e) {
      KillsChangeNoSession(s, e);
    }
  }

  lemma ChangeContinues(s: State, e: Event, id: Id)
    requires id in s.objects && SessionOk(s.objects[id])
    ensures var x, y := s.objects[id], Change(s, e, id);
            Continues(x, y) && (Watched(e, id) ==> y.stream == x.stream + Since(x, y))
  {
    hide Append, Ordered;
    var x := s.objects[id];
    assert x.sent[|x.sent|..] == [];
    match e
    case Data(d, text, window) => AppendContinues(x, text, window);
    case Exit(d, status, window, now) => AppendContinues(x, Banner(status), window);
    case _ =>
  }

  /** Whatever `y` has more than `x` was sent. */
  ghost predicate ContinuesExactly(x: Session, y: Session) { Continues(x, y) && y.stream == x.stream + Since(x, y) }

  lemma ContinuesFurther(x: Session, m: Session, y: Session)
    requires ContinuesExactly(x, m) && ContinuesExactly(m, y)
    ensures ContinuesExactly(x, y)
  {
    ConcatSplit(m.sent[|x.sent|..], y.sent[|m.sent|..]);
    assert y.sent[|x.sent|..] == m.sent[|x.sent|..] + y.sent[|m.sent|..];
    assert Since(x, y) == Since(x, m) + Since(m, y);
  }

  lemma {:induction false} RunContinues(s: State, events: seq<Event>, id: Id)
    requires Inv(s) && id in s.objects && forall i | 0 <= i < |events| :: Watched(events[i], id)
    ensures id in After(s, events).objects
    ensures ContinuesExactly(s.objects[id], After(s, events).objects[id])
    decreases |events|
  {
    var x := s.objects[id];
    if events == [] {
      assert x.sent[|x.sent|..] == [];
    } else {
      var next := Step(s, events[0]);
      StepChanges(s, events[0], id);
      ChangeContinues(s, events[0], id);
      StepKeeps(s, events[0]);
      RunContinues(next, events[1..], id);
      ContinuesFurther(x, next.objects[id], After(next, events[1..]).objects[id]);
    }
  }

  lemma SnapshotContinued(x: Session, y: Session, maxChars: Option<int>)
    requires SessionOk(x) && ContinuesExactly(x, y)
    ensures var shot := SnapshotOf(x, maxChars);
            && 0 <= shot.start <= |y.stream| && shot.output + Since(x, y) == y.stream[shot.start..]
            && forall i | |x.sent| <= i < |y.sent| :: shot.end <= y.sent[i].start
  {
    SnapshotIsSlice(x, maxChars);
  }

  /**
   * Main result: a window that takes a snapshot and then receives the data
   * events has exactly the output from the snapshot's start on, whatever
   * truncations and clears happen meanwhile.
   */
  lemma SnapshotPlusEvents(liveMax: int, before: seq<Event>, after: seq<Event>, id: Id, maxChars: Option<int>)
    requires id in After(Initial(liveMax), before).objects
    requires forall i | 0 <= i < |after| :: Watched(after[i], id)
    ensures id in After(After(Initial(liveMax), before), after).objects
    ensures var x := After(Initial(liveMax), before).objects[id];
            var y := After(After(Initial(liveMax), before), after).objects[id];
            var shot := SnapshotOf(x, maxChars);
            && |x.sent| <= |y.sent| && 0 <= shot.start <= |y.stream|
            && shot.output + Since(x, y) == y.stream[shot.start..]
            && forall i | |x.sent| <= i < |y.sent| :: shot.end <= y.sent[i].start
  {
    var s := After(Initial(liveMax), before);
    Reachable(liveMax, before);
    RunContinues(s, after, id);
    SnapshotContinued(s.objects[id], After(s, after).objects[id], maxChars);
  }

  // ---------------------------------------------------------------------
  // Pruning
  // ---------------------------------------------------------------------

  lemma {:induction false} RecentMembers(table: seq<Id>, objects: map<Id, Session>, now: int)
    ensures forall id :: id in RecentIds(table, objects, now) <==> id in table && id in objects && Recent(objects[id], now)
    decreases |table|
  {
    if table != [] {
      RecentMembers(table[..|table| - 1], objects, now);
      assert table == table[..|table| - 1] + [table[|table| - 1]];
    }
  }

  lemma NotInTail(s: seq<Id>, from: nat, i: nat)
    requires from <= |s| && i < |s| && s[i] !in s[from..]
    ensures i < from
  {
    assert s == s[..from] + s[from..];
  }

  /** The position of every pruned-away recent session is behind every kept one. */
  lemma SurplusIsOlder(table: seq<Id>, objects: map<Id, Session>, now: int, a: Id, b: Id)
    requires a in RecentIds(table, objects, now) && a !in Surplus(table, objects, now) && b in Surplus(table, objects, now)
    ensures ExitTime(objects)(a) >= ExitTime(objects)(b)
  {
    var recent, key := RecentIds(table, objects, now), ExitTime(objects);
    var sorted := SortDesc(recent, key);
    SortIsDescending(recent, key);
    SortSameItem(recent, key, a);
    var i :| 0 <= i < |sorted| && sorted[i] == a;
    var j :| 0 <= j < |sorted[EXITED_MAX..]| && sorted[EXITED_MAX..][j] == b;
    NotInTail(sorted, EXITED_MAX, i);
    assert sorted[EXITED_MAX + j] == b;
  }

  function Members(s: seq<Id>): set<Id> { set id | id in s }

  lemma {:induction false} FewMembers(s: seq<Id>)
    ensures |Members(s)| <= |s|
    decreases |s|
  {
    if s == [] {
      assert Members(s) == {};
    } else {
      var n := |s| - 1;
      assert s == s[..n] + [s[n]];
      FewMembers(s[..n]);
      assert Members(s) == Members(s[..n]) + {s[n]};
    }
  }

  lemma {:induction false} RecentDistinct(table: seq<Id>, objects: map<Id, Session>, now: int)
    requires Distinct(table)
    ensures |Members(RecentIds(table, objects, now))| == |RecentIds(table, objects, now)|
    decreases |table|
  {
    if table != [] {
      var n := |table| - 1;
      RecentDistinct(table[..n], objects, now);
      RecentMembers(table[..n], objects, now);
      var before := RecentIds(table[..n], objects, now);
      MembersSplit(before, [table[n]]);
      OneMember(table[n]);
    }
  }

  lemma OneMember(id: Id)
    ensures Members([id]) == {id}
  {
    forall x
      ensures x in Members([id]) <==> x == id
    {
    }
  }

  lemma MembersSplit(a: seq<Id>, b: seq<Id>)
    ensures Members(a + b) == Members(a) + Members(b)
  {
  }

  /** A prefix of a sequence without repetitions has none. */
  lemma PrefixMembers(s: seq<Id>, n: nat)
    requires n <= |s| && |Members(s)| == |s|
    ensures |Members(s[..n])| == n
  {
    assert s == s[..n] + s[n..];
    MembersSplit(s[..n], s[n..]);
    FewMembers(s[..n]);
    FewMembers(s[n..]);
  }

  /** The listed sessions that exited no more than half an hour ago. */
  function RecentListed(s: State, now: int): set<Id> {
    set id | id in s.table && id in s.objects && !s.objects[id].alive && s.objects[id].exitedAt.Some?
             && now - s.objects[id].exitedAt.value <= 1800000
  }

  /** Of the recent exited sessions exactly as many stay as there are, up to 24. */
  lemma PruneKeepsTwentyFour(s: State, now: int)
    requires Inv(s)
    ensures |ExitedListed(Pruned(s, now))| == Min(|RecentListed(s, now)|, 24)
    ensures ExitedListed(Pruned(s, now)) <= RecentListed(s, now)
  {
    hide SortDesc, SessionOk, KillsOk;
    var p := Pruned(s, now);
    FilterMembers(s.table, id => Kept(id, s.table, s.objects, now));
    RecentMembers(s.table, s.objects, now);
    RecentDistinct(s.table, s.objects, now);
    var recent, key := RecentIds(s.table, s.objects, now), ExitTime(s.objects);
    var sorted := SortDesc(recent, key);
    SortKeepsItems(recent, key);
    forall id
      ensures id in sorted <==> id in recent
      ensures id in recent <==> id in RecentListed(s, now)
    {
      SortSameItem(recent, key, id);
      assert EXITED_TTL == 1800000;
    }
    assert Members(sorted) == Members(recent) == RecentListed(s, now);
    if |sorted| > EXITED_MAX {
      PrefixMembers(sorted, EXITED_MAX);
      NewestStay(s, now, sorted);
    } else {
      assert Surplus(s.table, s.objects, now) == [];
      forall id
        ensures id in ExitedListed(p) <==> id in RecentListed(s, now)
      {
        assert EXITED_TTL == 1800000;
      }
      assert ExitedListed(p) == RecentListed(s, now);
    }
  }

  lemma NewestStay(s: State, now: int, sorted: seq<Id>)
    requires sorted == SortDesc(RecentIds(s.table, s.objects, now), ExitTime(s.objects)) && |sorted| > EXITED_MAX
    requires |Members(sorted)| == |sorted| && Members(sorted) == RecentListed(s, now)
    ensures ExitedListed(Pruned(s, now)) == Members(sorted[..EXITED_MAX])
  {
    hide SortDesc, ExitTime;
    var first, rest := sorted[..EXITED_MAX], sorted[EXITED_MAX..];
    assert sorted == first + rest && Surplus(s.table, s.objects, now) == rest;
    MembersSplit(first, rest);
    FewMembers(first);
    FewMembers(rest);
    DisjointParts(Members(first), Members(rest));
    FilterMembers(s.table, id => Kept(id, s.table, s.objects, now));
    forall id
      ensures id in ExitedListed(Pruned(s, now)) <==> id in first
    {
      assert id in RecentListed(s, now) <==> id in Members(sorted);
      assert id in Members(rest) <==> id in rest;
      assert id in Members(first) <==> id in first;
    }
  }

  lemma DisjointParts<T>(a: set<T>, b: set<T>)
    requires |a + b| >= |a| + |b|
    ensures a !! b
  {
    assert |a + b| == |a| + |b| - |a * b|;
    assert |a * b| == 0;
    forall x | x in a
      ensures x !in b
    {
      assert x in b ==> x in a * b;
    }
  }

  function ExitedListed(s: State): set<Id> { set id | id in s.table && id in s.objects && !s.objects[id].alive }

  /**
   * Pruning keeps every live session, only recent exited ones, at most
   * `EXITED_MAX` of these, and none older than one it drops.
   */
  lemma PruneKeepsTheNewest(s: State, now: int)
    requires Inv(s)
    ensures var p := Pruned(s, now);
            && (forall id | id in s.table && s.objects[id].alive :: id in p.table)
            && (forall id | id in p.table :: id in p.objects && (p.objects[id].alive || Recent(p.objects[id], now)))
            && |ExitedListed(p)| <= EXITED_MAX
            && forall a, b | a in p.table && a in s.table && !s.objects[a].alive
                             && b in s.table && b !in p.table && Recent(s.objects[b], now) ::
                 s.objects[a].exitedAt.value >= s.objects[b].exitedAt.value
  {
    hide SortDesc, SessionOk, KillsOk;
    var p := Pruned(s, now);
    var keep := id => Kept(id, s.table, s.objects, now);
    FilterMembers(s.table, keep);
    RecentMembers(s.table, s.objects, now);
    var recent, key := RecentIds(s.table, s.objects, now), ExitTime(s.objects);
    var sorted := SortDesc(recent, key);
    var newest := if |sorted| > EXITED_MAX then sorted[..EXITED_MAX] else sorted;
    forall id | id in ExitedListed(p)
      ensures id in newest
    {
      assert keep(id);
      SortSameItem(recent, key, id);
      if |sorted| > EXITED_MAX { assert sorted == newest + sorted[EXITED_MAX..]; }
    }
    FewMembers(newest);
    SubsetCount(ExitedListed(p), Members(newest));
    forall a, b | a in p.table && a in s.table && !s.objects[a].alive && b in s.table && b !in p.table && Recent(s.objects[b], now)
      ensures s.objects[a].exitedAt.value >= s.objects[b].exitedAt.value
    {
      assert keep(a) && !keep(b);
      SurplusIsOlder(s.table, s.objects, now, a, b);
    }
  }
}
