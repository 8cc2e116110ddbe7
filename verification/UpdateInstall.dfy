/**
 * The updater's activity handshake and install transaction, within one process.
 *
 * One event is one turn of the main process: a message from the renderer, a
 * timer, a change in the surroundings, or the continuation of an awaited step
 * of `install`.
 */
module UpdateInstall {
  import opened SortedKeys
  import opened Wrappers

  const FIELDS := ["turn.running", "side_chat.running", "prompt.pending", "attachment.uploading", "editor.dirty", "task.running"]
  const MAX_ITEMS := 1000
  const MAX_REQUEST_IDS := 20
  const MAX_RETIRED := 32
  const STALE_MS := 15000

  type RequestId = Key

  // ---------------------------------------------------------------------
  // Activity snapshots
  // ---------------------------------------------------------------------

  /** An element of a list sent by the renderer; `Id` is a trimmed, usable identifier, by rank. */
  datatype Item = NotText | Unusable | Id(id: Key)

  datatype RawList = Absent | NotList | List(items: seq<Item>)

  /** `revision` is 0 unless it is a positive safe integer, `renderer` and `runtimeReady` are `None` unless valid. */
  datatype RawActivity = RawActivity(
    revision: nat, renderer: Option<Key>, runtimeReady: Option<bool>, lists: seq<RawList>, requestIds: RawList)

  datatype Snapshot = Snapshot(revision: nat, renderer: Key, runtimeReady: bool, lists: seq<seq<Key>>)

  function Ids(items: seq<Item>): Option<seq<Key>> {
    if items == [] then Some([])
    else if !items[0].Id? then None
    else
      match Ids(items[1..])
      case None => None
      case Some(rest) => Some([items[0].id] + rest)
  }

  function NormalizeIds(l: RawList): Option<seq<Key>> {
    if !l.List? || |l.items| > MAX_ITEMS then None
    else
      match Ids(l.items)
      case None => None
      case Some(ids) => Some(SortedSet(ids))
  }

  /** The lists of all six fields, in field order; a missing field is not an array. */
  function NormalizeLists(lists: seq<RawList>, count: nat): (r: Option<seq<seq<Key>>>)
    ensures r.Some? ==> |r.value| == count
  {
    if count == 0 then Some([])
    else
      var last := NormalizeIds(if count <= |lists| then lists[count - 1] else Absent);
      match NormalizeLists(lists, count - 1)
      case None => None
      case Some(before) => if last.Some? then Some(before + [last.value]) else None
  }

  /** `normalizeUpdateActivitySnapshot`; `None` when it raises. */
  function Normalize(raw: RawActivity): (r: Option<Snapshot>)
    ensures r.Some? ==> |r.value.lists| == |FIELDS|
  {
    var lists := NormalizeLists(raw.lists, |FIELDS|);
    if raw.revision > 0 && raw.renderer.Some? && raw.runtimeReady.Some? && lists.Some?
    then Some(Snapshot(raw.revision, raw.renderer.value, raw.runtimeReady.value, lists.value))
    else None
  }

  /** `activityRequestIds`; `None` when it raises. */
  function RequestIds(l: RawList): Option<seq<RequestId>> {
    match l
    case Absent => Some([])
    case NotList => None
    case List(items) => if |items| > MAX_REQUEST_IDS then None else Ids(items)
  }

  /** A snapshot as the value that `buildUpdatePreflight` normalizes once more. */
  function AsRaw(n: Snapshot): RawActivity {
    RawActivity(n.revision, Some(n.renderer), Some(n.runtimeReady), RawLists(n.lists), Absent)
  }

  function RawLists(lists: seq<seq<Key>>): seq<RawList> {
    seq(|lists|, (i: nat) requires i < |lists| => List(AsItems(lists[i])))
  }

  function AsItems(ids: seq<Key>): seq<Item> {
    seq(|ids|, (i: nat) requires i < |ids| => Id(ids[i]))
  }

  lemma {:induction false} IdsOfItems(ids: seq<Key>)
    ensures Ids(AsItems(ids)) == Some(ids)
  {
    if ids != [] {
      assert AsItems(ids)[1..] == AsItems(ids[1..]);
      IdsOfItems(ids[1..]);
      assert ids == [ids[0]] + ids[1..];
    }
  }

  lemma {:induction false} IdsKeepLength(items: seq<Item>)
    ensures Ids(items).Some? ==> |Ids(items).value| == |items|
  {
    if items != [] { IdsKeepLength(items[1..]); }
  }

  /** A list as normalization leaves it: sorted, without repetition, within the size limit. */
  ghost predicate Canonical(ids: seq<Key>) {
    Ascending(ids) && |ids| <= MAX_ITEMS
  }

  lemma {:induction false} NormalizedListsAreCanonical(lists: seq<RawList>, count: nat)
    ensures var r := NormalizeLists(lists, count);
            r.Some? ==> forall i | 0 <= i < count :: Canonical(r.value[i])
  {
    if count > 0 {
      NormalizedListsAreCanonical(lists, count - 1);
      var last := if count <= |lists| then lists[count - 1] else Absent;
      if last.List? && Ids(last.items).Some? {
        IdsKeepLength(last.items);
        SortedSetNoLonger(Ids(last.items).value);
      }
    }
  }

  lemma {:induction false} CanonicalListsStay(lists: seq<seq<Key>>, count: nat)
    requires count <= |lists| && forall i | 0 <= i < count :: Canonical(lists[i])
    ensures NormalizeLists(RawLists(lists), count) == Some(lists[..count])
  {
    if count > 0 {
      CanonicalListsStay(lists, count - 1);
      IdsOfItems(lists[count - 1]);
      SortedSetOfAscending(lists[count - 1]);
      assert lists[..count] == lists[..count - 1] + [lists[count - 1]];
    }
  }

  /** Normalizing an accepted snapshot again returns it unchanged, so the preflight never finds it malformed. */
  lemma NormalizeIsStable(raw: RawActivity)
    ensures var n := Normalize(raw); n.Some? ==> Normalize(AsRaw(n.value)) == n
  {
    var n := Normalize(raw);
    if n.Some? {
      NormalizedListsAreCanonical(raw.lists, |FIELDS|);
      CanonicalListsStay(n.value.lists, |FIELDS|);
      assert n.value.lists[..|FIELDS|] == n.value.lists;
    }
  }

  // ---------------------------------------------------------------------
  // Preflight
  // ---------------------------------------------------------------------

  datatype Pty = Unowned | Session(session: Key, conversation: Key)
  datatype PtyQuery = QueryFailed | NotSessions | Sessions(items: seq<Pty>)

  /** The arguments of `buildUpdatePreflight`. */
  datatype Inputs = Inputs(
    activity: Option<Snapshot>, ptys: PtyQuery, ready: bool, version: string, locked: bool, stale: bool, invalid: string)

  datatype Check = Check(code: string, blocking: bool)

  /** What is hashed: no revision and no renderer; a sorted list of terminals is its multiset. */
  datatype Fingerprint = Fingerprint(
    version: string, ready: bool, activity: Option<(bool, seq<seq<Key>>)>, ptys: multiset<Pty>)

  datatype Preflight = Preflight(allowed: bool, checks: seq<Check>, fingerprint: Fingerprint)

  predicate Blocked(checks: seq<Check>) {
    exists c | c in checks :: c.blocking
  }

  function FieldCheck(code: string, ids: seq<Key>): Check {
    if ids != [] then Check(code, true) else Check(code + ".clear", false)
  }

  function FieldChecks(lists: seq<seq<Key>>, count: nat): seq<Check>
    requires count <= |lists| && |lists| == |FIELDS|
  {
    seq(count, (i: nat) requires i < count => FieldCheck(FIELDS[i], lists[i]))
  }

  function PtysUsable(q: PtyQuery): bool {
    q.Sessions? && forall p | p in q.items :: p.Session?
  }

  function InstallChecks(i: Inputs): seq<Check> {
    [if i.ready && i.version != "" then Check("update.ready", false) else Check("update.not_ready", true),
     if i.locked then Check("install.locked", true) else Check("install.unlocked", false)]
  }

  function ActivityChecks(i: Inputs): seq<Check>
    requires i.activity.Some? ==> |i.activity.value.lists| == |FIELDS|
  {
    if i.invalid != "" then [Check("activity.invalid", true)]
    else if i.activity.None? then [Check("activity.unknown", true)]
    else
      [if i.activity.value.runtimeReady then Check("runtime.ready", false) else Check("runtime.not_ready", true),
       if i.stale then Check("activity.stale", true) else Check("activity.fresh", false)]
      + FieldChecks(i.activity.value.lists, |FIELDS|)
  }

  function PtyCheck(q: PtyQuery): Check {
    if q.QueryFailed? then Check("pty.unknown", true)
    else if !PtysUsable(q) then Check("pty.invalid", true)
    else if q.items != [] then Check("pty.running", true)
    else Check("pty.clear", false)
  }

  function ChecksOf(i: Inputs): seq<Check>
    requires i.activity.Some? ==> |i.activity.value.lists| == |FIELDS|
  {
    InstallChecks(i) + ActivityChecks(i) + [PtyCheck(i.ptys)]
  }

  function FingerprintOf(i: Inputs): Fingerprint {
    Fingerprint(
      i.version, i.ready,
      if i.invalid != "" || i.activity.None? then None else Some((i.activity.value.runtimeReady, i.activity.value.lists)),
      if PtysUsable(i.ptys) then multiset(i.ptys.items) else multiset{})
  }

  function PreflightOf(i: Inputs): Preflight
    requires i.activity.Some? ==> |i.activity.value.lists| == |FIELDS|
  {
    Preflight(!Blocked(ChecksOf(i)), ChecksOf(i), FingerprintOf(i))
  }

  /** Nothing would be lost by restarting into `version` now. */
  predicate Quiet(i: Inputs, version: string) {
    && i.ready && i.version == version && version != "" && !i.locked
    && i.invalid == "" && i.activity.Some? && i.activity.value.runtimeReady && !i.stale
    && (forall l | l in i.activity.value.lists :: l == [])
    && i.ptys == Sessions([])
  }

  lemma BlockedParts(a: seq<Check>, b: seq<Check>)
    ensures Blocked(a + b) <==> Blocked(a) || Blocked(b)
  {
    assert forall c :: c in a + b <==> c in a || c in b;
  }

  lemma FieldsBlockUnlessEmpty(lists: seq<seq<Key>>)
    requires |lists| == |FIELDS|
    ensures Blocked(FieldChecks(lists, |FIELDS|)) <==> exists l | l in lists :: l != []
  {
    var checks := FieldChecks(lists, |FIELDS|);
    if exists l | l in lists :: l != [] {
      var k :| 0 <= k < |lists| && lists[k] != [];
      assert checks[k] in checks && checks[k].blocking;
    }
    if Blocked(checks) {
      var c :| c in checks && c.blocking;
      var k :| 0 <= k < |checks| && checks[k] == c;
      assert lists[k] in lists && lists[k] != [];
    }
  }

  lemma ActivityBlocks(i: Inputs)
    requires i.activity.Some? ==> |i.activity.value.lists| == |FIELDS|
    ensures Blocked(ActivityChecks(i)) <==>
            !(&& i.invalid == "" && i.activity.Some? && i.activity.value.runtimeReady && !i.stale
              && forall l | l in i.activity.value.lists :: l == [])
  {
    var checks := ActivityChecks(i);
    if i.invalid == "" && i.activity.Some? {
      var fields := FieldChecks(i.activity.value.lists, |FIELDS|);
      var two := checks[..2];
      assert checks == two + fields;
      BlockedParts(two, fields);
      FieldsBlockUnlessEmpty(i.activity.value.lists);
      assert two[0] in two && two[1] in two;
      assert Blocked(two) <==> two[0].blocking || two[1].blocking;
    } else {
      assert checks[0] in checks;
    }
  }

  /** A preflight allows the installation exactly when everything is quiet. */
  lemma AllowedExactlyWhenQuiet(i: Inputs)
    requires i.activity.Some? ==> |i.activity.value.lists| == |FIELDS|
    ensures PreflightOf(i).allowed <==> Quiet(i, i.version)
  {
    var head, last := InstallChecks(i), [PtyCheck(i.ptys)];
    BlockedParts(head + ActivityChecks(i), last);
    BlockedParts(head, ActivityChecks(i));
    ActivityBlocks(i);
    assert head[0] in head && head[1] in head && last[0] in last;
    assert Blocked(head) <==> head[0].blocking || head[1].blocking;
    assert Blocked(last) <==> last[0].blocking;
  }

  /** `buildUpdatePreflight`. */
  method BuildUpdatePreflight(i: Inputs) returns (p: Preflight)
    requires i.activity.Some? ==> |i.activity.value.lists| == |FIELDS|
    ensures p == PreflightOf(i)
  {
    var checks := [];
    checks := checks + [if i.ready && i.version != "" then Check("update.ready", false) else Check("update.not_ready", true)];
    checks := checks + [if i.locked then Check("install.locked", true) else Check("install.unlocked", false)];
    assert checks == InstallChecks(i);
    var activity := None;
    var part := [];
    if i.invalid != "" {
      part := [Check("activity.invalid", true)];
    } else if i.activity.None? {
      part := [Check("activity.unknown", true)];
    } else {
      activity := Some((i.activity.value.runtimeReady, i.activity.value.lists));
      part := CheckActivity(i.activity.value, i.stale);
    }
    assert part == ActivityChecks(i);
    checks := checks + part;
    var ptys := multiset{};
    if i.ptys.QueryFailed? {
      checks := checks + [Check("pty.unknown", true)];
    } else if !PtysUsable(i.ptys) {
      checks := checks + [Check("pty.invalid", true)];
    } else {
      ptys := multiset(i.ptys.items);
      checks := checks + [if i.ptys.items != [] then Check("pty.running", true) else Check("pty.clear", false)];
    }
    assert checks == ChecksOf(i);
    p := Preflight(!Blocked(checks), checks, Fingerprint(i.version, i.ready, activity, ptys));
  }

  /** The checks of a valid snapshot: readiness, freshness, then one for each field. */
  method CheckActivity(snapshot: Snapshot, stale: bool) returns (checks: seq<Check>)
    requires |snapshot.lists| == |FIELDS|
    ensures checks ==
            [if snapshot.runtimeReady then Check("runtime.ready", false) else Check("runtime.not_ready", true),
             if stale then Check("activity.stale", true) else Check("activity.fresh", false)]
            + FieldChecks(snapshot.lists, |FIELDS|)
  {
    checks := [if snapshot.runtimeReady then Check("runtime.ready", false) else Check("runtime.not_ready", true)];
    checks := checks + [if stale then Check("activity.stale", true) else Check("activity.fresh", false)];
    ghost var before := checks;
    for k := 0 to |FIELDS|
      invariant checks == before + FieldChecks(snapshot.lists, k)
    {
      checks := checks + [if snapshot.lists[k] != [] then Check(FIELDS[k], true) else Check(FIELDS[k] + ".clear", false)];
    }
  }

  // ---------------------------------------------------------------------
  // State
  // ---------------------------------------------------------------------

  /** Where `install` is: awaiting the request before a preflight, or the backup. */
  datatype Stage = Idle | First(request: Option<RequestId>) | BackingUp | Second(request: Option<RequestId>)

  datatype Activity = Activity(
    snapshot: Option<Snapshot>, received: int, invalid: string, retired: seq<Key>,
    pending: set<RequestId>, answers: map<RequestId, seq<bool>>)

  /** `quits` are the fingerprints of the successful `quitAndInstall` calls. */
  datatype Install = Install(locked: bool, stage: Stage, fingerprint: Option<Fingerprint>, quits: seq<Fingerprint>)

  /** `version` is `downloadedUpdateVersion()`, `ready` says that the updater is loaded as well. */
  datatype Surroundings = Surroundings(now: int, ready: bool, version: string, ptys: PtyQuery)

  datatype State = State(a: Activity, i: Install, w: Surroundings)

  const INITIAL := State(
    Activity(None, 0, "activity.uninitialized", [], {}, map[]),
    Install(false, Idle, None, []),
    Surroundings(1, false, "", Sessions([])))

  datatype Event =
    | Change(w: Surroundings)
    | UpdateActivity(raw: RawActivity)
    | Invalidate(reason: string)
    | RequestTimeout(id: RequestId)
    | RunPreflight(window: bool, id: RequestId)
    | StartInstall(fingerprint: Option<Fingerprint>, window: bool, id: RequestId)
    | ReadFirst
    | BackupDone(window: bool, id: RequestId)
    | BackupFailed
    | ReadSecond(launched: bool)

  function Answered(a: Activity, ids: set<RequestId>, accepted: bool): Activity {
    a.(pending := a.pending - ids,
    answers := map id | id in a.answers ::
      if id in a.pending && id in ids then a.answers[id] + [accepted] else a.answers[id])
  }

  function AsSet(ids: seq<RequestId>): set<RequestId> { set id | id in ids }

  /** The retired renderers with `r` added at the end, at most `MAX_RETIRED` of them. */
  function Retire(retired: seq<Key>, r: Key): seq<Key> {
    var all := if r in retired then retired else retired + [r];
    if |all| > MAX_RETIRED then all[|all| - MAX_RETIRED..] else all
  }

  /** `updateActivity`. */
  function Updated(a: Activity, raw: RawActivity, now: int): Activity {
    match (RequestIds(raw.requestIds), Normalize(raw))
    case (None, _) => a.(invalid := "activity.invalid", received := 0)
    case (Some(ids), None) => Answered(a.(invalid := "activity.invalid", received := 0), AsSet(ids), false)
    case (Some(ids), Some(n)) =>
      if n.renderer in a.retired then Answered(a.(invalid := "activity.retired_renderer"), AsSet(ids), false)
      else if a.snapshot.Some? && n.renderer == a.snapshot.value.renderer && n.revision <= a.snapshot.value.revision then
        Answered(a.(invalid := "activity.stale_revision"), AsSet(ids), false)
      else
        var retired :=
          if a.snapshot.Some? && n.renderer != a.snapshot.value.renderer
          then Retire(a.retired, a.snapshot.value.renderer) else a.retired;
        Answered(a.(snapshot := Some(n), received := now, invalid := "", retired := retired), AsSet(ids), true)
  }

  function Invalidated(a: Activity, reason: string): Activity {
    Answered(a.(invalid := if reason == "" then "activity.invalidated" else reason, received := 0), a.pending, false)
  }

  function TimedOut(a: Activity, id: RequestId): Activity {
    if id !in a.pending then a
    else Answered(a.(invalid := "activity.request_timeout", received := 0), {id}, false)
  }

  /** `requestFreshActivitySnapshot` up to its `await`; without a window there is nothing to wait for. */
  function Requested(a: Activity, window: bool, id: RequestId): Activity {
    if !window then Invalidated(a, "activity.renderer_unavailable")
    else a.(pending := a.pending + {id}, answers := a.answers[id := []])
  }

  /** `preflightForCurrentState`, ignoring the install lock. */
  function CurrentInputs(s: State): Inputs {
    Inputs(s.a.snapshot, s.w.ptys, s.w.ready && s.w.version != "", s.w.version, false,
           s.a.received != 0 && s.w.now - s.a.received > STALE_MS, s.a.invalid)
  }

  /** The request awaited before a preflight has been answered. */
  predicate Acknowledged(a: Activity, request: Option<RequestId>) {
    request.Some? ==> request.value !in a.pending
  }

  ghost predicate Shape(s: State) {
    s.a.snapshot.Some? ==> |s.a.snapshot.value.lists| == |FIELDS|
  }

  predicate Agrees(p: Preflight, fingerprint: Option<Fingerprint>) {
    p.allowed && fingerprint == Some(p.fingerprint)
  }

  /** One event; an event that is not enabled leaves the state alone. */
  function Step(s: State, e: Event): (t: State)
    requires Shape(s)
    ensures Shape(t)
  {
    match e
    case Change(w) => s.(w := w)
    case UpdateActivity(raw) => s.(a := Updated(s.a, raw, s.w.now))
    case Invalidate(reason) => s.(a := Invalidated(s.a, reason))
    case RequestTimeout(id) => s.(a := TimedOut(s.a, id))
    case RunPreflight(window, id) =>
      if id in s.a.answers then s else s.(a := Requested(s.a, window, id))
    case StartInstall(fingerprint, window, id) =>
      if !s.w.ready || s.i.locked || id in s.a.answers then s
      else
        s.(a := Requested(s.a, window, id),
        i := s.i.(locked := true, stage := First(if window then Some(id) else None), fingerprint := fingerprint))
    case ReadFirst =>
      if !s.i.stage.First? || !Acknowledged(s.a, s.i.stage.request) then s
      else if Agrees(PreflightOf(CurrentInputs(s)), s.i.fingerprint)
      then s.(i := s.i.(stage := BackingUp))
      else s.(i := s.i.(locked := false, stage := Idle))
    case BackupDone(window, id) =>
      if !s.i.stage.BackingUp? || id in s.a.answers then s
      else s.(a := Requested(s.a, window, id), i := s.i.(stage := Second(if window then Some(id) else None)))
    case BackupFailed =>
      if !s.i.stage.BackingUp? then s else s.(i := s.i.(locked := false, stage := Idle))
    case ReadSecond(launched) =>
      if !s.i.stage.Second? || !Acknowledged(s.a, s.i.stage.request) then s
      else if !Agrees(PreflightOf(CurrentInputs(s)), s.i.fingerprint) || !launched
      then s.(i := s.i.(locked := false, stage := Idle))
      else s.(i := s.i.(stage := Idle, quits := s.i.quits + [s.i.fingerprint.value]))
  }

  function After(s: State, events: seq<Event>): (t: State)
    requires Shape(s)
    ensures Shape(t)
    decreases |events|
  {
    if events == [] then s else After(Step(s, events[0]), events[1..])
  }

  // ---------------------------------------------------------------------
  // Invariant
  // ---------------------------------------------------------------------

  ghost predicate ActivityInv(a: Activity) {
    && (a.invalid == "" ==> a.snapshot.Some?)
    && a.pending <= a.answers.Keys
    && (forall id | id in a.answers :: |a.answers[id]| == if id in a.pending then 0 else 1)
    && (a.snapshot.Some? ==> a.snapshot.value.renderer !in a.retired)
    && |a.retired| <= MAX_RETIRED
    && (forall i, j | 0 <= i < j < |a.retired| :: a.retired[i] != a.retired[j])
  }

  ghost predicate InstallInv(i: Install) {
    && |i.quits| <= 1
    && (i.quits != [] ==> i.locked && i.stage == Idle)
    && (i.stage != Idle ==> i.locked)
    && (i.stage.BackingUp? || i.stage.Second? ==> i.fingerprint.Some?)
  }

  ghost predicate Inv(s: State) {
    Shape(s) && ActivityInv(s.a) && InstallInv(s.i)
  }

  lemma RetireKeepsOrder(retired: seq<Key>, r: Key)
    requires |retired| <= MAX_RETIRED && forall i, j | 0 <= i < j < |retired| :: retired[i] != retired[j]
    ensures |Retire(retired, r)| <= MAX_RETIRED && r in Retire(retired, r)
    ensures forall x | x in Retire(retired, r) :: x == r || x in retired
    ensures var t := Retire(retired, r); forall i, j | 0 <= i < j < |t| :: t[i] != t[j]
  {
    var t := Retire(retired, r);
    if r !in retired { assert t[|t| - 1] == r; }
  }

  lemma ActivityKept(a: Activity, raw: RawActivity, now: int)
    requires ActivityInv(a)
    ensures ActivityInv(Updated(a, raw, now))
  {
    var n := Normalize(raw);
    if n.Some? && a.snapshot.Some? && n.value.renderer != a.snapshot.value.renderer {
      RetireKeepsOrder(a.retired, a.snapshot.value.renderer);
    }
  }

  lemma StepKeeps(s: State, e: Event)
    requires Inv(s)
    ensures Inv(Step(s, e))
  {
    hide ChecksOf, AsSet;
    AllowedExactlyWhenQuiet(CurrentInputs(s));
    if e.UpdateActivity? { ActivityKept(s.a, e.raw, s.w.now); }
  }

  lemma {:induction false} AfterKeeps(s: State, events: seq<Event>)
    requires Inv(s)
    ensures Inv(After(s, events))
    decreases |events|
  {
    if events != [] {
      StepKeeps(s, events[0]);
      AfterKeeps(Step(s, events[0]), events[1..]);
    }
  }

  // ---------------------------------------------------------------------
  // What holds in every run
  // ---------------------------------------------------------------------

  /** A valid activity state always has an accepted snapshot behind it, and never one of a retired renderer. */
  lemma ValidActivityHasSnapshot(events: seq<Event>)
    ensures var a := After(INITIAL, events).a;
            && (a.invalid == "" ==> a.snapshot.Some?)
            && (a.snapshot.Some? ==> a.snapshot.value.renderer !in a.retired)
            && |a.retired| <= 32
  {
    AfterKeeps(INITIAL, events);
  }

  /** Every activity request is answered once: not before it leaves the pending table, and never again. */
  lemma RequestsAnsweredOnce(events: seq<Event>, id: RequestId)
    ensures var a := After(INITIAL, events).a;
            id in a.answers ==> |a.answers[id]| == if id in a.pending then 0 else 1
  {
    AfterKeeps(INITIAL, events);
  }

  /** What a report must look like, besides the lists: a positive revision, a renderer, and a readiness. */
  predicate Signed(raw: RawActivity) { raw.revision > 0 && raw.renderer.Some? && raw.runtimeReady.Some? }

  /** A list of usable identifiers, at most `limit` of them. */
  ghost predicate UsableList(l: RawList, limit: nat) {
    l.List? && |l.items| <= limit && forall x | x in l.items :: x.Id?
  }

  function ListAt(lists: seq<RawList>, i: nat): RawList { if i < |lists| then lists[i] else Absent }

  lemma {:induction false} IdsMeaning(items: seq<Item>)
    ensures Ids(items).Some? <==> forall x | x in items :: x.Id?
    ensures Ids(items).Some? ==> forall id :: id in Ids(items).value <==> Id(id) in items
  {
    if items != [] {
      IdsMeaning(items[1..]);
      assert items == [items[0]] + items[1..];
    }
  }

  lemma {:induction false} NormalizeListsMeaning(lists: seq<RawList>, count: nat)
    ensures var r := NormalizeLists(lists, count);
            && (r.Some? <==> forall i | 0 <= i < count :: UsableList(ListAt(lists, i), 1000))
            && (r.Some? ==> forall i | 0 <= i < count :: SortedIds(r.value[i], ListAt(lists, i)))
    decreases count
  {
    hide Ids;
    if count > 0 {
      NormalizeListsMeaning(lists, count - 1);
      var last := ListAt(lists, count - 1);
      if last.List? { IdsMeaning(last.items); }
    }
  }

  /** The identifiers of a list, sorted and without repetition. */
  ghost predicate SortedIds(ids: seq<Key>, l: RawList) {
    Ascending(ids) && l.List? && forall id :: id in ids <==> Id(id) in l.items
  }

  /** A report is accepted as a snapshot exactly if it is complete, and then says what the report says. */
  lemma NormalizeMeaning(raw: RawActivity)
    ensures var n := Normalize(raw);
            && (n.Some? <==> Signed(raw) && forall i | 0 <= i < 6 :: UsableList(ListAt(raw.lists, i), 1000))
            && (n.Some? ==>
                  && n.value.revision == raw.revision && Some(n.value.renderer) == raw.renderer
                  && Some(n.value.runtimeReady) == raw.runtimeReady
                  && |n.value.lists| == 6 && forall i | 0 <= i < 6 :: SortedIds(n.value.lists[i], ListAt(raw.lists, i)))
  {
    NormalizeListsMeaning(raw.lists, 6);
  }

  /** The report names the requests it answers, at most 20, or none. */
  ghost predicate NamesRequests(raw: RawActivity) { raw.requestIds.Absent? || UsableList(raw.requestIds, 20) }

  ghost predicate Names(raw: RawActivity, id: RequestId) { UsableList(raw.requestIds, 20) && Id(id) in raw.requestIds.items }

  lemma RequestIdsMeaning(raw: RawActivity)
    ensures var ids := RequestIds(raw.requestIds);
            (ids.Some? <==> NamesRequests(raw)) && (ids.Some? ==> forall id :: id in ids.value <==> Names(raw, id))
  {
    if raw.requestIds.List? { IdsMeaning(raw.requestIds.items); }
  }

  /** A report counts if it is well-formed, of no retired renderer, and no repetition of what its renderer reported before. */
  ghost predicate Counts(a: Activity, raw: RawActivity) {
    && NamesRequests(raw) && Normalize(raw).Some?
    && raw.renderer.value !in a.retired
    && (a.snapshot.Some? && a.snapshot.value.renderer == raw.renderer.value ==> raw.revision > a.snapshot.value.revision)
  }

  /** Main result: a report replaces the snapshot and makes the activity valid exactly if it counts. */
  lemma ReportAcceptedIff(a: Activity, raw: RawActivity, now: int)
    requires ActivityInv(a)
    ensures var b := Updated(a, raw, now);
            && (b.invalid == "" <==> Counts(a, raw))
            && (Counts(a, raw) ==> b.snapshot == Normalize(raw) && b.received == now)
            && (!Counts(a, raw) ==> b.snapshot == a.snapshot && b.received in [0, a.received] && b.retired == a.retired)
            && (Counts(a, raw) && a.snapshot.Some? && a.snapshot.value.renderer != raw.renderer.value ==>
                  a.snapshot.value.renderer in b.retired)
  {
    RequestIdsMeaning(raw);
    NormalizeMeaning(raw);
    if a.snapshot.Some? {
      var r := a.snapshot.value.renderer;
      RetiredIsLast(a.retired, r);
    }
  }

  lemma RetiredIsLast(retired: seq<Key>, r: Key)
    requires |retired| <= MAX_RETIRED
    ensures r in Retire(retired, r)
  {
    var t := Retire(retired, r);
    if r !in retired { assert t[|t| - 1] == r; }
  }

  /** A pending request that a report names is answered with whether the report counts, and no other one is. */
  lemma AnswersTruly(a: Activity, raw: RawActivity, now: int, id: RequestId)
    requires ActivityInv(a) && id in a.pending
    ensures var b := Updated(a, raw, now);
            && (id in b.pending <==> !Names(raw, id))
            && b.answers[id] == if Names(raw, id) then [b.invalid == ""] else []
  {
    RequestIdsMeaning(raw);
    ReportAcceptedIff(a, raw, now);
  }

  /** Invalidating or timing out refuses. */
  lemma RefusalsAreFalse(a: Activity, reason: string, id: RequestId)
    requires ActivityInv(a) && id in a.pending
    ensures Invalidated(a, reason).answers[id] == [false] && Invalidated(a, reason).pending == {}
    ensures TimedOut(a, id).answers[id] == [false] && TimedOut(a, id).pending == a.pending - {id}
    ensures Invalidated(a, reason).invalid != "" && TimedOut(a, id).invalid != ""
  {
  }

  /** An accepted report of the current renderer is newer than the one it replaces. */
  lemma RevisionsIncrease(a: Activity, raw: RawActivity, now: int)
    ensures var b := Updated(a, raw, now);
            a.snapshot.Some? && b.snapshot != a.snapshot && b.snapshot.Some? ==>
              || b.snapshot.value.renderer != a.snapshot.value.renderer
              || b.snapshot.value.revision > a.snapshot.value.revision
  {
  }

  // ---------------------------------------------------------------------
  // The module's own variables
  // ---------------------------------------------------------------------

  lemma AnswerOneMore(a: Activity, done: set<RequestId>, id: RequestId, accepted: bool)
    requires a.pending <= a.answers.Keys
    ensures var b := Answered(a, done, accepted);
            Answered(a, done + {id}, accepted) ==
              if id in b.pending
              then b.(pending := b.pending - {id}, answers := b.answers[id := b.answers[id] + [accepted]])
              else b
  {
  }

  class ActivityMonitor {
    var activitySnapshot: Option<Snapshot>
    var activityReceivedAt: int
    var activityInvalidReason: string
    var retiredActivityRendererIds: seq<Key>
    var pendingActivityRequests: set<RequestId>
    var answers: map<RequestId, seq<bool>>

    function View(): Activity
      reads this
    {
      Activity(activitySnapshot, activityReceivedAt, activityInvalidReason,
               retiredActivityRendererIds, pendingActivityRequests, answers)
    }

    constructor ()
      ensures View() == INITIAL.a
    {
      activitySnapshot, activityReceivedAt, activityInvalidReason := None, 0, "activity.uninitialized";
      retiredActivityRendererIds, pendingActivityRequests, answers := [], {}, map[];
    }

    /** Takes the request out of the table and resolves its promise. */
    method Resolve(id: RequestId, accepted: bool)
      requires id in pendingActivityRequests && id in answers
      modifies this`pendingActivityRequests, this`answers
      ensures pendingActivityRequests == old(pendingActivityRequests) - {id}
      ensures answers == old(answers)[id := old(answers)[id] + [accepted]]
    {
      pendingActivityRequests := pendingActivityRequests - {id};
      answers := answers[id := answers[id] + [accepted]];
    }

    method SettleOne(id: RequestId, accepted: bool, ghost before: Activity, ghost done: set<RequestId>)
      requires before.pending <= before.answers.Keys && View() == Answered(before, done, accepted)
      modifies this`pendingActivityRequests, this`answers
      ensures View() == Answered(before, done + {id}, accepted)
    {
      AnswerOneMore(before, done, id, accepted);
      if id in pendingActivityRequests {
        Resolve(id, accepted);
      }
    }

    method SettleActivityRequests(ids: seq<RequestId>, accepted: bool)
      requires pendingActivityRequests <= answers.Keys
      modifies this`pendingActivityRequests, this`answers
      ensures View() == Answered(old(View()), AsSet(ids), accepted)
    {
      ghost var before := View();
      assert View() == Answered(before, AsSet(ids[..0]), accepted);
      for i := 0 to |ids|
        invariant View() == Answered(before, AsSet(ids[..i]), accepted)
      {
        assert AsSet(ids[..i + 1]) == AsSet(ids[..i]) + {ids[i]};
        SettleOne(ids[i], accepted, before, AsSet(ids[..i]));
      }
      assert ids[..|ids|] == ids;
    }

    method InvalidateActivity(reason: string)
      requires pendingActivityRequests <= answers.Keys
      modifies this
      ensures View() == Invalidated(old(View()), reason)
    {
      activityInvalidReason := if reason == "" then "activity.invalidated" else reason;
      activityReceivedAt := 0;
      RejectPendingRequests();
    }

    static method AnyOf<T>(s: set<T>) returns (x: T)
      requires |s| > 0
      ensures x in s
    {
      x :| x in s;
    }

    method RejectPendingRequests()
      requires pendingActivityRequests <= answers.Keys
      modifies this`pendingActivityRequests, this`answers
      ensures View() == Answered(old(View()), old(pendingActivityRequests), false)
    {
      ghost var before, done: set<RequestId> := View(), {};
      while |pendingActivityRequests| > 0
        invariant before.pending <= before.answers.Keys && done + pendingActivityRequests == before.pending
        invariant View() == Answered(before, done, false)
        decreases |pendingActivityRequests|
      {
        var id := AnyOf(pendingActivityRequests);
        SettleOne(id, false, before, done);
        done := done + {id};
      }
      assert pendingActivityRequests == {};
    }

    method OnRequestTimeout(id: RequestId)
      requires id in pendingActivityRequests && pendingActivityRequests <= answers.Keys
      modifies this
      ensures View() == TimedOut(old(View()), id)
    {
      activityInvalidReason := "activity.request_timeout";
      activityReceivedAt := 0;
      Resolve(id, false);
    }

    /** Remembers a replaced renderer and forgets the oldest ones beyond the limit. */
    method RetireRenderer(r: Key)
      modifies this`retiredActivityRendererIds
      ensures retiredActivityRendererIds == Retire(old(retiredActivityRendererIds), r)
    {
      if r !in retiredActivityRendererIds {
        retiredActivityRendererIds := retiredActivityRendererIds + [r];
      }
      ghost var all, dropped := retiredActivityRendererIds, 0;
      while |retiredActivityRendererIds| > MAX_RETIRED
        invariant 0 <= dropped <= |all| && retiredActivityRendererIds == all[dropped..]
        invariant dropped > 0 ==> |all| - dropped >= MAX_RETIRED
        decreases |retiredActivityRendererIds|
      {
        retiredActivityRendererIds, dropped := retiredActivityRendererIds[1..], dropped + 1;
      }
    }

    method UpdateActivity(raw: RawActivity, now: int) returns (accepted: bool, revision: nat)
      requires ActivityInv(View())
      modifies this
      ensures View() == Updated(old(View()), raw, now)
      ensures accepted <==> activityInvalidReason == ""
      ensures activitySnapshot.Some? ==> revision == activitySnapshot.value.revision
    {
      accepted := false;
      var ids := RequestIds(raw.requestIds);
      var normalized := if ids.None? then None else Normalize(raw);
      if normalized.None? {
        activityInvalidReason := "activity.invalid";
        activityReceivedAt := 0;
        SettleActivityRequests(if ids.Some? then ids.value else [], false);
        assert ids.None? ==> AsSet([]) == {} && View() == Answered(old(View()).(invalid := "activity.invalid", received := 0), {}, false);
      } else {
        var n := normalized.value;
        if n.renderer in retiredActivityRendererIds {
          activityInvalidReason := "activity.retired_renderer";
          SettleActivityRequests(ids.value, false);
        } else {
          var current := activitySnapshot;
          if current.Some? && n.renderer != current.value.renderer {
            RetireRenderer(current.value.renderer);
          }
          if current.Some? && n.renderer == current.value.renderer && n.revision <= current.value.revision {
            activityInvalidReason := "activity.stale_revision";
            SettleActivityRequests(ids.value, false);
          } else {
            activitySnapshot := Some(n);
            activityReceivedAt := now;
            activityInvalidReason := "";
            SettleActivityRequests(ids.value, true);
            accepted := true;
          }
        }
      }
      revision := if activitySnapshot.Some? then activitySnapshot.value.revision else 0;
    }
  }
}
