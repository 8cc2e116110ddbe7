/**
 * The reference-counted, re-entrant file locks of the backend: a thread lock
 * and an inter-process file lock per canonical key.
 *
 * A context is one `with file_mutation_locks(paths)` block in flight, in any
 * thread of any process. Its steps are the smallest ones: registering one key,
 * taking or giving back one lock, unregistering one key. Steps of different
 * threads interleave freely, also where the source holds the registry guard.
 */
module MutationLocks {
  import opened SortedKeys
  import opened Wrappers

  datatype Thread = Thread(process: int, id: int)

  type EntryId = int
  type ContextId = int

  /** A registry entry: its re-entrant thread lock and the number of contexts using it. */
  datatype Entry = Entry(process: int, key: Key, owner: Option<Thread>, depth: int, users: int)

  /** The holder of a key's lock file; the `FileLock` counts nested acquisitions per thread. */
  datatype FileHold = FileHold(holder: Thread, entry: EntryId, depth: int)

  datatype Phase = Entering | Inside | Leaving

  /**
   * `entries` are the entries registered so far, for a prefix of `keys`;
   * `locked` and `filed` say how many thread and file locks are held, and
   * `gone` how many entries have been unregistered again.
   */
  datatype Context = Context(
    thread: Thread, keys: seq<Key>, entries: seq<EntryId>, locked: int, filed: int, gone: int, phase: Phase)
  {
    predicate Names(e: EntryId) requires 0 <= gone <= |entries| { e in entries[gone..] }
    predicate Locks(e: EntryId) requires 0 <= locked <= |entries| { e in entries[..locked] }
    predicate Files(k: Key) requires 0 <= filed <= |keys| { k in keys[..filed] }
  }

  datatype State = State(
    contexts: map<ContextId, Context>,
    entries: seq<Entry>,
    registry: map<(int, Key), EntryId>,
    files: map<Key, FileHold>,
    next: ContextId)

  const INITIAL := State(map[], [], map[], map[], 0)

  datatype Event =
    | Begin(thread: Thread, raw: seq<Key>)
    | Advance(c: ContextId)
    | Leave(c: ContextId)
    | Abort(c: ContextId)

  /** A thread only runs its innermost context. */
  predicate Top(s: State, c: ContextId) {
    c in s.contexts && forall d | d in s.contexts && s.contexts[d].thread == s.contexts[c].thread :: d <= c
  }

  datatype Move = Register | Lock | File | Yield | Work | Unfile | Unlock | Unregister | Drop

  function NextMove(x: Context): Move {
    match x.phase
    case Entering =>
      if |x.entries| < |x.keys| then Register
      else if x.locked < |x.entries| then Lock
      else if x.filed < |x.keys| then File
      else Yield
    case Inside => Work
    case Leaving =>
      if x.filed > 0 then Unfile
      else if x.locked > 0 then Unlock
      else if x.gone < |x.entries| then Unregister
      else Drop
  }

  predicate Waits(x: Context) { NextMove(x) in {Lock, File} }

  // Every state that occurs satisfies `Shape`, which keeps the indices below in range.

  ghost predicate ContextShape(x: Context) {
    && Ascending(x.keys)
    && 0 <= x.filed <= x.locked <= |x.entries| <= |x.keys|
    && 0 <= x.gone <= |x.entries|
    && (x.locked > 0 || x.phase != Entering ==> |x.entries| == |x.keys|)
    && (x.filed > 0 ==> x.locked == |x.keys|)
    && (x.gone > 0 ==> x.phase == Leaving && x.locked == 0)
    && (x.phase == Inside ==> x.filed == |x.keys|)
  }

  ghost predicate Shape(s: State) {
    && (forall c | c in s.contexts :: c < s.next && ContextShape(s.contexts[c]))
    && (forall c, i | c in s.contexts && 0 <= i < |s.contexts[c].entries| ::
          var e := s.contexts[c].entries[i];
          0 <= e < |s.entries| && s.entries[e].process == s.contexts[c].thread.process && s.entries[e].key == s.contexts[c].keys[i])
    && (forall at | at in s.registry ::
          0 <= s.registry[at] < |s.entries| && s.entries[s.registry[at]].process == at.0 && s.entries[s.registry[at]].key == at.1)
  }

  predicate LockFree(s: State, e: EntryId, t: Thread)
    requires 0 <= e < |s.entries|
  {
    s.entries[e].owner == None || s.entries[e].owner == Some(t)
  }

  predicate FileFree(s: State, k: Key, e: EntryId, t: Thread) {
    k in s.files ==> s.files[k].holder == t && s.files[k].entry == e
  }

  /** The next step of context `c` is not a wait. */
  ghost predicate CanAdvance(s: State, c: ContextId)
    requires Shape(s) && c in s.contexts
  {
    var x := s.contexts[c];
    match NextMove(x)
    case Lock => LockFree(s, x.entries[x.locked], x.thread)
    case File => FileFree(s, x.keys[x.filed], x.entries[x.filed], x.thread)
    case Work => false
    case _ => true
  }

  /** The registry loop's body: find or create the entry and count this context in. */
  ghost function RegisterKey(s: State, c: ContextId): State
    requires Shape(s) && c in s.contexts && NextMove(s.contexts[c]) == Register
  {
    var x := s.contexts[c];
    var k := x.keys[|x.entries|];
    var at := (x.thread.process, k);
    var e := if at in s.registry then s.registry[at] else |s.entries|;
    var known := if at in s.registry then s.entries else s.entries + [Entry(x.thread.process, k, None, 0, 0)];
    s.(entries := known[e := known[e].(users := known[e].users + 1)],
    registry := s.registry[at := e],
    contexts := s.contexts[c := x.(entries := x.entries + [e])])
  }

  ghost function TakeLock(s: State, c: ContextId): State
    requires Shape(s) && c in s.contexts && NextMove(s.contexts[c]) == Lock
  {
    var x := s.contexts[c];
    var e := x.entries[x.locked];
    s.(entries := s.entries[e := s.entries[e].(owner := Some(x.thread), depth := s.entries[e].depth + 1)],
    contexts := s.contexts[c := x.(locked := x.locked + 1)])
  }

  ghost function TakeFile(s: State, c: ContextId): State
    requires Shape(s) && c in s.contexts && NextMove(s.contexts[c]) == File
  {
    var x := s.contexts[c];
    var k, e := x.keys[x.filed], x.entries[x.filed];
    var depth := if k in s.files then s.files[k].depth else 0;
    s.(files := s.files[k := FileHold(x.thread, e, depth + 1)],
    contexts := s.contexts[c := x.(filed := x.filed + 1)])
  }

  ghost function ReleaseFile(s: State, c: ContextId): State
    requires Shape(s) && c in s.contexts && NextMove(s.contexts[c]) == Unfile
  {
    var x := s.contexts[c];
    var k := x.keys[x.filed - 1];
    s.(files := if k !in s.files || s.files[k].depth <= 1 then s.files - {k}
                else s.files[k := s.files[k].(depth := s.files[k].depth - 1)],
    contexts := s.contexts[c := x.(filed := x.filed - 1)])
  }

  ghost function ReleaseLock(s: State, c: ContextId): State
    requires Shape(s) && c in s.contexts && NextMove(s.contexts[c]) == Unlock
  {
    var x := s.contexts[c];
    var e := x.entries[x.locked - 1];
    var entry := s.entries[e];
    s.(entries := s.entries[e := entry.(owner := if entry.depth <= 1 then None else entry.owner, depth := entry.depth - 1)],
    contexts := s.contexts[c := x.(locked := x.locked - 1)])
  }

  /** The cleanup loop's body: the last user takes the entry out of the registry. */
  ghost function UnregisterKey(s: State, c: ContextId): State
    requires Shape(s) && c in s.contexts && NextMove(s.contexts[c]) == Unregister
  {
    var x := s.contexts[c];
    var k, e := x.keys[x.gone], x.entries[x.gone];
    var at := (x.thread.process, k);
    var users := s.entries[e].users - 1;
    s.(entries := s.entries[e := s.entries[e].(users := users)],
    registry := if users == 0 && at in s.registry && s.registry[at] == e then s.registry - {at} else s.registry,
    contexts := s.contexts[c := x.(gone := x.gone + 1)])
  }

  function WithPhase(s: State, c: ContextId, phase: Phase): State
    requires c in s.contexts
  {
    s.(contexts := s.contexts[c := s.contexts[c].(phase := phase)])
  }

  ghost function Advanced(s: State, c: ContextId): State
    requires Shape(s) && c in s.contexts && CanAdvance(s, c)
  {
    match NextMove(s.contexts[c])
    case Register => RegisterKey(s, c)
    case Lock => TakeLock(s, c)
    case File => TakeFile(s, c)
    case Yield => WithPhase(s, c, Inside)
    case Work => s
    case Unfile => ReleaseFile(s, c)
    case Unlock => ReleaseLock(s, c)
    case Unregister => UnregisterKey(s, c)
    case Drop => s.(contexts := s.contexts - {c})
  }

  /** A block may open when the thread's other blocks are at their `yield`. */
  ghost predicate CanBegin(s: State, t: Thread) {
    forall d | d in s.contexts && s.contexts[d].thread == t :: s.contexts[d].phase == Inside
  }

  ghost function Step(s: State, e: Event): State
    requires Shape(s)
  {
    match e
    case Begin(t, raw) =>
      if CanBegin(s, t)
      then s.(contexts := s.contexts[s.next := Context(t, SortedSet(raw), [], 0, 0, 0, Entering)], next := s.next + 1)
      else s
    case Advance(c) =>
      if Top(s, c) && CanAdvance(s, c) then Advanced(s, c) else s
    case Leave(c) =>
      if Top(s, c) && s.contexts[c].phase == Inside
      then WithPhase(s, c, Leaving)
      else s
    case Abort(c) =>
      // an acquisition raised, for one because the lock file timed out
      if Top(s, c) && NextMove(s.contexts[c]) in {Lock, File}
      then WithPhase(s, c, Leaving)
      else s
  }

  // ---------------------------------------------------------------------
  // Invariant
  // ---------------------------------------------------------------------

  ghost function Users(s: State, e: EntryId): set<ContextId>
    requires Shape(s)
  {
    set c | c in s.contexts && s.contexts[c].Names(e)
  }

  ghost function Lockers(s: State, e: EntryId): set<ContextId>
    requires Shape(s)
  {
    set c | c in s.contexts && s.contexts[c].Locks(e)
  }

  ghost function Filers(s: State, k: Key): set<ContextId>
    requires Shape(s)
  {
    set c | c in s.contexts && s.contexts[c].Files(k)
  }

  /** A registered entry is the one its key leads to, and `users` counts the contexts naming it. */
  ghost predicate RegistryInv(s: State)
    requires Shape(s)
  {
    LinksOk(s) && UsersOk(s) && NoIdleEntry(s)
  }

  ghost predicate LinksOk(s: State)
    requires Shape(s)
  {
    forall c | c in s.contexts :: Linked(s, s.contexts[c])
  }

  ghost predicate UsersOk(s: State)
    requires Shape(s)
  {
    forall e | 0 <= e < |s.entries| :: s.entries[e].users == |Users(s, e)|
  }

  ghost predicate NoIdleEntry(s: State)
    requires Shape(s)
  {
    forall at | at in s.registry :: s.entries[s.registry[at]].users > 0
  }

  ghost predicate Linked(s: State, x: Context)
    requires ContextShape(x)
  {
    forall i | x.gone <= i < |x.entries| ::
      (x.thread.process, x.keys[i]) in s.registry && s.registry[(x.thread.process, x.keys[i])] == x.entries[i]
  }

  ghost predicate LockInv(s: State)
    requires Shape(s)
  {
    forall e | 0 <= e < |s.entries| :: LockOk(s, e)
  }

  ghost predicate LockOk(s: State, e: EntryId)
    requires Shape(s) && 0 <= e < |s.entries|
  {
    && s.entries[e].depth == |Lockers(s, e)|
    && (s.entries[e].owner == None <==> s.entries[e].depth == 0)
    && (forall c | c in Lockers(s, e) :: s.entries[e].owner == Some(s.contexts[c].thread))
  }

  ghost predicate FileInv(s: State)
    requires Shape(s)
  {
    forall k :: FileOk(s, k)
  }

  ghost predicate FileOk(s: State, k: Key)
    requires Shape(s)
  {
    && |Filers(s, k)| == (if k in s.files then s.files[k].depth else 0)
    && (k in s.files ==>
          && s.files[k].depth > 0
          && 0 <= s.files[k].entry < |s.entries| && s.entries[s.files[k].entry].key == k
          && forall c | c in Filers(s, k) :: s.files[k].holder == s.contexts[c].thread && s.contexts[c].Locks(s.files[k].entry))
  }

  /** Only a thread's innermost context is anywhere but at its `yield`. */
  ghost predicate ThreadInv(s: State) {
    forall c, d | c in s.contexts && d in s.contexts && c < d && s.contexts[c].thread == s.contexts[d].thread ::
      s.contexts[c].phase == Inside
  }

  ghost predicate Inv(s: State) {
    Shape(s) && RegistryInv(s) && LockInv(s) && FileInv(s) && ThreadInv(s)
  }

  // ---------------------------------------------------------------------
  // Every step keeps the invariant
  // ---------------------------------------------------------------------

  function One(b: bool): int { if b then 1 else 0 }

  lemma SetUpdate<T>(a: set<T>, b: set<T>, c: T)
    requires a - {c} == b - {c}
    ensures |b| == |a| - One(c in a) + One(c in b)
  {
    assert a == (a - {c}) + (if c in a then {c} else {});
    assert b == (b - {c}) + (if c in b then {c} else {});
  }

  lemma Member<T>(a: set<T>) returns (x: T)
    requires |a| > 0
    ensures x in a
  {
    x :| x in a;
  }

  /** Only context `c` changed, so each count moves by what `c` itself does. */
  lemma CountsAfter(s: State, t: State, c: ContextId)
    requires Shape(s) && Shape(t) && c in s.contexts && c in t.contexts
    requires t.contexts == s.contexts[c := t.contexts[c]]
    ensures forall e :: |Users(t, e)| == |Users(s, e)| - One(s.contexts[c].Names(e)) + One(t.contexts[c].Names(e))
    ensures forall e :: |Lockers(t, e)| == |Lockers(s, e)| - One(s.contexts[c].Locks(e)) + One(t.contexts[c].Locks(e))
    ensures forall k :: |Filers(t, k)| == |Filers(s, k)| - One(s.contexts[c].Files(k)) + One(t.contexts[c].Files(k))
  {
    hide Ascending, One;
    forall e
      ensures |Users(t, e)| == |Users(s, e)| - One(s.contexts[c].Names(e)) + One(t.contexts[c].Names(e))
      ensures |Lockers(t, e)| == |Lockers(s, e)| - One(s.contexts[c].Locks(e)) + One(t.contexts[c].Locks(e))
    {
      SetUpdate(Users(s, e), Users(t, e), c);
      SetUpdate(Lockers(s, e), Lockers(t, e), c);
    }
    forall k
      ensures |Filers(t, k)| == |Filers(s, k)| - One(s.contexts[c].Files(k)) + One(t.contexts[c].Files(k))
    {
      SetUpdate(Filers(s, k), Filers(t, k), c);
    }
  }

  lemma EntriesDistinct(s: State, c: ContextId, i: int, j: int)
    requires Shape(s) && c in s.contexts && 0 <= i < j < |s.contexts[c].entries|
    ensures s.contexts[c].entries[i] != s.contexts[c].entries[j]
  {
    assert s.entries[s.contexts[c].entries[i]].key == s.contexts[c].keys[i];
    assert s.entries[s.contexts[c].entries[j]].key == s.contexts[c].keys[j];
  }

  /** `t` differs from `s` in context `c` at most, whose thread and keys stay, and no entry changes its key. */
  ghost predicate Touches(s: State, t: State, c: ContextId) {
    && Shape(s) && Shape(t) && c in s.contexts && c in t.contexts
    && t.contexts == s.contexts[c := t.contexts[c]]
    && t.contexts[c].thread == s.contexts[c].thread && t.contexts[c].keys == s.contexts[c].keys
    && |s.entries| <= |t.entries|
    && forall e | 0 <= e < |s.entries| :: t.entries[e].key == s.entries[e].key && t.entries[e].process == s.entries[e].process
  }

  lemma RegistryFrame(s: State, t: State, c: ContextId)
    requires Touches(s, t, c) && RegistryInv(s)
    requires t.registry == s.registry && |t.entries| == |s.entries|
    requires forall e | 0 <= e < |s.entries| :: t.entries[e].users == s.entries[e].users
    requires t.contexts[c].entries == s.contexts[c].entries && t.contexts[c].gone == s.contexts[c].gone
    ensures RegistryInv(t)
  {
    CountsAfter(s, t, c);
  }

  lemma LockFrame(s: State, t: State, c: ContextId)
    requires Touches(s, t, c) && LockInv(s)
    requires |t.entries| == |s.entries|
    requires forall e | 0 <= e < |s.entries| :: t.entries[e].owner == s.entries[e].owner && t.entries[e].depth == s.entries[e].depth
    requires forall e :: t.contexts[c].Locks(e) == s.contexts[c].Locks(e)
    ensures LockInv(t)
  {
    forall e | 0 <= e < |t.entries|
      ensures LockOk(t, e)
    {
      assert Lockers(t, e) == Lockers(s, e) && LockOk(s, e);
    }
  }

  lemma FileFrame(s: State, t: State, c: ContextId)
    requires Touches(s, t, c) && FileInv(s)
    requires t.files == s.files && t.contexts[c].filed == s.contexts[c].filed
    requires s.contexts[c].filed > 0 ==> forall e | s.contexts[c].Locks(e) :: t.contexts[c].Locks(e)
    ensures FileInv(t)
  {
    forall k
      ensures FileOk(t, k)
    {
      assert Filers(t, k) == Filers(s, k) && FileOk(s, k);
    }
  }

  lemma FreshEntryUnused(s: State)
    requires Shape(s)
    ensures Users(s, |s.entries|) == {} && Lockers(s, |s.entries|) == {}
  {
    var e := |s.entries|;
    forall c | c in s.contexts
      ensures !s.contexts[c].Names(e) && !s.contexts[c].Locks(e)
    {
      assert forall i | 0 <= i < |s.contexts[c].entries| :: s.contexts[c].entries[i] < e;
    }
    assert forall c :: c !in Users(s, e) && c !in Lockers(s, e);
  }

  lemma RegisterKeepsShape(s: State, c: ContextId)
    requires Shape(s) && c in s.contexts && NextMove(s.contexts[c]) == Register
    ensures Touches(s, RegisterKey(s, c), c)
  {
    hide Ascending;
  }

  lemma RegisterKeepsUsers(s: State, t: State, c: ContextId)
    requires Shape(s) && UsersOk(s) && c in s.contexts && NextMove(s.contexts[c]) == Register && t == RegisterKey(s, c)
    requires Touches(s, t, c)
    ensures UsersOk(t)
  {
    var x, y := s.contexts[c], t.contexts[c];
    var e := y.entries[|x.entries|];
    CountsAfter(s, t, c);
    assert y.entries[y.gone..] == x.entries[x.gone..] + [e];
    forall i | 0 <= i < |x.entries| ensures x.entries[i] != e { EntriesDistinct(t, c, i, |x.entries|); }
    FreshEntryUnused(s);
    forall q | 0 <= q < |t.entries|
      ensures t.entries[q].users == |Users(t, q)|
    {
      assert q < |s.entries| ==> s.entries[q].users == |Users(s, q)|;
      assert y.Names(q) <==> x.Names(q) || q == e;
    }
  }

  lemma RegisterKeepsLinks(s: State, t: State, c: ContextId)
    requires Shape(s) && LinksOk(s)
    requires c in s.contexts && NextMove(s.contexts[c]) == Register && t == RegisterKey(s, c)
    requires Touches(s, t, c)
    ensures LinksOk(t)
  {
    assert forall at | at in s.registry :: at in t.registry && t.registry[at] == s.registry[at];
    forall d | d in t.contexts
      ensures Linked(t, t.contexts[d])
    {
      assert Linked(s, s.contexts[d]);
    }
  }

  lemma RegisterKeepsBusy(s: State, t: State, c: ContextId)
    requires Shape(s) && NoIdleEntry(s)
    requires c in s.contexts && NextMove(s.contexts[c]) == Register && t == RegisterKey(s, c)
    requires Shape(t)
    ensures NoIdleEntry(t)
  {
    var x := s.contexts[c];
    var added := (x.thread.process, x.keys[|x.entries|]);
    forall at | at in t.registry
      ensures t.entries[t.registry[at]].users > 0
    {
      if at != added { assert at in s.registry; }
    }
  }

  lemma RegisterKeepsLocks(s: State, t: State, c: ContextId)
    requires Inv(s) && c in s.contexts && NextMove(s.contexts[c]) == Register && t == RegisterKey(s, c)
    requires Touches(s, t, c)
    ensures LockInv(t)
  {
    forall e
      ensures Lockers(t, e) == Lockers(s, e)
    {
    }
    FreshEntryUnused(s);
    forall e | 0 <= e < |t.entries|
      ensures LockOk(t, e)
    {
      if e < |s.entries| { assert LockOk(s, e); }
    }
  }

  lemma RegisterKeeps(s: State, c: ContextId)
    requires Inv(s) && Top(s, c) && NextMove(s.contexts[c]) == Register
    ensures Inv(RegisterKey(s, c))
  {
    var t := RegisterKey(s, c);
    RegisterKeepsShape(s, c);
    RegisterKeepsUsers(s, t, c);
    RegisterKeepsLinks(s, t, c);
    RegisterKeepsBusy(s, t, c);
    RegisterKeepsLocks(s, t, c);
    FileFrame(s, t, c);
  }

  lemma TakeLockKeepsLocks(s: State, t: State, c: ContextId)
    requires Shape(s) && LockInv(s) && c in s.contexts
    requires NextMove(s.contexts[c]) == Lock && CanAdvance(s, c) && t == TakeLock(s, c)
    requires Touches(s, t, c)
    ensures LockInv(t)
  {
    hide FileFree, NextMove;
    var x, y := s.contexts[c], t.contexts[c];
    var taken := x.entries[x.locked];
    assert y.entries[..y.locked] == x.entries[..x.locked] + [taken];
    forall i | 0 <= i < x.locked ensures x.entries[i] != taken { EntriesDistinct(s, c, i, x.locked); }
    forall e | 0 <= e < |t.entries|
      ensures LockOk(t, e)
    {
      assert LockOk(s, e);
      TakeLockKeepsLock(s, t, c, e, taken);
    }
  }

  lemma LockersAfterTaking(s: State, t: State, c: ContextId, e: EntryId, taken: EntryId)
    requires Touches(s, t, c) && taken !in s.contexts[c].entries[..s.contexts[c].locked]
    requires t.contexts[c].entries[..t.contexts[c].locked] == s.contexts[c].entries[..s.contexts[c].locked] + [taken]
    ensures Lockers(t, e) == Lockers(s, e) + (if e == taken then {c} else {}) && (e == taken ==> c !in Lockers(s, e))
  {
  }

  lemma TakeLockKeepsLock(s: State, t: State, c: ContextId, e: EntryId, taken: EntryId)
    requires Touches(s, t, c) && NextMove(s.contexts[c]) == Lock && CanAdvance(s, c) && t == TakeLock(s, c)
    requires taken == s.contexts[c].entries[s.contexts[c].locked] && taken !in s.contexts[c].entries[..s.contexts[c].locked]
    requires t.contexts[c].entries[..t.contexts[c].locked] == s.contexts[c].entries[..s.contexts[c].locked] + [taken]
    requires 0 <= e < |t.entries| == |s.entries| && LockOk(s, e)
    ensures LockOk(t, e)
  {
    LockersAfterTaking(s, t, c, e, taken);
    assert s.entries[e].owner == None ==> |Lockers(s, e)| == 0;
    hide Lockers;
  }

  lemma TakeLockKeeps(s: State, c: ContextId)
    requires Inv(s) && Top(s, c) && NextMove(s.contexts[c]) == Lock && CanAdvance(s, c)
    ensures Inv(TakeLock(s, c))
  {
    var t := TakeLock(s, c);
    assert Touches(s, t, c);
    RegistryFrame(s, t, c);
    TakeLockKeepsLocks(s, t, c);
    FileFrame(s, t, c);
  }

  lemma TakeFileFilers(s: State, t: State, c: ContextId, k: Key)
    requires Touches(s, t, c) && NextMove(s.contexts[c]) == File && CanAdvance(s, c) && t == TakeFile(s, c)
    ensures var taken := s.contexts[c].keys[s.contexts[c].filed];
            && Filers(t, k) == Filers(s, k) + (if k == taken then {c} else {})
            && (k == taken ==> c !in Filers(s, k))
  {
    var x, y := s.contexts[c], t.contexts[c];
    assert y.keys[..y.filed] == x.keys[..x.filed] + [x.keys[x.filed]];
  }

  lemma TakeFileKeepsFile(s: State, t: State, c: ContextId, k: Key)
    requires Touches(s, t, c) && NextMove(s.contexts[c]) == File && CanAdvance(s, c) && t == TakeFile(s, c)
    requires FileOk(s, k)
    ensures FileOk(t, k)
  {
    hide Filers;
    var x, y := s.contexts[c], t.contexts[c];
    TakeFileFilers(s, t, c, k);
    assert t.entries == s.entries;
    if k == x.keys[x.filed] {
      assert |Filers(t, k)| == |Filers(s, k)| + 1;
      assert y.entries[..y.locked][x.filed] == x.entries[x.filed];
      assert y.Locks(x.entries[x.filed]);
    } else {
      assert Filers(t, k) == Filers(s, k);
    }
  }

  lemma TakeFileKeepsFiles(s: State, t: State, c: ContextId)
    requires Inv(s) && c in s.contexts && NextMove(s.contexts[c]) == File && CanAdvance(s, c) && t == TakeFile(s, c)
    requires Touches(s, t, c)
    ensures FileInv(t)
  {
    forall k
      ensures FileOk(t, k)
    {
      TakeFileKeepsFile(s, t, c, k);
    }
  }

  lemma TakeFileKeeps(s: State, c: ContextId)
    requires Inv(s) && Top(s, c) && NextMove(s.contexts[c]) == File && CanAdvance(s, c)
    ensures Inv(TakeFile(s, c))
  {
    var t := TakeFile(s, c);
    assert Touches(s, t, c);
    RegistryFrame(s, t, c);
    LockFrame(s, t, c);
    TakeFileKeepsFiles(s, t, c);
  }

  lemma ReleaseFileFilers(s: State, t: State, c: ContextId, k: Key)
    requires Touches(s, t, c) && NextMove(s.contexts[c]) == Unfile && t == ReleaseFile(s, c)
    ensures var freed := s.contexts[c].keys[s.contexts[c].filed - 1];
            && Filers(t, k) == Filers(s, k) - (if k == freed then {c} else {})
            && (k == freed ==> c in Filers(s, k))
  {
    var x, y := s.contexts[c], t.contexts[c];
    assert x.keys[..x.filed] == y.keys[..y.filed] + [x.keys[y.filed]];
  }

  /** The file of a key that context `c` does not touch. */
  lemma FileOkStays(s: State, t: State, c: ContextId, k: Key)
    requires Touches(s, t, c) && FileOk(s, k) && t.entries == s.entries && Filers(t, k) == Filers(s, k)
    requires k in t.files <==> k in s.files
    requires k in t.files ==> t.files[k] == s.files[k]
    requires t.contexts[c].entries == s.contexts[c].entries && t.contexts[c].locked >= s.contexts[c].locked
    ensures FileOk(t, k)
  {
    if k in s.files {
      var x, y := s.contexts[c], t.contexts[c];
      assert x.Locks(s.files[k].entry) ==> y.Locks(s.files[k].entry) by {
        assert x.entries[..x.locked] == y.entries[..y.locked][..x.locked];
      }
    }
  }

  lemma FreedFileOk(s: State, t: State, c: ContextId, k: Key)
    requires Touches(s, t, c) && NextMove(s.contexts[c]) == Unfile && t == ReleaseFile(s, c)
    requires FileOk(s, k) && Filers(t, k) == Filers(s, k) - {c} && c in Filers(s, k)
    requires k == s.contexts[c].keys[s.contexts[c].filed - 1]
    ensures FileOk(t, k)
  {
    assert |Filers(t, k)| == |Filers(s, k)| - 1;
    hide Filers;
    assert k in s.files;
  }

  lemma ReleaseFileKeepsFile(s: State, t: State, c: ContextId, k: Key)
    requires Touches(s, t, c) && NextMove(s.contexts[c]) == Unfile && t == ReleaseFile(s, c)
    requires FileOk(s, k)
    ensures FileOk(t, k)
  {
    ReleaseFileFilers(s, t, c, k);
    hide FileOk, Filers;
    if k == s.contexts[c].keys[s.contexts[c].filed - 1] {
      FreedFileOk(s, t, c, k);
    } else {
      FileOkStays(s, t, c, k);
    }
  }

  lemma ReleaseFileKeepsFiles(s: State, t: State, c: ContextId)
    requires Inv(s) && c in s.contexts && NextMove(s.contexts[c]) == Unfile && t == ReleaseFile(s, c)
    requires Touches(s, t, c)
    ensures FileInv(t)
  {
    forall k
      ensures FileOk(t, k)
    {
      ReleaseFileKeepsFile(s, t, c, k);
    }
  }

  lemma ReleaseFileKeeps(s: State, c: ContextId)
    requires Inv(s) && Top(s, c) && NextMove(s.contexts[c]) == Unfile
    ensures Inv(ReleaseFile(s, c))
  {
    hide RegistryInv, Ascending;
    var t := ReleaseFile(s, c);
    assert Touches(s, t, c);
    RegistryFrame(s, t, c);
    LockFrame(s, t, c);
    ReleaseFileKeepsFiles(s, t, c);
  }

  lemma ReleaseLockKeepsLock(s: State, t: State, c: ContextId, e: EntryId)
    requires Touches(s, t, c) && NextMove(s.contexts[c]) == Unlock && t == ReleaseLock(s, c)
    requires 0 <= e < |t.entries| == |s.entries| && LockOk(s, e)
    ensures LockOk(t, e)
  {
    var x, y := s.contexts[c], t.contexts[c];
    var freed := x.entries[y.locked];
    assert x.entries[..x.locked] == y.entries[..y.locked] + [freed];
    forall i | 0 <= i < y.locked ensures x.entries[i] != freed { EntriesDistinct(s, c, i, y.locked); }
    SetUpdate(Lockers(s, e), Lockers(t, e), c);
    assert Lockers(t, e) == Lockers(s, e) - if e == freed then {c} else {};
  }

  lemma ReleaseLockKeepsLocks(s: State, t: State, c: ContextId)
    requires Inv(s) && c in s.contexts && NextMove(s.contexts[c]) == Unlock && t == ReleaseLock(s, c)
    requires Touches(s, t, c)
    ensures LockInv(t)
  {
    forall e | 0 <= e < |t.entries|
      ensures LockOk(t, e)
    {
      ReleaseLockKeepsLock(s, t, c, e);
    }
  }

  lemma ReleaseLockKeeps(s: State, c: ContextId)
    requires Inv(s) && Top(s, c) && NextMove(s.contexts[c]) == Unlock
    ensures Inv(ReleaseLock(s, c))
  {
    hide RegistryInv;
    var t := ReleaseLock(s, c);
    assert Touches(s, t, c);
    RegistryFrame(s, t, c);
    ReleaseLockKeepsLocks(s, t, c);
    FileFrame(s, t, c);
  }

  /** Whoever still names an entry keeps it in the registry. */
  lemma StillUsed(s: State, t: State, d: ContextId)
    requires Shape(t) && d in t.contexts
    requires forall e | 0 <= e < |t.entries| :: t.entries[e].users == |Users(t, e)|
    ensures forall i | t.contexts[d].gone <= i < |t.contexts[d].entries| :: t.entries[t.contexts[d].entries[i]].users > 0
  {
    forall i | t.contexts[d].gone <= i < |t.contexts[d].entries|
      ensures t.entries[t.contexts[d].entries[i]].users > 0
    {
      var e := t.contexts[d].entries[i];
      assert t.contexts[d].entries[t.contexts[d].gone..][i - t.contexts[d].gone] == e;
      assert d in Users(t, e);
    }
  }

  lemma UnregisterKeepsUsers(s: State, t: State, c: ContextId)
    requires Shape(s) && UsersOk(s) && c in s.contexts && NextMove(s.contexts[c]) == Unregister && t == UnregisterKey(s, c)
    requires Touches(s, t, c)
    ensures UsersOk(t)
  {
    hide Users;
    var x, y := s.contexts[c], t.contexts[c];
    CountsAfter(s, t, c);
    assert x.entries[x.gone..] == [x.entries[x.gone]] + y.entries[y.gone..];
    var freed := x.entries[x.gone];
    forall i | y.gone <= i < |x.entries| ensures x.entries[i] != freed { EntriesDistinct(s, c, x.gone, i); }
    forall e | 0 <= e < |t.entries|
      ensures t.entries[e].users == |Users(t, e)|
    {
      assert s.entries[e].users == |Users(s, e)|;
      assert x.Names(e) <==> y.Names(e) || e == freed;
    }
  }

  lemma UnregisterKeepsLinks(s: State, t: State, c: ContextId)
    requires Shape(s) && LinksOk(s) && NoIdleEntry(s)
    requires c in s.contexts && NextMove(s.contexts[c]) == Unregister && t == UnregisterKey(s, c)
    requires Touches(s, t, c) && UsersOk(t)
    ensures LinksOk(t) && NoIdleEntry(t)
  {
    hide Users;
    forall d | d in t.contexts
      ensures Linked(t, t.contexts[d])
    {
      assert Linked(s, s.contexts[d]);
      StillUsed(s, t, d);
    }
    var x := s.contexts[c];
    assert Linked(s, x);
    assert s.registry[(x.thread.process, x.keys[x.gone])] == x.entries[x.gone];
  }

  lemma UnregisterKeeps(s: State, c: ContextId)
    requires Inv(s) && Top(s, c) && NextMove(s.contexts[c]) == Unregister
    ensures Inv(UnregisterKey(s, c))
  {
    hide UsersOk, Users;
    var t := UnregisterKey(s, c);
    assert Touches(s, t, c);
    UnregisterKeepsUsers(s, t, c);
    UnregisterKeepsLinks(s, t, c);
    LockFrame(s, t, c);
    FileFrame(s, t, c);
  }

  lemma PhaseKeeps(s: State, c: ContextId, phase: Phase)
    requires Inv(s) && Top(s, c)
    requires var x := s.contexts[c];
             || (phase == Inside && NextMove(x) == Yield)
             || (phase == Leaving && (x.phase == Inside || NextMove(x) in {Lock, File}))
    ensures Inv(WithPhase(s, c, phase))
  {
    var t := WithPhase(s, c, phase);
    assert Touches(s, t, c);
    RegistryFrame(s, t, c);
    LockFrame(s, t, c);
    FileFrame(s, t, c);
  }

  /** A context that holds and names nothing may come or go. */
  lemma IdleContext(s: State, t: State, c: ContextId, x: Context)
    requires Shape(s) && Shape(t) && c !in s.contexts && t == s.(contexts := s.contexts[c := x], next := t.next)
    requires x.gone == |x.entries| && x.locked == 0
    ensures RegistryInv(s) <==> RegistryInv(t)
    ensures LockInv(s) <==> LockInv(t)
    ensures FileInv(s) <==> FileInv(t)
  {
    hide Ascending;
    assert t.contexts[c] == x;
    assert ContextShape(x);
    assert x.entries[x.gone..] == [] && x.entries[..x.locked] == [] && x.keys[..x.filed] == [];
    assert t.contexts.Keys == s.contexts.Keys + {c};
    assert forall d | d in s.contexts :: t.contexts[d] == s.contexts[d];
    assert forall e :: Users(s, e) == Users(t, e);
    forall e | 0 <= e < |s.entries|
      ensures LockOk(s, e) <==> LockOk(t, e)
    {
      assert Lockers(s, e) == Lockers(t, e);
    }
    forall k
      ensures FileOk(s, k) <==> FileOk(t, k)
    {
      assert Filers(s, k) == Filers(t, k);
    }
    assert LinksOk(s) <==> LinksOk(t);
  }

  lemma StepKeeps(s: State, e: Event)
    requires Inv(s)
    ensures Inv(Step(s, e))
  {
    var t := Step(s, e);
    match e
    case Begin(thread, raw) =>
      if CanBegin(s, thread) { IdleContext(s, t, s.next, t.contexts[s.next]); }
    case Advance(c) =>
      if Top(s, c) && CanAdvance(s, c) {
        match NextMove(s.contexts[c]) {
          case Register => RegisterKeeps(s, c);
          case Lock => TakeLockKeeps(s, c);
          case File => TakeFileKeeps(s, c);
          case Yield => PhaseKeeps(s, c, Inside);
          case Work =>
          case Unfile => ReleaseFileKeeps(s, c);
          case Unlock => ReleaseLockKeeps(s, c);
          case Unregister => UnregisterKeeps(s, c);
          case Drop => IdleContext(t, s, c, s.contexts[c]);
        }
      }
    case Leave(c) =>
      if Top(s, c) && s.contexts[c].phase == Inside { PhaseKeeps(s, c, Leaving); }
    case Abort(c) =>
      if Top(s, c) && NextMove(s.contexts[c]) in {Lock, File} { PhaseKeeps(s, c, Leaving); }
  }

  ghost function After(s: State, events: seq<Event>): (t: State)
    requires Inv(s)
    ensures Inv(t)
    decreases |events|
  {
    if events == [] then s
    else
      StepKeeps(s, events[0]);
      After(Step(s, events[0]), events[1..])
  }

  lemma InitialInv()
    ensures Inv(INITIAL)
  {
    assert forall k :: FileOk(INITIAL, k);
  }

  ghost function Run(events: seq<Event>): (s: State)
    ensures Inv(s)
  {
    InitialInv();
    After(INITIAL, events)
  }

  lemma {:induction false} AfterConcat(s: State, first: seq<Event>, second: seq<Event>)
    requires Inv(s)
    ensures After(s, first + second) == After(After(s, first), second)
    decreases |first|
  {
    if first == [] {
      assert first + second == second;
    } else {
      assert (first + second)[0] == first[0] && (first + second)[1..] == first[1..] + second;
      StepKeeps(s, first[0]);
      AfterConcat(Step(s, first[0]), first[1..], second);
    }
  }

  lemma AfterOne(s: State, e: Event)
    requires Inv(s)
    ensures After(s, [e]) == Step(s, e)
  {
    StepKeeps(s, e);
    assert [e][1..] == [];
    assert After(Step(s, e), []) == Step(s, e);
  }

  lemma AdvanceIsStep(s: State, c: ContextId)
    requires Inv(s) && Top(s, c) && CanAdvance(s, c)
    ensures Step(s, Advance(c)) == Advanced(s, c) && Inv(Advanced(s, c))
  {
    StepKeeps(s, Advance(c));
  }

  lemma StaysTop(s: State, c: ContextId)
    requires Shape(s) && Top(s, c) && CanAdvance(s, c) && NextMove(s.contexts[c]) != Drop
    ensures Top(Advanced(s, c), c)
  {
    assert Advanced(s, c).contexts.Keys == s.contexts.Keys;
  }
}
