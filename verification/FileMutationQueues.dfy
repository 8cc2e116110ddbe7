/**
 * The promise-chain queues that serialize file mutations in the desktop shell.
 *
 * One JavaScript turn is one event: a call, a registration, the moment the
 * awaited queues have all settled, and the `finally` block.
 */
module FileMutationQueues {
  import opened SortedKeys

  type OpId = int

  /**
   * A promise of some key's chain. `Chained(current, key, op)` is
   * `current.then(() => next)`, where `next` is what `op` releases for `key`.
   * One operation registers a key once, so equality here is promise identity.
   */
  datatype Promise = Settled | Chained(current: Promise, key: Key, op: OpId)

  datatype Phase = Waiting | Inside | Finished

  /** `current` is the queue found at registration, for each reserved key. */
  datatype Operation = Operation(ticket: nat, current: map<Key, Promise>, phase: Phase)

  /**
   * `calls` are the tickets still waiting in the global registration queue,
   * `ops` the registered operations by registration order, and `entered` the
   * order in which operations were started.
   */
  datatype State = State(
    queues: map<Key, Promise>,
    released: set<(Key, OpId)>,
    ops: seq<Operation>,
    calls: seq<nat>,
    nextTicket: nat,
    entered: seq<OpId>)

  /** `raw` are the canonical keys of the call's paths, in any order, perhaps repeated. */
  datatype Event =
    | Call
    | Register(raw: seq<Key>)
    | RejectRegistration
    | Enter(op: OpId)
    | Finish(op: OpId)

  const INITIAL := State(map[], {}, [], [], 0, [])

  function CurrentQueue(queues: map<Key, Promise>, k: Key): Promise {
    if k in queues then queues[k] else Settled
  }

  function ChainedQueue(s: State, o: OpId, k: Key): Promise
    requires 0 <= o < |s.ops| && k in s.ops[o].current
  {
    Chained(s.ops[o].current[k], k, o)
  }

  predicate Resolved(released: set<(Key, OpId)>, p: Promise) {
    match p
    case Settled => true
    case Chained(current, k, o) => Resolved(released, current) && (k, o) in released
  }

  predicate CanEnter(s: State, o: OpId) {
    && 0 <= o < |s.ops|
    && s.ops[o].phase == Waiting
    && forall k | k in s.ops[o].current :: Resolved(s.released, s.ops[o].current[k])
  }

  predicate CanFinish(s: State, o: OpId) {
    0 <= o < |s.ops| && s.ops[o].phase == Inside
  }

  function CurrentQueues(queues: map<Key, Promise>, keys: seq<Key>): map<Key, Promise> {
    map k | k in keys :: CurrentQueue(queues, k)
  }

  function NewTails(queues: map<Key, Promise>, keys: seq<Key>, o: OpId): map<Key, Promise> {
    map k | k in keys :: Chained(CurrentQueue(queues, k), k, o)
  }

  lemma ReservedOneMore(queues: map<Key, Promise>, keys: seq<Key>, k: Key, o: OpId)
    requires k !in keys
    ensures var found := CurrentQueue(queues, k);
            && CurrentQueue(queues + NewTails(queues, keys, o), k) == found
            && CurrentQueues(queues, keys + [k]) == CurrentQueues(queues, keys)[k := found]
            && queues + NewTails(queues, keys + [k], o) == (queues + NewTails(queues, keys, o))[k := Chained(found, k, o)]
  {
  }

  function RegisterKeys(s: State, keys: seq<Key>): State
    requires s.calls != []
  {
    var o := |s.ops|;
    s.(queues := s.queues + NewTails(s.queues, keys, o),
    ops := s.ops + [Operation(s.calls[0], CurrentQueues(s.queues, keys), Waiting)],
    calls := s.calls[1..])
  }

  function FinishOp(s: State, o: OpId): State
    requires CanFinish(s, o)
  {
    s.(queues := map k | k in s.queues && !(k in s.ops[o].current && s.queues[k] == ChainedQueue(s, o, k)) :: s.queues[k],
    released := s.released + set k | k in s.ops[o].current :: (k, o),
    ops := s.ops[o := s.ops[o].(phase := Finished)])
  }

  /** One event; an event that is not enabled leaves the state alone. */
  function Step(s: State, e: Event): State {
    match e
    case Call =>
      s.(calls := s.calls + [s.nextTicket], nextTicket := s.nextTicket + 1)
    case Register(raw) =>
      if s.calls == [] then s else RegisterKeys(s, SortedSet(raw))
    case RejectRegistration =>
      if s.calls == [] then s else s.(calls := s.calls[1..])
    case Enter(o) =>
      if CanEnter(s, o)
      then s.(ops := s.ops[o := s.ops[o].(phase := Inside)], entered := s.entered + [o])
      else s
    case Finish(o) =>
      if CanFinish(s, o) then FinishOp(s, o) else s
  }

  function After(s: State, events: seq<Event>): State
    decreases |events|
  {
    if events == [] then s else After(Step(s, events[0]), events[1..])
  }

  // ---------------------------------------------------------------------
  // Invariant
  // ---------------------------------------------------------------------

  predicate Reserves(s: State, o: OpId, k: Key) {
    0 <= o < |s.ops| && k in s.ops[o].current
  }

  predicate Unfinished(s: State, o: OpId, k: Key) {
    Reserves(s, o, k) && s.ops[o].phase != Finished
  }

  /** The queue that `o` found for `k` is the chain of the previous operation on `k`, if one can still matter. */
  ghost predicate FollowsPredecessor(s: State, o: OpId, k: Key)
    requires Reserves(s, o, k)
  {
    match s.ops[o].current[k]
    case Settled => forall p | p < o :: !Unfinished(s, p, k)
    case Chained(c, k', p) =>
      && k' == k && p < o && Reserves(s, p, k) && c == s.ops[p].current[k]
      && forall q | p < q < o :: !Reserves(s, q, k)
  }

  /** A recorded tail belongs to the last operation on its key, and that one is unfinished. */
  ghost predicate TailOk(s: State, k: Key)
    requires k in s.queues
  {
    && s.queues[k].Chained?
    && var o := s.queues[k].op;
       && Unfinished(s, o, k) && s.queues[k] == ChainedQueue(s, o, k)
       && forall q | o < q :: !Reserves(s, q, k)
  }

  ghost predicate ChainInv(s: State) {
    && (forall o, k | Reserves(s, o, k) :: FollowsPredecessor(s, o, k))
    && (forall k | k in s.queues :: TailOk(s, k))
    && (forall o, k | Unfinished(s, o, k) :: k in s.queues)
    && (forall o, k :: (k, o) in s.released <==> Reserves(s, o, k) && s.ops[o].phase == Finished)
  }

  ghost predicate OrderInv(s: State) {
    StartedInTurn(s) && EnteredOnce(s) && EnteredInOrder(s)
  }

  /** Whoever has started on a key has every earlier operation on it behind it. */
  ghost predicate StartedInTurn(s: State) {
    forall o, p, k | Reserves(s, o, k) && s.ops[o].phase != Waiting && p < o :: !Unfinished(s, p, k)
  }

  ghost predicate EnteredOnce(s: State) {
    && (forall i | 0 <= i < |s.entered| :: 0 <= s.entered[i] < |s.ops| && s.ops[s.entered[i]].phase != Waiting)
    && (forall o | 0 <= o < |s.ops| && s.ops[o].phase != Waiting :: o in s.entered)
    && (forall i, j | 0 <= i < j < |s.entered| :: s.entered[i] != s.entered[j])
  }

  ghost predicate EnteredInOrder(s: State) {
    forall i, j, k | 0 <= i < j < |s.entered| && Reserves(s, s.entered[i], k) && Reserves(s, s.entered[j], k) ::
      s.entered[i] < s.entered[j]
  }

  ghost predicate TicketInv(s: State) {
    && (forall o, p | 0 <= o < p < |s.ops| :: s.ops[o].ticket < s.ops[p].ticket)
    && (forall i, j | 0 <= i < j < |s.calls| :: s.calls[i] < s.calls[j])
    && (forall o, i | 0 <= o < |s.ops| && 0 <= i < |s.calls| :: s.ops[o].ticket < s.calls[i])
    && (forall o | 0 <= o < |s.ops| :: s.ops[o].ticket < s.nextTicket)
    && (forall i | 0 <= i < |s.calls| :: s.calls[i] < s.nextTicket)
  }

  ghost predicate Inv(s: State) {
    ChainInv(s) && OrderInv(s) && TicketInv(s)
  }

  /** The awaited promise has settled exactly when every earlier operation on the key is finished. */
  lemma {:induction false} ResolvedIffPredecessorsFinished(s: State, o: OpId, k: Key)
    requires ChainInv(s) && Reserves(s, o, k)
    ensures Resolved(s.released, s.ops[o].current[k]) <==> forall p | p < o :: !Unfinished(s, p, k)
    decreases o
  {
    assert FollowsPredecessor(s, o, k);
    match s.ops[o].current[k] {
      case Settled =>
      case Chained(c, _, p) =>
        ResolvedIffPredecessorsFinished(s, p, k);
        assert Unfinished(s, p, k) <==> (k, p) !in s.released;
    }
  }

  /** `t` has the chains of `s`, and none of its operations left a key: how phases may move. */
  ghost predicate SameReservations(s: State, t: State) {
    && |s.ops| == |t.ops|
    && (forall o | 0 <= o < |s.ops| :: t.ops[o].current == s.ops[o].current)
  }

  lemma PredecessorsKept(s: State, t: State)
    requires SameReservations(s, t)
    requires forall o, k | Reserves(s, o, k) :: FollowsPredecessor(s, o, k)
    requires forall o, k | Unfinished(t, o, k) :: Unfinished(s, o, k)
    ensures forall o, k :: Reserves(t, o, k) == Reserves(s, o, k)
    ensures forall o, k | Reserves(t, o, k) :: FollowsPredecessor(t, o, k)
  {
    assert forall o, k :: Reserves(t, o, k) == Reserves(s, o, k);
    forall o, k | Reserves(t, o, k)
      ensures FollowsPredecessor(t, o, k)
    {
      assert FollowsPredecessor(s, o, k);
    }
  }

  lemma RegisterKeepsPredecessors(s: State, keys: seq<Key>)
    requires Inv(s) && s.calls != []
    ensures var t := RegisterKeys(s, keys);
            forall o, k | Reserves(t, o, k) :: FollowsPredecessor(t, o, k)
  {
    var t := RegisterKeys(s, keys);
    var n := |s.ops|;
    assert forall o, k | o < n :: Unfinished(t, o, k) == Unfinished(s, o, k);
    assert forall o, k | o < n :: Reserves(t, o, k) == Reserves(s, o, k);
    forall o, k | Reserves(t, o, k)
      ensures FollowsPredecessor(t, o, k)
    {
      if o < n {
        assert FollowsPredecessor(s, o, k);
      } else if k in s.queues {
        assert TailOk(s, k);
      }
    }
  }

  lemma RegisterKeepsTails(s: State, keys: seq<Key>)
    requires Inv(s) && s.calls != []
    ensures var t := RegisterKeys(s, keys);
            forall k | k in t.queues :: TailOk(t, k)
  {
    var t := RegisterKeys(s, keys);
    var n := |s.ops|;
    assert forall o, k | o < n :: Reserves(t, o, k) == Reserves(s, o, k);
    forall k | k in t.queues
      ensures TailOk(t, k)
    {
      if k !in keys {
        assert TailOk(s, k);
      }
    }
  }

  lemma RegisterKeepsChain(s: State, keys: seq<Key>)
    requires Inv(s) && s.calls != []
    ensures ChainInv(RegisterKeys(s, keys))
  {
    var t := RegisterKeys(s, keys);
    var n := |s.ops|;
    RegisterKeepsPredecessors(s, keys);
    RegisterKeepsTails(s, keys);
    assert forall o, k | o < n :: Unfinished(t, o, k) == Unfinished(s, o, k);
    assert forall o, k | o < n :: Reserves(t, o, k) == Reserves(s, o, k);
    assert forall o, k :: (k, o) in s.released ==> o < n;
  }

  lemma RegisterKeepsOrder(s: State, keys: seq<Key>)
    requires Inv(s) && s.calls != []
    ensures OrderInv(RegisterKeys(s, keys))
  {
    hide ChainInv;
    var t := RegisterKeys(s, keys);
    var n := |s.ops|;
    assert forall o, k | o < n :: Unfinished(t, o, k) == Unfinished(s, o, k);
    assert forall o, k | o < n :: Reserves(t, o, k) == Reserves(s, o, k);
    assert forall o | 0 <= o < n :: t.ops[o] == s.ops[o];
  }

  lemma EnterKeepsChain(s: State, o: OpId)
    requires Inv(s) && CanEnter(s, o)
    ensures ChainInv(Step(s, Enter(o)))
  {
    var t := Step(s, Enter(o));
    assert forall q, k :: Unfinished(t, q, k) == Unfinished(s, q, k);
    PredecessorsKept(s, t);
    forall k | k in t.queues
      ensures TailOk(t, k)
    {
      assert TailOk(s, k);
    }
  }

  lemma EnterInTurn(s: State, o: OpId)
    requires Inv(s) && CanEnter(s, o)
    ensures StartedInTurn(Step(s, Enter(o)))
    ensures forall p, k | k in s.ops[o].current && p < o :: !Unfinished(s, p, k)
  {
    var t := Step(s, Enter(o));
    forall k | k in s.ops[o].current
      ensures forall p | p < o :: !Unfinished(s, p, k)
    {
      ResolvedIffPredecessorsFinished(s, o, k);
    }
    assert forall q, k :: Unfinished(t, q, k) == Unfinished(s, q, k);
    assert forall q, k :: Reserves(t, q, k) == Reserves(s, q, k);
  }

  lemma EnterKeepsOrder(s: State, o: OpId)
    requires Inv(s) && CanEnter(s, o)
    ensures OrderInv(Step(s, Enter(o)))
  {
    var t := Step(s, Enter(o));
    EnterInTurn(s, o);
    forall i, j, k | 0 <= i < j < |t.entered| && Reserves(t, t.entered[i], k) && Reserves(t, t.entered[j], k)
      ensures t.entered[i] < t.entered[j]
    {
      assert Reserves(s, s.entered[i], k);
      if j == |s.entered| {
        assert Unfinished(s, o, k);
      } else {
        assert Reserves(s, s.entered[j], k);
      }
    }
    assert EnteredOnce(t);
  }

  lemma FinishKeepsChain(s: State, o: OpId)
    requires Inv(s) && CanFinish(s, o)
    ensures ChainInv(FinishOp(s, o))
  {
    var t := FinishOp(s, o);
    assert forall q, k :: Unfinished(t, q, k) == (Unfinished(s, q, k) && q != o);
    PredecessorsKept(s, t);
    forall k | k in t.queues
      ensures TailOk(t, k)
    {
      assert TailOk(s, k);
    }
    forall q, k | Unfinished(t, q, k)
      ensures k in t.queues
    {
      assert Unfinished(s, q, k) && TailOk(s, k);
    }
  }

  lemma FinishKeepsOrder(s: State, o: OpId)
    requires Inv(s) && CanFinish(s, o)
    ensures OrderInv(FinishOp(s, o))
  {
    var t := FinishOp(s, o);
    assert forall q, k :: Unfinished(t, q, k) == (Unfinished(s, q, k) && q != o);
    assert forall q, k :: Reserves(t, q, k) == Reserves(s, q, k);
  }

  /** Calls come and go in the registration queue without touching the chains. */
  lemma QueueingKeeps(s: State, t: State)
    requires Inv(s)
    requires t == s.(calls := t.calls, nextTicket := t.nextTicket)
    ensures ChainInv(t) && OrderInv(t)
  {
    assert forall q, k :: Unfinished(t, q, k) == Unfinished(s, q, k);
    PredecessorsKept(s, t);
    forall k | k in t.queues
      ensures TailOk(t, k)
    {
      assert TailOk(s, k);
    }
  }

  /** A registration takes the oldest call's ticket. */
  lemma RegisterKeepsTickets(s: State, keys: seq<Key>)
    requires TicketInv(s) && s.calls != []
    ensures TicketInv(RegisterKeys(s, keys))
  {
    var t := RegisterKeys(s, keys);
    assert forall i | 0 <= i < |t.calls| :: t.calls[i] == s.calls[i + 1];
    assert t.ops[|s.ops|].ticket == s.calls[0];
  }

  lemma TicketsKept(s: State, e: Event)
    requires TicketInv(s)
    ensures TicketInv(Step(s, e))
  {
    hide Insert;
    var t := Step(s, e);
    match e
    case Register(raw) =>
      if s.calls != [] { RegisterKeepsTickets(s, SortedSet(raw)); }
    case _ =>
      assert |s.ops| == |t.ops|;
      assert forall o | 0 <= o < |s.ops| :: t.ops[o].ticket == s.ops[o].ticket;
  }

  lemma StepKeeps(s: State, e: Event)
    requires Inv(s)
    ensures Inv(Step(s, e))
  {
    TicketsKept(s, e);
    match e
    case Register(raw) =>
      if s.calls != [] {
        RegisterKeepsChain(s, SortedSet(raw));
        RegisterKeepsOrder(s, SortedSet(raw));
      }
    case Enter(o) =>
      if CanEnter(s, o) {
        EnterKeepsChain(s, o);
        EnterKeepsOrder(s, o);
      }
    case Finish(o) =>
      if CanFinish(s, o) {
        FinishKeepsChain(s, o);
        FinishKeepsOrder(s, o);
      }
    case _ =>
      QueueingKeeps(s, Step(s, e));
  }

  lemma {:induction false} AfterKeeps(s: State, events: seq<Event>)
    requires Inv(s)
    ensures Inv(After(s, events))
    decreases |events|
  {
    if events != [] {
      StepKeeps(s, events[0]);
      AfterKeeps(Step(s, events[0]), events[1..]);
    }
  }

  // ---------------------------------------------------------------------
  // What holds in every run
  // ---------------------------------------------------------------------

  /** A call that was registered: which call it was, and the keys of its paths as it gave them. */
  datatype Registration = Registration(call: nat, raw: seq<Key>)

  /** The calls still waiting for their registration after an event, `next` being the next call's number. */
  function WaitingAfter(waiting: seq<nat>, next: nat, e: Event): seq<nat> {
    if e.Call? then waiting + [next]
    else if (e.Register? || e.RejectRegistration?) && waiting != [] then waiting[1..]
    else waiting
  }

  /** What the event registers, if anything. */
  function RegisteredBy(waiting: seq<nat>, e: Event): seq<Registration> {
    if e.Register? && waiting != [] then [Registration(waiting[0], e.raw)] else []
  }

  /** The registrations that `events` perform, read off the events alone. */
  function Registrations(waiting: seq<nat>, next: nat, events: seq<Event>): seq<Registration>
    decreases |events|
  {
    if events == [] then []
    else
      var e := events[0];
      RegisteredBy(waiting, e)
        + Registrations(WaitingAfter(waiting, next, e), if e.Call? then next + 1 else next, events[1..])
  }

  function Registered(events: seq<Event>): seq<Registration> { Registrations([], 0, events) }

  /** Operation `o` reserves exactly the keys its call was made with. */
  ghost predicate Fulfils(op: Operation, r: Registration) {
    op.ticket == r.call && forall k :: k in op.current <==> k in r.raw
  }

  /** A registration reserves exactly the given keys, for the oldest call, and leaves all earlier operations alone. */
  lemma RegisterReservesEveryKey(s: State, raw: seq<Key>)
    requires s.calls != []
    ensures var t := Step(s, Register(raw));
            && |t.ops| == |s.ops| + 1 && t.ops[..|s.ops|] == s.ops
            && Fulfils(t.ops[|s.ops|], Registration(s.calls[0], raw)) && t.ops[|s.ops|].phase == Waiting
            && forall k :: Reserves(t, |s.ops|, k) <==> k in raw
  {
    var t := Step(s, Register(raw));
    var op := t.ops[|s.ops|];
    forall k
      ensures k in op.current <==> k in raw
    {
      assert k in SortedSet(raw) <==> k in raw;
    }
  }

  lemma OtherStepsReserveNothing(s: State, e: Event)
    requires !e.Register? || s.calls == []
    ensures var t := Step(s, e);
            |t.ops| == |s.ops| && forall o | 0 <= o < |s.ops| :: t.ops[o].ticket == s.ops[o].ticket && t.ops[o].current == s.ops[o].current
  {
  }

  lemma QueueStep(s: State, e: Event)
    ensures Step(s, e).calls == WaitingAfter(s.calls, s.nextTicket, e)
    ensures Step(s, e).nextTicket == if e.Call? then s.nextTicket + 1 else s.nextTicket
  {
    hide SortedSet, CanEnter, CanFinish;
  }

  /** The operations are those that fulfil `done`. */
  ghost predicate AllFulfil(s: State, done: seq<Registration>) {
    |done| == |s.ops| && forall o | 0 <= o < |done| :: Fulfils(s.ops[o], done[o])
  }

  lemma StepFulfils(s: State, e: Event, done: seq<Registration>)
    requires AllFulfil(s, done)
    ensures AllFulfil(Step(s, e), done + RegisteredBy(s.calls, e))
  {
    var t := Step(s, e);
    if e.Register? && s.calls != [] {
      RegisterReservesEveryKey(s, e.raw);
      assert forall o | 0 <= o < |s.ops| :: t.ops[o] == t.ops[..|s.ops|][o];
    } else {
      OtherStepsReserveNothing(s, e);
      assert done + [] == done;
    }
    hide Step;
  }

  /** The operations of a run are its registrations, in their order. */
  lemma {:induction false} OperationsFulfilRegistrations(s: State, events: seq<Event>, done: seq<Registration>)
    requires AllFulfil(s, done)
    ensures AllFulfil(After(s, events), done + Registrations(s.calls, s.nextTicket, events))
    decreases |events|
  {
    if events != [] {
      hide Step, AllFulfil, RegisteredBy, WaitingAfter;
      var t := Step(s, events[0]);
      var first := RegisteredBy(s.calls, events[0]);
      StepFulfils(s, events[0], done);
      QueueStep(s, events[0]);
      OperationsFulfilRegistrations(t, events[1..], done + first);
      var rest := Registrations(t.calls, t.nextTicket, events[1..]);
      assert done + (first + rest) == done + first + rest;
    } else {
      assert done + [] == done;
    }
  }

  /** Operation `o` of a run reserves a key exactly if its call was made with it. */
  lemma ReservesWhatWasAsked(events: seq<Event>, o: OpId, k: Key)
    ensures var s := After(INITIAL, events);
            var asked := Registered(events);
            && |s.ops| == |asked|
            && (0 <= o < |asked| ==> s.ops[o].ticket == asked[o].call && (Reserves(s, o, k) <==> k in asked[o].raw))
  {
    OperationsFulfilRegistrations(INITIAL, events, []);
    assert [] + Registered(events) == Registered(events);
  }

  /** Two calls made with a common key are never both inside `operation()`. */
  lemma MutualExclusion(events: seq<Event>, o: OpId, p: OpId, k: Key)
    ensures var s := After(INITIAL, events);
            var asked := Registered(events);
            && |s.ops| == |asked|
            && (0 <= o < |asked| && 0 <= p < |asked| && k in asked[o].raw && k in asked[p].raw ==>
                  s.ops[o].phase == Inside && s.ops[p].phase == Inside ==> o == p)
  {
    AfterKeeps(INITIAL, events);
    ReservesWhatWasAsked(events, o, k);
    ReservesWhatWasAsked(events, p, k);
    var s := After(INITIAL, events);
    if Reserves(s, o, k) && Reserves(s, p, k) && s.ops[o].phase == Inside && s.ops[p].phase == Inside {
      assert Unfinished(s, o, k) && Unfinished(s, p, k);
    }
  }

  /** Operations on one key are started in the order in which they were called. */
  lemma EntryFollowsCallOrder(events: seq<Event>, i: nat, j: nat, k: Key)
    requires i < j < |After(INITIAL, events).entered|
    ensures var s := After(INITIAL, events);
            var asked := Registered(events);
            var first, second := s.entered[i], s.entered[j];
            && 0 <= first < |asked| && 0 <= second < |asked|
            && (k in asked[first].raw && k in asked[second].raw ==> asked[first].call < asked[second].call)
  {
    AfterKeeps(INITIAL, events);
    var s := After(INITIAL, events);
    ReservesWhatWasAsked(events, s.entered[i], k);
    ReservesWhatWasAsked(events, s.entered[j], k);
  }

  /** Every earlier operation that shares a key with `o` is finished. */
  ghost predicate NothingAhead(s: State, o: OpId) {
    forall p, k | p < o && Reserves(s, o, k) :: !Unfinished(s, p, k)
  }

  lemma CanEnterIff(s: State, o: OpId)
    requires Inv(s) && 0 <= o < |s.ops| && s.ops[o].phase == Waiting
    ensures CanEnter(s, o) <==> NothingAhead(s, o)
  {
    forall k | Reserves(s, o, k)
      ensures Resolved(s.released, s.ops[o].current[k]) <==> forall p | p < o :: !Unfinished(s, p, k)
    {
      ResolvedIffPredecessorsFinished(s, o, k);
    }
  }

  /** A waiting operation may start exactly when every earlier call that shares a key with its own is finished. */
  lemma StartsExactlyBehindItsPredecessors(events: seq<Event>, o: OpId)
    requires 0 <= o < |After(INITIAL, events).ops| && After(INITIAL, events).ops[o].phase == Waiting
    ensures var s := After(INITIAL, events);
            var asked := Registered(events);
            && |s.ops| == |asked|
            && (CanEnter(s, o) <==>
                  forall p, k | 0 <= p < o && k in asked[o].raw && k in asked[p].raw :: s.ops[p].phase == Finished)
  {
    AfterKeeps(INITIAL, events);
    var s := After(INITIAL, events);
    var asked := Registered(events);
    CanEnterIff(s, o);
    forall p, k | 0 <= p < |asked|
      ensures Reserves(s, p, k) <==> k in asked[p].raw
    {
      ReservesWhatWasAsked(events, p, k);
    }
    ReservesWhatWasAsked(events, o, 0);
    assert NothingAhead(s, o) <==>
           forall p, k | 0 <= p < o && k in asked[o].raw && k in asked[p].raw :: s.ops[p].phase == Finished by {
      if NothingAhead(s, o) {
        forall p, k | 0 <= p < o && k in asked[o].raw && k in asked[p].raw
          ensures s.ops[p].phase == Finished
        {
          assert Reserves(s, o, k) && Reserves(s, p, k) && !Unfinished(s, p, k);
        }
      }
    }
  }

  lemma TailOwner(s: State, k: Key) returns (o: OpId)
    requires Inv(s) && k in s.queues
    ensures Unfinished(s, o, k)
  {
    assert TailOk(s, k);
    o := s.queues[k].op;
  }

  /** A key is in the map exactly while an unfinished operation was called with it. */
  lemma MapHoldsExactlyUnfinishedKeys(events: seq<Event>, k: Key)
    ensures var s := After(INITIAL, events);
            var asked := Registered(events);
            && |s.ops| == |asked|
            && (k in s.queues <==> exists o :: 0 <= o < |asked| && k in asked[o].raw && s.ops[o].phase != Finished)
  {
    AfterKeeps(INITIAL, events);
    var s := After(INITIAL, events);
    var asked := Registered(events);
    ReservesWhatWasAsked(events, 0, k);
    forall o | 0 <= o < |asked|
      ensures Reserves(s, o, k) <==> k in asked[o].raw
    {
      ReservesWhatWasAsked(events, o, k);
    }
    if k in s.queues {
      var o := TailOwner(s, k);
      assert Reserves(s, o, k);
    }
    if o :| 0 <= o < |asked| && k in asked[o].raw && s.ops[o].phase != Finished {
      assert Unfinished(s, o, k);
    }
  }

  /** The oldest unfinished operation can always go on: it is inside, or nothing holds it back. */
  lemma OldestCanProceed(s: State, o: OpId)
    requires Inv(s)
    requires 0 <= o < |s.ops| && s.ops[o].phase != Finished
    requires forall p | 0 <= p < o :: s.ops[p].phase == Finished
    ensures CanFinish(s, o) || CanEnter(s, o)
  {
    if s.ops[o].phase == Waiting {
      forall k | k in s.ops[o].current
        ensures Resolved(s.released, s.ops[o].current[k])
      {
        ResolvedIffPredecessorsFinished(s, o, k);
      }
    }
  }

  ghost predicate AtRest(s: State) {
    forall o | 0 <= o < |s.ops| :: s.ops[o].phase == Finished
  }

  lemma RestMeansEmpty(s: State)
    requires Inv(s) && AtRest(s)
    ensures s.queues == map[]
  {
    forall k ensures k !in s.queues {
      NoTailAtRest(s, k);
    }
  }

  lemma NoTailAtRest(s: State, k: Key)
    requires Inv(s) && AtRest(s)
    ensures k !in s.queues
  {
    if k in s.queues {
      var o := TailOwner(s, k);
    }
  }

  lemma {:induction false} AfterConcat(s: State, first: seq<Event>, second: seq<Event>)
    ensures After(s, first + second) == After(After(s, first), second)
    decreases |first|
  {
    if first == [] {
      assert first + second == second;
    } else {
      assert (first + second)[0] == first[0] && (first + second)[1..] == first[1..] + second;
      AfterConcat(Step(s, first[0]), first[1..], second);
    }
  }

  lemma AfterTwo(s: State, e: Event, f: Event)
    ensures After(s, [e, f]) == Step(Step(s, e), f)
  {
    assert [e, f][1..] == [f] && [f][1..] == [];
    var one := Step(s, e);
    assert After(s, [e, f]) == After(one, [f]);
    assert After(one, [f]) == After(Step(one, f), []);
  }

  lemma EnterThenFinish(s: State, o: OpId)
    requires CanEnter(s, o) || CanFinish(s, o)
    ensures var inside := Step(s, Enter(o));
            var t := Step(inside, Finish(o));
            t.ops == s.ops[o := s.ops[o].(phase := Finished)]
  {
    var inside := Step(s, Enter(o));
    assert CanFinish(inside, o);
    assert Step(inside, Finish(o)).ops == inside.ops[o := inside.ops[o].(phase := Finished)];
  }

  /** Lets the oldest unfinished operation run to completion. */
  lemma FinishOldest(s: State, o: OpId) returns (events: seq<Event>)
    requires Inv(s)
    requires 0 <= o < |s.ops| && forall p | 0 <= p < o :: s.ops[p].phase == Finished
    ensures forall e | e in events :: e.Enter? || e.Finish?
    ensures var t := After(s, events);
            Inv(t) && |t.ops| == |s.ops| && forall p | 0 <= p <= o :: t.ops[p].phase == Finished
  {
    events := [];
    if s.ops[o].phase != Finished {
      OldestCanProceed(s, o);
      var inside := Step(s, Enter(o));
      StepKeeps(s, Enter(o));
      StepKeeps(inside, Finish(o));
      events := [Enter(o), Finish(o)];
      AfterTwo(s, Enter(o), Finish(o));
      EnterThenFinish(s, o);
    }
  }

  /** Lets operations `n`, `n + 1`, ... run to completion in registration order. */
  lemma {:induction false} DrainFrom(s: State, n: nat) returns (events: seq<Event>)
    requires Inv(s) && n <= |s.ops|
    requires forall p | 0 <= p < n :: s.ops[p].phase == Finished
    ensures forall e | e in events :: e.Enter? || e.Finish?
    ensures AtRest(After(s, events)) && |After(s, events).ops| == |s.ops|
    decreases |s.ops| - n
  {
    if n == |s.ops| {
      events := [];
    } else {
      var first := FinishOldest(s, n);
      var rest := DrainFrom(After(s, first), n + 1);
      AfterConcat(s, first, rest);
      events := first + rest;
    }
  }

  /**
   * No reachable state is stuck: whatever has happened, letting registered
   * operations start and finish empties every queue, and the map with them.
   */
  lemma EveryRunCanDrain(events: seq<Event>) returns (more: seq<Event>)
    ensures forall e | e in more :: e.Enter? || e.Finish?
    ensures AtRest(After(INITIAL, events + more))
    ensures After(INITIAL, events + more).queues == map[]
  {
    AfterKeeps(INITIAL, events);
    var s := After(INITIAL, events);
    more := DrainFrom(s, 0);
    AfterConcat(INITIAL, events, more);
    AfterKeeps(s, more);
    RestMeansEmpty(After(s, more));
  }

  // ---------------------------------------------------------------------
  // The module's own variables
  // ---------------------------------------------------------------------

  function Reservations(keys: seq<Key>, o: OpId): set<(Key, OpId)> { set k | k in keys :: (k, o) }

  lemma ReservationsSnoc(keys: seq<Key>, k: Key, o: OpId)
    ensures Reservations(keys + [k], o) == Reservations(keys, o) + {(k, o)}
  {
    assert forall x :: x in keys + [k] <==> x in keys || x == k;
    var both := Reservations(keys, o) + {(k, o)};
    forall r | r in both
      ensures r in Reservations(keys + [k], o)
    {
      assert r.0 in keys + [k];
    }
  }

  class MutationQueues {
    var queues: map<Key, Promise>
    var released: set<(Key, OpId)>
    var ops: seq<Operation>
    var calls: seq<nat>
    var nextTicket: nat
    var entered: seq<OpId>

    function View(): State
      reads this
    {
      State(queues, released, ops, calls, nextTicket, entered)
    }

    constructor ()
      ensures View() == INITIAL
    {
      queues, released, ops, calls, nextTicket, entered := map[], {}, [], [], 0, [];
    }

    /** `withFileMutationQueues` is called and queues for registration. */
    method Call()
      modifies this
      ensures View() == Step(old(View()), Event.Call)
    {
      calls := calls + [nextTicket];
      nextTicket := nextTicket + 1;
    }

    /** The registration callback: reserves every key in one turn. */
    method Register(raw: seq<Key>)
      requires calls != []
      modifies this
      ensures View() == Step(old(View()), Event.Register(raw))
      ensures |ops| == |old(ops)| + 1 && ops[..|old(ops)|] == old(ops)
      ensures forall k :: k in ops[|old(ops)|].current <==> k in raw
    {
      var keys := SortedSet(raw);
      var current := ReserveKeys(keys);
      ops := ops + [Operation(calls[0], current, Waiting)];
      calls := calls[1..];
    }

    /** `keys.map(...)`: remembers each key's queue and puts a new tail behind it. */
    method ReserveKeys(keys: seq<Key>) returns (current: map<Key, Promise>)
      requires Ascending(keys)
      modifies this`queues
      ensures current == CurrentQueues(old(queues), keys)
      ensures queues == old(queues) + NewTails(old(queues), keys, |ops|)
    {
      current := map[];
      ghost var found := queues;
      for i := 0 to |keys|
        invariant current == CurrentQueues(found, keys[..i])
        invariant queues == found + NewTails(found, keys[..i], |ops|)
      {
        var k := keys[i];
        assert keys[..i + 1] == keys[..i] + [k] && k !in keys[..i];
        ReservedOneMore(found, keys[..i], k, |ops|);
        var currentQueue := CurrentQueue(queues, k);
        queues := queues[k := Chained(currentQueue, k, |ops|)];
        current := current[k := currentQueue];
      }
      assert keys[..|keys|] == keys;
    }

    /** Canonicalizing a path failed: the call rejects and nothing is reserved. */
    method RejectRegistration()
      requires calls != []
      modifies this
      ensures View() == Step(old(View()), Event.RejectRegistration)
    {
      calls := calls[1..];
    }

    /** Awaits the queues found at registration one by one; the operation starts once all of them have settled. */
    method Enter(o: OpId, keys: seq<Key>) returns (started: bool)
      requires 0 <= o < |ops| && ops[o].phase == Waiting && forall k :: k in keys <==> k in ops[o].current
      modifies this
      ensures View() == Step(old(View()), Event.Enter(o)) && started == (ops[o].phase == Inside)
      ensures Inv(old(View())) ==> (started <==> NothingAhead(old(View()), o))
    {
      ghost var before := View();
      if Inv(before) {
        CanEnterIff(before, o);
      }
      started := true;
      var awaited := ops[o].current;
      for i := 0 to |keys|
        invariant View() == before
        invariant started <==> forall k | k in keys[..i] && k in awaited :: Resolved(released, awaited[k])
      {
        var key := keys[i];
        assert key in keys && keys[..i + 1] == keys[..i] + [key];
        if !Resolved(released, awaited[key]) {
          started := false;
        }
      }
      assert keys[..|keys|] == keys;
      if started {
        ops := ops[o := ops[o].(phase := Inside)];
        entered := entered + [o];
      }
    }

    /** The `finally` block: release every reservation, then drop the tails this operation still owns. */
    method Finish(o: OpId, keys: seq<Key>)
      requires CanFinish(View(), o)
      requires Ascending(keys) && forall k :: k in keys <==> k in ops[o].current
      modifies this
      ensures View() == Step(old(View()), Event.Finish(o))
    {
      ReleaseAll(o, keys);
      DropTails(o, keys);
      ops := ops[o := ops[o].(phase := Finished)];
    }

    method ReleaseAll(o: OpId, keys: seq<Key>)
      modifies this`released
      ensures released == old(released) + Reservations(keys, o)
    {
      for i := 0 to |keys|
        invariant released == old(released) + Reservations(keys[..i], o)
      {
        assert keys[..i + 1] == keys[..i] + [keys[i]];
        ReservationsSnoc(keys[..i], keys[i], o);
        released := released + {(keys[i], o)};
      }
      assert keys[..|keys|] == keys;
    }

    method DropTails(o: OpId, keys: seq<Key>)
      requires 0 <= o < |ops| && Ascending(keys) && forall k :: k in keys <==> k in ops[o].current
      modifies this`queues
      ensures queues ==
              map k | k in old(queues) && !(k in ops[o].current && old(queues)[k] == ChainedQueue(View(), o, k)) :: old(queues)[k]
    {
      for i := 0 to |keys|
        invariant queues ==
                  map k | k in old(queues) && !(k in keys[..i] && old(queues)[k] == Chained(ops[o].current[k], k, o)) :: old(queues)[k]
      {
        var k := keys[i];
        assert k !in keys[..i];
        if k in queues && queues[k] == Chained(ops[o].current[k], k, o) {
          queues := queues - {k};
        }
        assert keys[..i + 1] == keys[..i] + [keys[i]];
      }
      assert keys[..|keys|] == keys;
    }
  }
}
