/**
 * A code cell: the JavaScript side that issues numbered requests, and the host
 * loop that drains its packets, runs tools and timers, and delivers replies.
 *
 * One event is one call of the script into the VM's functions, one step of a
 * host task, or one turn of the host loop between two awaits. Script and host
 * tasks interleave freely while the loop awaits the VM.
 */
module CodeCells {
  import opened CodeStore

  type Id = nat

  const MAX_TEXT := 1024 * 1024
  const BATCH := 10

  datatype Entry = Text(text: string) | Image(data: string) | Audio(data: string)

  datatype Request = Tool(id: Id) | Timer(id: Id) | CancelTimer(id: Id)

  datatype Reply = Result(id: Id) | Fired(id: Id)

  // ---------------------------------------------------------------------
  // The VM
  // ---------------------------------------------------------------------

  /** The closure variables of the VM's bootstrap script. */
  datatype VM = VM(
    pending: set<Id>, timers: set<Id>, requests: seq<Request>, output: seq<Entry>, updates: seq<Update>,
    storage: map<string, Value>, sequence: nat, done: bool, failed: bool, yielded: bool, outputSize: nat)

  /** What a script can do in one step; it finishes as failed if it leaves an error text that is not empty. */
  datatype Action =
    | Emit(entry: Entry)
    | CallTool
    | SetTimeout
    | ClearTimeout(id: Id)
    | Put(update: Update)
    | Yield
    | Finish(failed: bool)

  predicate Emits(vm: VM, entry: Entry) {
    !vm.done && (entry.Text? ==> vm.outputSize + |entry.text| <= MAX_TEXT)
  }

  /** An action that raises leaves at most the output size changed. */
  function Act(vm: VM, a: Action): VM {
    match a
    case Emit(entry) =>
      if vm.done then vm
      else
        var grown := vm.(outputSize := vm.outputSize + if entry.Text? then |entry.text| else 0);
        if Emits(vm, entry) then grown.(output := vm.output + [entry]) else grown
    case CallTool =>
      if vm.done then vm
      else
        var id := vm.sequence + 1;
        vm.(sequence := id, pending := vm.pending + {id}, requests := vm.requests + [Tool(id)])
    case SetTimeout =>
      var id := vm.sequence + 1;
      vm.(sequence := id, timers := vm.timers + {id}, requests := vm.requests + [Timer(id)])
    case ClearTimeout(id) =>
      vm.(timers := vm.timers - {id}, requests := vm.requests + [CancelTimer(id)])
    case Put(u) =>
      vm.(storage := vm.storage[u.key := u.value], updates := vm.updates + [u])
    case Yield => vm.(yielded := true)
    case Finish(failed) => vm.(done := true, failed := vm.failed || failed)
  }

  function DeliverOne(vm: VM, r: Reply): VM {
    match r
    case Result(id) => vm.(pending := vm.pending - {id})
    case Fired(id) => vm.(timers := vm.timers - {id})
  }

  function Deliver(vm: VM, replies: seq<Reply>): VM
    decreases |replies|
  {
    if replies == [] then vm else Deliver(DeliverOne(vm, replies[0]), replies[1..])
  }

  function Drained(vm: VM): VM {
    vm.(requests := [], output := [], updates := [], yielded := false)
  }

  // ---------------------------------------------------------------------
  // The host
  // ---------------------------------------------------------------------

  datatype Progress = Active | Done | Failed

  /** A dispatch task: the requests not yet submitted, and those of the running batch not yet answered. */
  datatype Job = Job(waiting: seq<Id>, batch: seq<Id>, progress: Progress)

  datatype TimerTask = Sleeping | Cancelling | Finished | Cancelled

  datatype Verdict = Completed | ScriptFailed | Unresolved | StoreFull | ToolError | Terminated | TimerCancelled | VmError

  /** `Executing` awaits the VM, `Waiting` awaits a reply or the end of a task active at that time. */
  datatype Phase = Executing | Waiting(timers: set<Id>) | Ended(verdict: Verdict)

  /** `batches`, `emitted`, `returned`, `issued` and `delivered` are histories. */
  datatype Cell = Cell(
    vm: VM, buffer: seq<Entry>, replies: seq<Reply>, jobs: seq<Job>, timers: map<Id, TimerTask>,
    store: Store, phase: Phase, discarded: int,
    batches: seq<seq<Id>>, emitted: seq<Entry>, returned: seq<Entry>, issued: set<Id>, delivered: seq<Id>)

  datatype Event =
    | Script(action: Action)
    | Drain(more: bool)
    | Submit(job: int)
    | Answer(job: int, at: int)
    | EndJob(job: int)
    | FailJob(job: int)
    | Fire(id: Id)
    | TimerEnds(id: Id)
    | Resume(got: bool)
    | Collect
    | Terminate
    | FailVm

  function Start(store: Store): Cell {
    Cell(VM({}, {}, [], [], [], store.values, 0, false, false, false, 0),
         [], [], [], map[], store, Executing, 0, [], [], [], {}, [])
  }

  function ToolIds(requests: seq<Request>): seq<Id>
    decreases |requests|
  {
    if requests == [] then []
    else if requests[0].Tool? then [requests[0].id] + ToolIds(requests[1..])
    else ToolIds(requests[1..])
  }

  function HandleTimer(timers: map<Id, TimerTask>, r: Request): map<Id, TimerTask> {
    match r
    case Tool(_) => timers
    case Timer(id) => timers[id := Sleeping]
    case CancelTimer(id) => if id in timers && timers[id] == Sleeping then timers[id := Cancelling] else timers
  }

  /** The host's loop over the timer requests of a packet. */
  function HandleTimers(timers: map<Id, TimerTask>, requests: seq<Request>): map<Id, TimerTask>
    decreases |requests|
  {
    if requests == [] then timers else HandleTimers(HandleTimer(timers, requests[0]), requests[1..])
  }

  function ActiveTimers(timers: map<Id, TimerTask>): set<Id> {
    set id | id in timers && timers[id] in {Sleeping, Cancelling}
  }

  function WithoutDone(jobs: seq<Job>): seq<Job>
    decreases |jobs|
  {
    if jobs == [] then []
    else if jobs[0].progress == Done then WithoutDone(jobs[1..])
    else [jobs[0]] + WithoutDone(jobs[1..])
  }

  predicate AnyFailed(jobs: seq<Job>) {
    exists j | j in jobs :: j.progress == Failed
  }

  function ResultIds(replies: seq<Reply>): seq<Id>
    decreases |replies|
  {
    if replies == [] then []
    else if replies[0].Result? then [replies[0].id] + ResultIds(replies[1..])
    else ResultIds(replies[1..])
  }

  function DeliverReplies(c: Cell): Cell {
    c.(vm := Deliver(c.vm, c.replies), replies := [], delivered := c.delivered + ResultIds(c.replies), phase := Executing)
  }

  /** The dispatch tasks with the one for the packet's tool requests, if it has any. */
  function JobsAfter(c: Cell): seq<Job> {
    var tools := ToolIds(c.vm.requests);
    if tools == [] then c.jobs else c.jobs + [Job(tools, [], Active)]
  }

  /** The cell once a packet's output, updates and requests have been taken over. */
  function Dispatched(c: Cell, size: Size): Cell {
    c.(vm := Drained(c.vm), buffer := c.buffer + c.vm.output, store := PutAll(c.store, c.vm.updates, size).0,
    jobs := WithoutDone(JobsAfter(c)), timers := HandleTimers(c.timers, c.vm.requests))
  }

  /** What the host does once nothing of the packet is left; with `more` the VM still has jobs of its own to run. */
  function NextAwait(c: Cell, failed: bool, more: bool): Cell {
    if failed then c.(phase := Ended(ToolError))
    else if more then c
    else if c.replies != [] then DeliverReplies(c)
    else if c.jobs == [] && ActiveTimers(c.timers) == {} then c.(phase := Ended(Unresolved))
    else c.(phase := Waiting(ActiveTimers(c.timers)))
  }

  /** One turn of the host loop, from a drained packet to the next await. */
  function HandlePacket(c: Cell, more: bool, size: Size): Cell {
    var (store, ok) := PutAll(c.store, c.vm.updates, size);
    var d := c.(vm := Drained(c.vm), buffer := c.buffer + c.vm.output, store := store);
    if !ok then d.(phase := Ended(StoreFull))
    else if c.vm.done then
      d.(phase := Ended(if c.vm.failed then ScriptFailed else Completed), discarded := |c.vm.pending|)
    else NextAwait(Dispatched(c, size), AnyFailed(JobsAfter(c)), more)
  }

  predicate JobIs(c: Cell, j: int, p: Progress) {
    !c.phase.Ended? && 0 <= j < |c.jobs| && c.jobs[j].progress == p
  }

  function WithJob(c: Cell, j: int, job: Job): Cell
    requires 0 <= j < |c.jobs|
  {
    c.(jobs := c.jobs[j := job])
  }

  function FirstBatch(waiting: seq<Id>): seq<Id> {
    if |waiting| <= BATCH then waiting else waiting[..BATCH]
  }

  function Scripted(c: Cell, a: Action): Cell {
    var vm := Act(c.vm, a);
    c.(vm := vm,
    emitted := if a.Emit? && Emits(c.vm, a.entry) then c.emitted + [a.entry] else c.emitted,
    issued := if a.CallTool? && !c.vm.done then c.issued + {vm.sequence} else c.issued)
  }

  /** The next batch of a job goes to the tool runner; the previous one has been answered. */
  function Submitted(c: Cell, j: int): Cell
    requires JobIs(c, j, Active)
  {
    var job := c.jobs[j];
    var batch := FirstBatch(job.waiting);
    WithJob(c, j, Job(job.waiting[|batch|..], batch, Active)).(batches := c.batches + [batch])
  }

  function WithoutCall(job: Job, at: int): Job
    requires 0 <= at < |job.batch|
  {
    job.(batch := job.batch[..at] + job.batch[at + 1..])
  }

  /** The runner reports one call's result, which is queued for the VM. */
  function Replied(c: Cell, j: int, at: int): Cell
    requires JobIs(c, j, Active) && 0 <= at < |c.jobs[j].batch|
  {
    WithJob(c, j, WithoutCall(c.jobs[j], at)).(replies := c.replies + [Result(c.jobs[j].batch[at])])
  }

  function TimerIs(c: Cell, id: Id, t: TimerTask): bool {
    !c.phase.Ended? && id in c.timers && c.timers[id] == t
  }

  predicate AnyTimer(c: Cell, ids: set<Id>, t: TimerTask) {
    exists id | id in ids :: id in c.timers && c.timers[id] == t
  }

  predicate AnyDone(jobs: seq<Job>) {
    exists j | j in jobs :: j.progress == Done
  }

  /** The host's wait is over; `got` says that the queue's own `get` was among what finished. */
  function Resumed(c: Cell, got: bool): Cell
    requires c.phase.Waiting?
  {
    if got then if c.replies == [] then c else DeliverReplies(c)
    else if AnyFailed(c.jobs) then c.(phase := Ended(ToolError))
    else if AnyTimer(c, c.phase.timers, Cancelled) then c.(phase := Ended(TimerCancelled))
    else if AnyDone(c.jobs) || AnyTimer(c, c.phase.timers, Finished) then DeliverReplies(c)
    else c
  }

  /** One event; an event that is not enabled leaves the cell alone. */
  function Step(c: Cell, e: Event, size: Size): Cell {
    match e
    case Script(a) => if c.phase == Executing then Scripted(c, a) else c
    case Drain(more) => if c.phase == Executing then HandlePacket(c, more, size) else c
    case Submit(j) =>
      if JobIs(c, j, Active) && c.jobs[j].batch == [] && c.jobs[j].waiting != [] then Submitted(c, j) else c
    case Answer(j, at) =>
      if JobIs(c, j, Active) && 0 <= at < |c.jobs[j].batch| then Replied(c, j, at) else c
    case EndJob(j) =>
      if JobIs(c, j, Active) && c.jobs[j].batch == [] && c.jobs[j].waiting == []
      then WithJob(c, j, c.jobs[j].(progress := Done)) else c
    case FailJob(j) =>
      if JobIs(c, j, Active) then WithJob(c, j, c.jobs[j].(progress := Failed)) else c
    case Fire(id) =>
      if TimerIs(c, id, Sleeping)
      then c.(timers := c.timers[id := Finished], replies := c.replies + [Fired(id)]) else c
    case TimerEnds(id) =>
      if TimerIs(c, id, Cancelling) then c.(timers := c.timers[id := Cancelled]) else c
    case Resume(got) => if c.phase.Waiting? then Resumed(c, got) else c
    case Collect => c.(returned := c.returned + c.buffer, buffer := [])
    case Terminate => if c.phase.Ended? then c else c.(phase := Ended(Terminated))
    case FailVm => if c.phase == Executing then c.(phase := Ended(VmError)) else c
  }

  function After(c: Cell, events: seq<Event>, size: Size): Cell
    decreases |events|
  {
    if events == [] then c else After(Step(c, events[0], size), events[1..], size)
  }

  // ---------------------------------------------------------------------
  // Where each tool request is
  // ---------------------------------------------------------------------

  function JobIds(j: Job): multiset<Id> { multiset(j.waiting) + multiset(j.batch) }

  function Held(jobs: seq<Job>): multiset<Id>
    decreases |jobs|
  {
    if jobs == [] then multiset{} else JobIds(jobs[0]) + Held(jobs[1..])
  }

  function Unsubmitted(jobs: seq<Job>): multiset<Id>
    decreases |jobs|
  {
    if jobs == [] then multiset{} else multiset(jobs[0].waiting) + Unsubmitted(jobs[1..])
  }

  function Flatten(batches: seq<seq<Id>>): seq<Id>
    decreases |batches|
  {
    if batches == [] then [] else Flatten(batches[..|batches| - 1]) + batches[|batches| - 1]
  }

  lemma {:induction false} HeldSplit(jobs: seq<Job>, j: int)
    requires 0 <= j < |jobs|
    ensures Held(jobs) == Held(jobs[..j]) + JobIds(jobs[j]) + Held(jobs[j + 1..])
    ensures Unsubmitted(jobs) == Unsubmitted(jobs[..j]) + multiset(jobs[j].waiting) + Unsubmitted(jobs[j + 1..])
    decreases j
  {
    if j > 0 {
      assert jobs[1..][..j - 1] == jobs[..j][1..] && jobs[1..][j..] == jobs[j + 1..];
      HeldSplit(jobs[1..], j - 1);
    }
  }

  /** What the other jobs hold, before and after job `j` is replaced. */
  lemma HeldUpdate(jobs: seq<Job>, j: int, job: Job) returns (others: multiset<Id>, unsubmitted: multiset<Id>)
    requires 0 <= j < |jobs|
    ensures Held(jobs) == others + JobIds(jobs[j]) && Held(jobs[j := job]) == others + JobIds(job)
    ensures Unsubmitted(jobs) == unsubmitted + multiset(jobs[j].waiting)
    ensures Unsubmitted(jobs[j := job]) == unsubmitted + multiset(job.waiting)
  {
    var updated := jobs[j := job];
    assert updated[..j] == jobs[..j] && updated[j + 1..] == jobs[j + 1..];
    HeldSplit(jobs, j);
    HeldSplit(updated, j);
    others := Held(jobs[..j]) + Held(jobs[j + 1..]);
    unsubmitted := Unsubmitted(jobs[..j]) + Unsubmitted(jobs[j + 1..]);
  }

  lemma {:induction false} HeldAppend(jobs: seq<Job>, job: Job)
    ensures Held(jobs + [job]) == Held(jobs) + JobIds(job)
    ensures Unsubmitted(jobs + [job]) == Unsubmitted(jobs) + multiset(job.waiting)
    decreases |jobs|
  {
    if jobs == [] {
      assert jobs + [job] == [job] && [job][1..] == [];
    } else {
      assert (jobs + [job])[1..] == jobs[1..] + [job];
      HeldAppend(jobs[1..], job);
    }
  }

  predicate DoneJobsEmpty(jobs: seq<Job>) {
    forall j | 0 <= j < |jobs| && jobs[j].progress == Done :: jobs[j].waiting == [] && jobs[j].batch == []
  }

  lemma {:induction false} HeldWithoutDone(jobs: seq<Job>)
    requires DoneJobsEmpty(jobs)
    ensures Held(WithoutDone(jobs)) == Held(jobs) && Unsubmitted(WithoutDone(jobs)) == Unsubmitted(jobs)
    ensures forall j | j in WithoutDone(jobs) :: j in jobs && j.progress != Done
    decreases |jobs|
  {
    if jobs != [] {
      assert forall j | j in jobs[1..] :: j in jobs;
      HeldWithoutDone(jobs[1..]);
      var rest := WithoutDone(jobs[1..]);
      if jobs[0].progress != Done {
        assert ([jobs[0]] + rest)[1..] == rest;
        assert WithoutDone(jobs) == [jobs[0]] + rest;
      }
    }
  }

  lemma {:induction false} ToolIdsAppend(requests: seq<Request>, r: Request)
    ensures ToolIds(requests + [r]) == ToolIds(requests) + if r.Tool? then [r.id] else []
    decreases |requests|
  {
    if requests == [] {
      assert requests + [r] == [r] && [r][1..] == [];
    } else {
      assert (requests + [r])[1..] == requests[1..] + [r];
      ToolIdsAppend(requests[1..], r);
    }
  }

  lemma {:induction false} ResultIdsAppend(replies: seq<Reply>, r: Reply)
    ensures ResultIds(replies + [r]) == ResultIds(replies) + if r.Result? then [r.id] else []
    decreases |replies|
  {
    if replies == [] {
      assert replies + [r] == [r] && [r][1..] == [];
    } else {
      assert (replies + [r])[1..] == replies[1..] + [r];
      ResultIdsAppend(replies[1..], r);
    }
  }

  /** Delivering replies takes exactly their identifiers out of the two tables. */
  lemma {:induction false} DeliverTables(vm: VM, replies: seq<Reply>)
    ensures var v := Deliver(vm, replies);
            && v == vm.(pending := v.pending, timers := v.timers)
            && v.pending == vm.pending - (set id | id in ResultIds(replies))
            && forall id :: id in v.timers <==> id in vm.timers && Fired(id) !in replies
    decreases |replies|
  {
    if replies != [] {
      DeliverTables(DeliverOne(vm, replies[0]), replies[1..]);
      assert replies == [replies[0]] + replies[1..];
    }
  }

  /** Each issued request waits in exactly one place, until its reply is delivered. */
  ghost predicate Ledger(c: Cell) {
    InOnePlace(c) && InOneBatch(c) && DoneJobsEmpty(c.jobs)
  }

  ghost predicate InOnePlace(c: Cell) {
    multiset(ToolIds(c.vm.requests)) + Held(c.jobs) + multiset(ResultIds(c.replies)) == multiset(c.vm.pending)
  }

  ghost predicate InOneBatch(c: Cell) {
    multiset(Flatten(c.batches)) + Unsubmitted(c.jobs) + multiset(ToolIds(c.vm.requests)) == multiset(c.issued)
  }

  /** A timer of the VM sleeps in the host, once the requests on their way are handled, or has its reply queued. */
  ghost predicate TimersTracked(c: Cell) {
    forall id | id in c.vm.timers :: Fired(id) in c.replies || SleepsIn(HandleTimers(c.timers, c.vm.requests), id)
  }

  predicate SleepsIn(timers: map<Id, TimerTask>, id: Id) { id in timers && timers[id] == Sleeping }

  ghost predicate VerdictOk(c: Cell) {
    && (c.phase == Ended(Unresolved) ==> c.vm.pending == {} && c.vm.timers == {} && c.replies == [])
    && (c.phase in {Ended(Completed), Ended(ScriptFailed)} ==> c.vm.output == [] && c.discarded == |c.vm.pending|)
  }

  ghost predicate BooksOk(c: Cell) {
    && multiset(c.delivered) + multiset(c.vm.pending) == multiset(c.issued)
    && (forall id | id in c.issued :: id <= c.vm.sequence)
    && multiset(Flatten(c.batches)) <= multiset(c.issued)
    && (forall b | b in c.batches :: |b| <= BATCH)
  }

  ghost predicate StorageOk(c: Cell, size: Size) {
    && StoreInv(c.store, size)
    && (c.phase != Ended(StoreFull) ==> c.vm.storage == ApplyAll(c.store.values, c.vm.updates))
  }

  ghost predicate OutputOk(c: Cell) {
    c.emitted == c.returned + c.buffer + c.vm.output
  }

  ghost predicate Inv(c: Cell, size: Size) {
    && (!c.phase.Ended? ==> Ledger(c) && TimersTracked(c))
    && BooksOk(c) && OutputOk(c) && StorageOk(c, size) && VerdictOk(c)
  }

  lemma {:induction false} HandleTimersAppend(timers: map<Id, TimerTask>, requests: seq<Request>, r: Request)
    ensures HandleTimers(timers, requests + [r]) == HandleTimer(HandleTimers(timers, requests), r)
    decreases |requests|
  {
    if requests == [] {
      assert requests + [r] == [r] && [r][1..] == [];
      assert HandleTimers(timers, [r]) == HandleTimers(HandleTimer(timers, r), []);
    } else {
      assert (requests + [r])[1..] == requests[1..] + [r];
      HandleTimersAppend(HandleTimer(timers, requests[0]), requests[1..], r);
    }
  }

  /** Whether a timer ends up asleep depends only on whether it sleeps now. */
  lemma {:induction false} SleepIsLocal(timers: map<Id, TimerTask>, others: map<Id, TimerTask>, requests: seq<Request>, id: Id)
    requires SleepsIn(timers, id) <==> SleepsIn(others, id)
    ensures SleepsIn(HandleTimers(timers, requests), id) <==> SleepsIn(HandleTimers(others, requests), id)
    decreases |requests|
  {
    if requests != [] {
      SleepIsLocal(HandleTimer(timers, requests[0]), HandleTimer(others, requests[0]), requests[1..], id);
    }
  }

  lemma CallToolLedger(c: Cell, id: Id)
    requires Ledger(c) && !c.vm.done && id == c.vm.sequence + 1
    requires id !in c.issued && id !in c.vm.pending
    ensures Ledger(Scripted(c, CallTool))
  {
    hide Held, Unsubmitted, Flatten, ToolIds, ResultIds, DoneJobsEmpty;
    var d := Scripted(c, CallTool);
    ToolIdsAppend(c.vm.requests, Tool(id));
    assert multiset(ToolIds(d.vm.requests)) == multiset(ToolIds(c.vm.requests)) + multiset{id};
    assert multiset(d.vm.pending) == multiset(c.vm.pending) + multiset{id};
    assert multiset(d.issued) == multiset(c.issued) + multiset{id};
    OneMore(multiset(ToolIds(c.vm.requests)), Held(c.jobs), multiset(ResultIds(c.replies)), id);
    OneMore(multiset(ToolIds(c.vm.requests)), Unsubmitted(c.jobs), multiset(Flatten(c.batches)), id);
  }

  lemma OneMore(asked: multiset<Id>, held: multiset<Id>, gone: multiset<Id>, id: Id)
    ensures (asked + multiset{id}) + held + gone == (asked + held + gone) + multiset{id}
    ensures gone + held + (asked + multiset{id}) == (gone + held + asked) + multiset{id}
  {
  }

  lemma RequestTimers(c: Cell, a: Action)
    requires TimersTracked(c)
    requires a.SetTimeout? || a.ClearTimeout? || a.CallTool?
    ensures TimersTracked(Scripted(c, a))
  {
    var d := Scripted(c, a);
    if d.vm.requests != c.vm.requests {
      var r := d.vm.requests[|c.vm.requests|];
      assert d.vm.requests == c.vm.requests + [r];
      HandleTimersAppend(c.timers, c.vm.requests, r);
      forall id | id in d.vm.timers
        ensures Fired(id) in d.replies || SleepsIn(HandleTimers(d.timers, d.vm.requests), id)
      {
        assert id in c.vm.timers || r == Timer(id);
      }
    }
  }

  lemma PendingIsIssued(c: Cell, id: Id)
    requires multiset(c.delivered) + multiset(c.vm.pending) == multiset(c.issued) && id in c.vm.pending
    ensures id in c.issued
  {
    assert id in multiset(c.vm.pending);
    assert id in multiset(c.delivered) + multiset(c.vm.pending);
    assert id in multiset(c.issued);
  }

  lemma IssuedOneMore(delivered: seq<Id>, pending: set<Id>, issued: set<Id>, id: Id)
    requires multiset(delivered) + multiset(pending) == multiset(issued) && id !in issued && id !in pending
    ensures multiset(delivered) + multiset(pending + {id}) == multiset(issued + {id})
    ensures multiset(issued) <= multiset(issued + {id})
  {
    assert multiset(pending + {id}) == multiset(pending) + multiset{id};
    assert multiset(issued + {id}) == multiset(issued) + multiset{id};
  }

  lemma CallToolKeeps(c: Cell, size: Size)
    requires Inv(c, size) && c.phase == Executing && !c.vm.done
    ensures Inv(Scripted(c, CallTool), size)
  {
    var d := Scripted(c, CallTool);
    var id := c.vm.sequence + 1;
    assert id !in c.issued;
    if id in c.vm.pending { PendingIsIssued(c, id); }
    CallToolLedger(c, id);
    RequestTimers(c, CallTool);
    IssuedOneMore(c.delivered, c.vm.pending, c.issued, id);
    assert BooksOk(d);
  }

  lemma TimerRequestKeeps(c: Cell, a: Action, size: Size)
    requires Inv(c, size) && c.phase == Executing && (a.SetTimeout? || a.ClearTimeout?)
    ensures Inv(Scripted(c, a), size)
  {
    var d := Scripted(c, a);
    var r := if a.SetTimeout? then Timer(d.vm.sequence) else CancelTimer(a.id);
    ToolIdsAppend(c.vm.requests, r);
    assert ToolIds(c.vm.requests + [r]) == ToolIds(c.vm.requests);
    RequestTimers(c, a);
    assert BooksOk(d);
  }

  lemma EmitLedger(c: Cell, entry: Entry)
    requires Ledger(c) && TimersTracked(c)
    ensures Ledger(Scripted(c, Emit(entry))) && TimersTracked(Scripted(c, Emit(entry)))
  {
    var d := Scripted(c, Emit(entry));
    assert d == c.(vm := d.vm, emitted := d.emitted);
    assert d.vm.requests == c.vm.requests && d.vm.pending == c.vm.pending && d.vm.timers == c.vm.timers;
  }

  lemma EmitOutput(c: Cell, entry: Entry)
    requires OutputOk(c) && c.phase == Executing
    ensures OutputOk(Scripted(c, Emit(entry)))
  {
    assert c.returned + c.buffer + (c.vm.output + [entry]) == c.returned + c.buffer + c.vm.output + [entry];
  }

  lemma EmitKeeps(c: Cell, entry: Entry, size: Size)
    requires Inv(c, size) && c.phase == Executing
    ensures Inv(Scripted(c, Emit(entry)), size)
  {
    EmitLedger(c, entry);
    EmitOutput(c, entry);
  }

  lemma StorageActionKeeps(c: Cell, u: Update, size: Size)
    requires Inv(c, size) && c.phase == Executing
    ensures Inv(Scripted(c, Put(u)), size)
  {
    ApplyOneMore(c.store.values, c.vm.updates, u);
  }

  lemma ScriptKeeps(c: Cell, a: Action, size: Size)
    requires Inv(c, size) && c.phase == Executing
    ensures Inv(Scripted(c, a), size)
  {
    match a {
      case CallTool => if !c.vm.done { CallToolKeeps(c, size); }
      case SetTimeout => TimerRequestKeeps(c, a, size);
      case ClearTimeout(_) => TimerRequestKeeps(c, a, size);
      case Put(u) => StorageActionKeeps(c, u, size);
      case Emit(entry) => EmitKeeps(c, entry, size);
      case _ =>
    }
  }

  lemma FlattenOneMore(batches: seq<seq<Id>>, b: seq<Id>)
    ensures Flatten(batches + [b]) == Flatten(batches) + b
  {
    assert (batches + [b])[..|batches|] == batches;
  }

  lemma SubmitLedger(c: Cell, j: int)
    requires Ledger(c) && JobIs(c, j, Active) && c.jobs[j].batch == []
    ensures Ledger(Submitted(c, j))
  {
    var d := Submitted(c, j);
    var job, next := c.jobs[j], d.jobs[j];
    assert job.waiting == next.batch + next.waiting;
    assert JobIds(next) == JobIds(job);
    var others, unsubmitted := HeldUpdate(c.jobs, j, next);
    assert InOnePlace(d);
    FlattenOneMore(c.batches, next.batch);
    assert multiset(Flatten(d.batches)) == multiset(Flatten(c.batches)) + multiset(next.batch);
    assert InOneBatch(d);
  }

  lemma TakeOut(ids: seq<Id>, at: int)
    requires 0 <= at < |ids|
    ensures multiset(ids) == multiset(ids[..at] + ids[at + 1..]) + multiset{ids[at]}
  {
    assert ids == ids[..at] + [ids[at]] + ids[at + 1..];
  }

  lemma MoveOne(rest: multiset<Id>, others: multiset<Id>, held: multiset<Id>, replied: multiset<Id>, id: Id)
    ensures rest + (others + (held + multiset{id})) + replied == rest + (others + held) + (replied + multiset{id})
  {
  }

  lemma AnswerLedger(c: Cell, j: int, at: int)
    requires Ledger(c) && JobIs(c, j, Active) && 0 <= at < |c.jobs[j].batch|
    ensures Ledger(Replied(c, j, at))
  {
    var job := c.jobs[j];
    var next := WithoutCall(job, at);
    TakeOut(job.batch, at);
    assert JobIds(job) == JobIds(next) + multiset{job.batch[at]};
    var others, unsubmitted := HeldUpdate(c.jobs, j, next);
    ResultIdsAppend(c.replies, Result(job.batch[at]));
    MoveOne(multiset(ToolIds(c.vm.requests)), others, JobIds(next), multiset(ResultIds(c.replies)), job.batch[at]);
  }

  lemma ProgressLedger(c: Cell, j: int, p: Progress)
    requires Ledger(c) && JobIs(c, j, Active)
    requires p == Done ==> c.jobs[j].batch == [] && c.jobs[j].waiting == []
    ensures Ledger(WithJob(c, j, c.jobs[j].(progress := p)))
  {
    var others, unsubmitted := HeldUpdate(c.jobs, j, c.jobs[j].(progress := p));
  }

  lemma FireLedger(c: Cell, id: Id, timers: map<Id, TimerTask>)
    requires Ledger(c)
    ensures Ledger(c.(timers := timers, replies := c.replies + [Fired(id)]))
  {
    ResultIdsAppend(c.replies, Fired(id));
    assert ResultIds(c.replies) + [] == ResultIds(c.replies);
  }

  lemma TimerTaskTracked(c: Cell, d: Cell, id: Id)
    requires TimersTracked(c) && id in c.timers && id in d.timers
    requires d.vm == c.vm && d.timers == c.timers[id := d.timers[id]] && d.timers[id] != Sleeping
    requires (forall r | r in c.replies :: r in d.replies) && (c.timers[id] == Sleeping ==> Fired(id) in d.replies)
    ensures TimersTracked(d)
  {
    forall other | other in d.vm.timers
      ensures Fired(other) in d.replies || SleepsIn(HandleTimers(d.timers, d.vm.requests), other)
    {
      if other != id || c.timers[id] != Sleeping { SleepIsLocal(c.timers, d.timers, c.vm.requests, other); }
    }
  }

  lemma TaskFrame(c: Cell, d: Cell, size: Size)
    requires Inv(c, size) && !c.phase.Ended?
    requires d == c.(jobs := d.jobs, replies := d.replies, timers := d.timers)
    requires Ledger(d) && TimersTracked(d)
    ensures Inv(d, size)
  {
  }

  lemma SubmitKeeps(c: Cell, j: int, size: Size)
    requires Inv(c, size) && JobIs(c, j, Active) && c.jobs[j].batch == []
    ensures Inv(Submitted(c, j), size)
  {
    var d := Submitted(c, j);
    SubmitLedger(c, j);
    assert multiset(Flatten(d.batches)) <= multiset(d.issued);
    assert BooksOk(d);
  }

  lemma AnswerKeeps(c: Cell, j: int, at: int, size: Size)
    requires Inv(c, size) && JobIs(c, j, Active) && 0 <= at < |c.jobs[j].batch|
    ensures Inv(Replied(c, j, at), size)
  {
    AnswerLedger(c, j, at);
    TaskFrame(c, Replied(c, j, at), size);
  }

  lemma ProgressKeeps(c: Cell, j: int, p: Progress, size: Size)
    requires Inv(c, size) && JobIs(c, j, Active)
    requires p == Done ==> c.jobs[j].batch == [] && c.jobs[j].waiting == []
    ensures Inv(WithJob(c, j, c.jobs[j].(progress := p)), size)
  {
    ProgressLedger(c, j, p);
    TaskFrame(c, WithJob(c, j, c.jobs[j].(progress := p)), size);
  }

  lemma FireKeeps(c: Cell, id: Id, size: Size)
    requires Inv(c, size) && TimerIs(c, id, Sleeping)
    ensures Inv(c.(timers := c.timers[id := Finished], replies := c.replies + [Fired(id)]), size)
  {
    var d := c.(timers := c.timers[id := Finished], replies := c.replies + [Fired(id)]);
    FireLedger(c, id, d.timers);
    TimerTaskTracked(c, d, id);
    TaskFrame(c, d, size);
  }

  lemma TimerEndKeeps(c: Cell, id: Id, size: Size)
    requires Inv(c, size) && TimerIs(c, id, Cancelling)
    ensures Inv(c.(timers := c.timers[id := Cancelled]), size)
  {
    var d := c.(timers := c.timers[id := Cancelled]);
    TimerTaskTracked(c, d, id);
    TaskFrame(c, d, size);
  }

  lemma DeliverKeeps(c: Cell, size: Size)
    requires Inv(c, size) && !c.phase.Ended?
    ensures Inv(DeliverReplies(c), size)
  {
    var d := DeliverReplies(c);
    DeliverTables(c.vm, c.replies);
    var ids := ResultIds(c.replies);
    assert multiset(ids) <= multiset(c.vm.pending);
    assert multiset(d.vm.pending) == multiset(c.vm.pending) - multiset(ids);
    assert Ledger(d);
    assert TimersTracked(d);
  }

  // ---------------------------------------------------------------------
  // The host loop
  // ---------------------------------------------------------------------

  lemma JobsAfterHold(c: Cell)
    requires DoneJobsEmpty(c.jobs)
    ensures Held(JobsAfter(c)) == Held(c.jobs) + multiset(ToolIds(c.vm.requests))
    ensures Unsubmitted(JobsAfter(c)) == Unsubmitted(c.jobs) + multiset(ToolIds(c.vm.requests))
    ensures DoneJobsEmpty(JobsAfter(c))
  {
    hide Held, Unsubmitted;
    var job := Job(ToolIds(c.vm.requests), [], Active);
    HeldAppend(c.jobs, job);
    assert JobIds(job) == multiset(job.waiting);
  }

  lemma DispatchLedger(c: Cell, size: Size)
    requires Ledger(c)
    ensures Ledger(Dispatched(c, size))
  {
    hide Held;
    var d := Dispatched(c, size);
    JobsAfterHold(c);
    HeldWithoutDone(JobsAfter(c));
    assert multiset(ToolIds(d.vm.requests)) == multiset{};
    assert InOnePlace(d) && InOneBatch(d);
  }

  lemma DispatchTimers(c: Cell, size: Size)
    requires TimersTracked(c)
    ensures TimersTracked(Dispatched(c, size))
  {
    var d := Dispatched(c, size);
    assert HandleTimers(d.timers, d.vm.requests) == d.timers;
  }

  lemma DispatchStorage(c: Cell, size: Size)
    requires StorageOk(c, size) && c.phase == Executing && PutAll(c.store, c.vm.updates, size).1
    ensures StorageOk(Dispatched(c, size), size)
  {
    PutAllKeeps(c.store, c.vm.updates, size);
    var d := Dispatched(c, size);
    assert ApplyAll(d.store.values, d.vm.updates) == d.store.values;
  }

  lemma DispatchOutput(c: Cell, size: Size)
    requires OutputOk(c)
    ensures OutputOk(Dispatched(c, size))
  {
    assert c.returned + (c.buffer + c.vm.output) + [] == c.returned + c.buffer + c.vm.output;
  }

  lemma DispatchKeeps(c: Cell, size: Size)
    requires Inv(c, size) && c.phase == Executing && PutAll(c.store, c.vm.updates, size).1
    ensures Inv(Dispatched(c, size), size)
  {
    DispatchLedger(c, size);
    DispatchTimers(c, size);
    DispatchStorage(c, size);
    DispatchOutput(c, size);
    assert BooksOk(Dispatched(c, size));
  }

  /** The host gives up on a promise only when neither table of the VM has anything left. */
  lemma UnresolvedMeansNothingPending(d: Cell)
    requires Ledger(d) && TimersTracked(d)
    requires d.vm.requests == [] && d.replies == [] && d.jobs == [] && ActiveTimers(d.timers) == {}
    ensures d.vm.pending == {} && d.vm.timers == {}
  {
    assert multiset(d.vm.pending) == multiset{};
    forall id ensures id !in d.vm.pending {
      assert id !in multiset(d.vm.pending);
    }
    assert HandleTimers(d.timers, d.vm.requests) == d.timers;
    assert d.vm.timers <= ActiveTimers(d.timers);
  }

  lemma PacketKeeps(c: Cell, more: bool, size: Size)
    requires Inv(c, size) && c.phase == Executing
    ensures Inv(HandlePacket(c, more, size), size)
  {
    var (store, ok) := PutAll(c.store, c.vm.updates, size);
    assert c.returned + (c.buffer + c.vm.output) + [] == c.returned + c.buffer + c.vm.output;
    PutAllKeeps(c.store, c.vm.updates, size);
    if ok {
      if c.vm.done {
        assert c.vm.storage == ApplyAll(store.values, []);
      } else {
        var d := Dispatched(c, size);
        DispatchKeeps(c, size);
        if !AnyFailed(JobsAfter(c)) {
          if d.replies != [] {
            DeliverKeeps(d, size);
          } else if d.jobs == [] && ActiveTimers(d.timers) == {} {
            UnresolvedMeansNothingPending(d);
          }
        }
      }
    }
  }

  lemma EndKeeps(c: Cell, verdict: Verdict, size: Size)
    requires Inv(c, size) && !c.phase.Ended? && verdict in {ToolError, Terminated, TimerCancelled, VmError}
    ensures Inv(c.(phase := Ended(verdict)), size)
  {
  }

  lemma ResumeKeeps(c: Cell, got: bool, size: Size)
    requires Inv(c, size) && c.phase.Waiting?
    ensures Inv(Resumed(c, got), size)
  {
    if Resumed(c, got) == DeliverReplies(c) {
      DeliverKeeps(c, size);
    } else if !got && AnyFailed(c.jobs) {
      EndKeeps(c, ToolError, size);
    } else if !got && AnyTimer(c, c.phase.timers, Cancelled) {
      EndKeeps(c, TimerCancelled, size);
    }
  }

  lemma CollectKeeps(c: Cell, size: Size)
    requires Inv(c, size)
    ensures Inv(c.(returned := c.returned + c.buffer, buffer := []), size)
  {
    assert c.returned + c.buffer + [] + c.vm.output == c.returned + c.buffer + c.vm.output;
  }

  lemma StepKeeps(c: Cell, e: Event, size: Size)
    requires Inv(c, size)
    ensures Inv(Step(c, e, size), size)
  {
    if Step(c, e, size) != c {
      match e {
        case Script(a) => ScriptKeeps(c, a, size);
        case Drain(more) => PacketKeeps(c, more, size);
        case Submit(j) => SubmitKeeps(c, j, size);
        case Answer(j, at) => AnswerKeeps(c, j, at, size);
        case EndJob(j) => ProgressKeeps(c, j, Done, size);
        case FailJob(j) => ProgressKeeps(c, j, Failed, size);
        case Fire(id) => FireKeeps(c, id, size);
        case TimerEnds(id) => TimerEndKeeps(c, id, size);
        case Resume(got) => ResumeKeeps(c, got, size);
        case Collect => CollectKeeps(c, size);
        case Terminate => EndKeeps(c, Terminated, size);
        case FailVm => EndKeeps(c, VmError, size);
      }
    }
  }

  lemma {:induction false} AfterKeeps(c: Cell, events: seq<Event>, size: Size)
    requires Inv(c, size)
    ensures Inv(After(c, events, size), size)
    decreases |events|
  {
    if events != [] {
      StepKeeps(c, events[0], size);
      AfterKeeps(Step(c, events[0], size), events[1..], size);
    }
  }

  lemma StartInv(store: Store, size: Size)
    requires StoreInv(store, size)
    ensures Inv(Start(store), size)
  {
    var c := Start(store);
    assert multiset(ToolIds([])) == multiset{} && multiset(Flatten([])) == multiset{};
    assert Held([]) == multiset{} && Unsubmitted([]) == multiset{};
    assert multiset(c.vm.pending) == multiset{} && multiset(c.issued) == multiset{};
  }

  // ---------------------------------------------------------------------
  // What holds in every run
  // ---------------------------------------------------------------------

  function Run(store: Store, events: seq<Event>, size: Size): Cell { After(Start(store), events, size) }

  lemma RunInv(store: Store, events: seq<Event>, size: Size)
    requires StoreInv(store, size)
    ensures Inv(Run(store, events, size), size)
  {
    StartInv(store, size);
    AfterKeeps(Start(store), events, size);
  }

  lemma CountInSet(s: set<Id>, id: Id)
    ensures multiset(s)[id] == if id in s then 1 else 0
  {
  }

  /** Each tool request is submitted in at most one batch of at most ten, and answered at most once. */
  lemma RequestsRunAndAnswerAtMostOnce(store: Store, events: seq<Event>, size: Size, id: Id)
    requires StoreInv(store, size)
    ensures var c := Run(store, events, size);
            && multiset(Flatten(c.batches))[id] <= 1 && multiset(c.delivered)[id] <= 1
            && (id in Flatten(c.batches) ==> id in c.issued)
            && forall b | b in c.batches :: |b| <= 10
  {
    RunInv(store, events, size);
    var c := Run(store, events, size);
    CountInSet(c.issued, id);
    assert multiset(Flatten(c.batches))[id] <= multiset(c.issued)[id];
    assert (multiset(c.delivered) + multiset(c.vm.pending))[id] == multiset(c.issued)[id];
  }

  /** The VM's table holds what was issued and not delivered, so a finished cell's `discarded_calls` is exact. */
  lemma DiscardedCallsAreExact(store: Store, events: seq<Event>, size: Size)
    requires StoreInv(store, size)
    ensures var c := Run(store, events, size);
            && |c.vm.pending| == |c.issued| - |c.delivered|
            && (c.phase in {Ended(Completed), Ended(ScriptFailed)} ==> c.discarded == |c.issued| - |c.delivered|)
  {
    RunInv(store, events, size);
    var c := Run(store, events, size);
    assert |multiset(c.delivered) + multiset(c.vm.pending)| == |c.delivered| + |c.vm.pending|;
    assert |multiset(c.issued)| == |c.issued|;
  }

  /** "Unresolved promise" is raised only when every tool call has been answered and no timer is left to fire. */
  lemma UnresolvedOnlyWhenNothingCanSettle(store: Store, events: seq<Event>, size: Size)
    requires StoreInv(store, size)
    ensures var c := Run(store, events, size);
            c.phase == Ended(Unresolved) ==>
              && c.vm.pending == {} && c.vm.timers == {} && c.replies == []
              && multiset(c.delivered) == multiset(c.issued)
  {
    RunInv(store, events, size);
    var c := Run(store, events, size);
    if c.phase == Ended(Unresolved) {
      assert multiset(c.vm.pending) == multiset{};
    }
  }

  datatype Kind = TextKind | ImageKind | AudioKind

  function KindOf(e: Entry): Kind {
    match e
    case Text(_) => TextKind
    case Image(_) => ImageKind
    case Audio(_) => AudioKind
  }

  /** The entries of one kind, as a `wait` report lists them. */
  function OfKind(entries: seq<Entry>, kind: Kind): seq<Entry>
    decreases |entries|
  {
    if entries == [] then []
    else if KindOf(entries[0]) == kind then [entries[0]] + OfKind(entries[1..], kind)
    else OfKind(entries[1..], kind)
  }

  lemma {:induction false} OfKindConcat(a: seq<Entry>, b: seq<Entry>, kind: Kind)
    ensures OfKind(a + b, kind) == OfKind(a, kind) + OfKind(b, kind)
    decreases |a|
  {
    if a == [] {
      assert a + b == b;
    } else {
      assert (a + b)[0] == a[0] && (a + b)[1..] == a[1..] + b;
      OfKindConcat(a[1..], b, kind);
    }
  }

  /**
   * What the waits have returned, the buffer, and what the VM still holds are
   * the emitted output, once and in order, for every kind of entry; a finished
   * script has nothing left in the VM.
   */
  lemma OutputReturnedOnceInOrder(store: Store, events: seq<Event>, size: Size, kind: Kind)
    requires StoreInv(store, size)
    ensures var c := Run(store, events, size);
            && c.emitted == c.returned + c.buffer + c.vm.output
            && OfKind(c.emitted, kind) == OfKind(c.returned, kind) + OfKind(c.buffer, kind) + OfKind(c.vm.output, kind)
            && (c.phase in {Ended(Completed), Ended(ScriptFailed)} ==> c.emitted == c.returned + c.buffer)
  {
    RunInv(store, events, size);
    var c := Run(store, events, size);
    OfKindConcat(c.returned, c.buffer, kind);
    OfKindConcat(c.returned + c.buffer, c.vm.output, kind);
    assert c.returned + c.buffer + [] == c.returned + c.buffer;
  }

  /** Between packets the host's store is the VM's storage, and its byte total is exact and within the limit. */
  lemma StoreMirrorsStorage(store: Store, events: seq<Event>, size: Size)
    requires StoreInv(store, size)
    ensures var c := Run(store, events, size);
            && c.store.bytes == Total(c.store.sizes) && c.store.bytes <= 8388608
            && (c.vm.updates == [] && c.phase != Ended(StoreFull) ==> c.store.values == c.vm.storage)
  {
    RunInv(store, events, size);
  }

  // ---------------------------------------------------------------------
  // Cancelled timers
  // ---------------------------------------------------------------------

  predicate Untouched(timers: map<Id, TimerTask>) {
    forall id | id in timers :: timers[id] == Sleeping || timers[id] == Finished
  }

  predicate NoCancels(requests: seq<Request>) {
    forall i | 0 <= i < |requests| :: !requests[i].CancelTimer?
  }

  predicate NoTimerCancelled(c: Cell) {
    NoCancels(c.vm.requests) && Untouched(c.timers) && c.phase != Ended(TimerCancelled)
  }

  lemma {:induction false} HandleTimersCancelsNone(timers: map<Id, TimerTask>, requests: seq<Request>)
    requires Untouched(timers) && NoCancels(requests)
    ensures Untouched(HandleTimers(timers, requests))
    decreases |requests|
  {
    if requests != [] {
      assert Untouched(HandleTimer(timers, requests[0]));
      HandleTimersCancelsNone(HandleTimer(timers, requests[0]), requests[1..]);
    }
  }

  lemma DeliverCancelsNone(c: Cell)
    requires NoTimerCancelled(c)
    ensures NoTimerCancelled(DeliverReplies(c))
  {
    DeliverTables(c.vm, c.replies);
  }

  lemma PacketCancelsNone(c: Cell, more: bool, size: Size)
    requires NoTimerCancelled(c)
    ensures NoTimerCancelled(HandlePacket(c, more, size))
  {
    HandleTimersCancelsNone(c.timers, c.vm.requests);
    var d := Dispatched(c, size);
    assert NoTimerCancelled(d);
    DeliverCancelsNone(d);
  }

  lemma CancelsNone(c: Cell, e: Event, size: Size)
    requires NoTimerCancelled(c) && !(e.Script? && e.action.ClearTimeout?)
    ensures NoTimerCancelled(Step(c, e, size))
  {
    match e
    case Drain(more) => PacketCancelsNone(c, more, size);
    case Resume(got) => DeliverCancelsNone(c);
    case _ =>
  }

  /** A script that never calls `clearTimeout` is never ended by a cancelled timer. */
  lemma {:induction false} OnlyClearTimeoutCancels(c: Cell, events: seq<Event>, size: Size)
    requires NoTimerCancelled(c)
    requires forall e | e in events :: !(e.Script? && e.action.ClearTimeout?)
    ensures NoTimerCancelled(After(c, events, size))
    decreases |events|
  {
    if events != [] {
      assert events[0] in events && forall e | e in events[1..] :: e in events;
      CancelsNone(c, events[0], size);
      OnlyClearTimeoutCancels(Step(c, events[0], size), events[1..], size);
    }
  }

  // ---------------------------------------------------------------------
  // Exactly when a cancelled timer ends a cell
  // ---------------------------------------------------------------------

  predicate CancellingIn(timers: map<Id, TimerTask>, id: Id) { id in timers && timers[id] == Cancelling }

  /** Request `i` clears a timer that is still asleep in the host, and no later one starts it again. */
  predicate ClearsSleeping(timers: map<Id, TimerTask>, requests: seq<Request>, id: Id, i: int) {
    && 0 <= i < |requests| && requests[i] == CancelTimer(id)
    && SleepsIn(HandleTimers(timers, requests[..i]), id)
    && Timer(id) !in requests[i + 1..]
  }

  /** A timer task is being cancelled after a packet if it was before, or if a request cleared it while it slept. */
  lemma {:induction false} CancellingIff(timers: map<Id, TimerTask>, requests: seq<Request>, id: Id)
    ensures CancellingIn(HandleTimers(timers, requests), id) <==>
            || (CancellingIn(timers, id) && Timer(id) !in requests)
            || exists i :: ClearsSleeping(timers, requests, id, i)
    decreases |requests|
  {
    if requests != [] {
      var n := |requests| - 1;
      var before, r := requests[..n], requests[n];
      assert requests == before + [r];
      CancellingIff(timers, before, id);
      HandleTimersAppend(timers, before, r);
      if i :| ClearsSleeping(timers, before, id, i) {
        assert requests[..i] == before[..i] && requests[i + 1..] == before[i + 1..] + [r];
        assert r != Timer(id) ==> ClearsSleeping(timers, requests, id, i);
      }
      if i :| ClearsSleeping(timers, requests, id, i) {
        if i < n {
          assert requests[..i] == before[..i] && requests[i + 1..] == before[i + 1..] + [r];
          assert ClearsSleeping(timers, before, id, i);
        }
      }
      if r == CancelTimer(id) && SleepsIn(HandleTimers(timers, before), id) {
        assert requests[n + 1..] == [] && ClearsSleeping(timers, requests, id, n);
      }
    }
  }

  /** Exactly one step ends a cell as cancelled by a timer: a wait without a reply that finds a cancelled one among those it awaits. */
  lemma EndsCancelledIff(c: Cell, e: Event, size: Size)
    requires c.phase != Ended(TimerCancelled)
    ensures Step(c, e, size).phase == Ended(TimerCancelled) <==>
            c.phase.Waiting? && e == Resume(false) && !AnyFailed(c.jobs) && AnyTimer(c, c.phase.timers, Cancelled)
  {
  }

  /** The steps that tasks of the host, or a wait for output, can take while the loop waits. */
  predicate TaskStep(e: Event) {
    e.Submit? || e.Answer? || e.EndJob? || e.FailJob? || e.Fire? || e.TimerEnds? || e.Collect?
  }

  predicate TaskSteps(events: seq<Event>) { forall e | e in events :: TaskStep(e) }

  /** Some timer that the loop waits for has been or is being cancelled. */
  predicate AwaitsCancelled(c: Cell)
    requires c.phase.Waiting?
  {
    AnyTimer(c, c.phase.timers, Cancelling) || AnyTimer(c, c.phase.timers, Cancelled)
  }

  lemma TaskStepKeeps(c: Cell, e: Event, size: Size)
    requires c.phase.Waiting? && TaskStep(e)
    ensures var d := Step(c, e, size);
            && d.phase == c.phase
            && (AnyFailed(c.jobs) ==> AnyFailed(d.jobs)) && (AwaitsCancelled(d) ==> AwaitsCancelled(c))
  {
    var d := Step(c, e, size);
    if AnyFailed(c.jobs) {
      var job :| job in c.jobs && job.progress == Failed;
      var i :| 0 <= i < |c.jobs| && c.jobs[i] == job;
      assert d.jobs[i] == job && d.jobs[i] in d.jobs;
    }
  }

  lemma {:induction false} TaskStepsKeep(c: Cell, events: seq<Event>, size: Size)
    requires c.phase.Waiting? && TaskSteps(events)
    ensures var d := After(c, events, size);
            && d.phase == c.phase
            && (AnyFailed(c.jobs) ==> AnyFailed(d.jobs)) && (AwaitsCancelled(d) ==> AwaitsCancelled(c))
    decreases |events|
  {
    if events != [] {
      assert events[0] in events && forall e | e in events[1..] :: e in events;
      TaskStepKeeps(c, events[0], size);
      TaskStepsKeep(Step(c, events[0], size), events[1..], size);
    }
  }

  lemma {:induction false} AfterOneMore(c: Cell, events: seq<Event>, e: Event, size: Size)
    ensures After(c, events + [e], size) == Step(After(c, events, size), e, size)
    decreases |events|
  {
    if events == [] {
      assert [] + [e] == [e] && [e][1..] == [];
      assert After(c, [e], size) == After(Step(c, e, size), [], size);
    } else {
      assert (events + [e])[0] == events[0] && (events + [e])[1..] == events[1..] + [e];
      AfterOneMore(Step(c, events[0], size), events[1..], e, size);
    }
  }

  /** The wait of the loop that `c` is in can end as cancelled, after what the tasks did in `events`. */
  ghost predicate WaitCancels(c: Cell, events: seq<Event>, size: Size) {
    TaskSteps(events) && After(c, events + [Resume(false)], size).phase == Ended(TimerCancelled)
  }

  /** A wait of the host loop can end the cell as cancelled exactly if it awaits a cancelled timer and no task has failed. */
  lemma WaitEndsCancelledIff(c: Cell, size: Size)
    requires c.phase.Waiting?
    ensures (exists events :: WaitCancels(c, events, size)) <==> AwaitsCancelled(c) && !AnyFailed(c.jobs)
  {
    if events :| WaitCancels(c, events, size) {
      TaskStepsKeep(c, events, size);
      AfterOneMore(c, events, Resume(false), size);
    }
    if AwaitsCancelled(c) && !AnyFailed(c.jobs) {
      if id :| id in c.phase.timers && id in c.timers && c.timers[id] == Cancelled {
        AfterOneMore(c, [], Resume(false), size);
        assert WaitCancels(c, [], size);
      } else {
        var id :| id in c.phase.timers && id in c.timers && c.timers[id] == Cancelling;
        var d := Step(c, TimerEnds(id), size);
        assert d.timers[id] == Cancelled && AnyTimer(d, d.phase.timers, Cancelled);
        AfterOneMore(c, [], TimerEnds(id), size);
        assert [] + [TimerEnds(id)] == [TimerEnds(id)];
        AfterOneMore(c, [TimerEnds(id)], Resume(false), size);
        assert WaitCancels(c, [TimerEnds(id)], size);
      }
    }
  }

  /** What the host has of a packet makes it wait, rather than end or deliver. */
  ghost predicate MakesItWait(c: Cell, size: Size) {
    PutAll(c.store, c.vm.updates, size).1 && !c.vm.done && c.replies == [] && !AnyFailed(JobsAfter(c))
  }

  lemma {:induction false} FailedStays(jobs: seq<Job>)
    ensures AnyFailed(WithoutDone(jobs)) == AnyFailed(jobs)
    decreases |jobs|
  {
    if jobs != [] {
      FailedStays(jobs[1..]);
      assert jobs == [jobs[0]] + jobs[1..];
      if jobs[0].progress != Done {
        assert WithoutDone(jobs) == [jobs[0]] + WithoutDone(jobs[1..]);
      }
    }
  }

  /** A `clearTimeout` of this or an earlier packet hit timer `id` while it slept, and it has not come to an end since. */
  ghost predicate BeingCancelled(c: Cell, id: Id) {
    || (CancellingIn(c.timers, id) && Timer(id) !in c.vm.requests)
    || exists i :: ClearsSleeping(c.timers, c.vm.requests, id, i)
  }

  /**
   * Main result: the wait that follows a packet can end the cell as cancelled,
   * although nobody stopped it, exactly if the packet makes the host wait while
   * a timer is being cancelled.
   */
  lemma PacketCancelsIff(c: Cell, size: Size)
    requires c.phase == Executing
    ensures (Step(c, Drain(false), size).phase.Waiting? && exists events :: WaitCancels(Step(c, Drain(false), size), events, size)) <==>
            MakesItWait(c, size) && exists id :: BeingCancelled(c, id)
  {
    var d := Step(c, Drain(false), size);
    var timers := HandleTimers(c.timers, c.vm.requests);
    forall id: Id
      ensures CancellingIn(timers, id) <==> BeingCancelled(c, id)
    {
      CancellingIff(c.timers, c.vm.requests, id);
    }
    FailedStays(JobsAfter(c));
    if d.phase.Waiting? {
      WaitEndsCancelledIff(d, size);
      assert d.timers == timers && d.phase.timers == ActiveTimers(timers) && MakesItWait(c, size);
      NewWaitAwaits(d);
    } else if id :| CancellingIn(timers, id) {
      assert id in ActiveTimers(timers);
    }
    assert (exists id :: BeingCancelled(c, id)) <==> exists id :: CancellingIn(timers, id);
  }

  /** When a wait begins, none of the timers it awaits has been cancelled yet. */
  lemma NewWaitAwaits(d: Cell)
    requires d.phase == Waiting(ActiveTimers(d.timers))
    ensures AwaitsCancelled(d) <==> exists id :: CancellingIn(d.timers, id)
  {
    if id :| CancellingIn(d.timers, id) {
      assert id in d.phase.timers;
    }
    assert !AnyTimer(d, d.phase.timers, Cancelled);
    if id :| id in d.phase.timers && id in d.timers && d.timers[id] == Cancelling {
      assert CancellingIn(d.timers, id);
    }
  }

  const CLEARED := [Script(SetTimeout), Script(CallTool), Script(ClearTimeout(1)), Drain(false), TimerEnds(1), Resume(false)]

  const AWAITING := Start(EMPTY).(
    vm := VM({2}, {}, [Timer(1), Tool(2), CancelTimer(1)], [], [], map[], 2, false, false, false, 0), issued := {2})

  lemma ClearedScript(size: Size)
    ensures Step(Step(Step(Start(EMPTY), Script(SetTimeout), size), Script(CallTool), size), Script(ClearTimeout(1)), size) == AWAITING
  {
    var c3 := Step(Step(Step(Start(EMPTY), Script(SetTimeout), size), Script(CallTool), size), Script(ClearTimeout(1)), size);
    assert c3.vm.requests == [Timer(1), Tool(2), CancelTimer(1)];
    assert c3.vm.timers == {} && c3.vm.pending == {2};
  }

  lemma ClearedPacket(size: Size)
    ensures var c := Step(AWAITING, Drain(false), size);
            c.phase == Waiting({1}) && c.timers == map[1 := Cancelling] && c.jobs == [Job([2], [], Active)]
  {
    var requests := AWAITING.vm.requests;
    assert requests[1..] == [Tool(2), CancelTimer(1)];
    assert [Tool(2), CancelTimer(1)][1..] == [CancelTimer(1)] && [CancelTimer(1)][1..] == [];
    assert ToolIds(requests) == ToolIds([Tool(2), CancelTimer(1)]) == [2] + ToolIds([CancelTimer(1)]) == [2] + ToolIds([]);
    assert HandleTimers(map[], requests) == HandleTimers(map[1 := Sleeping], [Tool(2), CancelTimer(1)]);
    assert HandleTimers(map[1 := Sleeping], [Tool(2), CancelTimer(1)]) == HandleTimers(map[1 := Sleeping], [CancelTimer(1)]);
    var cancelled := map[1 := Sleeping][1 := Cancelling];
    assert HandleTimers(map[1 := Sleeping], [CancelTimer(1)]) == HandleTimers(cancelled, []);
    assert cancelled == map[1 := Cancelling];
    assert ActiveTimers(cancelled) == {1};
    var job := Job([2], [], Active);
    assert [job][1..] == [] && WithoutDone([]) == [];
    assert WithoutDone([job]) == [job] + WithoutDone([job][1..]) == [job];
    assert ToolIds(requests) == [2];
    assert AWAITING.jobs + [job] == [job];
    assert !AnyFailed([job]);
  }

  /** But clearing one timer while awaiting a tool ends the cell as cancelled, although nobody stopped it. */
  lemma ClearTimeoutCanCancelTheCell(size: Size)
    ensures After(Start(EMPTY), CLEARED, size).phase == Ended(TimerCancelled)
  {
    ClearedScript(size);
    ClearedPacket(size);
    ClearedEnds(Step(AWAITING, Drain(false), size), size);
    AfterSix(Start(EMPTY), CLEARED, size);
  }

  lemma ClearedEnds(c: Cell, size: Size)
    requires c.phase == Waiting({1}) && c.timers == map[1 := Cancelling] && c.jobs == [Job([2], [], Active)]
    ensures Step(Step(c, TimerEnds(1), size), Resume(false), size).phase == Ended(TimerCancelled)
  {
    var d := Step(c, TimerEnds(1), size);
    assert 1 in d.phase.timers && 1 in d.timers && d.timers[1] == Cancelled;
    assert !AnyFailed(d.jobs);
  }

  lemma AfterSix(c: Cell, e: seq<Event>, size: Size)
    requires |e| == 6
    ensures After(c, e, size) ==
      Step(Step(Step(Step(Step(Step(c, e[0], size), e[1], size), e[2], size), e[3], size), e[4], size), e[5], size)
  {
    var c2 := Step(Step(c, e[0], size), e[1], size);
    assert After(c, e, size) == After(c2, e[1..][1..], size);
    var c4 := Step(Step(c2, e[2], size), e[3], size);
    assert e[1..][1..] == e[2..];
    assert After(c2, e[2..], size) == After(c4, e[2..][1..][1..], size);
    assert e[2..][1..][1..] == e[4..];
    var c6 := Step(Step(c4, e[4], size), e[5], size);
    assert After(c4, e[4..], size) == After(c6, e[4..][1..][1..], size);
    assert e[4..][1..][1..] == [];
  }
}
