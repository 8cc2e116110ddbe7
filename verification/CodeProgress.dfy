/** How the host loop of a code cell goes on: what it delivers, and that no wait is for nothing. */
module CodeProgress {
  import opened CodeCells
  import opened CodeStore
  import opened CodeVerdicts

  // ---------------------------------------------------------------------
  // Delivery
  // ---------------------------------------------------------------------

  lemma {:induction false} ResultsAre(replies: seq<Reply>)
    ensures forall id :: id in ResultIds(replies) <==> Result(id) in replies
    decreases |replies|
  {
    if replies != [] {
      ResultsAre(replies[1..]);
      assert replies == [replies[0]] + replies[1..];
    }
  }

  /** Every queued reply has reached the VM, which is running again. */
  ghost predicate AllDelivered(c: Cell, d: Cell) {
    && d.phase == Executing && d.replies == []
    && (forall id :: id in d.vm.pending <==> id in c.vm.pending && Result(id) !in c.replies)
    && (forall id :: id in d.vm.timers <==> id in c.vm.timers && Fired(id) !in c.replies)
    && d.delivered == c.delivered + ResultIds(c.replies)
    && d == c.(vm := c.vm.(pending := d.vm.pending, timers := d.vm.timers), replies := [], delivered := d.delivered, phase := Executing)
  }

  lemma DeliveryIs(c: Cell)
    ensures AllDelivered(c, DeliverReplies(c))
  {
    DeliverTables(c.vm, c.replies);
    ResultsAre(c.replies);
  }

  /** Some task of those that the loop waits for has come to its end. */
  ghost predicate SomeTaskEnded(c: Cell)
    requires c.phase.Waiting?
  {
    || (exists i :: 0 <= i < |c.jobs| && c.jobs[i].progress == Done)
    || exists id :: id in c.phase.timers && id in c.timers && c.timers[id] == Finished
  }

  /** A wait that is not ended by a failure delivers what is queued once a reply or the end of a task is there, and not before. */
  lemma ResumeIs(c: Cell, got: bool, size: Size)
    requires c.phase.Waiting? && (got ==> c.replies != [])
    requires !got ==> !SomeJobFailed(c) && forall id | id in c.phase.timers && id in c.timers :: c.timers[id] != Cancelled
    ensures var d := Step(c, Resume(got), size);
            if got || SomeTaskEnded(c) then AllDelivered(c, d) else d == c
  {
    DeliveryIs(c);
    FailedBefore(c);
    if j :| j in c.jobs && j.progress == Done { var i :| 0 <= i < |c.jobs| && c.jobs[i] == j; }
    if i :| 0 <= i < |c.jobs| && c.jobs[i].progress == Done { assert c.jobs[i] in c.jobs; }
  }

  /** A packet that does not end the cell is taken over, and then the VM runs on, gets its replies, or is waited for. */
  lemma PacketGoesOn(c: Cell, more: bool, size: Size)
    requires TakesPacket(c, Drain(more), size) && !c.vm.done && !SomeJobFailed(c)
    ensures var d := Step(c, Drain(more), size);
            var taken := Dispatched(c, size);
            && d.buffer == c.buffer + c.vm.output && d.emitted == c.emitted
            && d.vm.requests == [] && d.vm.output == [] && d.vm.updates == [] && !d.vm.yielded
            && d.timers == HandleTimers(c.timers, c.vm.requests)
            && (if more then d == taken && d.phase == Executing
                else if c.replies != [] then AllDelivered(taken, d)
                else if NothingToAwait(c) then d.phase == Ended(Unresolved)
                else d.phase.Waiting? && forall id :: id in d.phase.timers <==> id in d.timers && d.timers[id] in {Sleeping, Cancelling})
  {
    hide HandleTimers, WithoutDone, JobsAfter, PutAll, NothingToAwait;
    FailedBefore(c);
    var taken := Dispatched(c, size);
    DeliveryIs(taken);
    PacketEndsIff(c, more, size, Unresolved);
    assert EndsWith(c, Drain(more), size, Unresolved) <==> !more && NothingToAwait(c);
  }

  // ---------------------------------------------------------------------
  // No wait is for nothing
  // ---------------------------------------------------------------------

  /** A waiting loop has a task to wait for. */
  ghost predicate HasTask(c: Cell) {
    c.phase.Waiting? ==> c.jobs != [] || exists id :: id in c.phase.timers && id in c.timers
  }

  lemma HasTaskKept(c: Cell, e: Event, size: Size)
    requires HasTask(c)
    ensures HasTask(Step(c, e, size))
  {
    hide HandleTimers, WithoutDone, JobsAfter, PutAll, AnyFailed, AnyDone, AnyTimer, Deliver, Act;
    var d := Step(c, e, size);
    if d.phase.Waiting? {
      if c.phase.Waiting? {
        assert |d.jobs| == |c.jobs| && d.phase == c.phase && d.timers.Keys == c.timers.Keys;
      } else {
        assert d.phase.timers == ActiveTimers(d.timers);
        if d.jobs == [] { NoneActive(d.timers); SomeActive(d.timers); }
      }
    }
  }

  lemma SomeActive(timers: map<Id, TimerTask>)
    ensures ActiveTimers(timers) != {} ==> exists id :: id in ActiveTimers(timers) && id in timers
  {
    if id :| id in ActiveTimers(timers) { assert id in timers; }
  }

  lemma {:induction false} HasTaskAfter(c: Cell, events: seq<Event>, size: Size)
    requires HasTask(c)
    ensures HasTask(After(c, events, size))
    decreases |events|
  {
    if events != [] {
      HasTaskKept(c, events[0], size);
      HasTaskAfter(Step(c, events[0], size), events[1..], size);
    }
  }

  lemma TaskThenRest(c: Cell, e: Event, rest: seq<Event>, size: Size)
    requires TaskStep(e) && TaskSteps(rest)
    ensures TaskSteps([e] + rest) && After(c, [e] + rest, size) == After(Step(c, e, size), rest, size)
  {
    assert ([e] + rest)[1..] == rest;
  }

  /** A dispatch task submits and gets its answers until it is done. */
  lemma {:induction false} JobCanEnd(c: Cell, size: Size) returns (events: seq<Event>)
    requires c.phase.Waiting? && c.jobs != [] && c.jobs[0].progress == Active
    ensures TaskSteps(events)
    ensures var d := After(c, events, size);
            d.phase == c.phase && d.jobs != [] && d.jobs[0].progress == Done && d.timers == c.timers
    decreases |c.jobs[0].waiting|, |c.jobs[0].batch|
  {
    var job := c.jobs[0];
    if job.batch != [] {
      var rest := JobCanEnd(Step(c, Answer(0, 0), size), size);
      events := [Answer(0, 0)] + rest;
      TaskThenRest(c, Answer(0, 0), rest, size);
    } else if job.waiting != [] {
      var rest := JobCanEnd(Step(c, Submit(0), size), size);
      events := [Submit(0)] + rest;
      TaskThenRest(c, Submit(0), rest, size);
    } else {
      events := [EndJob(0)];
      TaskThenRest(c, EndJob(0), [], size);
      assert [EndJob(0)] + [] == [EndJob(0)];
    }
  }

  /** A timer fires or comes to its end. */
  lemma TimerCanEnd(c: Cell, id: Id, size: Size) returns (events: seq<Event>)
    requires c.phase.Waiting? && id in c.timers
    ensures TaskSteps(events)
    ensures var d := After(c, events, size);
            d.phase == c.phase && id in d.timers && d.timers[id] in {Finished, Cancelled} && d.jobs == c.jobs
  {
    match c.timers[id] {
      case Sleeping => events := [Fire(id)]; TaskThenRest(c, Fire(id), [], size); assert [Fire(id)] + [] == [Fire(id)];
      case Cancelling => events := [TimerEnds(id)]; TaskThenRest(c, TimerEnds(id), [], size); assert [TimerEnds(id)] + [] == [TimerEnds(id)];
      case Finished => events := [];
      case Cancelled => events := [];
    }
  }

  lemma WaitIsOver(c: Cell, size: Size)
    requires c.phase.Waiting?
    requires (c.jobs != [] && c.jobs[0].progress in {Done, Failed})
             || exists id :: id in c.phase.timers && id in c.timers && c.timers[id] in {Finished, Cancelled}
    ensures !Step(c, Resume(false), size).phase.Waiting?
  {
    if c.jobs != [] && c.jobs[0].progress in {Done, Failed} {
      assert c.jobs[0] in c.jobs;
    } else {
      var id :| id in c.phase.timers && id in c.timers && c.timers[id] in {Finished, Cancelled};
    }
  }

  /**
   * Main result: in every run, a waiting host loop can go on by its own tasks
   * alone; it never waits for something that cannot come.
   */
  lemma EveryWaitCanEnd(store: Store, events: seq<Event>, size: Size) returns (more: seq<Event>)
    requires Run(store, events, size).phase.Waiting?
    ensures TaskSteps(more)
    ensures !Step(After(Run(store, events, size), more, size), Resume(false), size).phase.Waiting?
  {
    HasTaskAfter(Start(store), events, size);
    var c := Run(store, events, size);
    if c.jobs != [] {
      match c.jobs[0].progress {
        case Active => more := JobCanEnd(c, size);
        case Done => more := [];
        case Failed => more := [];
      }
    } else {
      var id :| id in c.phase.timers && id in c.timers;
      more := TimerCanEnd(c, id, size);
    }
    WaitIsOver(After(c, more, size), size);
  }

  /** A tool batch that fails ends the cell at the next look of the waiting loop. */
  lemma FailedTaskEndsTheCell(c: Cell, j: int, size: Size)
    requires c.phase.Waiting? && 0 <= j < |c.jobs| && c.jobs[j].progress == Active
    ensures Step(Step(c, FailJob(j), size), Resume(false), size).phase == Ended(ToolError)
  {
    var d := Step(c, FailJob(j), size);
    assert d.jobs[j] in d.jobs && d.jobs[j].progress == Failed;
  }

  /** Whoever collects the output gets all of it, and leaves none. */
  lemma CollectIs(c: Cell, size: Size)
    ensures Step(c, Collect, size) == c.(returned := c.returned + c.buffer, buffer := [])
    ensures Step(Step(c, Collect, size), Collect, size) == Step(c, Collect, size)
  {
    assert c.returned + c.buffer + [] == c.returned + c.buffer;
  }

  // ---------------------------------------------------------------------
  // What the script puts in
  // ---------------------------------------------------------------------

  function TextSize(entry: Entry): nat { if entry.Text? then |entry.text| else 0 }

  function TextTotal(entries: seq<Entry>): nat
    decreases |entries|
  {
    if entries == [] then 0 else TextTotal(entries[..|entries| - 1]) + TextSize(entries[|entries| - 1])
  }

  /** What is put out counts first; a text that takes the count past a million characters, and anything after the end, is dropped. */
  lemma EmitIs(vm: VM, entry: Entry)
    ensures var v := Act(vm, Emit(entry));
            if vm.done then v == vm
            else
              && v.outputSize == vm.outputSize + TextSize(entry)
              && v.output == (if entry.Text? && v.outputSize > 1048576 then vm.output else vm.output + [entry])
              && v == vm.(outputSize := v.outputSize, output := v.output)
  {
  }

  /** Every request and timer gets the next number; a timer is known until it is cleared. */
  lemma RequestsAre(vm: VM, id: Id)
    ensures var v := Act(vm, SetTimeout);
            v == vm.(sequence := vm.sequence + 1, timers := vm.timers + {vm.sequence + 1}, requests := vm.requests + [Timer(vm.sequence + 1)])
    ensures var v := Act(vm, CallTool);
            if vm.done then v == vm
            else v == vm.(sequence := vm.sequence + 1, pending := vm.pending + {vm.sequence + 1}, requests := vm.requests + [Tool(vm.sequence + 1)])
    ensures var v := Act(vm, ClearTimeout(id));
            v == vm.(timers := vm.timers - {id}, requests := vm.requests + [CancelTimer(id)])
    ensures Act(vm, Yield).yielded
  {
  }

  ghost predicate TextOk(c: Cell) {
    TextTotal(c.emitted) <= c.vm.outputSize && TextTotal(c.emitted) <= 1048576
  }

  lemma TextStep(c: Cell, e: Event, size: Size)
    requires TextOk(c)
    ensures TextOk(Step(c, e, size))
  {
    hide HandlePacket, DeliverReplies, Resumed, FirstBatch;
    HostLeavesText(c, e.Drain? && e.more, size);
    if e.Script? && e.action.Emit? && c.phase == Executing {
      var more := e.action.entry;
      EmitIs(c.vm, more);
      assert (c.emitted + [more])[..|c.emitted|] == c.emitted;
    }
  }

  lemma HostLeavesText(c: Cell, more: bool, size: Size)
    ensures DeliverReplies(c).vm.outputSize == c.vm.outputSize && DeliverReplies(c).emitted == c.emitted
    ensures HandlePacket(c, more, size).vm.outputSize == c.vm.outputSize && HandlePacket(c, more, size).emitted == c.emitted
    ensures c.phase.Waiting? ==> forall got :: Resumed(c, got).vm.outputSize == c.vm.outputSize && Resumed(c, got).emitted == c.emitted
  {
    hide HandleTimers, WithoutDone, PutAll, ToolIds, AnyFailed, ActiveTimers;
    DeliverTables(c.vm, c.replies);
    DeliverTables(Dispatched(c, size).vm, c.replies);
  }

  /** In every run the texts that a script gets out come to at most 1048576 characters. */
  lemma TextWithinLimit(store: Store, events: seq<Event>, size: Size)
    ensures TextTotal(Run(store, events, size).emitted) <= 1048576
  {
    TextAfter(Start(store), events, size);
  }

  lemma {:induction false} TextAfter(c: Cell, events: seq<Event>, size: Size)
    requires TextOk(c)
    ensures TextOk(After(c, events, size))
    decreases |events|
  {
    if events != [] {
      TextStep(c, events[0], size);
      TextAfter(Step(c, events[0], size), events[1..], size);
    }
  }
}
