/** When and why a cell ends, read off the events of its run. */
module CodeVerdicts {
  import opened CodeCells
  import opened CodeStore

  /** The host takes over a packet whose updates fit the store. */
  ghost predicate TakesPacket(c: Cell, e: Event, size: Size) {
    c.phase == Executing && e.Drain? && PutAll(c.store, c.vm.updates, size).1
  }

  /** No reply, task or timer is left that could still settle a promise. */
  ghost predicate NothingToAwait(c: Cell) {
    && c.replies == []
    && (forall j | j in c.jobs :: j.progress == Done)
    && (forall r | r in c.vm.requests :: !r.Tool?)
    && forall id | id in HandleTimers(c.timers, c.vm.requests) :: HandleTimers(c.timers, c.vm.requests)[id] in {Finished, Cancelled}
  }

  ghost predicate SomeJobFailed(c: Cell) { exists i :: 0 <= i < |c.jobs| && c.jobs[i].progress == Failed }

  /** The event ends the running cell `c` with the verdict. */
  ghost predicate EndsWith(c: Cell, e: Event, size: Size, verdict: Verdict) {
    match verdict
    case Completed => TakesPacket(c, e, size) && c.vm.done && !c.vm.failed
    case ScriptFailed => TakesPacket(c, e, size) && c.vm.done && c.vm.failed
    case Unresolved => TakesPacket(c, e, size) && !e.more && !c.vm.done && NothingToAwait(c)
    case StoreFull => c.phase == Executing && e.Drain? && !PutAll(c.store, c.vm.updates, size).1
    case ToolError => SomeJobFailed(c) && ((TakesPacket(c, e, size) && !c.vm.done) || (c.phase.Waiting? && e == Resume(false)))
    case TimerCancelled =>
      && c.phase.Waiting? && e == Resume(false) && !SomeJobFailed(c)
      && exists id :: id in c.phase.timers && id in c.timers && c.timers[id] == Cancelled
    case Terminated => e == Terminate
    case VmError => c.phase == Executing && e == FailVm
  }

  lemma {:induction false} NoTools(requests: seq<Request>)
    ensures ToolIds(requests) == [] <==> forall r | r in requests :: !r.Tool?
    decreases |requests|
  {
    if requests != [] {
      NoTools(requests[1..]);
      assert requests == [requests[0]] + requests[1..];
    }
  }

  lemma {:induction false} AllDone(jobs: seq<Job>)
    ensures WithoutDone(jobs) == [] <==> forall j | j in jobs :: j.progress == Done
    decreases |jobs|
  {
    if jobs != [] {
      AllDone(jobs[1..]);
      assert jobs == [jobs[0]] + jobs[1..];
    }
  }

  /** A dispatch task that was just started has not failed. */
  lemma FailedBefore(c: Cell)
    ensures AnyFailed(JobsAfter(c)) <==> SomeJobFailed(c)
    ensures AnyFailed(c.jobs) <==> SomeJobFailed(c)
    ensures (forall j | j in JobsAfter(c) :: j.progress == Done) <==>
            ToolIds(c.vm.requests) == [] && forall j | j in c.jobs :: j.progress == Done
  {
    var tools := ToolIds(c.vm.requests);
    if tools != [] { assert Job(tools, [], Active) in JobsAfter(c); }
    if i :| 0 <= i < |c.jobs| && c.jobs[i].progress == Failed {
      assert c.jobs[i] in c.jobs && c.jobs[i] in JobsAfter(c);
    }
  }

  lemma NoneActive(timers: map<Id, TimerTask>)
    ensures ActiveTimers(timers) == {} <==> forall id | id in timers :: timers[id] in {Finished, Cancelled}
  {
    forall id | id in timers
      ensures timers[id] in {Finished, Cancelled} <==> id !in ActiveTimers(timers)
    {
      assert timers[id] in {Sleeping, Cancelling} <==> timers[id] !in {Finished, Cancelled} by {
        match timers[id] {
          case Sleeping =>
          case Cancelling =>
          case Finished =>
          case Cancelled =>
        }
      }
    }
  }

  lemma PacketEndsIff(c: Cell, more: bool, size: Size, verdict: Verdict)
    requires c.phase == Executing
    ensures HandlePacket(c, more, size).phase == Ended(verdict) <==> EndsWith(c, Drain(more), size, verdict)
  {
    NoTools(c.vm.requests);
    AllDone(JobsAfter(c));
    FailedBefore(c);
    var timers := HandleTimers(c.timers, c.vm.requests);
    NoneActive(timers);
  }

  /** One event ends a running cell with a verdict exactly under that verdict's condition. */
  lemma StepEndsIff(c: Cell, e: Event, size: Size, verdict: Verdict)
    requires !c.phase.Ended?
    ensures Step(c, e, size).phase == Ended(verdict) <==> EndsWith(c, e, size, verdict)
  {
    FailedBefore(c);
    if e.Drain? && c.phase == Executing { PacketEndsIff(c, e.more, size, verdict); }
  }

  lemma EndedStays(c: Cell, e: Event, size: Size)
    requires c.phase.Ended?
    ensures Step(c, e, size).phase == c.phase && Step(c, e, size).discarded == c.discarded
  {
  }

  /** What the run had come to when event `i` occurred. */
  function Before(store: Store, events: seq<Event>, size: Size, i: nat): Cell
    requires i <= |events|
  {
    Run(store, events[..i], size)
  }

  lemma RunOneMore(store: Store, events: seq<Event>, size: Size)
    requires events != []
    ensures var n := |events| - 1;
            Run(store, events, size) == Step(Before(store, events, size, n), events[n], size)
  {
    var n := |events| - 1;
    assert events == events[..n] + [events[n]];
    AfterOneMore(Start(store), events[..n], events[n], size);
  }

  lemma BeforePrefix(store: Store, events: seq<Event>, size: Size, n: nat, i: nat)
    requires i <= n <= |events|
    ensures Before(store, events[..n], size, i) == Before(store, events, size, i)
  {
    assert events[..n][..i] == events[..i];
  }

  /** Event `i` of the run ended the cell with the verdict. */
  ghost predicate EndedAt(store: Store, events: seq<Event>, size: Size, i: int, verdict: Verdict) {
    && 0 <= i < |events| && !Before(store, events, size, i).phase.Ended?
    && EndsWith(Before(store, events, size, i), events[i], size, verdict)
  }

  /** Main result: a cell has a verdict exactly if some event of its run ended it so, and no later one changes it. */
  lemma {:induction false} VerdictIff(store: Store, events: seq<Event>, size: Size, verdict: Verdict)
    ensures Run(store, events, size).phase == Ended(verdict) <==> exists i :: EndedAt(store, events, size, i, verdict)
    decreases |events|
  {
    hide EndsWith, Step;
    if events != [] {
      var n := |events| - 1;
      var c := Before(store, events, size, n);
      VerdictIff(store, events[..n], size, verdict);
      RunOneMore(store, events, size);
      if c.phase.Ended? { EndedStays(c, events[n], size); } else { StepEndsIff(c, events[n], size, verdict); }
      forall i | 0 <= i < n
        ensures EndedAt(store, events[..n], size, i, verdict) <==> EndedAt(store, events, size, i, verdict)
      {
        BeforePrefix(store, events, size, n, i);
      }
      if i :| EndedAt(store, events[..n], size, i, verdict) { assert EndedAt(store, events, size, i, verdict); }
      if i :| EndedAt(store, events, size, i, verdict) && i != n { assert EndedAt(store, events[..n], size, i, verdict); }
      assert EndedAt(store, events, size, n, verdict) <==> !c.phase.Ended? && EndsWith(c, events[n], size, verdict);
    }
  }

  /** The script of a running cell came to its end in event `i`, with an error if `failed`. */
  ghost predicate FinishedAt(store: Store, events: seq<Event>, size: Size, i: int, failed: bool) {
    0 <= i < |events| && events[i] == Script(Finish(failed)) && Before(store, events, size, i).phase == Executing
  }

  predicate SameMarks(a: VM, b: VM) { a.done == b.done && a.failed == b.failed }

  lemma HostLeavesMarks(c: Cell, more: bool, size: Size)
    ensures SameMarks(DeliverReplies(c).vm, c.vm) && SameMarks(HandlePacket(c, more, size).vm, c.vm)
  {
    hide HandleTimers, WithoutDone, PutAll, ToolIds, AnyFailed, ActiveTimers;
    DeliverTables(c.vm, c.replies);
    DeliverTables(Dispatched(c, size).vm, c.replies);
  }

  lemma OnlyFinishFinishes(c: Cell, e: Event, size: Size)
    ensures var d := Step(c, e, size);
            && (d.vm.done <==> c.vm.done || (c.phase == Executing && e.Script? && e.action.Finish?))
            && (d.vm.failed <==> c.vm.failed || (c.phase == Executing && e == Script(Finish(true))))
  {
    hide HandlePacket, DeliverReplies, AnyFailed, AnyTimer, AnyDone, FirstBatch, Emits;
    HostLeavesMarks(c, e.Drain? && e.more, size);
    assert Step(c, e, size).vm == c.vm || e.Script? || e.Drain? || e.Resume?;
  }

  /** The VM's two marks say whether, and how, the script has finished. */
  lemma {:induction false} MarkedIffFinished(store: Store, events: seq<Event>, size: Size)
    ensures var vm := Run(store, events, size).vm;
            && (vm.done <==> exists i, failed :: FinishedAt(store, events, size, i, failed))
            && (vm.failed <==> exists i :: FinishedAt(store, events, size, i, true))
    decreases |events|
  {
    hide Step;
    if events != [] {
      var n := |events| - 1;
      MarkedIffFinished(store, events[..n], size);
      RunOneMore(store, events, size);
      OnlyFinishFinishes(Before(store, events, size, n), events[n], size);
      forall i, failed | 0 <= i < n
        ensures FinishedAt(store, events[..n], size, i, failed) <==> FinishedAt(store, events, size, i, failed)
      {
        BeforePrefix(store, events, size, n, i);
      }
      FinishedLast(store, events, size);
    }
  }

  lemma FinishedLast(store: Store, events: seq<Event>, size: Size)
    requires events != []
    ensures var n := |events| - 1;
            forall failed :: FinishedAt(store, events, size, n, failed) <==>
              Before(store, events, size, n).phase == Executing && events[n] == Script(Finish(failed))
  {
  }

  /** Main result: a completed cell's script finished, and never with an error; a failed one's finished with an error. */
  lemma VerdictsAreTrue(store: Store, events: seq<Event>, size: Size)
    ensures var phase := Run(store, events, size).phase;
            && (phase == Ended(Completed) ==>
                  (exists i :: FinishedAt(store, events, size, i, false)) && !exists i :: FinishedAt(store, events, size, i, true))
            && (phase == Ended(ScriptFailed) ==> exists i :: FinishedAt(store, events, size, i, true))
  {
    VerdictIff(store, events, size, Completed);
    VerdictIff(store, events, size, ScriptFailed);
    MarksAtTheEnd(store, events, size);
    MarkedIffFinished(store, events, size);
    if i, failed :| FinishedAt(store, events, size, i, failed) {
      assert failed || FinishedAt(store, events, size, i, false);
    }
  }

  /** The marks with which a cell ended are those it keeps. */
  lemma {:induction false} MarksAtTheEnd(store: Store, events: seq<Event>, size: Size)
    ensures var c := Run(store, events, size);
            && (c.phase == Ended(Completed) ==> c.vm.done && !c.vm.failed)
            && (c.phase == Ended(ScriptFailed) ==> c.vm.done && c.vm.failed)
    decreases |events|
  {
    if events != [] {
      var n := |events| - 1;
      var c := Before(store, events, size, n);
      MarksAtTheEnd(store, events[..n], size);
      RunOneMore(store, events, size);
      OnlyFinishFinishes(c, events[n], size);
      if !c.phase.Ended? {
        StepEndsIff(c, events[n], size, Completed);
        StepEndsIff(c, events[n], size, ScriptFailed);
      }
    }
  }
}
