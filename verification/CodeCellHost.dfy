/** The objects behind a code cell: the VM's closure, and the host loop's turn. */
module CodeCellHost {
  import opened CodeStore
  import opened CodeCells
  import opened CodeOutputs
  import opened CodeVerdicts

  class CodeVM {
    var pending: set<Id>
    var timers: set<Id>
    var requests: seq<Request>
    var output: seq<Entry>
    var updates: seq<Update>
    var storage: map<string, Value>
    var sequence: nat
    var done: bool
    var failed: bool
    var yielded: bool
    var outputSize: nat

    function View(): VM
      reads this
    {
      VM(pending, timers, requests, output, updates, storage, sequence, done, failed, yielded, outputSize)
    }

    constructor (storage: map<string, Value>)
      ensures View() == VM({}, {}, [], [], [], storage, 0, false, false, false, 0)
    {
      pending, timers, requests, output, updates := {}, {}, [], [], [];
      this.storage, sequence, done, failed, yielded, outputSize := storage, 0, false, false, false, 0;
    }

    method Emit(entry: Entry) returns (raised: bool)
      modifies this
      ensures View() == Act(old(View()), Action.Emit(entry))
      ensures raised == (!old(done) && !Emits(old(View()), entry))
    {
      raised := false;
      if done { return; }
      if entry.Text? {
        outputSize := outputSize + |entry.text|;
        if outputSize > MAX_TEXT { return true; }
      }
      output := output + [entry];
    }

    method Request(kind: Action) returns (id: Id, raised: bool)
      requires kind.CallTool? || kind.SetTimeout?
      modifies this
      ensures View() == Act(old(View()), kind)
      ensures raised == (kind.CallTool? && old(done))
    {
      id, raised := sequence, kind.CallTool? && done;
      if !raised {
        sequence := sequence + 1;
        id := sequence;
        if kind.CallTool? {
          pending, requests := pending + {id}, requests + [Tool(id)];
        } else {
          timers, requests := timers + {id}, requests + [Timer(id)];
        }
      }
    }

    /** The `deliver` operation: each reply leaves its table before its continuation runs. */
    method Deliver(replies: seq<Reply>)
      modifies this`pending, this`timers
      ensures View() == CodeCells.Deliver(old(View()), replies)
    {
      for i := 0 to |replies|
        invariant CodeCells.Deliver(View(), replies[i..]) == CodeCells.Deliver(old(View()), replies)
      {
        assert replies[i..][0] == replies[i] && replies[i..][1..] == replies[i + 1..];
        match replies[i] {
          case Result(id) => pending := pending - {id};
          case Fired(id) => timers := timers - {id};
        }
      }
    }

    /** The `drain` operation: the packet, and empty lists left behind. */
    method Drain() returns (packet: VM)
      modifies this
      ensures packet == old(View()) && View() == Drained(old(View()))
    {
      packet := View();
      requests, output, updates, yielded := [], [], [], false;
    }
  }

  /** The state of `_run` for one cell; the ghost fields are its histories. */
  class RunningCell {
    const vm: CodeVM
    const store: CodeExecutionStore
    const output: OutputBuffer
    var replies: seq<Reply>
    var jobs: seq<Job>
    var timers: map<Id, TimerTask>
    var phase: Phase
    var discarded: int
    ghost var batches: seq<seq<Id>>
    ghost var emitted: seq<Entry>
    ghost var issued: set<Id>
    ghost var delivered: seq<Id>

    ghost function View(): Cell
      reads this, vm, store, output
    {
      Cell(vm.View(), output.items, replies, jobs, timers, store.View(), phase, discarded,
           batches, emitted, output.returned, issued, delivered)
    }

    /** `output` is the new cell's list. */
    constructor (store: CodeExecutionStore, output: OutputBuffer)
      requires output.items == [] && output.returned == []
      ensures View() == Start(store.View()) && this.store == store && this.output == output && fresh(vm)
    {
      this.store, this.output := store, output;
      vm := new CodeVM(store.values);
      replies, jobs, timers, phase, discarded := [], [], map[], Executing, 0;
      batches, emitted, issued, delivered := [], [], {}, [];
    }

    method StartTimers(requests: seq<Request>)
      modifies this`timers
      ensures timers == HandleTimers(old(timers), requests)
    {
      for i := 0 to |requests|
        invariant HandleTimers(timers, requests[i..]) == HandleTimers(old(timers), requests)
      {
        assert requests[i..][0] == requests[i] && requests[i..][1..] == requests[i + 1..];
        match requests[i] {
          case Tool(_) =>
          case Timer(id) => timers := timers[id := Sleeping];
          case CancelTimer(id) =>
            if id in timers && timers[id] == Sleeping { timers := timers[id := Cancelling]; }
        }
      }
    }

    /** Forgets the dispatch tasks that are done; `failed` when one of them raised. */
    method ReapJobs() returns (failed: bool)
      modifies this`jobs
      ensures jobs == WithoutDone(old(jobs)) && failed == AnyFailed(old(jobs))
    {
      var kept: seq<Job>, i := [], 0;
      failed := false;
      while i < |jobs|
        invariant 0 <= i <= |jobs| && kept + WithoutDone(jobs[i..]) == WithoutDone(jobs)
        invariant failed <==> exists k :: 0 <= k < i && jobs[k].progress == Failed
      {
        assert jobs[i..][0] == jobs[i] && jobs[i..][1..] == jobs[i + 1..];
        if jobs[i].progress != Done { kept := kept + [jobs[i]]; }
        if jobs[i].progress == Failed { failed := true; }
        i := i + 1;
      }
      assert jobs[i..] == [] && kept + [] == kept;
      assert failed ==> AnyFailed(jobs);
      jobs := kept;
    }

    method TakePacket(more: bool)
      requires phase == Executing && StoreInv(store.View(), store.size) && output.Valid()
      modifies this, vm, store, output
      ensures View() == HandlePacket(old(View()), more, store.size) && output.Valid()
    {
      var packet := vm.Drain();
      output.Extend(packet.output);
      var ok := store.PutUpdates(packet.updates);
      if !ok {
        phase := Ended(StoreFull);
        return;
      }
      if packet.done {
        phase, discarded := Ended(if packet.failed then ScriptFailed else Completed), |packet.pending|;
        return;
      }
      var failed := Dispatch(packet);
      AwaitNext(failed, more);
    }

    /** One turn of the host loop on a drained packet, and the verdict with which it may end. */
    method OnPacket(more: bool)
      requires phase == Executing && StoreInv(store.View(), store.size) && output.Valid()
      modifies this, vm, store, output
      ensures View() == HandlePacket(old(View()), more, store.size) && output.Valid()
      ensures forall v :: phase == Ended(v) <==> EndsWith(old(View()), Event.Drain(more), store.size, v)
    {
      hide HandlePacket, EndsWith;
      ghost var before := View();
      TakePacket(more);
      forall v
        ensures phase == Ended(v) <==> EndsWith(before, Event.Drain(more), store.size, v)
      {
        PacketEndsIff(before, more, store.size, v);
      }
    }

    /** Starts the tasks for a packet's requests and reaps the dispatch tasks that are done. */
    method Dispatch(packet: VM) returns (failed: bool)
      modifies this`jobs, this`timers
      ensures timers == HandleTimers(old(timers), packet.requests)
      ensures var tools := ToolIds(packet.requests);
              var all := if tools == [] then old(jobs) else old(jobs) + [Job(tools, [], Active)];
              jobs == WithoutDone(all) && failed == AnyFailed(all)
    {
      var tools := ToolIds(packet.requests);
      if tools != [] { jobs := jobs + [Job(tools, [], Active)]; }
      StartTimers(packet.requests);
      failed := ReapJobs();
    }

    method AwaitNext(failed: bool, more: bool)
      modifies this, vm
      ensures View() == NextAwait(old(View()), failed, more)
    {
      if failed {
        phase := Ended(ToolError);
      } else if more {
        return;
      } else if replies != [] {
        DeliverQueued();
      } else if jobs == [] && ActiveTimers(timers) == {} {
        phase := Ended(Unresolved);
      } else {
        phase := Waiting(ActiveTimers(timers));
      }
    }

    method DeliverQueued()
      modifies this, vm
      ensures View() == DeliverReplies(old(View()))
    {
      vm.Deliver(replies);
      delivered := delivered + ResultIds(replies);
      replies, phase := [], Executing;
    }

    /** `_dispatch` hands the next ten requests of a job to a tool batch. */
    method SubmitBatch(j: int)
      requires JobIs(View(), j, Active) && jobs[j].batch == [] && jobs[j].waiting != []
      modifies this
      ensures View() == Step(old(View()), Submit(j), store.size)
    {
      var waiting := jobs[j].waiting;
      var n := if |waiting| < BATCH then |waiting| else BATCH;
      assert waiting[..n] == FirstBatch(waiting);
      jobs := jobs[j := Job(waiting[n..], waiting[..n], Active)];
      batches := batches + [waiting[..n]];
    }
  }
}
