/** The output lists of code cells, which a live cell and its receipt share. */
module CodeOutputs {
  import opened CodeCells

  /** `"cell_"` and a random part, of which only the identity matters. */
  type CellId = int

  const MAX_RUNNING := 4

  // ---------------------------------------------------------------------
  // Without any sharing
  // ---------------------------------------------------------------------

  /** One cell's output: all of it, what waits have returned, and what is left; `live` in this turn, `finished` with a receipt. */
  datatype Account = Account(emitted: seq<Entry>, returned: seq<Entry>, items: seq<Entry>, live: bool, finished: bool)

  type Accounts = map<CellId, Account>

  datatype TurnEvent =
    | Execute(id: CellId)
    | Append(id: CellId, more: seq<Entry>)
    | FinishCell(id: CellId)
    | NextTurn
    | WaitFor(id: CellId)

  predicate Running(a: Accounts, id: CellId) { id in a && a[id].live && !a[id].finished }

  function RunningIds(a: Accounts): set<CellId> { set id | id in a && Running(a, id) }

  function Appended(x: Account, more: seq<Entry>): Account { x.(emitted := x.emitted + more, items := x.items + more) }

  function Taken(x: Account): Account { x.(returned := x.returned + x.items, items := []) }

  /** Ends a turn: whatever still runs is cancelled, which leaves its receipt, and nothing is live. */
  function TurnEnded(a: Accounts): Accounts {
    map id | id in a :: a[id].(live := false, finished := a[id].finished || a[id].live)
  }

  /** One event; an event that is not enabled leaves the accounts alone. */
  function TurnStep(a: Accounts, e: TurnEvent): Accounts {
    match e
    case Execute(id) =>
      // a new cell's identifier is new
      if id in a || |RunningIds(a)| >= MAX_RUNNING then a else a[id := Account([], [], [], true, false)]
    case Append(id, more) => if Running(a, id) then a[id := Appended(a[id], more)] else a
    case FinishCell(id) => if Running(a, id) then a[id := a[id].(finished := true)] else a
    case NextTurn => TurnEnded(a)
    case WaitFor(id) => if id in a then a[id := Taken(a[id])] else a
  }

  function TurnsAfter(a: Accounts, events: seq<TurnEvent>): Accounts
    decreases |events|
  {
    if events == [] then a else TurnsAfter(TurnStep(a, events[0]), events[1..])
  }

  /** What the waits for `id` return in the course of `events`, put together. */
  function Returned(a: Accounts, events: seq<TurnEvent>, id: CellId): seq<Entry>
    decreases |events|
  {
    if events == [] then []
    else
      (if events[0] == WaitFor(id) && id in a then a[id].items else []) + Returned(TurnStep(a, events[0]), events[1..], id)
  }

  /** What cell `id` puts out in the course of `events`. */
  function PutOut(a: Accounts, events: seq<TurnEvent>, id: CellId): seq<Entry>
    decreases |events|
  {
    if events == [] then []
    else
      (if events[0].Append? && events[0].id == id && Running(a, id) then events[0].more else [])
        + PutOut(TurnStep(a, events[0]), events[1..], id)
  }

  function Left(a: Accounts, id: CellId): seq<Entry> { if id in a then a[id].items else [] }

  /** What is left at first and is put out later is what is returned, in order, and what is left at last. */
  lemma {:induction false} NothingLost(a: Accounts, events: seq<TurnEvent>, id: CellId)
    ensures Left(a, id) + PutOut(a, events, id) == Returned(a, events, id) + Left(TurnsAfter(a, events), id)
    ensures id in a ==> id in TurnsAfter(a, events)
    decreases |events|
  {
    if events != [] {
      var e, next := events[0], TurnStep(a, events[0]);
      NothingLost(next, events[1..], id);
      var out := if e.Append? && e.id == id && Running(a, id) then e.more else [];
      var got := if e == WaitFor(id) && id in a then a[id].items else [];
      StepLosesNothing(a, e, id);
      Chain(Left(a, id), out, got, Left(next, id), PutOut(next, events[1..], id),
            Returned(next, events[1..], id), Left(TurnsAfter(next, events[1..]), id));
    }
  }

  lemma StepLosesNothing(a: Accounts, e: TurnEvent, id: CellId)
    ensures Left(a, id) + (if e.Append? && e.id == id && Running(a, id) then e.more else []) ==
            (if e == WaitFor(id) && id in a then a[id].items else []) + Left(TurnStep(a, e), id)
    ensures id in a ==> id in TurnStep(a, e)
  {
  }

  lemma Chain<T>(before: seq<T>, out: seq<T>, got: seq<T>, between: seq<T>, later: seq<T>, rest: seq<T>, after: seq<T>)
    requires before + out == got + between && between + later == rest + after
    ensures before + (out + later) == (got + rest) + after
  {
    assert before + (out + later) == (before + out) + later == got + (between + later);
    assert got + (rest + after) == (got + rest) + after;
  }

  /**
   * Main result: in every run of turns, what the waits for a cell return, put
   * together in their order and followed by what is left, is what the cell put
   * out; and a cell that was started stays known.
   */
  lemma ReturnedOnceInOrder(events: seq<TurnEvent>, id: CellId)
    ensures PutOut(map[], events, id) == Returned(map[], events, id) + Left(TurnsAfter(map[], events), id)
    ensures forall first, second | events == first + second && id in TurnsAfter(map[], first) :: id in TurnsAfter(map[], events)
  {
    NothingLost(map[], events, id);
    assert [] + PutOut(map[], events, id) == PutOut(map[], events, id);
    forall first, second | events == first + second && id in TurnsAfter(map[], first)
      ensures id in TurnsAfter(map[], events)
    {
      TurnsConcat(map[], first, second);
      NothingLost(TurnsAfter(map[], first), second, id);
    }
  }

  lemma {:induction false} TurnsConcat(a: Accounts, first: seq<TurnEvent>, second: seq<TurnEvent>)
    ensures TurnsAfter(a, first + second) == TurnsAfter(TurnsAfter(a, first), second)
    decreases |first|
  {
    if first == [] {
      assert first + second == second;
    } else {
      assert (first + second)[0] == first[0] && (first + second)[1..] == first[1..] + second;
      TurnsConcat(TurnStep(a, first[0]), first[1..], second);
    }
  }

  // ---------------------------------------------------------------------
  // Which cells run
  // ---------------------------------------------------------------------

  /** A cell that could be started runs until it finishes or the turn ends, and nothing else starts or stops one. */
  lemma RunningStep(a: Accounts, e: TurnEvent, id: CellId)
    ensures Running(TurnStep(a, e), id) <==>
            || (e == Execute(id) && id !in a && |RunningIds(a)| < 4)
            || (Running(a, id) && e != FinishCell(id) && e != NextTurn)
  {
  }

  ghost predicate Orderly(a: Accounts) {
    && |RunningIds(a)| <= 4
    && forall id | id in a :: (Running(a, id) || a[id].finished) && a[id].emitted == a[id].returned + a[id].items
  }

  lemma OneMoreRuns(a: Accounts, id: CellId)
    requires id !in a
    ensures RunningIds(a[id := Account([], [], [], true, false)]) == RunningIds(a) + {id}
  {
  }

  lemma NoMoreRun(a: Accounts, e: TurnEvent)
    requires !e.Execute?
    ensures RunningIds(TurnStep(a, e)) <= RunningIds(a) && |RunningIds(TurnStep(a, e))| <= |RunningIds(a)|
  {
    forall id | id in RunningIds(TurnStep(a, e))
      ensures id in RunningIds(a)
    {
      RunningStep(a, e, id);
    }
    var gone := RunningIds(a) - RunningIds(TurnStep(a, e));
    assert RunningIds(a) == RunningIds(TurnStep(a, e)) + gone;
  }

  lemma OrderlyStep(a: Accounts, e: TurnEvent)
    requires Orderly(a)
    ensures Orderly(TurnStep(a, e))
  {
    var t := TurnStep(a, e);
    if e.Execute? {
      if e.id !in a { OneMoreRuns(a, e.id); }
    } else {
      NoMoreRun(a, e);
    }
    forall id | id in t
      ensures Running(t, id) || t[id].finished
      ensures t[id].emitted == t[id].returned + t[id].items
    {
      if e.Append? && e.id == id && Running(a, id) {
        assert a[id].returned + (a[id].items + e.more) == a[id].emitted + e.more;
      }
    }
  }

  lemma {:induction false} OrderlyAfter(a: Accounts, events: seq<TurnEvent>)
    requires Orderly(a)
    ensures Orderly(TurnsAfter(a, events))
    decreases |events|
  {
    if events != [] {
      OrderlyStep(a, events[0]);
      OrderlyAfter(TurnStep(a, events[0]), events[1..]);
    }
  }

  /** In every run at most four cells run at a time, and every other one that is known has its receipt. */
  lemma AtMostFourRun(events: seq<TurnEvent>)
    ensures var a := TurnsAfter(map[], events);
            |RunningIds(a)| <= 4 && forall id | id in a :: Running(a, id) <==> !a[id].finished
  {
    assert RunningIds(map[]) == {};
    OrderlyAfter(map[], events);
  }

  lemma HistoriesStep(a: Accounts, e: TurnEvent, id: CellId)
    requires id in a
    ensures var t := TurnStep(a, e);
            && id in t
            && t[id].emitted == a[id].emitted + (if e.Append? && e.id == id && Running(a, id) then e.more else [])
            && t[id].returned == a[id].returned + if e == WaitFor(id) then a[id].items else []
  {
  }

  /** The accounts' histories are what the run put out and what its waits returned. */
  lemma {:induction false} AccountsAreHistories(a: Accounts, events: seq<TurnEvent>, id: CellId)
    requires id in a
    ensures var t := TurnsAfter(a, events);
            && id in t
            && t[id].emitted == a[id].emitted + PutOut(a, events, id)
            && t[id].returned == a[id].returned + Returned(a, events, id)
    decreases |events|
  {
    if events != [] {
      HistoriesStep(a, events[0], id);
      AccountsAreHistories(TurnStep(a, events[0]), events[1..], id);
    }
  }

  // ---------------------------------------------------------------------
  // The shared lists
  // ---------------------------------------------------------------------

  /** A list object that a live cell and, once it has finished, its receipt both hold. */
  class OutputBuffer {
    var items: seq<Entry>
    ghost var emitted: seq<Entry>
    ghost var returned: seq<Entry>

    ghost predicate Valid()
      reads this
    {
      emitted == returned + items
    }

    constructor ()
      ensures Valid() && items == [] && emitted == [] && returned == []
    {
      items, emitted, returned := [], [], [];
    }

    method Extend(more: seq<Entry>)
      requires Valid()
      modifies this
      ensures Valid() && items == old(items) + more && emitted == old(emitted) + more && returned == old(returned)
    {
      items := items + more;
      emitted := emitted + more;
    }

    /** `output = list(cell.output); cell.output.clear()`. */
    method Take() returns (taken: seq<Entry>)
      requires Valid()
      modifies this
      ensures Valid() && items == [] && emitted == old(emitted)
      ensures returned == old(returned) + taken && taken == old(items)
    {
      taken := items;
      items := [];
      returned := returned + taken;
    }
  }

  class CodeCell {
    const output: OutputBuffer

    constructor (output: OutputBuffer)
      ensures this.output == output
    {
      this.output := output;
    }
  }

  class CodeCellReceipt {
    const output: OutputBuffer

    constructor (output: OutputBuffer)
      ensures this.output == output
    {
      this.output := output;
    }
  }

  /** No two cells share a list. */
  ghost predicate Apart(buffers: map<CellId, OutputBuffer>) {
    forall a, b | a in buffers && b in buffers && a != b :: buffers[a] != buffers[b]
  }

  lemma StillApart(buffers: map<CellId, OutputBuffer>, id: CellId, b: OutputBuffer)
    requires Apart(buffers) && id !in buffers && b !in buffers.Values
    ensures Apart(buffers[id := b])
  {
    assert forall other | other in buffers :: buffers[other] in buffers.Values;
  }

  /**
   * `cells` are the live cells of the current runtime, `receipts` the session's
   * finished ones, and `buffers` the list of every cell that is one or the other.
   */
  class CodeExecutionRuntime {
    var cells: map<CellId, CodeCell>
    var receipts: map<CellId, CodeCellReceipt>
    ghost var buffers: map<CellId, OutputBuffer>

    /** A receipt shares its cell's list, and no two cells share one. */
    ghost predicate Valid()
      reads this, buffers.Values
    {
      && buffers.Keys == cells.Keys + receipts.Keys
      && (forall id | id in cells :: cells[id].output == buffers[id])
      && (forall id | id in receipts :: receipts[id].output == buffers[id])
      && Apart(buffers)
      && forall id | id in buffers :: buffers[id].Valid()
    }

    ghost function AccountOf(id: CellId): Account
      requires id in buffers
      reads this, buffers[id]
    {
      Account(buffers[id].emitted, buffers[id].returned, buffers[id].items, id in cells, id in receipts)
    }

    /** As if every cell had its output to itself. */
    ghost function View(): Accounts
      reads this, buffers.Values
    {
      map id | id in buffers :: AccountOf(id)
    }

    function BufferOf(id: CellId): OutputBuffer
      requires id in cells || id in receipts
      reads this
    {
      if id in cells then cells[id].output else receipts[id].output
    }

    constructor ()
      ensures Valid() && View() == map[]
    {
      cells, receipts, buffers := map[], map[], map[];
    }

    /** `execute` for a new invocation, whose cell gets the new identifier `id`. */
    method Execute(id: CellId) returns (started: bool)
      requires Valid() && id !in buffers
      modifies this
      ensures Valid() && View() == TurnStep(old(View()), TurnEvent.Execute(id))
      ensures started <==> id in buffers
    {
      hide Appended;
      ghost var before := View();
      assert id !in before && RunningIds(before) == cells.Keys - receipts.Keys;
      if |cells.Keys - receipts.Keys| >= MAX_RUNNING {
        return false;
      }
      var output := new OutputBuffer();
      var cell := new CodeCell(output);
      assert View() == before;
      Enter(id, cell);
      started := true;
    }

    lemma ViewIs(expected: Accounts)
      requires expected.Keys == buffers.Keys && forall id | id in buffers :: AccountOf(id) == expected[id]
      ensures View() == expected
    {
    }

    method Enter(id: CellId, cell: CodeCell)
      requires Valid() && id !in buffers && cell.output !in buffers.Values && cell.output.Valid()
      requires cell.output.items == [] && cell.output.returned == [] && cell.output.emitted == []
      modifies this
      ensures Valid() && View() == old(View())[id := Account([], [], [], true, false)]
      ensures buffers == old(buffers)[id := cell.output]
    {
      ghost var before := View();
      assert id !in cells && id !in receipts;
      Link(id, cell);
      hide Valid;
      assert forall other | other in before :: AccountOf(other) == before[other];
      assert AccountOf(id) == Account([], [], [], true, false);
      ViewIs(before[id := Account([], [], [], true, false)]);
    }

    method Link(id: CellId, cell: CodeCell)
      requires Valid() && id !in buffers && cell.output !in buffers.Values && cell.output.Valid()
      modifies this`cells, this`buffers
      ensures Valid() && cells == old(cells)[id := cell] && buffers == old(buffers)[id := cell.output]
    {
      StillApart(buffers, id, cell.output);
      hide Apart;
      cells := cells[id := cell];
      buffers := buffers[id := cell.output];
    }

    /** `cell.output.extend(...)` of a running cell. */
    method Append(id: CellId, more: seq<Entry>)
      requires Valid() && id in cells && id !in receipts
      modifies cells[id].output
      ensures Valid() && View() == TurnStep(old(View()), TurnEvent.Append(id, more))
    {
      ghost var before := View();
      cells[id].output.Extend(more);
      assert forall other | other in buffers && other != id :: AccountOf(other) == before[other];
      assert AccountOf(id) == Appended(before[id], more);
    }

    /** The `finally` block of `_run`: the receipt takes the cell's own list. */
    method Finish(id: CellId)
      requires Valid() && id in cells && id !in receipts
      modifies this`receipts
      ensures Valid() && View() == TurnStep(old(View()), FinishCell(id))
      ensures receipts.Keys == old(receipts.Keys) + {id} && receipts[id].output == cells[id].output
    {
      hide Appended;
      ghost var before := View();
      var receipt := new CodeCellReceipt(cells[id].output);
      assert Valid() && View() == before;
      File(id, receipt);
    }

    method File(id: CellId, receipt: CodeCellReceipt)
      requires Valid() && id in cells && id !in receipts && receipt.output == cells[id].output
      modifies this`receipts
      ensures Valid() && View() == old(View())[id := old(View())[id].(finished := true)]
      ensures receipts == old(receipts)[id := receipt]
    {
      ghost var before := View();
      assert id in buffers;
      receipts := receipts[id := receipt];
      assert Valid();
      hide Valid;
      assert View() == before[id := before[id].(finished := true)] by {
        assert forall other | other in buffers && other != id :: AccountOf(other) == before[other];
        assert AccountOf(id) == before[id].(finished := true);
      }
    }

    /** The next turn's runtime has no live cells; `aclose` has cancelled and awaited what still ran, which left its receipt. */
    method NextTurn()
      requires Valid() && cells.Keys <= receipts.Keys
      modifies this`cells
      ensures Valid() && cells == map[] && View() == TurnStep(old(View()), TurnEvent.NextTurn)
    {
      ghost var before := View();
      cells := map[];
      assert receipts.Keys == buffers.Keys && Valid();
      hide Valid;
      assert View() == TurnEnded(before) by {
        assert forall other | other in buffers :: AccountOf(other) == before[other].(live := false);
      }
    }

    /** `wait` takes the list of the live cell or, in a later turn, of the receipt. */
    method Wait(id: CellId) returns (output: seq<Entry>)
      requires Valid() && id in buffers
      modifies buffers[id]
      ensures Valid() && View() == TurnStep(old(View()), WaitFor(id))
      ensures output == old(View())[id].items
    {
      ghost var before := View();
      output := BufferOf(id).Take();
      assert View() == before[id := Taken(before[id])] by {
        assert buffers[id].returned + [] == buffers[id].returned;
        assert forall other | other in buffers && other != id :: AccountOf(other) == before[other];
        assert AccountOf(id) == Taken(before[id]);
      }
    }
  }
}
