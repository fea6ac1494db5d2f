// The staff map of zadania_8/zadanie1_buforcykliczny.c and zadania_8/zadanie1.c:
// reports are queued, and worker threads register the unit a report names, wipe
// the unit off the map row by row under one mutex per row, and put it on its new
// cell.  Two workers may handle the same unit at the same time, so "one cell per
// unit" fails; how far it can fail, and when it holds, is proved here.
module Headquarters {
  import Ring
  import Runs
  import opened FiniteSets

  const SIDE := 100          // rows and columns of the map
  const QUEUE_SIZE := 16
  const NAMES_SIZE := 128

  // What sscanf makes of a received text.
  datatype Message = Garbled | Report(x: int, y: int, p: int, name: string)

  datatype Worker =
    | Idle                                     // about to take a report
    | Taken(msg: Message)                      // about to check it
    | Registering(msg: Message)                // about to look the name up
    | Erasing(id: nat, row: nat, msg: Message) // about to wipe this row
    | Placing(id: nat, msg: Message)           // about to write the new cell

  // "lifo" tells the stack version of the queue from the ring version.  "author",
  // who last wrote each cell, and "received", every report ever received, are
  // history variables.
  datatype State = State(
    lifo: bool, pending: seq<Message>, names: seq<string>,
    cells: seq<seq<int>>, author: seq<seq<int>>,
    workers: seq<Worker>, received: set<Message>)

  type Cell = (int, int)

  ghost predicate Init(s: State) {
    && s.pending == [] && s.names == [] && s.received == {}
    && |s.cells| == SIDE && |s.author| == SIDE
    && (forall y :: 0 <= y < SIDE ==> |s.cells[y]| == SIDE && |s.author[y]| == SIDE)
    && (forall y, x :: 0 <= y < SIDE && 0 <= x < SIDE ==> s.cells[y][x] == -1)
    && (forall w :: 0 <= w < |s.workers| ==> s.workers[w] == Idle)
  }

  // ----- the critical sections as functions

  // serwer_work: a report that finds the queue full is dropped.
  function Queued(pending: seq<Message>, msg: Message): seq<Message> {
    if |pending| < QUEUE_SIZE then pending + [msg] else pending
  }

  function NextUp(pending: seq<Message>, lifo: bool): Message
    requires pending != []
  {
    if lifo then pending[|pending| - 1] else pending[0]
  }

  function Remaining(pending: seq<Message>, lifo: bool): seq<Message>
    requires pending != []
  {
    if lifo then pending[..|pending| - 1] else pending[1..]
  }

  // The range checks after sscanf.
  predicate Acceptable(msg: Message) {
    msg.Report? && 0 <= msg.x <= 99 && 0 <= msg.y <= 99 && (msg.p == 0 || msg.p == 1)
  }

  // The first index of name in names, or -1.
  function IndexOf(names: seq<string>, name: string): (i: int)
    ensures -1 <= i < |names|
    ensures i == -1 <==> name !in names
    ensures i >= 0 ==> names[i] == name && name !in names[..i]
  {
    if |names| == 0 then -1
    else
      var i := IndexOf(names[..|names| - 1], name);
      assert names == names[..|names| - 1] + [names[|names| - 1]];
      if i >= 0 then i
      else if names[|names| - 1] == name then |names| - 1
      else -1
  }

  // The registry after looking name up, and the unit's number, -1 if there is no room.
  function Registered(names: seq<string>, name: string): (r: (seq<string>, int))
    ensures names <= r.0 && -1 <= r.1 < |r.0|
    ensures r.1 >= 0 ==> r.0[r.1] == name
    ensures r.1 == -1 <==> name !in names && |names| >= NAMES_SIZE
  {
    var i := IndexOf(names, name);
    if i >= 0 then (names, i)
    else if |names| < NAMES_SIZE then (names + [name], |names|)
    else (names, -1)
  }

  function ErasedRow(row: seq<int>, id: int): (r: seq<int>)
    ensures |r| == |row|
    ensures forall x :: 0 <= x < |row| ==> r[x] == if row[x] == id then -1 else row[x]
  {
    seq(|row|, x requires 0 <= x < |row| => if row[x] == id then -1 else row[x])
  }

  // ----- steps

  predicate CanAct(s: State, w: nat) {
    && w < |s.workers|
    && |s.cells| == SIDE && |s.author| == SIDE
    && (forall y :: 0 <= y < SIDE ==> |s.cells[y]| == SIDE && |s.author[y]| == SIDE)
    && match s.workers[w]
       case Idle => s.pending != []
       case Taken(_) => true
       case Registering(msg) => Acceptable(msg)
       case Erasing(_, row, msg) => row < SIDE && Acceptable(msg)
       case Placing(_, msg) => Acceptable(msg)
  }

  // One critical section, or one private step, of worker w.
  function Act(s: State, w: nat): State
    requires CanAct(s, w)
  {
    match s.workers[w]
    case Idle =>
      s.(pending := Remaining(s.pending, s.lifo), workers := s.workers[w := Taken(NextUp(s.pending, s.lifo))])
    case Taken(msg) =>
      s.(workers := s.workers[w := if Acceptable(msg) then Registering(msg) else Idle])
    case Registering(msg) =>
      var (names, id) := Registered(s.names, msg.name);
      s.(names := names, workers := s.workers[w := if id == -1 then Idle else Erasing(id, 0, msg)])
    case Erasing(id, row, msg) =>
      s.(cells := s.cells[row := ErasedRow(s.cells[row], id)],
         workers := s.workers[w := if row + 1 < SIDE then Erasing(id, row + 1, msg) else Placing(id, msg)])
    case Placing(id, msg) =>
      s.(cells := s.cells[msg.y := s.cells[msg.y][msg.x := id]],
         author := s.author[msg.y := s.author[msg.y][msg.x := w]],
         workers := s.workers[w := Idle])
  }

  ghost predicate Receives(s: State, s': State) {
    exists msg :: s' == s.(pending := Queued(s.pending, msg), received := s.received + {msg})
  }

  ghost predicate Next(s: State, s': State) {
    Receives(s, s') || exists w: nat :: CanAct(s, w) && s' == Act(s, w)
  }

  // ----- the invariant

  predicate Shape(s: State) {
    && |s.cells| == SIDE && |s.author| == SIDE
    && (forall y :: 0 <= y < SIDE ==> |s.cells[y]| == SIDE && |s.author[y]| == SIDE)
  }

  predicate OnMap(c: Cell) {
    0 <= c.0 < SIDE && 0 <= c.1 < SIDE
  }

  // Cell c shows unit id.
  predicate Shows(s: State, c: Cell, id: int)
    requires Shape(s) && OnMap(c)
  {
    s.cells[c.0][c.1] == id
  }

  // Worker w was the one who put unit id there.
  predicate PutBy(s: State, c: Cell, id: int, w: int)
    requires Shape(s) && OnMap(c)
  {
    Shows(s, c, id) && s.author[c.0][c.1] == w
  }

  // The rows that worker v has already wiped of its unit.
  predicate Wiped(v: Worker, c: Cell, id: int) {
    match v
    case Erasing(i, row, _) => i == id && c.0 < row
    case Placing(i, _) => i == id
    case _ => false
  }

  predicate WorkerOk(s: State, v: Worker) {
    match v
    case Registering(msg) => Acceptable(msg)
    case Erasing(id, row, msg) => id < |s.names| && row < SIDE && Acceptable(msg) && s.names[id] == msg.name
    case Placing(id, msg) => id < |s.names| && Acceptable(msg) && s.names[id] == msg.name
    case _ => true
  }

  ghost predicate CellsOk(s: State) {
    && Shape(s)
    && (forall y, x :: 0 <= y < SIDE && 0 <= x < SIDE ==> -1 <= s.cells[y][x] < |s.names|)
    && (forall y, x :: 0 <= y < SIDE && 0 <= x < SIDE && s.cells[y][x] != -1 ==>
          0 <= s.author[y][x] < |s.workers|)
  }

  ghost predicate WorkersOk(s: State) {
    forall w :: 0 <= w < |s.workers| ==> WorkerOk(s, s.workers[w])
  }

  ghost predicate NamesDistinct(s: State) {
    && |s.names| <= NAMES_SIZE
    && forall i, j :: 0 <= i < j < |s.names| ==> s.names[i] != s.names[j]
  }

  // A worker is the author of at most one cell of each unit, and of none that it
  // has just wiped.
  ghost predicate OneEach(s: State)
    requires Shape(s)
  {
    && (forall c, d, id: nat, w | OnMap(c) && OnMap(d) && PutBy(s, c, id, w) && PutBy(s, d, id, w) :: c == d)
    && (forall c, id: nat, w | OnMap(c) && 0 <= w < |s.workers| && PutBy(s, c, id, w) :: !Wiped(s.workers[w], c, id))
  }

  ghost predicate Inv(s: State) {
    CellsOk(s) && WorkersOk(s) && NamesDistinct(s) && OneEach(s)
  }

  lemma RegisterKeepsInv(s: State, w: nat)
    requires Inv(s) && CanAct(s, w) && s.workers[w].Registering?
    ensures Inv(Act(s, w))
  {
    var s' := Act(s, w);
    forall c, id: nat, v | OnMap(c) && 0 <= v < |s'.workers| && PutBy(s', c, id, v)
      ensures !Wiped(s'.workers[v], c, id)
    {
      assert PutBy(s, c, id, v);
    }
    forall c, d, id: nat, v | OnMap(c) && OnMap(d) && PutBy(s', c, id, v) && PutBy(s', d, id, v) ensures c == d {
      assert PutBy(s, c, id, v) && PutBy(s, d, id, v);
    }
  }

  lemma EraseKeepsInv(s: State, w: nat)
    requires Inv(s) && CanAct(s, w) && s.workers[w].Erasing?
    ensures Inv(Act(s, w))
  {
    var s' := Act(s, w);
    forall c, id: nat, v | OnMap(c) && PutBy(s', c, id, v) ensures PutBy(s, c, id, v) {
    }
    forall c, id: nat, v | OnMap(c) && 0 <= v < |s'.workers| && PutBy(s', c, id, v)
      ensures !Wiped(s'.workers[v], c, id)
    {
      assert PutBy(s, c, id, v);
    }
  }

  lemma PlaceKeepsInv(s: State, w: nat)
    requires Inv(s) && CanAct(s, w) && s.workers[w].Placing?
    ensures Inv(Act(s, w))
  {
    var s', me := Act(s, w), s.workers[w];
    var here := (me.msg.y, me.msg.x);
    forall c, id: nat, v | OnMap(c) && PutBy(s', c, id, v) && c != here ensures PutBy(s, c, id, v) {
    }
    forall c, d, id: nat, v | OnMap(c) && OnMap(d) && PutBy(s', c, id, v) && PutBy(s', d, id, v) ensures c == d {
      // Another cell of this unit by this worker would have been wiped.
      if c == here && d != here {
        assert PutBy(s, d, id, w) && Wiped(me, d, id);
      }
      if d == here && c != here {
        assert PutBy(s, c, id, w) && Wiped(me, c, id);
      }
    }
  }

  lemma NextKeepsInv(s: State, s': State)
    requires Inv(s) && Next(s, s')
    ensures Inv(s')
  {
    if Receives(s, s') {
      QuietStepKeepsInv(s, s');
    } else {
      var w: nat :| CanAct(s, w) && s' == Act(s, w);
      match s.workers[w] {
        case Registering(_) => RegisterKeepsInv(s, w);
        case Erasing(_, _, _) => EraseKeepsInv(s, w);
        case Placing(_, _) => PlaceKeepsInv(s, w);
        case _ => QuietStepKeepsInv(s, s');
      }
    }
  }

  // Queueing, taking and checking a report do not touch the registry or the map.
  lemma QuietStepKeepsInv(s: State, s': State)
    requires Inv(s) && s'.names == s.names && s'.cells == s.cells && s'.author == s.author
    requires |s'.workers| == |s.workers|
    requires forall w :: 0 <= w < |s.workers| && s'.workers[w] != s.workers[w] ==>
      WorkerOk(s, s'.workers[w]) && !s'.workers[w].Erasing? && !s'.workers[w].Placing?
    ensures Inv(s')
  {
    forall c, id: nat, v | OnMap(c) && PutBy(s', c, id, v) ensures PutBy(s, c, id, v) {
    }
  }

  // ----- results about whole runs

  ghost predicate IsRun(run: seq<State>) {
    Runs.IsRun(Init, Next, run)
  }

  lemma InvInit(s: State)
    requires Init(s)
    ensures Inv(s)
  {
  }

  lemma InvIsInductive()
    ensures Runs.Inductive(Init, Next, Inv)
  {
    forall s | Init(s) ensures Inv(s) { InvInit(s); }
    forall s, s' | Inv(s) && Next(s, s') ensures Inv(s') { NextKeepsInv(s, s'); }
  }

  lemma SafetyInEveryRun(run: seq<State>, i: nat)
    requires IsRun(run) && i < |run|
    ensures Inv(run[i])
  {
    InvIsInductive();
    Runs.InvariantHolds(Init, Next, Inv, run, i);
  }

  // The cells that show a unit.
  ghost function Copies(s: State, id: int): set<Cell>
    requires Shape(s)
  {
    set y, x | 0 <= y < SIDE && 0 <= x < SIDE && s.cells[y][x] == id :: (y, x)
  }

  // In every state of every run a unit shows on at most as many cells as there are
  // workers, each put there by a different one.
  lemma CopiesAreBounded(run: seq<State>, i: nat, id: nat)
    requires IsRun(run) && i < |run|
    ensures Shape(run[i]) && |Copies(run[i], id)| <= |run[i].workers|
    ensures forall c, d | OnMap(c) && OnMap(d) && Shows(run[i], c, id) && Shows(run[i], d, id) && c != d ::
      run[i].author[c.0][c.1] != run[i].author[d.0][d.1]
  {
    SafetyInEveryRun(run, i);
    var s := run[i];
    var author := (c: Cell) => if OnMap(c) then s.author[c.0][c.1] else 0;
    var copies := Copies(s, id);
    var authors := set c | c in copies :: author(c);
    forall c, d | OnMap(c) && OnMap(d) && Shows(s, c, id) && Shows(s, d, id) && c != d
      ensures s.author[c.0][c.1] != s.author[d.0][d.1]
    {
      assert PutBy(s, c, id, s.author[c.0][c.1]);
      if s.author[c.0][c.1] == s.author[d.0][d.1] {
        assert PutBy(s, d, id, s.author[c.0][c.1]);
      }
    }
    forall c, d | c in copies && d in copies && c != d ensures author(c) != author(d) {
      assert Shows(s, c, id) && Shows(s, d, id);
    }
    ImageSize(copies, author, authors);
    SubsetSize(authors, Below(|s.workers|));
  }

  // ----- units that are never handled twice at a time

  predicate Handles(v: Worker, id: int) {
    (v.Erasing? || v.Placing?) && v.id == id
  }

  // At most one worker is between registering and placing this unit.
  ghost predicate Alone(s: State, id: int) {
    forall v, w | 0 <= v < |s.workers| && 0 <= w < |s.workers| ::
      Handles(s.workers[v], id) && Handles(s.workers[w], id) ==> v == w
  }

  ghost predicate Single(s: State, id: int) {
    && Shape(s)
    && (forall c, d | OnMap(c) && OnMap(d) && Shows(s, c, id) && Shows(s, d, id) :: c == d)
    && (forall c, w | OnMap(c) && 0 <= w < |s.workers| && Shows(s, c, id) :: !Wiped(s.workers[w], c, id))
  }

  // The only worker that handles the unit places it: all the rest has been wiped.
  lemma PlacingKeepsSingle(s: State, w: nat, id: nat)
    requires Inv(s) && CanAct(s, w) && Alone(s, id) && Single(s, id)
    requires s.workers[w].Placing? && s.workers[w].id == id
    ensures Single(Act(s, w), id)
  {
    var s', me := Act(s, w), s.workers[w];
    var here := (me.msg.y, me.msg.x);
    forall c | OnMap(c) && Shows(s', c, id) ensures c == here {
      if c != here {
        assert Shows(s, c, id) && Wiped(me, c, id);
        assert false;
      }
    }
    forall v | 0 <= v < |s.workers| && v != w ensures !Handles(s.workers[v], id) {
      assert Handles(me, id);
    }
  }

  // Any other action shows the unit nowhere else.
  lemma ActKeepsSingle(s: State, w: nat, id: nat)
    requires Inv(s) && CanAct(s, w) && Single(s, id)
    requires !(s.workers[w].Placing? && s.workers[w].id == id)
    ensures Single(Act(s, w), id)
  {
    var s' := Act(s, w);
    assert WorkerOk(s, s.workers[w]);
    forall c | OnMap(c) && Shows(s', c, id) ensures Shows(s, c, id) {
    }
    forall c, v | OnMap(c) && 0 <= v < |s'.workers| && Shows(s', c, id) ensures !Wiped(s'.workers[v], c, id) {
      assert Shows(s, c, id) && !Wiped(s.workers[v], c, id);
    }
  }

  lemma NextKeepsSingle(s: State, s': State, id: nat)
    requires Inv(s) && Next(s, s') && Alone(s, id) && Single(s, id)
    ensures Single(s', id)
  {
    if w: nat :| CanAct(s, w) && s' == Act(s, w) {
      if s.workers[w].Placing? && s.workers[w].id == id {
        PlacingKeepsSingle(s, w, id);
      } else {
        ActKeepsSingle(s, w, id);
      }
    } else {
      QueueKeepsSingle(s, s', id);
    }
  }

  lemma QueueKeepsSingle(s: State, s': State, id: nat)
    requires Single(s, id) && Receives(s, s')
    ensures Single(s', id)
  {
    forall c | OnMap(c) && Shows(s', c, id) ensures Shows(s, c, id) {
    }
  }

  // If the handlings of a unit never overlap in a run, the unit shows on at most
  // one cell in every state of the run.
  lemma {:induction false} OneCellWithoutOverlap(run: seq<State>, i: nat, id: nat)
    requires IsRun(run) && i < |run|
    requires forall k :: 0 <= k <= i ==> Alone(run[k], id)
    ensures Single(run[i], id)
  {
    if i > 0 {
      OneCellWithoutOverlap(run, i - 1, id);
      SafetyInEveryRun(run, i - 1);
      assert Runs.StepAt(Next, run, i - 1);
      NextKeepsSingle(run[i - 1], run[i], id);
    }
  }

  // ----- where the map comes from

  predicate Reported(s: State, y: int, x: int, name: string) {
    Report(x, y, 0, name) in s.received || Report(x, y, 1, name) in s.received
  }

  ghost predicate Provenance(s: State) {
    && Inv(s)
    && (forall m :: m in s.pending ==> m in s.received)
    && (forall w :: 0 <= w < |s.workers| && s.workers[w] != Idle ==> s.workers[w].msg in s.received)
    && (forall y, x :: 0 <= y < SIDE && 0 <= x < SIDE && s.cells[y][x] != -1 ==>
          Reported(s, y, x, s.names[s.cells[y][x]]))
  }

  lemma ActKeepsProvenance(s: State, w: nat)
    requires Provenance(s) && CanAct(s, w)
    ensures Provenance(Act(s, w))
  {
    var s', me := Act(s, w), s.workers[w];
    assert Next(s, s');
    NextKeepsInv(s, s');
    forall y, x | 0 <= y < SIDE && 0 <= x < SIDE && s'.cells[y][x] != -1
      ensures Reported(s', y, x, s'.names[s'.cells[y][x]])
    {
      if !(me.Placing? && y == me.msg.y && x == me.msg.x) {
        assert s'.cells[y][x] == s.cells[y][x];
        assert Reported(s, y, x, s.names[s.cells[y][x]]);
      }
    }
  }

  lemma ProvenanceIsInductive()
    ensures Runs.Inductive(Init, Next, Provenance)
  {
    forall s | Init(s) ensures Provenance(s) { InvInit(s); }
    forall s, s' | Provenance(s) && Next(s, s') ensures Provenance(s') {
      if Receives(s, s') {
        NextKeepsInv(s, s');
        assert forall y, x :: 0 <= y < SIDE && 0 <= x < SIDE && s.cells[y][x] != -1 ==>
          Reported(s, y, x, s.names[s.cells[y][x]]);
      } else {
        var w: nat :| CanAct(s, w) && s' == Act(s, w);
        ActKeepsProvenance(s, w);
      }
    }
  }

  // A unit shows only on cells that some received report gave for its name, and
  // numbers stand for the same name for ever.
  lemma MapShowsReports(run: seq<State>, i: nat, y: nat, x: nat)
    requires IsRun(run) && i < |run| && y < SIDE && x < SIDE
    ensures Inv(run[i])
    ensures run[i].cells[y][x] != -1 ==> Reported(run[i], y, x, run[i].names[run[i].cells[y][x]])
  {
    ProvenanceIsInductive();
    Runs.InvariantHolds(Init, Next, Provenance, run, i);
  }

  lemma {:induction false} NumbersAreForEver(run: seq<State>, i: nat, j: nat)
    requires IsRun(run) && i <= j < |run|
    ensures run[i].names <= run[j].names
  {
    if i < j {
      NumbersAreForEver(run, i, j - 1);
      assert Runs.StepAt(Next, run, j - 1);
      NamesGrow(run[j - 1], run[j]);
    }
  }

  lemma NamesGrow(s: State, s': State)
    requires Next(s, s')
    ensures s.names <= s'.names
  {
    if w: nat :| CanAct(s, w) && s' == Act(s, w) {
    }
  }

  // ----- what becomes of a report

  // Worker w is busy with this report.
  predicate BusyWith(s: State, w: nat, msg: Message) {
    w < |s.workers| && s.workers[w] != Idle && s.workers[w].msg == msg
  }

  ghost predicate BusyBetween(run: seq<State>, w: nat, i: nat, j: nat) {
    i <= j < |run| && forall k :: i <= k < j ==> Busy(run[k], w)
  }

  predicate Busy(s: State, w: nat) {
    w < |s.workers| && s.workers[w] != Idle
  }

  lemma StepKeepsReport(s: State, s': State, w: nat, msg: Message)
    requires Next(s, s') && BusyWith(s, w, msg) && Busy(s', w)
    ensures BusyWith(s', w, msg)
  {
    if v: nat :| CanAct(s, v) && s' == Act(s, v) {
    }
  }

  lemma {:induction false} ReportIsKept(run: seq<State>, w: nat, i: nat, j: nat, msg: Message)
    requires IsRun(run) && i < j < |run| && BusyBetween(run, w, i, j) && BusyWith(run[i], w, msg)
    ensures BusyWith(run[j - 1], w, msg)
    decreases j
  {
    if i < j - 1 {
      ReportIsKept(run, w, i, j - 1, msg);
      assert Runs.StepAt(Next, run, j - 2);
      assert Busy(run[j - 1], w);
      StepKeepsReport(run[j - 2], run[j - 1], w, msg);
    }
  }

  // The map shows the unit of this name in row y and column x, put there by worker w.
  ghost predicate Drawn(s: State, y: int, x: int, name: string, w: nat) {
    && Shape(s) && OnMap((y, x))
    && exists id :: 0 <= id < |s.names| && s.names[id] == name && PutBy(s, (y, x), id, w)
  }

  // The registry is full of other names.
  predicate NoRoomFor(s: State, name: string) {
    |s.names| == 128 && name !in s.names
  }

  // Placing is what draws a report.
  lemma PlacingDraws(s: State, w: nat)
    requires Inv(s) && CanAct(s, w) && s.workers[w].Placing?
    ensures var msg := s.workers[w].msg; Drawn(Act(s, w), msg.y, msg.x, msg.name, w)
  {
    var me := s.workers[w];
    assert WorkerOk(s, me);
    assert PutBy(Act(s, w), (me.msg.y, me.msg.x), me.id, w);
  }

  // A worker gives an acceptable report up only when it gets no number.
  lemma GivesUp(s: State, w: nat)
    requires CanAct(s, w) && s.workers[w] != Idle && !s.workers[w].Placing? && !Busy(Act(s, w), w)
    requires |s.names| <= NAMES_SIZE
    requires var msg := s.workers[w].msg;
      msg.Report? && 0 <= msg.x <= 99 && 0 <= msg.y <= 99 && (msg.p == 0 || msg.p == 1)
    ensures NoRoomFor(Act(s, w), s.workers[w].msg.name)
  {
  }

  // A worker that becomes idle has drawn its report or had no number for it.
  lemma BecomesIdle(s: State, s': State, w: nat, x: int, y: int, p: int, name: string)
    requires Inv(s) && Next(s, s') && BusyWith(s, w, Report(x, y, p, name)) && !Busy(s', w)
    requires 0 <= x <= 99 && 0 <= y <= 99 && (p == 0 || p == 1)
    ensures Drawn(s', y, x, name, w) || NoRoomFor(s', name)
  {
    if v: nat :| CanAct(s, v) && s' == Act(s, v) {
      assert v == w;
      if s.workers[w].Placing? {
        PlacingDraws(s, w);
      } else {
        GivesUp(s, w);
      }
    }
  }

  // A report in range, of either side, that a worker has taken is on the map as soon as
  // the worker is idle again, unless the registry is full and does not know its name.
  lemma TakenReportIsDrawn(run: seq<State>, w: nat, i: nat, j: nat, x: int, y: int, p: int, name: string)
    requires IsRun(run) && i < j < |run| && BusyBetween(run, w, i, j) && !Busy(run[j], w)
    requires w < |run[i].workers| && run[i].workers[w] == Taken(Report(x, y, p, name))
    requires 0 <= x <= 99 && 0 <= y <= 99 && (p == 0 || p == 1)
    ensures Drawn(run[j], y, x, name, w) || NoRoomFor(run[j], name)
  {
    ReportIsKept(run, w, i, j, Report(x, y, p, name));
    SafetyInEveryRun(run, j - 1);
    assert Runs.StepAt(Next, run, j - 1);
    BecomesIdle(run[j - 1], run[j], w, x, y, p, name);
  }

  // A report out of range, or a text that is none.
  predicate Useless(msg: Message) {
    msg == Garbled || msg.x < 0 || msg.x > 99 || msg.y < 0 || msg.y > 99 || (msg.p != 0 && msg.p != 1)
  }

  // No other report gets beyond its check: the worker that has taken it is idle after
  // its next action, and the registry and the map are as before.
  lemma UselessIsIgnored(run: seq<State>, w: nat, i: nat)
    requires IsRun(run) && i < |run| && Busy(run[i], w) && Useless(run[i].workers[w].msg)
    ensures run[i].workers[w].Taken? && CanAct(run[i], w)
    ensures var s, s' := run[i], Act(run[i], w);
      s'.workers[w] == Idle && s'.names == s.names && s'.cells == s.cells && s'.author == s.author
  {
    SafetyInEveryRun(run, i);
    assert WorkerOk(run[i], run[i].workers[w]);
  }

  // ----- the queue of reports

  // Worker w takes a report.
  ghost predicate Takes(s: State, s': State, w: nat) {
    w < |s.workers| && w < |s'.workers| && s.workers[w] == Idle && s'.workers[w].Taken?
  }

  // The reports that arrived while there was room for them.
  ghost function Accepted(run: seq<State>): seq<Message> {
    if |run| < 2 then [] else Accepted(run[..|run| - 1]) + AcceptedIn(run[|run| - 2], run[|run| - 1])
  }

  ghost function AcceptedIn(s: State, s': State): seq<Message> {
    if Receives(s, s') && |s.pending| < 16 && s'.pending != [] then [s'.pending[|s'.pending| - 1]] else []
  }

  // The reports that workers have taken, in that order.
  ghost function TakenUp(run: seq<State>): seq<Message> {
    if |run| < 2 then [] else TakenUp(run[..|run| - 1]) + TakenIn(run[|run| - 2], run[|run| - 1])
  }

  ghost function TakenIn(s: State, s': State): seq<Message> {
    if w: nat :| Takes(s, s', w) then [s'.workers[w].msg] else []
  }

  lemma ReceiveQueues(s: State, s': State)
    requires Receives(s, s')
    ensures TakenIn(s, s') == [] && s'.pending == s.pending + AcceptedIn(s, s')
  {
    forall w: nat ensures !Takes(s, s', w) {}
  }

  lemma ActQueues(s: State, w: nat)
    requires CanAct(s, w)
    ensures AcceptedIn(s, Act(s, w)) == []
    ensures s.workers[w] != Idle ==> TakenIn(s, Act(s, w)) == [] && Act(s, w).pending == s.pending
    ensures s.workers[w] == Idle ==>
      TakenIn(s, Act(s, w)) == [Act(s, w).workers[w].msg] && Act(s, w).workers[w] == Taken(NextUp(s.pending, s.lifo))
  {
    var s' := Act(s, w);
    assert s'.workers[w] != s.workers[w];
    forall v: nat | Takes(s, s', v) ensures v == w {}
    if s.workers[w] == Idle {
      assert Takes(s, s', w);
    }
  }

  // With the ring, a step leaves what was accepted equal to what was taken and what waits.
  lemma StepKeepsOrder(s: State, s': State)
    requires Next(s, s') && !s.lifo
    ensures !s'.lifo && s.pending + AcceptedIn(s, s') == TakenIn(s, s') + s'.pending
  {
    if Receives(s, s') {
      ReceiveQueues(s, s');
    } else {
      var w: nat :| CanAct(s, w) && s' == Act(s, w);
      ActQueues(s, w);
    }
  }

  // With the ring, workers take the reports accepted in the order in which they
  // arrived: nothing is lost, repeated or overtaken.
  lemma {:induction false} TakenInOrder(run: seq<State>)
    requires IsRun(run) && !run[0].lifo
    ensures !run[|run| - 1].lifo && Accepted(run) == TakenUp(run) + run[|run| - 1].pending
  {
    if |run| > 1 {
      var front, s, s' := run[..|run| - 1], run[|run| - 2], run[|run| - 1];
      Runs.Prefix(Init, Next, run);
      TakenInOrder(front);
      assert Runs.StepAt(Next, run, |run| - 2);
      StepKeepsOrder(s, s');
      OrderCarries(Accepted(front), TakenUp(front), s.pending, AcceptedIn(s, s'), TakenIn(s, s'), s'.pending);
    }
  }

  lemma OrderCarries<T>(accepted: seq<T>, taken: seq<T>, waits: seq<T>, arrived: seq<T>, left: seq<T>, waits': seq<T>)
    requires accepted == taken + waits && waits + arrived == left + waits'
    ensures accepted + arrived == (taken + left) + waits'
  {
    assert taken + waits + arrived == taken + (waits + arrived);
  }

  lemma CountsCarry<T>(accepted: seq<T>, taken: seq<T>, waits: seq<T>, arrived: seq<T>, left: seq<T>, waits': seq<T>)
    requires multiset(accepted) == multiset(taken) + multiset(waits)
    requires multiset(waits + arrived) == multiset(left + waits')
    ensures multiset(accepted + arrived) == multiset(taken + left) + multiset(waits')
  {
    assert multiset(accepted + arrived) == multiset(accepted) + multiset(arrived);
    assert multiset(waits + arrived) == multiset(waits) + multiset(arrived);
    assert multiset(left + waits') == multiset(left) + multiset(waits');
    assert multiset(taken + left) == multiset(taken) + multiset(left);
    forall m: T ensures multiset(accepted + arrived)[m] == (multiset(taken + left) + multiset(waits'))[m] {
      assert multiset(waits + arrived)[m] == multiset(left + waits')[m];
    }
  }

  // Queue or stack, a step moves each report once.
  lemma StepKeepsReports(s: State, s': State)
    requires Next(s, s')
    ensures multiset(s.pending + AcceptedIn(s, s')) == multiset(TakenIn(s, s') + s'.pending)
  {
    if Receives(s, s') {
      ReceiveQueues(s, s');
    } else {
      var w: nat :| CanAct(s, w) && s' == Act(s, w);
      ActQueues(s, w);
      if s.workers[w] == Idle {
        NextAndRest(s.pending, s.lifo);
        assert s.pending + [] == s.pending;
      }
    }
  }

  lemma NextAndRest(pending: seq<Message>, lifo: bool)
    requires pending != []
    ensures multiset(pending) == multiset([NextUp(pending, lifo)] + Remaining(pending, lifo))
  {
    assert pending == if lifo then Remaining(pending, lifo) + [NextUp(pending, lifo)]
                      else [NextUp(pending, lifo)] + Remaining(pending, lifo);
  }

  // Queue or stack, every report accepted is taken once or still waits.
  lemma {:induction false} TakenOnce(run: seq<State>)
    requires IsRun(run)
    ensures multiset(Accepted(run)) == multiset(TakenUp(run)) + multiset(run[|run| - 1].pending)
  {
    if |run| > 1 {
      var front, s, s' := run[..|run| - 1], run[|run| - 2], run[|run| - 1];
      Runs.Prefix(Init, Next, run);
      TakenOnce(front);
      assert Runs.StepAt(Next, run, |run| - 2);
      StepKeepsReports(s, s');
      CountsCarry(Accepted(front), TakenUp(front), s.pending, AcceptedIn(s, s'), TakenIn(s, s'), s'.pending);
    }
  }

  // With the stack, a report that finds room is the next to be taken, and leaves the
  // others as they were.
  lemma NewestIsTakenNext(s: State, msg: Message, w: nat)
    requires s.lifo && |s.pending| < 16 && Shape(s) && w < |s.workers| && s.workers[w] == Idle
    ensures var s' := s.(pending := Queued(s.pending, msg), received := s.received + {msg});
      && Receives(s, s') && CanAct(s', w)
      && Act(s', w).workers[w] == Taken(msg) && Act(s', w).pending == s.pending
  {
    var s' := s.(pending := Queued(s.pending, msg), received := s.received + {msg});
    assert Receives(s, s');
  }

  // ----- the bound is sharp: as many workers as there are cells can all be caught
  // ----- between wiping and placing the same unit

  // The report worker k gets, a different cell for each.
  function Sighting(k: nat): Message {
    Report(k % SIDE, k / SIDE, 1, "A")
  }

  function Spot(k: nat): Cell {
    (k / SIDE, k % SIDE)
  }

  ghost predicate Blank(s: State) {
    Shape(s) && forall y, x :: 0 <= y < SIDE && 0 <= x < SIDE ==> s.cells[y][x] == -1
  }

  // Workers 0, ..., k - 1 are about to place unit 0, the others have done nothing.
  ghost predicate Prepared(s: State, k: nat, n: nat) {
    && Blank(s) && s.pending == [] && |s.workers| == n && k <= n
    && s.names == (if k == 0 then [] else ["A"])
    && (forall w :: 0 <= w < n ==> s.workers[w] == if w < k then Placing(0, Sighting(w)) else Idle)
  }

  lemma Extend(run: seq<State>, s: State) returns (longer: seq<State>)
    requires IsRun(run) && Next(run[|run| - 1], s)
    ensures IsRun(longer) && longer[0] == run[0] && longer[|longer| - 1] == s
  {
    Runs.Extend(Init, Next, run, s);
    longer := run + [s];
  }

  lemma SpotOnMap(k: nat)
    requires k < SIDE * SIDE
    ensures OnMap(Spot(k)) && Acceptable(Sighting(k))
  {
  }

  // Worker k takes its report.
  lemma TakeSighting(run: seq<State>, k: nat) returns (longer: seq<State>)
    requires IsRun(run)
    requires var s := run[|run| - 1]; Shape(s) && s.pending == [] && k < |s.workers| && s.workers[k] == Idle
    ensures IsRun(longer) && longer[0] == run[0]
    ensures var s, s' := run[|run| - 1], longer[|longer| - 1];
      && s'.cells == s.cells && s'.author == s.author && s'.pending == [] && s'.names == s.names
      && s'.workers == s.workers[k := Taken(Sighting(k))]
  {
    var s, msg := run[|run| - 1], Sighting(k);
    var s1 := s.(pending := Queued(s.pending, msg), received := s.received + {msg});
    assert Receives(s, s1);
    longer := Extend(run, s1);
    assert CanAct(s1, k);
    longer := Extend(longer, Act(s1, k));
  }

  // Worker k checks its report and registers the unit.
  lemma RegisterSighting(run: seq<State>, k: nat) returns (longer: seq<State>)
    requires IsRun(run) && Acceptable(Sighting(k))
    requires var s := run[|run| - 1];
      Shape(s) && k < |s.workers| && s.workers[k] == Taken(Sighting(k)) && (s.names == [] || s.names == ["A"])
    ensures IsRun(longer) && longer[0] == run[0]
    ensures var s, s' := run[|run| - 1], longer[|longer| - 1];
      && s'.cells == s.cells && s'.author == s.author && s'.pending == s.pending && s'.names == ["A"]
      && s'.workers == s.workers[k := Erasing(0, 0, Sighting(k))]
  {
    var s := run[|run| - 1];
    assert CanAct(s, k);
    var s1 := Act(s, k);
    longer := Extend(run, s1);
    assert s1.workers[k] == Registering(Sighting(k)) && CanAct(s1, k);
    longer := Extend(longer, Act(s1, k));
    assert Act(s1, k).names == ["A"];
  }

  // Worker k takes its report, checks it and registers the unit.
  lemma TakeAndRegister(run: seq<State>, k: nat, n: nat) returns (longer: seq<State>)
    requires IsRun(run) && Prepared(run[|run| - 1], k, n) && k < n <= SIDE * SIDE
    ensures IsRun(longer) && longer[0] == run[0]
    ensures var s, s' := run[|run| - 1], longer[|longer| - 1];
      && Blank(s') && s'.pending == [] && s'.names == ["A"]
      && s'.workers == s.workers[k := Erasing(0, 0, Sighting(k))]
  {
    SpotOnMap(k);
    longer := TakeSighting(run, k);
    longer := RegisterSighting(longer, k);
  }

  // Worker k wipes the rows from "row" on.
  lemma {:induction false} WipeFrom(run: seq<State>, k: nat, row: nat, msg: Message) returns (longer: seq<State>)
    requires IsRun(run) && row < SIDE && Acceptable(msg)
    requires var s := run[|run| - 1]; Blank(s) && k < |s.workers| && s.workers[k] == Erasing(0, row, msg)
    ensures IsRun(longer) && longer[0] == run[0]
    ensures var s, s' := run[|run| - 1], longer[|longer| - 1];
      && Blank(s') && s'.pending == s.pending && s'.names == s.names
      && s'.workers == s.workers[k := Placing(0, msg)]
    decreases SIDE - row
  {
    var s := run[|run| - 1];
    assert CanAct(s, k);
    longer := Extend(run, Act(s, k));
    if row + 1 < SIDE {
      longer := WipeFrom(longer, k, row + 1, msg);
    }
  }

  lemma {:induction false} Prepare(n: nat, k: nat, lifo: bool) returns (run: seq<State>)
    requires k <= n <= SIDE * SIDE
    ensures IsRun(run) && run[0].lifo == lifo && Prepared(run[|run| - 1], k, n)
  {
    if k == 0 {
      var blank := seq(SIDE, y => seq(SIDE, x => -1));
      run := [State(lifo, [], [], blank, blank, seq(n, w => Idle), {})];
    } else {
      run := Prepare(n, k - 1, lifo);
      run := TakeAndRegister(run, k - 1, n);
      SpotOnMap(k - 1);
      run := WipeFrom(run, k - 1, 0, Sighting(k - 1));
    }
  }

  // Workers 0, ..., k - 1 have placed the unit, the others are about to.
  ghost predicate Placed(s: State, n: nat, k: nat) {
    && Shape(s) && |s.workers| == n && k <= n
    && (forall w :: k <= w < n ==> s.workers[w] == Placing(0, Sighting(w)))
    && (forall w :: 0 <= w < k ==> OnMap(Spot(w)) && Shows(s, Spot(w), 0))
  }

  lemma PlaceNext(s: State, n: nat, k: nat)
    requires Placed(s, n, k) && k < n <= SIDE * SIDE
    ensures CanAct(s, k) && Next(s, Act(s, k)) && Placed(Act(s, k), n, k + 1)
  {
    SpotOnMap(k);
    var s' := Act(s, k);
    forall w | 0 <= w < k + 1 ensures OnMap(Spot(w)) && Shows(s', Spot(w), 0) {
      assert w < k ==> Shows(s, Spot(w), 0);
    }
  }

  // After everybody is prepared, workers 0, ..., k - 1 place the unit.
  lemma {:induction false} PlaceAll(n: nat, k: nat, lifo: bool) returns (run: seq<State>)
    requires k <= n <= SIDE * SIDE
    ensures IsRun(run) && run[0].lifo == lifo
    ensures Placed(run[|run| - 1], n, k)
  {
    if k == 0 {
      run := Prepare(n, n, lifo);
    } else {
      run := PlaceAll(n, k - 1, lifo);
      var s := run[|run| - 1];
      PlaceNext(s, n, k - 1);
      run := Extend(run, Act(s, k - 1));
    }
  }

  // With the queue and with the stack, for every number of workers up to the number of
  // cells there is a run in which one unit shows on exactly that many cells.
  lemma BoundIsSharp(n: nat, lifo: bool) returns (run: seq<State>)
    requires n <= SIDE * SIDE
    ensures IsRun(run) && run[0].lifo == lifo
    ensures var s := run[|run| - 1]; |s.workers| == n && Shape(s) && |Copies(s, 0)| == n
  {
    run := PlaceAll(n, n, lifo);
    var s := run[|run| - 1];
    var spots := set w | w in Below(n) :: Spot(w);
    ImageSize(Below(n), (w: int) => if w >= 0 then Spot(w) else (w, w), spots);
    assert spots <= Copies(s, 0);
    SubsetSize(spots, Copies(s, 0));
    CopiesAreBounded(run, |run| - 1, 0);
  }

  // ----- the shared structure, updated in place

  class Staff {
    // The report queue.
    const queue: array<Message>
    var head: nat
    var tail: nat
    var count: nat
    ghost var put: seq<Message>     // everything ever queued
    ghost var taken: seq<Message>   // everything ever taken
    // The registry.
    const registry: array<string>
    var registered: nat
    // The map, by row and column.
    const grid: array2<int>

    ghost predicate Valid()
      reads this, queue, registry
    {
      && queue.Length == QUEUE_SIZE
      && Ring.Represents(queue[..], tail, head, put, taken)
      && count == |put| - |taken|
      && registry.Length == NAMES_SIZE && registered <= NAMES_SIZE
      && grid.Length0 == SIDE && grid.Length1 == SIDE
    }

    ghost function Pending(): seq<Message>
      requires |taken| <= |put|
      reads this
    {
      put[|taken|..]
    }

    ghost function Names(): seq<string>
      requires registered <= registry.Length
      reads this, registry
    {
      registry[..registered]
    }

    ghost function Row(y: nat): seq<int>
      requires y < grid.Length0
      reads this, grid
    {
      seq(grid.Length1, x requires 0 <= x < grid.Length1 reads this, grid => grid[y, x])
    }

    constructor ()
      ensures Valid() && Pending() == [] && Names() == []
      ensures fresh(queue) && fresh(registry) && fresh(grid)
      ensures forall y, x :: 0 <= y < SIDE && 0 <= x < SIDE ==> grid[y, x] == -1
    {
      queue := new Message[QUEUE_SIZE](i => Garbled);
      head, tail, count := 0, 0, 0;
      put, taken := [], [];
      registry := new string[NAMES_SIZE](i => "");
      registered := 0;
      grid := new int[SIDE, SIDE]((y, x) => -1);
    }

    // serwer_work: a report is queued, or dropped when the queue is full.
    method Enqueue(msg: Message) returns (kept: bool)
      requires Valid()
      modifies this`tail, this`count, this`put, queue
      ensures Valid()
      ensures Pending() == Queued(old(Pending()), msg)
      ensures kept <==> |old(Pending())| < QUEUE_SIZE
      ensures taken == old(taken)
    {
      if count < QUEUE_SIZE {
        Ring.PutKeeps(queue[..], tail, head, put, taken, msg);
        queue[tail] := msg;
        tail := (tail + 1) % QUEUE_SIZE;
        count := count + 1;
        put := put + [msg];
        kept := true;
      } else {
        kept := false;
      }
    }

    // thread_work: the oldest report is taken from a queue that is not empty.
    method Dequeue() returns (msg: Message)
      requires Valid() && Pending() != []
      modifies this`head, this`count, this`taken
      ensures Valid()
      ensures msg == NextUp(old(Pending()), false) && Pending() == Remaining(old(Pending()), false)
      ensures taken == old(taken) + [msg]
    {
      Ring.TakeKeeps(queue[..], tail, head, put, taken);
      msg := queue[head];
      head := (head + 1) % QUEUE_SIZE;
      count := count - 1;
      taken := taken + [msg];
    }

    // thread_work: the number of the unit with this name, which is entered if it is
    // new and there is room.
    method Register(name: string) returns (id: int)
      requires Valid()
      modifies this`registered, registry
      ensures Valid() && (Names(), id) == Registered(old(Names()), name)
    {
      id := -1;
      ghost var names := Names();
      var i := 0;
      while i < registered && id == -1
        invariant 0 <= i <= registered
        invariant id == -1 ==> name !in names[..i]
        invariant id >= -1
        invariant id >= 0 ==> id < registered && names[id] == name && name !in names[..id]
        decreases registered - i, id == -1
      {
        if registry[i] == name {
          id := i;
        } else {
          i := i + 1;
        }
      }
      assert id == -1 ==> names[..i] == names;
      FirstIndex(names, name, id);
      if id == -1 && registered < NAMES_SIZE {
        id := registered;
        registry[id] := name;
        registered := registered + 1;
        assert Names() == names + [name];
      }
    }

    // thread_work: one row of the wiping loop, under the mutex of that row.
    method EraseRow(row: nat, id: int)
      requires Valid() && row < SIDE
      modifies grid
      ensures Row(row) == ErasedRow(old(Row(row)), id)
      ensures forall y, x :: 0 <= y < SIDE && 0 <= x < SIDE && y != row ==> grid[y, x] == old(grid[y, x])
    {
      for x := 0 to SIDE
        invariant forall k :: 0 <= k < x ==> grid[row, k] == if old(grid[row, k]) == id then -1 else old(grid[row, k])
        invariant forall k :: x <= k < SIDE ==> grid[row, k] == old(grid[row, k])
        invariant forall y, k :: 0 <= y < SIDE && 0 <= k < SIDE && y != row ==> grid[y, k] == old(grid[y, k])
      {
        if grid[row, x] == id {
          grid[row, x] := -1;
        }
      }
    }

    // thread_work: the unit is put on its new cell, under the mutex of that row.
    method Place(x: nat, y: nat, id: int)
      requires Valid() && x < SIDE && y < SIDE
      modifies grid
      ensures grid[y, x] == id
      ensures forall j, i :: 0 <= j < SIDE && 0 <= i < SIDE && !(j == y && i == x) ==> grid[j, i] == old(grid[j, i])
    {
      grid[y, x] := id;
    }

    // The whole drawing of one report by a worker that is not disturbed: afterwards
    // the unit shows on its new cell and nowhere else, and no other unit has moved
    // except off that cell.
    method Draw(x: nat, y: nat, id: nat)
      requires Valid() && x < SIDE && y < SIDE
      modifies grid
      ensures forall j, i :: 0 <= j < SIDE && 0 <= i < SIDE ==> (grid[j, i] == id <==> j == y && i == x)
      ensures forall j, i :: 0 <= j < SIDE && 0 <= i < SIDE && !(j == y && i == x) && old(grid[j, i]) != id ==>
        grid[j, i] == old(grid[j, i])
    {
      for row := 0 to SIDE
        invariant forall j, i :: 0 <= j < row && 0 <= i < SIDE ==>
          grid[j, i] == if old(grid[j, i]) == id then -1 else old(grid[j, i])
        invariant forall j, i :: row <= j < SIDE && 0 <= i < SIDE ==> grid[j, i] == old(grid[j, i])
      {
        label before:
        EraseRow(row, id);
        assert forall i :: 0 <= i < SIDE ==>
          grid[row, i] == Row(row)[i] && old@before(grid[row, i]) == old@before(Row(row))[i];
      }
      Place(x, y, id);
    }
  }

  // A search that stops at the first match finds what IndexOf says.
  lemma {:induction false} FirstIndex(names: seq<string>, name: string, i: int)
    requires if i == -1 then name !in names else 0 <= i < |names| && names[i] == name && name !in names[..i]
    ensures i == IndexOf(names, name)
  {
    var j := IndexOf(names, name);
    assert j >= 0 ==> names[j] in names;
  }
}
