// The message network of zadania_5/zadanie_ziemniak/ziemniak.c: a message walks
// at random through a graph of processes until it meets its target or its time
// to live is over.
module Routing {
  import Modulo
  import Runs
  import opened Sums

  const MAX_NODES := 10
  const TTL := 20

  // The rows of the adjacency matrix; 1 is an edge.
  type Graph = seq<seq<int>>

  predicate IsGraph(g: Graph) {
    0 < |g| <= MAX_NODES && forall i :: 0 <= i < |g| ==> |g[i]| == |g|
  }

  // "path" has MAX_NODES * 5 places, of which pathLen are in use; "start" is kept
  // for the record only.
  datatype Message = Message(target: nat, path: seq<int>, pathLen: nat, ttl: int, start: nat)

  // The pipes of the nodes, what has been written to the report FIFO, and how many
  // messages have been dropped and sent out.
  datatype Network = Network(pipes: seq<seq<Message>>, reports: seq<Message>, lost: nat, injected: nat)

  // The columns with a 1, in order.
  function Neighbours(row: seq<int>): (ns: seq<nat>)
    ensures forall k :: 0 <= k < |ns| ==> ns[k] < |row| && row[ns[k]] == 1
    ensures forall k, l :: 0 <= k < l < |ns| ==> ns[k] < ns[l]
    ensures forall j :: 0 <= j < |row| && row[j] == 1 ==> j in ns
  {
    if row == [] then []
    else
      var front, last := row[..|row| - 1], |row| - 1;
      if row[last] == 1 then Neighbours(front) + [last] else Neighbours(front)
  }

  ghost predicate Init(s: Network, g: Graph) {
    && |s.pipes| == |g| && (forall i :: 0 <= i < |g| ==> s.pipes[i] == [])
    && s.reports == [] && s.lost == 0 && s.injected == 0
  }

  // ----- steps

  function NewMessage(start: nat, target: nat): Message {
    Message(target, seq(MAX_NODES * 5, i => 0), 0, TTL, start)
  }

  // The parent sends a message to node "start".
  function Injected(s: Network, start: nat, target: nat): Network
    requires start < |s.pipes|
  {
    s.(pipes := s.pipes[start := s.pipes[start] + [NewMessage(start, target)]], injected := s.injected + 1)
  }

  function Visited(m: Message, i: nat): Message
    requires m.pathLen < |m.path|
  {
    m.(path := m.path[m.pathLen := i], pathLen := m.pathLen + 1, ttl := m.ttl - 1)
  }

  // Node i can read a message; the place for its number is free.
  predicate CanHandle(s: Network, g: Graph, i: nat) {
    && IsGraph(g) && |s.pipes| == |g| && i < |g|
    && s.pipes[i] != [] && s.pipes[i][0].pathLen < |s.pipes[i][0].path|
  }

  // Where node i sends a message that it does not keep: node i itself has closed its
  // own pipe for writing, so it may be nowhere.
  function Destination(g: Graph, i: nat, draw: nat): (j: int)
    requires IsGraph(g) && i < |g|
    ensures -1 <= j < |g|
    ensures j >= 0 ==> j != i && g[i][j] == 1
  {
    var ns := Neighbours(g[i]);
    if |ns| == 0 || ns[draw % |ns|] == i then -1 else ns[draw % |ns|]
  }

  // Node i handles the first message in its pipe; rand() gives "draw".
  function Handled(s: Network, g: Graph, i: nat, draw: nat): Network
    requires CanHandle(s, g, i)
  {
    var m, pipes := Visited(s.pipes[i][0], i), s.pipes[i := s.pipes[i][1..]];
    var j := Destination(g, i, draw);
    if m.target == i then s.(pipes := pipes, reports := s.reports + [m])
    else if m.ttl > 0 && j >= 0 then s.(pipes := pipes[j := pipes[j] + [m]])
    else s.(pipes := pipes, lost := s.lost + 1)
  }

  ghost predicate InjectStep(s: Network, s': Network, g: Graph) {
    exists start: nat, target: nat ::
      start < |g| && target < |g| && |s.pipes| == |g| && s' == Injected(s, start, target)
  }

  ghost predicate HandleStep(s: Network, s': Network, g: Graph) {
    exists i: nat, draw: nat :: CanHandle(s, g, i) && s' == Handled(s, g, i, draw)
  }

  ghost predicate Next(s: Network, s': Network, g: Graph) {
    InjectStep(s, s', g) || HandleStep(s, s', g)
  }

  // ----- routes

  predicate Edge(g: Graph, i: int, j: int) {
    IsGraph(g) && 0 <= i < |g| && 0 <= j < |g| && g[i][j] == 1 && i != j
  }

  // A walk from "start" along edges of the graph.
  ghost predicate IsWalk(g: Graph, path: seq<int>, start: int) {
    && path != [] && path[0] == start && 0 <= start < |g|
    && forall k :: 0 <= k < |path| - 1 ==> Edge(g, path[k], path[k + 1])
  }

  // A walk of at most twenty nodes that meets "target" once, at its end.
  ghost predicate IsRoute(g: Graph, path: seq<int>, start: int, target: int) {
    && IsWalk(g, path, start) && |path| <= 20
    && path[|path| - 1] == target && target !in path[..|path| - 1]
  }

  function PathOf(m: Message): seq<int>
    requires m.pathLen <= |m.path|
  {
    m.path[..m.pathLen]
  }

  ghost predicate MessageOk(m: Message) {
    |m.path| == MAX_NODES * 5 && m.pathLen <= TTL && m.pathLen + m.ttl == TTL
  }

  // A message on its way to node i: with i, its path is a walk, and it has not been
  // at its target.
  ghost predicate OnItsWay(g: Graph, m: Message, i: nat) {
    && MessageOk(m) && m.ttl > 0 && m.target < |g|
    && IsWalk(g, PathOf(m) + [i], m.start) && m.target !in PathOf(m)
  }

  ghost predicate Arrived(g: Graph, m: Message) {
    MessageOk(m) && IsRoute(g, PathOf(m), m.start, m.target)
  }

  ghost predicate PipeOk(g: Graph, pipe: seq<Message>, i: nat) {
    forall k :: 0 <= k < |pipe| ==> OnItsWay(g, pipe[k], i)
  }

  function Size(pipe: seq<Message>): int { |pipe| }

  ghost predicate Inv(s: Network, g: Graph) {
    && IsGraph(g) && |s.pipes| == |g|
    && (forall i :: 0 <= i < |g| ==> PipeOk(g, s.pipes[i], i))
    && (forall k :: 0 <= k < |s.reports| ==> Arrived(g, s.reports[k]))
    && s.injected == SumBy(s.pipes, Size) + |s.reports| + s.lost
  }

  lemma WalkGrows(g: Graph, path: seq<int>, start: int, j: int)
    requires IsWalk(g, path, start) && Edge(g, path[|path| - 1], j)
    ensures IsWalk(g, path + [j], start)
  {
  }

  lemma VisitedPath(m: Message, i: nat)
    requires MessageOk(m) && m.ttl > 0
    ensures MessageOk(Visited(m, i)) && PathOf(Visited(m, i)) == PathOf(m) + [i]
  {
  }

  // What becomes of a message that node i has read.
  lemma VisitKeeps(g: Graph, m: Message, i: nat, draw: nat)
    requires IsGraph(g) && i < |g| && OnItsWay(g, m, i)
    ensures var m', j := Visited(m, i), Destination(g, i, draw);
      && (m.target == i ==> Arrived(g, m'))
      && (m.target != i && m'.ttl > 0 && j >= 0 ==> OnItsWay(g, m', j))
  {
    var m', j := Visited(m, i), Destination(g, i, draw);
    VisitedPath(m, i);
    assert PathOf(m') == PathOf(m) + [i];
    assert PathOf(m')[..|PathOf(m')| - 1] == PathOf(m);
    if j >= 0 {
      WalkGrows(g, PathOf(m'), m.start, j);
    }
  }

  lemma PipeGrows(g: Graph, pipe: seq<Message>, i: nat, m: Message)
    requires PipeOk(g, pipe, i) && OnItsWay(g, m, i)
    ensures PipeOk(g, pipe + [m], i)
  {
  }

  lemma PipeShrinks(g: Graph, pipe: seq<Message>, i: nat)
    requires PipeOk(g, pipe, i) && pipe != []
    ensures PipeOk(g, pipe[1..], i) && OnItsWay(g, pipe[0], i)
  {
  }

  lemma HandledKeepsInv(s: Network, g: Graph, i: nat, draw: nat)
    requires Inv(s, g) && CanHandle(s, g, i)
    ensures Inv(Handled(s, g, i, draw), g)
  {
    PipeShrinks(g, s.pipes[i], i);
    VisitKeeps(g, s.pipes[i][0], i, draw);
    var m, pipes, j := Visited(s.pipes[i][0], i), s.pipes[i := s.pipes[i][1..]], Destination(g, i, draw);
    SumByUpdate(s.pipes, Size, i, s.pipes[i][1..]);
    if m.target != i && m.ttl > 0 && j >= 0 {
      PipeGrows(g, pipes[j], j, m);
      SumByUpdate(pipes, Size, j, pipes[j] + [m]);
    }
  }

  lemma NewMessageOnItsWay(g: Graph, start: nat, target: nat)
    requires IsGraph(g) && start < |g| && target < |g|
    ensures OnItsWay(g, NewMessage(start, target), start)
  {
    assert PathOf(NewMessage(start, target)) + [start] == [start];
  }

  lemma InjectedKeepsInv(s: Network, g: Graph, start: nat, target: nat)
    requires Inv(s, g) && start < |g| && target < |g|
    ensures Inv(Injected(s, start, target), g)
  {
    NewMessageOnItsWay(g, start, target);
    PipeGrows(g, s.pipes[start], start, NewMessage(start, target));
    SumByUpdate(s.pipes, Size, start, s.pipes[start] + [NewMessage(start, target)]);
  }

  lemma NextKeepsInv(s: Network, s': Network, g: Graph)
    requires Inv(s, g) && Next(s, s', g)
    ensures Inv(s', g)
  {
    if HandleStep(s, s', g) {
      var i: nat, draw: nat :| CanHandle(s, g, i) && s' == Handled(s, g, i, draw);
      HandledKeepsInv(s, g, i, draw);
    } else {
      var start: nat, target: nat :| start < |g| && target < |g| && s' == Injected(s, start, target);
      InjectedKeepsInv(s, g, start, target);
    }
  }

  lemma InitIsInv(s: Network, g: Graph)
    requires Init(s, g) && IsGraph(g)
    ensures Inv(s, g)
  {
    SumByBounds(s.pipes, Size, 0, 0);
  }

  // ----- results about whole runs

  ghost function InitWith(g: Graph): Network -> bool {
    s => Init(s, g)
  }

  ghost function NextWith(g: Graph): (Network, Network) -> bool {
    (s, s') => Next(s, s', g)
  }

  ghost function InvWith(g: Graph): Network -> bool {
    s => Inv(s, g)
  }

  ghost predicate IsRun(run: seq<Network>, g: Graph) {
    IsGraph(g) && Runs.IsRun(InitWith(g), NextWith(g), run)
  }

  lemma InvIsInductive(g: Graph)
    requires IsGraph(g)
    ensures Runs.Inductive(InitWith(g), NextWith(g), InvWith(g))
  {
    forall s | InitWith(g)(s) ensures InvWith(g)(s) { InitIsInv(s, g); }
    forall s, s' | InvWith(g)(s) && NextWith(g)(s, s') ensures InvWith(g)(s') { NextKeepsInv(s, s', g); }
  }

  // In every state every message has path_len + ttl == 20 and a path that is a walk,
  // every reported path is a route, and no message disappears without being counted.
  lemma SafetyInEveryRun(run: seq<Network>, g: Graph, k: nat)
    requires IsRun(run, g) && k < |run|
    ensures Inv(run[k], g)
  {
    InvIsInductive(g);
    Runs.InvariantHolds(InitWith(g), NextWith(g), InvWith(g), run, k);
  }

  // ----- hops

  function Ttl(m: Message): int { m.ttl }

  function TtlOf(pipe: seq<Message>): int {
    SumBy(pipe, Ttl)
  }

  // The time to live of all messages on their way.
  function TotalTtl(s: Network): int {
    SumBy(s.pipes, TtlOf)
  }

  // Every message handled takes at least one from the total.
  lemma HandledLowersTtl(s: Network, g: Graph, i: nat, draw: nat)
    requires CanHandle(s, g, i) && s.pipes[i][0].ttl > 0
    ensures TotalTtl(Handled(s, g, i, draw)) < TotalTtl(s)
  {
    var m, pipes, j := Visited(s.pipes[i][0], i), s.pipes[i := s.pipes[i][1..]], Destination(g, i, draw);
    SumByFirst(s.pipes[i], Ttl);
    SumByUpdate(s.pipes, TtlOf, i, s.pipes[i][1..]);
    if m.target != i && m.ttl > 0 && j >= 0 {
      SumByAppend(pipes[j], Ttl, m);
      SumByUpdate(pipes, TtlOf, j, pipes[j] + [m]);
    }
  }

  lemma InjectedAddsTtl(s: Network, start: nat, target: nat)
    requires start < |s.pipes|
    ensures TotalTtl(Injected(s, start, target)) == TotalTtl(s) + TTL
  {
    var m := NewMessage(start, target);
    SumByAppend(s.pipes[start], Ttl, m);
    SumByUpdate(s.pipes, TtlOf, start, s.pipes[start] + [m]);
  }

  // What is on its way, less what has been sent out.
  function Spent(s: Network): int {
    TotalTtl(s) - TTL * s.injected
  }

  ghost function HandleSteps(g: Graph): (Network, Network) -> bool {
    (s, s') => HandleStep(s, s', g)
  }

  lemma NextAndSpent(s: Network, s': Network, g: Graph)
    requires Inv(s, g) && Next(s, s', g)
    ensures Spent(s') <= if HandleSteps(g)(s, s') then Spent(s) - 1 else Spent(s)
  {
    if HandleStep(s, s', g) {
      var i: nat, draw: nat :| CanHandle(s, g, i) && s' == Handled(s, g, i, draw);
      PipeShrinks(g, s.pipes[i], i);
      HandledLowersTtl(s, g, i, draw);
    } else {
      var start: nat, target: nat :| start < |g| && target < |g| && s' == Injected(s, start, target);
      InjectedAddsTtl(s, start, target);
    }
  }

  lemma HandlingsSpend(g: Graph)
    ensures Runs.CountedLowers(NextWith(g), InvWith(g), HandleSteps(g), Spent)
  {
    forall s, s' | InvWith(g)(s) && NextWith(g)(s, s')
      ensures Spent(s') <= if HandleSteps(g)(s, s') then Spent(s) - 1 else Spent(s)
    {
      NextAndSpent(s, s', g);
    }
  }

  // From any state on, the hops made and those that can still be made are at most the
  // time to live on its way there, and twenty for each message sent out since.
  lemma HopsAreBounded(run: seq<Network>, g: Graph, k: nat, l: nat)
    requires IsRun(run, g) && k <= l < |run|
    ensures Runs.CountSteps(HandleSteps(g), run[k..l + 1]) + TotalTtl(run[l])
      <= TotalTtl(run[k]) + TTL * (run[l].injected - run[k].injected)
  {
    InvIsInductive(g);
    HandlingsSpend(g);
    Runs.CountBetween(InitWith(g), NextWith(g), InvWith(g), HandleSteps(g), Spent, run, k, l);
  }

  // So a whole run makes at most twenty hops for each message sent out.
  lemma HopsOfRun(run: seq<Network>, g: Graph)
    requires IsRun(run, g)
    ensures var last := run[|run| - 1];
      Runs.CountSteps(HandleSteps(g), run) + TotalTtl(last) <= 20 * last.injected
  {
    HopsAreBounded(run, g, 0, |run| - 1);
    assert run[0..|run|] == run;
    SumByBounds(run[0].pipes, TtlOf, 0, 0);
  }

  // ----- what becomes of the messages

  // The first message of node i is read by its target.
  ghost predicate Arrives(s: Network, s': Network, g: Graph) {
    exists i: nat, draw: nat :: CanHandle(s, g, i) && s' == Handled(s, g, i, draw) && s.pipes[i][0].target == i
  }

  // The node that node i draws among its neighbours is i itself, or it has none.
  predicate DrawsNobody(g: Graph, i: nat, draw: nat)
    requires IsGraph(g) && i < |g|
  {
    1 !in g[i] || (|Neighbours(g[i])| > 0 && Neighbours(g[i])[draw % |Neighbours(g[i])|] == i)
  }

  // It is read somewhere else, and cannot go on.
  ghost predicate Expires(s: Network, s': Network, g: Graph) {
    exists i: nat, draw: nat ::
      && CanHandle(s, g, i) && s' == Handled(s, g, i, draw) && s.pipes[i][0].target != i
      && (s.pipes[i][0].ttl == 1 || DrawsNobody(g, i, draw))
  }

  ghost function Arrivals(g: Graph): (Network, Network) -> bool {
    (s, s') => Arrives(s, s', g)
  }

  ghost function Expiries(g: Graph): (Network, Network) -> bool {
    (s, s') => Expires(s, s', g)
  }

  function Lost(s: Network): int { s.lost }

  function ReportCount(s: Network): int { |s.reports| }

  lemma NobodyIsNowhere(g: Graph, i: nat, draw: nat)
    requires IsGraph(g) && i < |g|
    ensures Destination(g, i, draw) == -1 <==> DrawsNobody(g, i, draw)
  {
    var ns := Neighbours(g[i]);
    if 1 in g[i] {
      var j :| 0 <= j < |g[i]| && g[i][j] == 1;
      assert j in ns;
    }
  }

  lemma HandledCounts(s: Network, g: Graph, i: nat, draw: nat)
    requires Inv(s, g) && CanHandle(s, g, i)
    ensures var s', m := Handled(s, g, i, draw), s.pipes[i][0];
      && |s'.reports| == |s.reports| + (if m.target == i then 1 else 0)
      && s'.lost == s.lost + (if m.target != i && (m.ttl == 1 || DrawsNobody(g, i, draw)) then 1 else 0)
  {
    PipeShrinks(g, s.pipes[i], i);
    NobodyIsNowhere(g, i, draw);
  }

  lemma StepCounts(s: Network, s': Network, g: Graph)
    requires Inv(s, g) && Next(s, s', g)
    ensures |s'.reports| == |s.reports| + (if Arrives(s, s', g) then 1 else 0)
    ensures s'.lost == s.lost + (if Expires(s, s', g) then 1 else 0)
  {
    forall i: nat, draw: nat | CanHandle(s, g, i) && s' == Handled(s, g, i, draw)
      ensures var m := s.pipes[i][0];
        && |s'.reports| == |s.reports| + (if m.target == i then 1 else 0)
        && s'.lost == s.lost + (if m.target != i && (m.ttl == 1 || DrawsNobody(g, i, draw)) then 1 else 0)
    {
      HandledCounts(s, g, i, draw);
    }
  }

  lemma CountsInStep(run: seq<Network>, g: Graph, m: nat)
    requires IsRun(run, g) && m < |run| - 1
    ensures ReportCount(run[m + 1]) == ReportCount(run[m]) + if Runs.StepAt(Arrivals(g), run, m) then 1 else 0
    ensures Lost(run[m + 1]) == Lost(run[m]) + if Runs.StepAt(Expiries(g), run, m) then 1 else 0
  {
    SafetyInEveryRun(run, g, m);
    assert Runs.StepAt(NextWith(g), run, m);
    StepCounts(run[m], run[m + 1], g);
  }

  // A message is reported when its target reads it, and lost only when another node
  // reads it at the end of its time to live or draws itself as the next node.
  lemma EveryFateIsCounted(run: seq<Network>, g: Graph)
    requires IsRun(run, g)
    ensures |run[|run| - 1].reports| == Runs.CountSteps(Arrivals(g), run)
    ensures run[|run| - 1].lost == Runs.CountSteps(Expiries(g), run)
  {
    forall m | 0 <= m < |run| - 1
      ensures ReportCount(run[m + 1]) == ReportCount(run[m]) + if Runs.StepAt(Arrivals(g), run, m) then 1 else 0
      ensures Lost(run[m + 1]) == Lost(run[m]) + if Runs.StepAt(Expiries(g), run, m) then 1 else 0
    {
      CountsInStep(run, g, m);
    }
    Runs.CountExactly(Arrivals(g), ReportCount, run, 0, |run| - 1);
    Runs.CountExactly(Expiries(g), Lost, run, 0, |run| - 1);
    assert run[0..|run|] == run;
  }

  // What a step writes to a pipe and reads from it, seen from the two ends of the pipe.
  function WrittenIn(pipe: seq<Message>, pipe': seq<Message>): seq<Message> {
    if |pipe'| > |pipe| then [pipe'[|pipe'| - 1]] else []
  }

  function ReadIn(pipe: seq<Message>, pipe': seq<Message>): seq<Message> {
    if |pipe'| < |pipe| then [pipe[0]] else []
  }

  function Pipe(s: Network, i: nat): seq<Message> {
    if i < |s.pipes| then s.pipes[i] else []
  }

  // All that has been written to the pipe of node i in a run, and read from it.
  function Written(run: seq<Network>, i: nat): seq<Message> {
    if |run| < 2 then []
    else Written(run[..|run| - 1], i) + WrittenIn(Pipe(run[|run| - 2], i), Pipe(run[|run| - 1], i))
  }

  function Read(run: seq<Network>, i: nat): seq<Message> {
    if |run| < 2 then []
    else Read(run[..|run| - 1], i) + ReadIn(Pipe(run[|run| - 2], i), Pipe(run[|run| - 1], i))
  }

  // A pipe stays as it is, is read at its beginning or written at its end.
  ghost predicate PipeStep(pipe: seq<Message>, pipe': seq<Message>) {
    pipe' == pipe || (pipe != [] && pipe' == pipe[1..]) || exists m :: pipe' == pipe + [m]
  }

  lemma HandledPipe(s: Network, g: Graph, k: nat, draw: nat, i: nat)
    requires CanHandle(s, g, k)
    ensures PipeStep(Pipe(s, i), Pipe(Handled(s, g, k, draw), i))
  {
    var s', m, j := Handled(s, g, k, draw), Visited(s.pipes[k][0], k), Destination(g, k, draw);
    if i == j && Pipe(s', i) != Pipe(s, i) {
      assert Pipe(s', i) == Pipe(s, i) + [m];
    }
  }

  lemma InjectedPipe(s: Network, start: nat, target: nat, i: nat)
    requires start < |s.pipes|
    ensures PipeStep(Pipe(s, i), Pipe(Injected(s, start, target), i))
  {
    if i == start {
      assert Pipe(Injected(s, start, target), i) == Pipe(s, i) + [NewMessage(start, target)];
    }
  }

  lemma PipeBalance(pipe: seq<Message>, pipe': seq<Message>)
    requires PipeStep(pipe, pipe')
    ensures pipe + WrittenIn(pipe, pipe') == ReadIn(pipe, pipe') + pipe'
  {
  }

  lemma StepKeepsPipe(s: Network, s': Network, g: Graph, i: nat)
    requires Next(s, s', g)
    ensures Pipe(s, i) + WrittenIn(Pipe(s, i), Pipe(s', i)) == ReadIn(Pipe(s, i), Pipe(s', i)) + Pipe(s', i)
  {
    if HandleStep(s, s', g) {
      var k: nat, draw: nat :| CanHandle(s, g, k) && s' == Handled(s, g, k, draw);
      HandledPipe(s, g, k, draw, i);
    } else {
      var start: nat, target: nat :| start < |g| && |s.pipes| == |g| && s' == Injected(s, start, target);
      InjectedPipe(s, start, target, i);
    }
    PipeBalance(Pipe(s, i), Pipe(s', i));
  }

  // A node reads its messages in the order in which they were written to its pipe, and
  // none of them twice.
  lemma {:induction false} PipesAreQueues(run: seq<Network>, g: Graph, i: nat)
    requires IsRun(run, g)
    ensures Written(run, i) == Read(run, i) + Pipe(run[|run| - 1], i)
  {
    if |run| > 1 {
      var front, s, s' := run[..|run| - 1], run[|run| - 2], run[|run| - 1];
      Runs.Prefix(InitWith(g), NextWith(g), run);
      PipesAreQueues(front, g, i);
      assert Runs.StepAt(NextWith(g), run, |run| - 2);
      StepKeepsPipe(s, s', g, i);
      QueueGoesOn(Written(front, i), Read(front, i), Pipe(s, i), WrittenIn(Pipe(s, i), Pipe(s', i)),
        ReadIn(Pipe(s, i), Pipe(s', i)), Pipe(s', i));
    }
  }

  lemma QueueGoesOn<T>(written: seq<T>, read: seq<T>, pipe: seq<T>, more: seq<T>, taken: seq<T>, pipe': seq<T>)
    requires written == read + pipe && pipe + more == taken + pipe'
    ensures written + more == (read + taken) + pipe'
  {
    assert read + pipe + more == read + (pipe + more);
  }

  // ----- which paths can be reported

  ghost predicate Reported(s: Network, path: seq<int>, start: int, target: int) {
    exists k :: 0 <= k < |s.reports| && IsReport(s.reports[k], path, start, target)
  }

  predicate IsReport(m: Message, path: seq<int>, start: int, target: int) {
    m.pathLen <= |m.path| && PathOf(m) == path && m.start == start && m.target == target
  }

  ghost predicate CanBeReported(g: Graph, path: seq<int>, start: int, target: int) {
    exists run :: IsRun(run, g) && Reported(run[|run| - 1], path, start, target)
  }

  // The message after its first k visits along this path.
  function Travelled(path: seq<int>, target: nat, k: nat): (m: Message)
    requires k <= |path| <= TTL && path != [] && forall x :: 0 <= x < |path| ==> 0 <= path[x]
    ensures MessageOk(m) && m.ttl == TTL - k && PathOf(m) == path[..k] && m.start == path[0] && m.target == target
  {
    if k == 0 then NewMessage(path[0], target)
    else
      VisitedPath(Travelled(path, target, k - 1), path[k - 1]);
      assert path[..k] == path[..k - 1] + [path[k - 1]];
      Visited(Travelled(path, target, k - 1), path[k - 1])
  }

  // A network with one message, on its way to node i.
  function Lone(n: nat, i: int, m: Message): Network {
    Network(seq(n, x => if x == i then [m] else []), [], 0, 1)
  }

  function Empty(n: nat): Network {
    Network(seq(n, x => []), [], 0, 0)
  }

  // The draw that makes node i choose its neighbour j.
  lemma DrawFor(g: Graph, i: nat, j: nat) returns (draw: nat)
    requires IsGraph(g) && Edge(g, i, j)
    ensures Destination(g, i, draw) == j
  {
    var ns := Neighbours(g[i]);
    draw :| draw < |ns| && ns[draw] == j;
    Modulo.ModUnique(draw, 0, draw, |ns|);
  }

  lemma LoneForwarded(g: Graph, i: nat, j: nat, m: Message, draw: nat)
    requires IsGraph(g) && Edge(g, i, j) && Destination(g, i, draw) == j
    requires MessageOk(m) && m.ttl > 1 && m.target != i
    ensures CanHandle(Lone(|g|, i, m), g, i)
    ensures Handled(Lone(|g|, i, m), g, i, draw) == Lone(|g|, j, Visited(m, i))
  {
    var s, s' := Lone(|g|, i, m), Lone(|g|, j, Visited(m, i));
    assert s'.pipes == s.pipes[i := []][j := [Visited(m, i)]];
    assert s.pipes[i][1..] == [] && s.pipes[i := []][j] + [Visited(m, i)] == [Visited(m, i)];
  }

  lemma LoneReported(g: Graph, i: nat, m: Message, draw: nat)
    requires IsGraph(g) && i < |g| && MessageOk(m) && m.target == i
    ensures CanHandle(Lone(|g|, i, m), g, i)
    ensures Handled(Lone(|g|, i, m), g, i, draw).reports == [Visited(m, i)]
  {
  }

  lemma NodesOfRoute(g: Graph, path: seq<int>, start: int, target: int)
    requires IsRoute(g, path, start, target)
    ensures forall k :: 0 <= k < |path| ==> 0 <= path[k] < |g|
  {
    forall k | 0 <= k < |path| ensures 0 <= path[k] < |g| {
      assert k > 0 ==> Edge(g, path[k - 1], path[k - 1 + 1]);
    }
  }

  // A run in which one message has gone along a route as far as its node k.
  lemma {:induction false} Travel(g: Graph, path: seq<int>, target: nat, k: nat) returns (run: seq<Network>)
    requires IsGraph(g) && path != [] && IsRoute(g, path, path[0], target) && k < |path|
    requires forall x :: 0 <= x < |path| ==> 0 <= path[x] < |g|
    ensures IsRun(run, g) && run[|run| - 1] == Lone(|g|, path[k], Travelled(path, target, k))
  {
    if k == 0 {
      var s, s' := Empty(|g|), Lone(|g|, path[0], NewMessage(path[0], target));
      assert [] + [NewMessage(path[0], target)] == [NewMessage(path[0], target)];
      assert s'.pipes == s.pipes[path[0] := [NewMessage(path[0], target)]];
      assert s' == Injected(s, path[0], target);
      assert InjectStep(s, s', g);
      Runs.Extend(InitWith(g), NextWith(g), [s], s');
      run := [s] + [s'];
    } else {
      var front := Travel(g, path, target, k - 1);
      var m, i, j := Travelled(path, target, k - 1), path[k - 1], path[k];
      assert Edge(g, path[k - 1], path[k - 1 + 1]);
      assert i != target by { assert path[..|path| - 1][k - 1] == i; }
      var draw := DrawFor(g, i, j);
      LoneForwarded(g, i, j, m, draw);
      var s' := Handled(front[|front| - 1], g, i, draw);
      assert HandleStep(front[|front| - 1], s', g);
      Runs.Extend(InitWith(g), NextWith(g), front, s');
      run := front + [s'];
    }
  }

  // Exactly the routes can be reported: a path comes back for a message from "start"
  // to "target" in some run if and only if it is a walk of at most twenty nodes along
  // edges between different nodes that meets the target once, at its end.
  lemma ReportableIffRoute(g: Graph, path: seq<int>, start: int, target: int)
    requires IsGraph(g)
    ensures CanBeReported(g, path, start, target) <==> IsRoute(g, path, start, target)
  {
    if CanBeReported(g, path, start, target) {
      var run :| IsRun(run, g) && Reported(run[|run| - 1], path, start, target);
      SafetyInEveryRun(run, g, |run| - 1);
    }
    if IsRoute(g, path, start, target) {
      NodesOfRoute(g, path, start, target);
      RouteIsReported(g, path, target);
    }
  }

  lemma RouteIsReported(g: Graph, path: seq<int>, target: nat)
    requires IsGraph(g) && path != [] && IsRoute(g, path, path[0], target)
    requires forall x :: 0 <= x < |path| ==> 0 <= path[x] < |g|
    ensures CanBeReported(g, path, path[0], target)
  {
    var n := |path| - 1;
    var front := Travel(g, path, target, n);
    var m := Travelled(path, target, n);
    LoneReported(g, path[n], m, 0);
    var s' := Handled(front[|front| - 1], g, path[n], 0);
    assert HandleStep(front[|front| - 1], s', g);
    Runs.Extend(InitWith(g), NextWith(g), front, s');
    VisitedPath(m, path[n]);
    assert path == path[..n] + [path[n]];
    assert IsReport(s'.reports[0], path, path[0], target);
    var run := front + [s'];
    assert IsRun(run, g) && Reported(run[|run| - 1], path, path[0], target);
  }

  // ----- the program itself, its messages and pipes updated in place

  // One more column: what the counting loops see.
  lemma NextColumn(row: seq<int>, j: nat)
    requires j < |row|
    ensures Neighbours(row[..j + 1]) == Neighbours(row[..j]) + if row[j] == 1 then [j] else []
  {
    assert row[..j + 1][..j] == row[..j];
  }

  lemma {:induction false} NeighboursPrefix(row: seq<int>, j: nat)
    requires j <= |row|
    ensures Neighbours(row[..j]) <= Neighbours(row)
    decreases |row| - j
  {
    if j < |row| {
      NextColumn(row, j);
      NeighboursPrefix(row, j + 1);
    } else {
      assert row[..j] == row;
    }
  }

  // The number of neighbours, counted while the matrix is read.
  method CountNeighbours(row: seq<int>) returns (count: nat)
    ensures count == |Neighbours(row)|
  {
    count := 0;
    for j := 0 to |row|
      invariant count == |Neighbours(row[..j])|
    {
      NextColumn(row, j);
      if row[j] == 1 {
        count := count + 1;
      }
    }
    assert row[..|row|] == row;
  }

  // The loop that looks for the neighbour that was drawn.
  method PickNeighbour(row: seq<int>, drawn: nat) returns (j: nat)
    requires drawn < |Neighbours(row)|
    ensures j == Neighbours(row)[drawn]
  {
    var counter := 0;
    assert row[..|row|] == row;
    j := 0;
    while j < |row|
      invariant j <= |row|
      invariant counter == |Neighbours(row[..j])| <= drawn
    {
      NextColumn(row, j);
      NeighboursPrefix(row, j + 1);
      if row[j] == 1 {
        if counter == drawn {
          return;
        }
        counter := counter + 1;
      }
      j := j + 1;
    }
    assert false;
  }

  class MessageNetwork {
    const graph: Graph
    const degree: array<nat>
    const pipes: array<seq<Message>>
    var reports: seq<Message>
    var lost: nat
    var injected: nat

    ghost predicate Valid()
      reads this, degree
    {
      && IsGraph(graph) && degree.Length == pipes.Length == |graph|
      && (forall i :: 0 <= i < |graph| ==> degree[i] == |Neighbours(graph[i])|)
    }

    ghost function View(): Network
      reads this, pipes
    {
      Network(pipes[..], reports, lost, injected)
    }

    constructor (graph: Graph)
      requires IsGraph(graph)
      ensures Valid() && fresh(degree) && fresh(pipes) && this.graph == graph
      ensures Init(View(), graph)
    {
      this.graph := graph;
      degree := new nat[|graph|](i => 0);
      pipes := new seq<Message>[|graph|](i => []);
      reports, lost, injected := [], 0, 0;
      new;
      for i := 0 to |graph|
        invariant forall k :: 0 <= k < i ==> degree[k] == |Neighbours(graph[k])|
        invariant Init(View(), graph)
      {
        var count := CountNeighbours(graph[i]);
        degree[i] := count;
      }
    }

    method Inject(start: nat, target: nat)
      requires Valid() && start < |graph|
      modifies this`injected, pipes
      ensures Valid() && View() == Injected(old(View()), start, target)
    {
      pipes[start] := pipes[start] + [NewMessage(start, target)];
      injected := injected + 1;
    }

    // Node i handles one message; "random" is the value of rand().
    method Handle(i: nat, random: nat)
      requires Valid() && CanHandle(View(), graph, i)
      modifies this, pipes
      ensures Valid() && View() == Handled(old(View()), graph, i, random)
    {
      var msg := pipes[i][0];
      pipes[i] := pipes[i][1..];
      msg := msg.(path := msg.path[msg.pathLen := i], pathLen := msg.pathLen + 1);
      msg := msg.(ttl := msg.ttl - 1);
      if msg.target == i {
        reports := reports + [msg];
      } else if msg.ttl > 0 && degree[i] > 0 {
        var j := PickNeighbour(graph[i], random % degree[i]);
        if j != i {
          pipes[j] := pipes[j] + [msg];
        } else {
          lost := lost + 1;   // the write fails: this end of its own pipe is closed
        }
      } else {
        lost := lost + 1;
      }
    }
  }
}
