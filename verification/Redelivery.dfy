// What the network can still do to a file transfer: bring it to its end, print a
// file again, or leave a slot behind.  Runs of the system are extended step by step.
module Redelivery {
  import opened Wire
  import opened Wrappers
  import opened TransferServer
  import opened TransferClient
  import opened Transfer
  import Runs
  import Sums

  ghost function Last(run: seq<System>): System
    requires run != []
  {
    run[|run| - 1]
  }

  // Packet k of these pieces.
  function PacketOf(pieces: seq<seq<Byte>>, k: nat): (bytes: seq<Byte>)
    requires CanBeSent(pieces) && 1 <= k <= |pieces|
    ensures IsPacket(bytes, pieces, k)
  {
    Packets(pieces)[k - 1]
  }

  // Address a has a session, or there is room for one.
  predicate HasRoom(s: System, a: Addr) {
    a in s.open || |s.open| < MAXCLIENTS
  }

  // The server has no session for address a, and room for one.
  predicate Quiet(s: System, a: Addr) {
    a !in s.open && |s.open| < MAXCLIENTS
  }

  // A run in whose last state client a has or can get a slot.
  ghost predicate Alive(run: seq<System>, files: Files, a: Addr) {
    && IsRun(run, files) && a in files
    && a in Last(run).clients && HasRoom(Last(run), a)
  }

  // The open sessions are those in the table.
  lemma OpenIsTable(s: System, a: Addr)
    requires ServerInv(s)
    ensures HasRoom(s, a) <==> Admitted(Table(s.server.slots), a)
    ensures a in s.open <==> a in Table(s.server.slots)
    ensures |s.open| == |Table(s.server.slots)| <= MAXCLIENTS
  {
    assert s.open.Keys == Table(s.server.slots).Keys;
    RoomIffFree(s.server.slots);
  }

  // ----- one packet of a client is served, and its echo sent

  lemma LogNumber(open: map<Addr, seq<Part>>, t: map<Addr, int>, a: Addr)
    requires LogMatches(open, t)
    ensures |Printed(open, a)| == if a in t then t[a] else 0
    ensures a in open <==> a in t
  {
    assert a in open <==> a in t;
  }

  lemma Removed(open: map<Addr, seq<Part>>, a: Addr)
    requires a in open || |open| < MAXCLIENTS
    requires |open| <= MAXCLIENTS
    ensures |open - {a}| < MAXCLIENTS
  {
    if a in open {
      assert open == (open - {a})[a := open[a]];
    } else {
      assert open - {a} == open;
    }
  }

  // A packet that is not ahead of the session is echoed; the session then holds that
  // chunk, and the last one ends it.
  lemma PacketEffect(
      open: map<Addr, seq<Part>>, t: map<Addr, int>, t': map<Addr, int>, a: Addr, pieces: seq<seq<Byte>>,
      k: nat, turn: Turn)
    requires LogMatches(open, t) && TurnOn(t, t', a, k, k == |pieces|, Sent, turn)
    requires Admitted(t, a) && 1 <= k <= |pieces|
    requires turn.printed.Some? ==> turn.printed.value == Parts(pieces)[k - 1]
    requires Printed(open, a) <= Parts(pieces) && k - 1 <= |Printed(open, a)| < |pieces|
    ensures var p, p' := Printed(open, a), WithPart(Printed(open, a), turn.printed);
      && turn.echo.Some?
      && (k < |pieces| ==> a in t' && |p'| == if k <= |p| then |p| else k)
      && (k == |pieces| ==> a !in t' && p' == Parts(pieces))
  {
    LogNumber(open, t, a);
    if k == |pieces| {
      PrefixGrows(Printed(open, a), Parts(pieces));
    }
  }

  // What the server's turn leaves of the system.
  lemma SystemServed(s: System, msg: Message, result: SendResult)
    requires Shape(s.server) && |msg.bytes| <= MAXBUF && Found(s.server.slots, msg.addr).1 >= 0
    ensures var s', turn := Served(s, msg, result), Receive(s.server, msg.addr, msg.bytes, result);
      && s'.server == turn.server && s'.clients == s.clients && s'.up == s.up
      && (turn.echo.Some? ==> Message(msg.addr, turn.echo.value) in s'.down)
      && if msg.addr in Table(turn.server.slots)
         then s'.closed == s.closed && s'.open == s.open[msg.addr := SessionAfter(s, msg, result)]
         else && s'.closed == s.closed + [Session(msg.addr, SessionAfter(s, msg, result))]
              && s'.open == s.open - {msg.addr}
  {
  }

  // The number of a client is that of one of its packets.
  lemma NumberRange(run: seq<System>, files: Files, i: nat, a: Addr)
    requires IsRun(run, files) && i < |run| && a in files
    ensures Shape(run[i].server) && CanBeSent(files[a]) && a in run[i].clients
    ensures Outbox(run[i].up, a, files[a], run[i].clients[a])
    ensures var c := run[i].clients[a];
      && 1 <= c.no <= |files[a]| && c.counter <= ATTEMPTS && |c.recvBuf| == MAXBUF
      && (c.phase != Sending ==> SentCount(c) == c.no) && (c.phase == Finished ==> c.no == |files[a]|)
  {
    InvInEveryRun(run, files, i);
    CounterRange(run[i], files, a);
    assert Outbox(run[i].up, a, files[a], run[i].clients[a]);
  }

  // What is known of the sessions of a client before one of its packets is served.
  lemma SessionSoFar(run: seq<System>, files: Files, a: Addr, i: nat)
    requires IsRun(run, files) && i < |run| && a in files
    ensures var s := run[i];
      && ServerInv(s) && CanBeSent(files[a])
      && Printed(s.open, a) <= Parts(files[a]) && |Printed(s.open, a)| < |files[a]|
  {
    var s := run[i];
    InvInEveryRun(run, files, i);
    assert AddressInv(s, a, files[a], s.clients[a]);
    assert a in s.open ==> HasSession(s, a, s.open[a]);
  }

  // Packet k has been echoed, and the session of its client holds it, or is over.
  ghost predicate Caught(s: System, s': System, a: Addr, pieces: seq<seq<Byte>>, k: nat)
    requires CanBeSent(pieces) && 1 <= k <= |pieces|
  {
    && Message(a, PacketOf(pieces, k)) in s'.down
    && (k < |pieces| ==>
          && HasRoom(s', a) && s'.closed == s.closed
          && |Printed(s'.open, a)| == if k <= |Printed(s.open, a)| then |Printed(s.open, a)| else k)
    && (k == |pieces| ==> Quiet(s', a) && s'.closed == s.closed + [Session(a, Parts(pieces))])
  }

  lemma CaughtInside(s: System, s': System, a: Addr, pieces: seq<seq<Byte>>, k: nat, p: seq<Part>)
    requires CanBeSent(pieces) && 1 <= k < |pieces| && Message(a, PacketOf(pieces, k)) in s'.down
    requires s'.closed == s.closed && s'.open == s.open[a := p]
    requires |p| == if k <= |Printed(s.open, a)| then |Printed(s.open, a)| else k
    ensures Caught(s, s', a, pieces, k)
  {
  }

  lemma CaughtAtEnd(s: System, s': System, a: Addr, pieces: seq<seq<Byte>>)
    requires CanBeSent(pieces) && Message(a, PacketOf(pieces, |pieces|)) in s'.down
    requires HasRoom(s, a) && |s.open| <= MAXCLIENTS
    requires s'.closed == s.closed + [Session(a, Parts(pieces))] && s'.open == s.open - {a}
    ensures Caught(s, s', a, pieces, |pieces|)
  {
    Removed(s.open, a);
  }

  // The turn of the server on packet k of a client that has or can get a slot.
  lemma HostedTurn(s: System, a: Addr, bytes: seq<Byte>, pieces: seq<seq<Byte>>, k: nat)
    requires ServerInv(s) && HasRoom(s, a) && IsPacket(bytes, pieces, k) && |bytes| <= MAXBUF
    ensures var t, turn := Table(s.server.slots), Receive(s.server, a, bytes, Sent);
      && TurnOn(t, Table(turn.server.slots), a, k, k == |pieces|, Sent, turn) && Admitted(t, a)
      && (turn.printed.Some? ==> turn.printed.value == Parts(pieces)[k - 1])
      && (turn.echo.Some? ==> turn.echo.value == bytes)
      && Found(s.server.slots, a).1 >= 0 && |s.open| <= MAXCLIENTS
  {
    OpenIsTable(s, a);
    PacketTurn(s.server, a, bytes, pieces, k, Sent);
    FoundInTable(s.server.slots, a);
  }

  // If it is not ahead of the session.
  lemma NextPacketTurn(s: System, a: Addr, bytes: seq<Byte>, pieces: seq<seq<Byte>>, k: nat)
    requires ServerInv(s) && HasRoom(s, a) && IsPacket(bytes, pieces, k) && |bytes| <= MAXBUF
    requires Printed(s.open, a) <= Parts(pieces) && k - 1 <= |Printed(s.open, a)| < |pieces|
    ensures var turn, p := Receive(s.server, a, bytes, Sent), Printed(s.open, a);
      && Found(s.server.slots, a).1 >= 0 && turn.echo == Some(bytes) && |s.open| <= MAXCLIENTS
      && (a in Table(turn.server.slots) <==> k < |pieces|)
      && (k < |pieces| ==> |WithPart(p, turn.printed)| == if k <= |p| then |p| else k)
      && (k == |pieces| ==> WithPart(p, turn.printed) == Parts(pieces))
  {
    var turn := Receive(s.server, a, bytes, Sent);
    HostedTurn(s, a, bytes, pieces, k);
    PacketEffect(s.open, Table(s.server.slots), Table(turn.server.slots), a, pieces, k, turn);
  }

  lemma PacketServed(run: seq<System>, files: Files, a: Addr, k: nat)
    requires Alive(run, files, a) && CanBeSent(files[a]) && 1 <= k <= |files[a]| && Shape(Last(run).server)
    requires k - 1 <= |Printed(Last(run).open, a)| && |PacketOf(files[a], k)| <= MAXBUF
    ensures Caught(Last(run), Served(Last(run), Message(a, PacketOf(files[a], k)), Sent), a, files[a], k)
  {
    var s, bytes := Last(run), PacketOf(files[a], k);
    var s' := Served(s, Message(a, bytes), Sent);
    SessionSoFar(run, files, a, |run| - 1);
    NextPacketTurn(s, a, bytes, files[a], k);
    SystemServed(s, Message(a, bytes), Sent);
    if k < |files[a]| {
      CaughtInside(s, s', a, files[a], k, SessionAfter(s, Message(a, bytes), Sent));
    } else {
      CaughtAtEnd(s, s', a, files[a]);
    }
  }

  // One packet after the other.
  lemma CaughtThrough(s: System, s1: System, s2: System, a: Addr, pieces: seq<seq<Byte>>, k: nat)
    requires CanBeSent(pieces) && 1 < k <= |pieces| && |Printed(s.open, a)| < k - 1
    requires Caught(s, s1, a, pieces, k - 1) && Caught(s1, s2, a, pieces, k)
    ensures Caught(s, s2, a, pieces, k)
  {
  }

  // ----- runs are extended

  lemma StepOn(run: seq<System>, files: Files, s: System) returns (longer: seq<System>)
    requires IsRun(run, files) && Next(Last(run), s, files)
    ensures IsRun(longer, files) && run <= longer && |longer| == |run| + 1 && Last(longer) == s
  {
    Runs.Extend(InitWith(files), NextWith(files), run, s);
    longer := run + [s];
  }

  lemma ServeIsStep(s: System, files: Files, msg: Message, result: SendResult) returns (s': System)
    requires Shape(s.server) && |msg.bytes| <= MAXBUF && msg in s.up
    ensures s' == Served(s, msg, result)
    ensures Next(s, s', files) && s'.clients == s.clients
  {
    s' := Served(s, msg, result);
    assert Serve(s, s', msg, result);
  }

  // The packets a client has sent can arrive.
  lemma HasBeenSent(run: seq<System>, files: Files, a: Addr, k: nat)
    requires Alive(run, files, a) && 1 <= k <= SentCount(Last(run).clients[a])
    ensures k <= |files[a]| && CanBeSent(files[a]) && Shape(Last(run).server)
    ensures Message(a, PacketOf(files[a], k)) in Last(run).up && |PacketOf(files[a], k)| == MAXBUF
  {
    NumberRange(run, files, |run| - 1, a);
    PacketNumber(PacketOf(files[a], k), files[a], k);
  }

  // The packets that have to be served for packet k to be echoed.
  function Steps(printed: nat, k: nat): nat {
    if k <= printed + 1 then 1 else k - printed
  }

  ghost predicate Extends(longer: seq<System>, run: seq<System>, steps: nat) {
    run <= longer && |longer| == |run| + steps
  }

  // The run has gone on to where packet k has been echoed.
  ghost predicate HasCaught(longer: seq<System>, run: seq<System>, files: Files, a: Addr, k: nat) {
    && run != [] && a in files && CanBeSent(files[a]) && 1 <= k <= |files[a]|
    && IsRun(longer, files) && Extends(longer, run, Steps(|Printed(Last(run).open, a)|, k))
    && Last(longer).clients == Last(run).clients
    && Caught(Last(run), Last(longer), a, files[a], k)
  }

  lemma CatchOne(run: seq<System>, files: Files, a: Addr, k: nat) returns (longer: seq<System>)
    requires Alive(run, files, a)
    requires 1 <= k <= SentCount(Last(run).clients[a]) && k - 1 <= |Printed(Last(run).open, a)|
    ensures HasCaught(longer, run, files, a, k)
  {
    HasBeenSent(run, files, a, k);
    PacketServed(run, files, a, k);
    var s := ServeIsStep(Last(run), files, Message(a, PacketOf(files[a], k)), Sent);
    longer := StepOn(run, files, s);
  }

  lemma CatchNext(run: seq<System>, before: seq<System>, files: Files, a: Addr, k: nat) returns (longer: seq<System>)
    requires Alive(run, files, a) && 1 < k <= SentCount(Last(run).clients[a])
    requires HasCaught(before, run, files, a, k - 1) && |Printed(Last(run).open, a)| < k - 1
    ensures HasCaught(longer, run, files, a, k)
  {
    HasBeenSent(run, files, a, k);
    longer := CatchOne(before, files, a, k);
    CaughtThrough(Last(run), Last(before), Last(longer), a, files[a], k);
  }

  // The network delivers what is missing for packet k, which the client has sent.
  lemma {:induction false} CatchUp(run: seq<System>, files: Files, a: Addr, k: nat) returns (longer: seq<System>)
    requires Alive(run, files, a) && 1 <= k <= SentCount(Last(run).clients[a])
    ensures HasCaught(longer, run, files, a, k)
    decreases k
  {
    if k - 1 <= |Printed(Last(run).open, a)| {
      longer := CatchOne(run, files, a, k);
    } else {
      var before := CatchUp(run, files, a, k - 1);
      longer := CatchNext(run, before, files, a, k);
    }
  }

  // ----- delivery stays possible

  // Client a has not given up or finished, and has or can get a slot.
  ghost predicate CanStillFinish(run: seq<System>, files: Files, a: Addr) {
    Alive(run, files, a) && Last(run).clients[a].phase in {Sending, Listening}
  }

  // The server's side is the same in both states.
  ghost predicate SameServer(s: System, s': System) {
    s'.server == s.server && s'.open == s.open && s'.closed == s.closed
  }

  lemma SendIsStep(s: System, s': System, files: Files, a: Addr, packet: seq<Byte>)
    requires Send(s, s', files, a, packet)
    ensures Next(s, s', files)
  {
    assert ClientActs(s, s', files, a);
  }

  lemma HearIsStep(s: System, s': System, files: Files, a: Addr, reply: Reply)
    requires Hear(s, s', files, a, reply)
    ensures Next(s, s', files)
  {
    assert ClientActs(s, s', files, a);
  }

  lemma SendOn(run: seq<System>, files: Files, a: Addr) returns (longer: seq<System>)
    requires Alive(run, files, a) && Last(run).clients[a].phase == Sending
    ensures Extends(longer, run, 1) && Alive(longer, files, a) && SameServer(Last(run), Last(longer))
    ensures Last(longer).clients[a] == AfterSend(Last(run).clients[a])
  {
    NumberRange(run, files, |run| - 1, a);
    var s, c := Last(run), Last(run).clients[a];
    var packet := PacketOf(files[a], c.no);
    var s' := s.(clients := s.clients[a := AfterSend(c)], up := s.up + {Message(a, packet)});
    SendIsStep(s, s', files, a, packet);
    longer := StepOn(run, files, s');
  }

  lemma HearOn(run: seq<System>, files: Files, a: Addr, reply: Reply) returns (longer: seq<System>)
    requires Alive(run, files, a) && Last(run).clients[a].phase == Listening
    requires reply.Arrived? ==> Message(a, reply.bytes) in Last(run).down
    ensures Extends(longer, run, 1) && Alive(longer, files, a) && SameServer(Last(run), Last(longer))
    ensures Last(longer).clients[a] == AfterReply(Last(run).clients[a], |files[a]|, reply)
  {
    var s := Last(run);
    var s' := s.(clients := s.clients[a := AfterReply(s.clients[a], |files[a]|, reply)]);
    HearIsStep(s, s', files, a, reply);
    longer := StepOn(run, files, s');
  }

  // The echo of its packet lets a client go on.
  lemma EchoHeard(c: Client, pieces: seq<seq<Byte>>)
    requires CanBeSent(pieces) && 1 <= c.no <= |pieces| && |c.recvBuf| == MAXBUF
    ensures var c' := AfterReply(c, |pieces|, Arrived(PacketOf(pieces, c.no)));
      if c.no < |pieces| then c' == Fresh(c.no + 1) else c'.phase == Finished
  {
    var packet := PacketOf(pieces, c.no);
    PacketNumber(packet, pieces, c.no);
    PacketFields(c.no, c.no == |pieces|, pieces[c.no - 1]);
    assert Heard(c.recvBuf, Arrived(packet)) == packet;
  }

  // Client a has just got to packet "no", and its session holds the one before.
  ghost predicate GotTo(run: seq<System>, files: Files, a: Addr, no: nat) {
    Alive(run, files, a) && Last(run).clients[a] == Fresh(no) && no - 1 <= |Printed(Last(run).open, a)|
  }

  // Client a has finished, and its session is over.
  ghost predicate Delivers(run: seq<System>, files: Files, a: Addr) {
    && Alive(run, files, a) && Last(run).clients[a].phase == Finished
    && Quiet(Last(run), a) && Session(a, Parts(files[a])) in Last(run).closed
  }

  // The packets a client's session lacks, besides the current one.
  function Behind(s: System, a: Addr, no: nat): nat {
    if no <= |Printed(s.open, a)| + 1 then 0 else no - 1 - |Printed(s.open, a)|
  }

  // A listening client hears the echo of its packet.
  lemma EchoOn(run: seq<System>, files: Files, a: Addr, no: nat) returns (longer: seq<System>)
    requires Alive(run, files, a) && Last(run).clients[a].phase == Listening && Last(run).clients[a].no == no
    requires CanBeSent(files[a]) && 1 <= no <= |files[a]| && Message(a, PacketOf(files[a], no)) in Last(run).down
    ensures Extends(longer, run, 1) && Alive(longer, files, a) && SameServer(Last(run), Last(longer))
    ensures if no < |files[a]| then Last(longer).clients[a] == Fresh(no + 1)
            else Last(longer).clients[a].phase == Finished
  {
    NumberRange(run, files, |run| - 1, a);
    EchoHeard(Last(run).clients[a], files[a]);
    longer := HearOn(run, files, a, Arrived(PacketOf(files[a], no)));
  }

  lemma ListenerGoesOn(run: seq<System>, files: Files, a: Addr, no: nat) returns (longer: seq<System>)
    requires Alive(run, files, a) && Last(run).clients[a].phase == Listening && Last(run).clients[a].no == no
    ensures 1 <= no <= |files[a]| && Extends(longer, run, 2 + Behind(Last(run), a, no))
    ensures if no < |files[a]| then GotTo(longer, files, a, no + 1) else Delivers(longer, files, a)
  {
    NumberRange(run, files, |run| - 1, a);
    var caught := CatchUp(run, files, a, no);
    longer := EchoOn(caught, files, a, no);
  }

  // One packet more: it is sent, unless the client is already listening, the network
  // delivers what the session lacks, and the echo comes back.
  lemma ClientGoesOn(run: seq<System>, files: Files, a: Addr, no: nat) returns (longer: seq<System>)
    requires CanStillFinish(run, files, a) && Last(run).clients[a].no == no
    ensures 1 <= no <= |files[a]| && run <= longer
    ensures |longer| <= |run| + 3 + Behind(Last(run), a, no)
    ensures if no < |files[a]| then GotTo(longer, files, a, no + 1) else Delivers(longer, files, a)
  {
    if Last(run).clients[a].phase == Sending {
      var listening := SendOn(run, files, a);
      longer := ListenerGoesOn(listening, files, a, no);
    } else {
      longer := ListenerGoesOn(run, files, a, no);
    }
  }

  // From packet "no" on to a later one.
  lemma {:induction false} GoTo(run: seq<System>, files: Files, a: Addr, no: nat, to: nat) returns (longer: seq<System>)
    requires GotTo(run, files, a, no) && no <= to <= |files[a]|
    ensures GotTo(longer, files, a, to) && run <= longer && |longer| <= |run| + 3 * (to - no)
    decreases |files[a]| - no
  {
    if no == to {
      longer := run;
    } else {
      var next := ClientGoesOn(run, files, a, no);
      longer := GoTo(next, files, a, no + 1, to);
    }
  }

  // Whatever the network, the server, strangers and the client have done so far: as
  // long as the client has not given up, and has a slot or can get one, it can finish
  // with its whole file printed.  Three steps for each packet left are enough, and one
  // for each packet that its session lacks.
  lemma DeliveryStaysPossible(run: seq<System>, files: Files, a: Addr) returns (longer: seq<System>)
    requires CanStillFinish(run, files, a)
    ensures Delivers(longer, files, a) && run <= longer
    ensures var no := Last(run).clients[a].no;
      |longer| <= |run| + 3 * (|files[a]| - no + 1) + Behind(Last(run), a, no)
  {
    var no, n := Last(run).clients[a].no, |files[a]|;
    longer := ClientGoesOn(run, files, a, no);
    if no < n {
      longer := GoTo(longer, files, a, no + 1, n);
      longer := ClientGoesOn(longer, files, a, n);
    }
  }

  // ----- delivery exactly once does not hold

  // How often a session that is over has printed the whole file of this client.
  function Times(s: System, a: Addr, pieces: seq<seq<Byte>>): nat {
    multiset(s.closed)[Session(a, Parts(pieces))]
  }

  lemma OnceMore(closed: seq<Session>, x: Session)
    ensures multiset(closed + [x])[x] == multiset(closed)[x] + 1
  {
  }

  lemma Beginning(files: Files, a: Addr) returns (run: seq<System>)
    requires AllCanBeSent(files) && a in files
    ensures GotTo(run, files, a, 1) && Last(run).closed == []
  {
    var slots := seq(MAXCLIENTS, i => Slot(true, 0, 0));
    var s := System(Server(slots, Zeros(MAXBUF + 1)), map b | b in files :: Fresh(1), {}, {}, map[], []);
    assert Init(s, files);
    run := [s];
  }

  // The network delivers all packets of a finished client once more.
  lemma PrintedOnceMore(run: seq<System>, files: Files, a: Addr) returns (longer: seq<System>)
    requires Delivers(run, files, a)
    ensures Delivers(longer, files, a) && run <= longer
    ensures Times(Last(longer), a, files[a]) == Times(Last(run), a, files[a]) + 1
  {
    NumberRange(run, files, |run| - 1, a);
    longer := CatchUp(run, files, a, |files[a]|);
    OnceMore(Last(run).closed, Session(a, Parts(files[a])));
  }

  // Every file can be printed whole any number of times: the network delivers all of
  // its packets again.
  lemma {:induction false} PrintedAnyNumberOfTimes(files: Files, a: Addr, times: nat) returns (run: seq<System>)
    requires AllCanBeSent(files) && a in files
    ensures Delivers(run, files, a) && Times(Last(run), a, files[a]) >= times
    decreases times
  {
    if times == 0 {
      run := Beginning(files, a);
      run := DeliveryStaysPossible(run, files, a);
    } else {
      run := PrintedAnyNumberOfTimes(files, a, times - 1);
      run := PrintedOnceMore(run, files, a);
    }
  }

  // ----- when a session begins to print, and when its slot is freed

  predicate PrintedSomething(x: Session, a: Addr) {
    x.addr == a && x.printed != []
  }

  function CountsFor(a: Addr): Session -> int {
    (x: Session) => if PrintedSomething(x, a) then 1 else 0
  }

  // The sessions of address a, open or closed, that have printed something.
  function Begun(s: System, a: Addr): int {
    Sums.SumBy(s.closed, CountsFor(a)) + if Printed(s.open, a) != [] then 1 else 0
  }

  // The server gets packet 1 of client a, which has a slot at chunk 0, or no slot and
  // there is room for one.
  ghost predicate FirstServed(s: System, s': System, files: Files, a: Addr) {
    exists bytes, result ::
      && PacketStep(s, s', files, a, bytes, 1, result)
      && HasRoom(s, a) && Printed(s.open, a) == []
  }

  // The server gets a packet of client a that ends its session: the last one, or any
  // one it echoes while the client is gone.
  ghost predicate Ends(s: System, s': System, files: Files, a: Addr) {
    exists bytes, k: nat, result ::
      && PacketStep(s, s', files, a, bytes, k, result)
      && EndsSession(Printed(s.open, a), k, |files[a]|, result)
  }

  // The sessions after a turn: address a has been given a slot, or has not.
  ghost predicate LogTurn(s: System, s': System, a: Addr, p: seq<Part>, admitted: bool, holds: bool) {
    if !admitted then s'.open == s.open && s'.closed == s.closed
    else if holds then s'.closed == s.closed && s'.open == s.open[a := p]
    else s'.closed == s.closed + [Session(a, p)] && s'.open == s.open - {a}
  }

  lemma LogTurnOf(s: System, msg: Message, result: SendResult)
    requires Shape(s.server) && |msg.bytes| <= MAXBUF
    ensures LogTurn(s, Served(s, msg, result), msg.addr, SessionAfter(s, msg, result),
                    Found(s.server.slots, msg.addr).1 >= 0,
                    msg.addr in Table(Receive(s.server, msg.addr, msg.bytes, result).server.slots))
  {
    if Found(s.server.slots, msg.addr).1 >= 0 {
      SystemServed(s, msg, result);
    }
  }

  // Packet k ends the session.
  predicate EndsSession(p: seq<Part>, k: nat, n: nat, result: SendResult) {
    k <= |p| + 1 && (result == BrokenPipe || (k == |p| + 1 && k == n))
  }

  lemma PacketOnTable(
      open: map<Addr, seq<Part>>, t: map<Addr, int>, t': map<Addr, int>, a: Addr, n: nat, k: nat,
      result: SendResult, turn: Turn)
    requires LogMatches(open, t) && TurnOn(t, t', a, k, k == n, result, turn)
    ensures var p, p' := Printed(open, a), WithPart(Printed(open, a), turn.printed);
      && |p'| == (if Admitted(t, a) && k == |p| + 1 then k else |p|)
      && (Admitted(t, a) ==> (a in t' <==> !EndsSession(p, k, n, result)))
  {
    LogNumber(open, t, a);
  }

  // A turn of the server on packet k of client a, seen from the log.
  lemma LogOfPacket(
      run: seq<System>, files: Files, i: nat, a: Addr, bytes: seq<Byte>, k: nat, result: SendResult)
    requires IsRun(run, files) && i < |run| && Shape(run[i].server)
    requires a in files && IsPacket(bytes, files[a], k) && |bytes| <= MAXBUF
    ensures var s := run[i];
      var p, p' := Printed(s.open, a), SessionAfter(s, Message(a, bytes), result);
      && |p'| == (if HasRoom(s, a) && k == |p| + 1 then k else |p|)
      && LogTurn(s, Served(s, Message(a, bytes), result), a, p', HasRoom(s, a),
                 !EndsSession(p, k, |files[a]|, result))
  {
    var s := run[i];
    var turn := Receive(s.server, a, bytes, result);
    SessionSoFar(run, files, a, i);
    OpenIsTable(s, a);
    PacketTurn(s.server, a, bytes, files[a], k, result);
    PacketOnTable(s.open, Table(s.server.slots), Table(turn.server.slots), a, |files[a]|, k, result, turn);
    FoundInTable(s.server.slots, a);
    LogTurnOf(s, Message(a, bytes), result);
  }

  lemma BegunByTurn(s: System, s': System, a: Addr, p': seq<Part>, holds: bool)
    requires LogTurn(s, s', a, p', true, holds) && |Printed(s.open, a)| <= |p'|
    ensures Begun(s', a) == Begun(s, a) + if Printed(s.open, a) == [] && p' != [] then 1 else 0
  {
    if !holds {
      Sums.SumByAppend(s.closed, CountsFor(a), Session(a, p'));
    }
  }

  lemma BegunByOther(s: System, s': System, a: Addr, b: Addr, p': seq<Part>, admitted: bool, holds: bool)
    requires LogTurn(s, s', b, p', admitted, holds) && b != a
    ensures Begun(s', a) == Begun(s, a) && (a in s'.open <==> a in s.open) && Printed(s'.open, a) == Printed(s.open, a)
  {
    if admitted && !holds {
      Sums.SumByAppend(s.closed, CountsFor(a), Session(b, p'));
    }
  }

  // What a step can do to the sessions of client a: nothing, or a turn on a packet.
  ghost predicate Untouched(s: System, s': System, a: Addr) {
    && Begun(s', a) == Begun(s, a) && (a in s'.open <==> a in s.open) && Printed(s'.open, a) == Printed(s.open, a)
    && SameClosed(s, s', a)
  }

  // The sessions of address a that are over.
  ghost predicate SameClosed(s: System, s': System, a: Addr) {
    forall p {:trigger Session(a, p)} :: multiset(s'.closed)[Session(a, p)] == multiset(s.closed)[Session(a, p)]
  }

  ghost predicate PacketStep(
      s: System, s': System, files: Files, a: Addr, bytes: seq<Byte>, k: nat, result: SendResult)
  {
    a in files && IsPacket(bytes, files[a], k) && Serve(s, s', Message(a, bytes), result)
  }

  lemma ClosedByOther(s: System, s': System, a: Addr, b: Addr, p': seq<Part>, admitted: bool, holds: bool)
    requires LogTurn(s, s', b, p', admitted, holds) && b != a
    ensures SameClosed(s, s', a)
  {
    forall p ensures multiset(s.closed + [Session(b, p')])[Session(a, p)] == multiset(s.closed)[Session(a, p)] {
    }
  }

  lemma ServeOther(s: System, msg: Message, result: SendResult, a: Addr)
    requires Shape(s.server) && |msg.bytes| <= MAXBUF && msg.addr != a
    ensures Untouched(s, Served(s, msg, result), a)
  {
    LogTurnOf(s, msg, result);
    var admitted := Found(s.server.slots, msg.addr).1 >= 0;
    var holds := msg.addr in Table(Receive(s.server, msg.addr, msg.bytes, result).server.slots);
    BegunByOther(s, Served(s, msg, result), a, msg.addr, SessionAfter(s, msg, result), admitted, holds);
    ClosedByOther(s, Served(s, msg, result), a, msg.addr, SessionAfter(s, msg, result), admitted, holds);
  }

  lemma OwnPackets(run: seq<System>, files: Files, i: nat, a: Addr, bytes: seq<Byte>) returns (k: nat)
    requires IsRun(run, files) && i < |run| && a in files && Message(a, bytes) in run[i].up
    ensures IsPacket(bytes, files[a], k)
  {
    NumberRange(run, files, i, a);
    k :| k <= run[i].clients[a].no && IsPacket(bytes, files[a], k);
  }

  ghost predicate IsServeStep(s: System, s': System) {
    exists msg, result :: Serve(s, s', msg, result)
  }

  // Only the server's turns touch the log.
  lemma LogStays(s: System, s': System, files: Files)
    requires Next(s, s', files)
    ensures IsServeStep(s, s') || (s'.open == s.open && s'.closed == s.closed)
  {
  }

  // A packet of client a is served in this step.
  ghost predicate TakesPacket(s: System, s': System, files: Files, a: Addr) {
    exists bytes, k: nat, result :: PacketStep(s, s', files, a, bytes, k, result)
  }

  lemma StepsOfSessions(run: seq<System>, files: Files, i: nat, a: Addr)
    requires IsRun(run, files) && i < |run| - 1 && a in files
    ensures Untouched(run[i], run[i + 1], a) || TakesPacket(run[i], run[i + 1], files, a)
  {
    assert Runs.StepAt(NextWith(files), run, i);
    LogStays(run[i], run[i + 1], files);
    if IsServeStep(run[i], run[i + 1]) {
      var msg, result :| Serve(run[i], run[i + 1], msg, result);
      if msg.addr != a {
        ServeOther(run[i], msg, result, a);
      } else {
        var k := OwnPackets(run, files, i, a, msg.bytes);
        assert PacketStep(run[i], run[i + 1], files, a, msg.bytes, k, result);
      }
    }
  }

  lemma PacketStepEffect(
      run: seq<System>, files: Files, i: nat, a: Addr, bytes: seq<Byte>, k: nat, result: SendResult)
    requires IsRun(run, files) && i < |run| - 1 && PacketStep(run[i], run[i + 1], files, a, bytes, k, result)
    ensures var s, s' := run[i], run[i + 1];
      var p := Printed(s.open, a);
      && Begun(s', a) == Begun(s, a) + (if HasRoom(s, a) && p == [] && k == 1 then 1 else 0)
      && (HasRoom(s, a) ==> (a in s'.open <==> !EndsSession(p, k, |files[a]|, result)))
      && (!HasRoom(s, a) ==> a !in s'.open)
      && (a in s.open && p == [] && k != 1 ==> a in s'.open && Printed(s'.open, a) == [])
  {
    var s, s' := run[i], run[i + 1];
    var p, p' := Printed(s.open, a), SessionAfter(s, Message(a, bytes), result);
    LogOfPacket(run, files, i, a, bytes, k, result);
    if HasRoom(s, a) {
      BegunByTurn(s, s', a, p', !EndsSession(p, k, |files[a]|, result));
    }
  }

  ghost function FirstServings(files: Files, a: Addr): (System, System) -> bool {
    (s, s') => FirstServed(s, s', files, a)
  }

  function BegunBy(a: Addr): System -> int {
    (s: System) => Begun(s, a)
  }

  lemma StepAndBegun(run: seq<System>, files: Files, i: nat, a: Addr)
    requires IsRun(run, files) && i < |run| - 1 && a in files
    ensures BegunBy(a)(run[i + 1]) ==
      BegunBy(a)(run[i]) + if Runs.StepAt(FirstServings(files, a), run, i) then 1 else 0
  {
    if FirstServed(run[i], run[i + 1], files, a) {
      var bytes, result :| PacketStep(run[i], run[i + 1], files, a, bytes, 1, result);
      PacketStepEffect(run, files, i, a, bytes, 1, result);
    } else {
      StepsOfSessions(run, files, i, a);
      if !Untouched(run[i], run[i + 1], a) {
        var bytes, k: nat, result :| PacketStep(run[i], run[i + 1], files, a, bytes, k, result);
        PacketStepEffect(run, files, i, a, bytes, k, result);
      }
    }
  }

  // Between two states of a run as many sessions of a client have begun to print as
  // its packet 1 has been served while it had a slot at 0, or none and room for one.
  lemma SessionsBegun(run: seq<System>, files: Files, a: Addr, i: nat, j: nat)
    requires IsRun(run, files) && i <= j < |run| && a in files
    ensures Begun(run[j], a) == Begun(run[i], a) + Runs.CountSteps(FirstServings(files, a), run[i..j + 1])
  {
    forall m | i <= m < j
      ensures BegunBy(a)(run[m + 1]) ==
        BegunBy(a)(run[m]) + if Runs.StepAt(FirstServings(files, a), run, m) then 1 else 0
    {
      StepAndBegun(run, files, m, a);
    }
    Runs.CountExactly(FirstServings(files, a), BegunBy(a), run, i, j);
  }

  // So a later session prints something if and only if packet 1 of the client is
  // served again while its slot, if it has one, is at 0.
  lemma LaterSessionPrintsIff(run: seq<System>, files: Files, a: Addr, i: nat, j: nat)
    requires IsRun(run, files) && i <= j < |run| && a in files
    ensures Begun(run[j], a) > Begun(run[i], a) <==>
      exists m :: i <= m < j && FirstServed(run[m], run[m + 1], files, a)
  {
    var part := run[i..j + 1];
    SessionsBegun(run, files, a, i, j);
    Runs.CountPositive(FirstServings(files, a), part);
    if m :| i <= m < j && FirstServed(run[m], run[m + 1], files, a) {
      assert Runs.StepAt(FirstServings(files, a), part, m - i);
    }
    if m :| 0 <= m < |part| - 1 && Runs.StepAt(FirstServings(files, a), part, m) {
      assert FirstServed(run[i + m], run[i + m + 1], files, a);
    }
  }

  // The whole file has been printed at most that often.
  lemma {:induction false} WholeHasBegun(closed: seq<Session>, a: Addr, pieces: seq<seq<Byte>>)
    requires pieces != []
    ensures multiset(closed)[Session(a, Parts(pieces))] <= Sums.SumBy(closed, CountsFor(a))
  {
    if closed != [] {
      var front, last := closed[..|closed| - 1], closed[|closed| - 1];
      WholeHasBegun(front, a, pieces);
      assert closed == front + [last];
    }
  }

  lemma BegunInRun(run: seq<System>, files: Files, a: Addr)
    requires IsRun(run, files) && a in files
    ensures Begun(Last(run), a) == Runs.CountSteps(FirstServings(files, a), run)
  {
    SessionsBegun(run, files, a, 0, |run| - 1);
    assert run[0..|run|] == run;
    assert Init(run[0], files);
  }

  lemma WholeAtMostBegun(run: seq<System>, files: Files, a: Addr)
    requires IsRun(run, files) && a in files
    ensures Times(Last(run), a, files[a]) <= Runs.CountSteps(FirstServings(files, a), run)
  {
    BegunInRun(run, files, a);
    assert CanBeSent(files[a]);
    WholeHasBegun(Last(run).closed, a, files[a]);
  }

  // The server gets the last packet of client a as the next one of its session.
  ghost predicate LastServed(s: System, s': System, files: Files, a: Addr) {
    exists bytes, result ::
      && a in files && PacketStep(s, s', files, a, bytes, |files[a]|, result)
      && HasRoom(s, a) && |Printed(s.open, a)| == |files[a]| - 1
  }

  ghost function LastServings(files: Files, a: Addr): (System, System) -> bool {
    (s, s') => LastServed(s, s', files, a)
  }

  function WholePrintsOf(a: Addr, pieces: seq<seq<Byte>>): System -> int {
    (s: System) => Times(s, a, pieces)
  }

  lemma TimesByTurn(s: System, s': System, a: Addr, pieces: seq<seq<Byte>>, p': seq<Part>, admitted: bool, holds: bool)
    requires LogTurn(s, s', a, p', admitted, holds)
    ensures Times(s', a, pieces) == Times(s, a, pieces) + if admitted && !holds && p' == Parts(pieces) then 1 else 0
  {
    if admitted && !holds {
      ClosedOneMore(s.closed, Session(a, p'), Session(a, Parts(pieces)));
    }
  }

  lemma ClosedOneMore(closed: seq<Session>, x: Session, y: Session)
    ensures multiset(closed + [x])[y] == multiset(closed)[y] + if x == y then 1 else 0
  {
  }

  lemma PacketStepTimes(
      run: seq<System>, files: Files, i: nat, a: Addr, bytes: seq<Byte>, k: nat, result: SendResult)
    requires IsRun(run, files) && i < |run| - 1 && PacketStep(run[i], run[i + 1], files, a, bytes, k, result)
    ensures var s, n := run[i], |files[a]|;
      Times(run[i + 1], a, files[a]) ==
        Times(s, a, files[a]) + if HasRoom(s, a) && |Printed(s.open, a)| == n - 1 && k == n then 1 else 0
  {
    var s, s' := run[i], run[i + 1];
    var p, p' := Printed(s.open, a), SessionAfter(s, Message(a, bytes), result);
    var ends := EndsSession(p, k, |files[a]|, result);
    LogOfPacket(run, files, i, a, bytes, k, result);
    SessionSoFar(run, files, a, i);
    TimesByTurn(s, s', a, files[a], p', HasRoom(s, a), !ends);
    if HasRoom(s, a) && ends {
      assert HasSession(s', a, p');
      SessionsPrintPrefixes(run, files, i + 1, a, p');
    }
  }

  lemma StepAndTimes(run: seq<System>, files: Files, i: nat, a: Addr)
    requires IsRun(run, files) && i < |run| - 1 && a in files
    ensures WholePrintsOf(a, files[a])(run[i + 1]) ==
      WholePrintsOf(a, files[a])(run[i]) + if Runs.StepAt(LastServings(files, a), run, i) then 1 else 0
  {
    if LastServed(run[i], run[i + 1], files, a) {
      var bytes, result :| PacketStep(run[i], run[i + 1], files, a, bytes, |files[a]|, result);
      PacketStepTimes(run, files, i, a, bytes, |files[a]|, result);
    } else {
      StepsOfSessions(run, files, i, a);
      if !Untouched(run[i], run[i + 1], a) {
        var bytes, k: nat, result :| PacketStep(run[i], run[i + 1], files, a, bytes, k, result);
        PacketStepTimes(run, files, i, a, bytes, k, result);
      }
    }
  }

  // Between two states of a run a file is printed whole exactly as often as its last
  // packet is served as the next one.
  lemma WholePrints(run: seq<System>, files: Files, a: Addr, i: nat, j: nat)
    requires IsRun(run, files) && i <= j < |run| && a in files
    ensures Times(run[j], a, files[a]) ==
      Times(run[i], a, files[a]) + Runs.CountSteps(LastServings(files, a), run[i..j + 1])
  {
    var whole := WholePrintsOf(a, files[a]);
    forall m | i <= m < j
      ensures whole(run[m + 1]) == whole(run[m]) + if Runs.StepAt(LastServings(files, a), run, m) then 1 else 0
    {
      StepAndTimes(run, files, m, a);
    }
    Runs.CountExactly(LastServings(files, a), whole, run, i, j);
  }

  // A slot is freed if and only if a packet ends its session.
  lemma SlotFreedIff(run: seq<System>, files: Files, a: Addr, m: nat)
    requires IsRun(run, files) && m < |run| - 1 && a in files && a in run[m].open
    ensures a !in run[m + 1].open <==> Ends(run[m], run[m + 1], files, a)
  {
    if Ends(run[m], run[m + 1], files, a) {
      var bytes, k: nat, result :|
        && PacketStep(run[m], run[m + 1], files, a, bytes, k, result)
        && EndsSession(Printed(run[m].open, a), k, |files[a]|, result);
      PacketStepEffect(run, files, m, a, bytes, k, result);
    } else {
      StepsOfSessions(run, files, m, a);
      if !Untouched(run[m], run[m + 1], a) {
        var bytes, k: nat, result :| PacketStep(run[m], run[m + 1], files, a, bytes, k, result);
        PacketStepEffect(run, files, m, a, bytes, k, result);
      }
    }
  }

  lemma ZeroStays(run: seq<System>, files: Files, a: Addr, i: nat)
    requires IsRun(run, files) && i < |run| - 1 && a in files
    requires a in run[i].open && run[i].open[a] == [] && !FirstServed(run[i], run[i + 1], files, a)
    ensures a in run[i + 1].open && run[i + 1].open[a] == []
  {
    StepsOfSessions(run, files, i, a);
    if !Untouched(run[i], run[i + 1], a) {
      var bytes, k: nat, result :| PacketStep(run[i], run[i + 1], files, a, bytes, k, result);
      PacketStepEffect(run, files, i, a, bytes, k, result);
    }
  }

  // A slot at 0 stays taken, and at 0, as long as packet 1 is not served.
  lemma {:induction false} SlotStaysAtZero(run: seq<System>, files: Files, a: Addr, i: nat, j: nat)
    requires IsRun(run, files) && i <= j < |run| && a in files
    requires a in run[i].open && run[i].open[a] == []
    requires forall m :: i <= m < j ==> !FirstServed(run[m], run[m + 1], files, a)
    ensures a in run[j].open && run[j].open[a] == []
    decreases j
  {
    if i < j {
      SlotStaysAtZero(run, files, a, i, j - 1);
      assert !FirstServed(run[j - 1], run[j - 1 + 1], files, a);
      ZeroStays(run, files, a, j - 1);
    }
  }

  // ----- a slot that is left behind

  // Without replies a listening client gives up, after the attempts it has left.
  lemma {:induction false} GiveUp(run: seq<System>, files: Files, a: Addr, counter: nat) returns (longer: seq<System>)
    requires Alive(run, files, a) && Last(run).clients[a].phase == Listening
    requires Last(run).clients[a].recvBuf == Zeros(MAXBUF) && Last(run).clients[a].counter == counter <= ATTEMPTS
    ensures run <= longer && Alive(longer, files, a) && SameServer(Last(run), Last(longer))
    ensures Last(longer).clients[a].phase == GaveUp
    decreases ATTEMPTS - counter
  {
    NumberRange(run, files, |run| - 1, a);
    ZeroAcknowledgesNothing(Last(run).clients[a].no);
    longer := HearOn(run, files, a, Timeout);
    if counter < ATTEMPTS {
      var again := SendOn(longer, files, a);
      longer := GiveUp(again, files, a, counter + 1);
    }
  }

  lemma TurnTakesSlot(s: System, s': System, a: Addr, p: seq<Part>, p': seq<Part>, k: nat, n: nat)
    requires Quiet(s, a) && p == Printed(s.open, a) && k > 1
    requires |p'| == (if HasRoom(s, a) && k == |p| + 1 then k else |p|)
    requires LogTurn(s, s', a, p', HasRoom(s, a), !EndsSession(p, k, n, Sent))
    ensures s'.closed == s.closed && s'.open == s.open[a := []]
  {
  }

  lemma LatePacketTaken(run: seq<System>, files: Files, a: Addr, bytes: seq<Byte>, k: nat)
    requires Alive(run, files, a) && Quiet(Last(run), a) && Shape(Last(run).server)
    requires k > 1 && IsPacket(bytes, files[a], k) && |bytes| <= MAXBUF
    ensures var s, s' := Last(run), Served(Last(run), Message(a, bytes), Sent);
      s'.closed == s.closed && s'.open == s.open[a := []]
  {
    var s := Last(run);
    LogOfPacket(run, files, |run| - 1, a, bytes, k, Sent);
    TurnTakesSlot(s, Served(s, Message(a, bytes), Sent), a, Printed(s.open, a),
                  SessionAfter(s, Message(a, bytes), Sent), k, |files[a]|);
  }

  // The last packet arrives once more after the session has ended, and takes a slot.
  lemma SlotTaken(run: seq<System>, files: Files, a: Addr, k: nat) returns (longer: seq<System>)
    requires Alive(run, files, a) && Quiet(Last(run), a) && 1 < k <= SentCount(Last(run).clients[a])
    ensures Alive(longer, files, a) && Last(longer).clients == Last(run).clients
    ensures Last(longer).closed == Last(run).closed && Last(longer).open == Last(run).open[a := []]
  {
    HasBeenSent(run, files, a, k);
    var bytes := PacketOf(files[a], k);
    LatePacketTaken(run, files, a, bytes, k);
    var s := ServeIsStep(Last(run), files, Message(a, bytes), Sent);
    longer := StepOn(run, files, s);
  }

  // The last packet has been sent for the first time, and printed, but its echo is
  // still on its way.
  lemma AllButLastEcho(files: Files, a: Addr) returns (run: seq<System>)
    requires AllCanBeSent(files) && a in files
    ensures Alive(run, files, a) && Quiet(Last(run), a) && Session(a, Parts(files[a])) in Last(run).closed
    ensures Last(run).clients[a] == AfterSend(Fresh(|files[a]|))
  {
    var n := |files[a]|;
    run := Beginning(files, a);
    run := GoTo(run, files, a, 1, n);
    run := SendOn(run, files, a);
    run := CatchUp(run, files, a, n);
  }

  // For every file of two or more packets there is a run in which all of it has been
  // printed and its slot freed, the last packet takes a slot again, at 0, and the
  // client has given up.
  lemma SlotIsLeaked(files: Files, a: Addr) returns (run: seq<System>)
    requires AllCanBeSent(files) && a in files && |files[a]| > 1
    ensures IsRun(run, files) && Session(a, Parts(files[a])) in Last(run).closed
    ensures a in Last(run).open && Last(run).open[a] == []
    ensures var t := Table(Last(run).server.slots); a in t && t[a] == 0
    ensures a in Last(run).clients && Last(run).clients[a].phase == GaveUp
  {
    run := AllButLastEcho(files, a);
    run := SlotTaken(run, files, a, |files[a]|);
    run := GiveUp(run, files, a, 1);
    SessionAtZero(run, files, a);
  }

  lemma SessionAtZero(run: seq<System>, files: Files, a: Addr)
    requires IsRun(run, files) && a in Last(run).open && Last(run).open[a] == []
    ensures var t := Table(Last(run).server.slots); a in t && t[a] == 0
  {
    InvInEveryRun(run, files, |run| - 1);
    LogNumber(Last(run).open, Table(Last(run).server.slots), a);
  }

  lemma OnePacketNext(run: seq<System>, files: Files, a: Addr, i: nat)
    requires IsRun(run, files) && i < |run| - 1 && a in files && |files[a]| == 1 && a !in run[i].open
    ensures a !in run[i + 1].open
  {
    StepsOfSessions(run, files, i, a);
    if !Untouched(run[i], run[i + 1], a) {
      var bytes, k: nat, result :| PacketStep(run[i], run[i + 1], files, a, bytes, k, result);
      PacketStepEffect(run, files, i, a, bytes, k, result);
    }
  }

  // A file of one packet never holds a slot between two turns of the server.
  lemma {:induction false} OnePacketHoldsNoSlot(run: seq<System>, files: Files, a: Addr, i: nat)
    requires IsRun(run, files) && i < |run| && a in files && |files[a]| == 1
    ensures a !in run[i].open
    decreases i
  {
    if i == 0 {
      assert Init(run[0], files);
    } else {
      OnePacketHoldsNoSlot(run, files, a, i - 1);
      OnePacketNext(run, files, a, i - 1);
    }
  }

  // When an address has no slot, packet k of n prints something only if it is the
  // first one, and is echoed only then; any other one leaves a slot at 0.
  lemma LateTurn(t: map<Addr, int>, t': map<Addr, int>, a: Addr, k: int, n: nat, result: SendResult, turn: Turn)
    requires TurnOn(t, t', a, k, k == n, result, turn) && a !in t && Admitted(t, a) && 1 <= k <= n
    ensures turn.printed.Some? <==> k == 1
    ensures turn.echo.Some? <==> k == 1 && result == Sent
    ensures a in t' <==> k > 1 || (n > 1 && result == Sent)
    ensures a in t' ==> t'[a] == if k == 1 then 1 else 0
  {
  }

  // While a client has no session, packet k of its file is printed, or echoed, exactly
  // if it is the first one, and takes a slot exactly if it is a later one, or the first
  // of several and its echo can be sent.
  lemma LatePacket(
      run: seq<System>, files: Files, i: nat, a: Addr, bytes: seq<Byte>, k: nat, result: SendResult)
    requires IsRun(run, files) && i < |run| && a in files && IsPacket(bytes, files[a], k) && |bytes| <= MAXBUF
    requires Shape(run[i].server) && Quiet(run[i], a)
    ensures var turn := Receive(run[i].server, a, bytes, result);
      var t' := Table(Served(run[i], Message(a, bytes), result).server.slots);
      && (turn.printed == if k == 1 then Some(Parts(files[a])[0]) else None)
      && (turn.echo == if k == 1 && result == Sent then Some(bytes) else None)
      && (a in t' <==> k > 1 || (|files[a]| > 1 && result == Sent))
      && (a in t' ==> t'[a] == if k == 1 then 1 else 0)
  {
    InvInEveryRun(run, files, i);
    OpenIsTable(run[i], a);
    var turn := Receive(run[i].server, a, bytes, result);
    PacketTurn(run[i].server, a, bytes, files[a], k, result);
    LateTurn(Table(run[i].server.slots), Table(turn.server.slots), a, k, |files[a]|, result, turn);
  }
}
