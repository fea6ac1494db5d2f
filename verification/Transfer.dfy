// The whole file transfer of lab_8/zadanie_1: any number of clients with their
// files, the server, strangers that send what they like, and a network that
// loses, repeats and reorders datagrams: what was sent can arrive at any time,
// any number of times, or never.
module Transfer {
  import opened Wire
  import opened Wrappers
  import opened TransferServer
  import opened TransferClient
  import Runs

  datatype Message = Message(addr: Addr, bytes: seq<Byte>)   // to or from this address

  // What the server printed between claiming and freeing a slot.
  datatype Session = Session(addr: Addr, printed: seq<Part>)

  // "open" and "closed" are the log of the sessions; the rest is the system itself.
  datatype System = System(
    server: Server, clients: map<Addr, Client>, up: set<Message>, down: set<Message>,
    open: map<Addr, seq<Part>>, closed: seq<Session>)

  // The pieces that each client cuts its file into.
  type Files = map<Addr, seq<seq<Byte>>>

  predicate CanBeSent(pieces: seq<seq<Byte>>) {
    0 < |pieces| && IsInt32(|pieces|) && forall i :: 0 <= i < |pieces| ==> |pieces[i]| <= CHUNK
  }

  ghost predicate AllCanBeSent(files: Files) {
    forall a :: a in files ==> CanBeSent(files[a])
  }

  ghost predicate Init(s: System, files: Files) {
    && Shape(s.server) && (forall i :: 0 <= i < MAXCLIENTS ==> s.server.slots[i].free)
    && s.clients == (map a | a in files :: Fresh(1))
    && s.up == {} && s.down == {} && s.open == map[] && s.closed == []
  }

  predicate IsPacket(bytes: seq<Byte>, pieces: seq<seq<Byte>>, k: int) {
    CanBeSent(pieces) && 1 <= k <= |pieces| && bytes == Packets(pieces)[k - 1]
  }

  // Client a sends its current packet.
  ghost predicate Send(s: System, s': System, files: Files, a: Addr, packet: seq<Byte>) {
    && a in s.clients && a in files && s.clients[a].phase == Sending
    && IsPacket(packet, files[a], s.clients[a].no)
    && s' == s.(clients := s.clients[a := AfterSend(s.clients[a])], up := s.up + {Message(a, packet)})
  }

  // Client a gets a datagram, or its alarm rings.
  ghost predicate Hear(s: System, s': System, files: Files, a: Addr, reply: Reply) {
    && a in s.clients && a in files && s.clients[a].phase == Listening
    && (reply.Arrived? ==> Message(a, reply.bytes) in s.down)
    && s' == s.(clients := s.clients[a := AfterReply(s.clients[a], |files[a]|, reply)])
  }

  // Somebody else sends anything.
  ghost predicate Intrude(s: System, s': System, files: Files, msg: Message) {
    && msg.addr !in files && |msg.bytes| <= MAXBUF
    && s' == s.(up := s.up + {msg})
  }

  // What the session of address a has printed so far, and prints now.
  function Printed(open: map<Addr, seq<Part>>, a: Addr): (p: seq<Part>)
    ensures a in open ==> p == open[a]
  {
    if a in open then open[a] else []
  }

  function WithPart(p: seq<Part>, part: Option<Part>): seq<Part> {
    if part.Some? then p + [part.value] else p
  }

  // The log after address a, which was given a slot, still holds it or not.
  function Logged(s: System, a: Addr, p: seq<Part>, holds: bool): System {
    if holds then s.(open := s.open[a := p])
    else s.(open := s.open - {a}, closed := s.closed + [Session(a, p)])
  }

  // The server receives a datagram.
  function Served(s: System, msg: Message, result: SendResult): System
    requires Shape(s.server) && |msg.bytes| <= MAXBUF
  {
    var turn := Receive(s.server, msg.addr, msg.bytes, result);
    var s1 := s.(server := turn.server,
                 down := if turn.echo.Some? then s.down + {Message(msg.addr, turn.echo.value)} else s.down);
    if Found(s.server.slots, msg.addr).1 < 0 then s1
    else
      Logged(s1, msg.addr, WithPart(Printed(s.open, msg.addr), turn.printed), SlotOf(turn.server.slots, msg.addr) >= 0)
  }

  ghost predicate Serve(s: System, s': System, msg: Message, result: SendResult) {
    && msg in s.up && Shape(s.server) && |msg.bytes| <= MAXBUF
    && s' == Served(s, msg, result)
  }

  ghost predicate ClientActs(s: System, s': System, files: Files, a: Addr) {
    || (exists packet :: Send(s, s', files, a, packet))
    || (exists reply :: Hear(s, s', files, a, reply))
  }

  ghost predicate Next(s: System, s': System, files: Files) {
    || (exists a :: ClientActs(s, s', files, a))
    || (exists msg :: Intrude(s, s', files, msg))
    || (exists msg, result :: Serve(s, s', msg, result))
  }

  // ----- the server and the log of its sessions

  // Whatever arrives, a session prints the chunks from 1 on, one after the other.
  predicate Consecutive(p: seq<Part>) {
    forall i :: 0 <= i < |p| ==> p[i].no == i + 1
  }

  ghost predicate HasSession(s: System, a: Addr, p: seq<Part>) {
    (a in s.open && p == s.open[a]) || Session(a, p) in s.closed
  }

  ghost predicate LogMatches(open: map<Addr, seq<Part>>, t: map<Addr, int>) {
    && (forall a {:trigger a in open} {:trigger a in t} :: a in open <==> a in t)
    && (forall a {:trigger open[a]} {:trigger t[a]} :: a in open ==> |open[a]| == t[a])
  }

  ghost predicate ServerInv(s: System) {
    && Shape(s.server) && Distinct(s.server.slots)
    && LogMatches(s.open, Table(s.server.slots))
    && (forall m :: m in s.up ==> |m.bytes| <= MAXBUF)
    && (forall a, p :: HasSession(s, a, p) ==> Consecutive(p))
  }

  // The session of msg.addr after the datagram, if it has one.
  function SessionAfter(s: System, msg: Message, result: SendResult): seq<Part>
    requires Shape(s.server) && |msg.bytes| <= MAXBUF
  {
    WithPart(Printed(s.open, msg.addr), Receive(s.server, msg.addr, msg.bytes, result).printed)
  }

  predicate Admitted(t: map<Addr, int>, a: Addr) {
    a in t || |t| < MAXCLIENTS
  }

  // A turn of the server, seen from its table.
  ghost predicate TurnOn(
      t: map<Addr, int>, t': map<Addr, int>, a: Addr, no: int, last: bool, result: SendResult, turn: Turn)
  {
    var c := if a in t then t[a] else 0;
    && t' == TableAfter(t, MAXCLIENTS, a, no, last, result)
    && (turn.printed.Some? <==> Admitted(t, a) && no == c + 1)
    && (turn.printed.Some? ==> turn.printed.value.no == no)
    && (turn.echo.Some? <==> Admitted(t, a) && no <= c + 1 && result == Sent)
  }

  lemma ServerTurn(srv: Server, a: Addr, data: seq<Byte>, result: SendResult)
    requires Shape(srv) && Distinct(srv.slots) && |data| <= MAXBUF
    ensures var buf, turn := Filled(srv.buf, data), Receive(srv, a, data, result);
      && Shape(turn.server) && Distinct(turn.server.slots)
      && TurnOn(Table(srv.slots), Table(turn.server.slots), a, ChunkNo(buf), EndingFlag(buf), result, turn)
      && (Found(srv.slots, a).1 < 0 <==> !Admitted(Table(srv.slots), a))
  {
    var buf := Filled(srv.buf, data);
    PrintsAndEchoes(srv, a, data, result);
    SlotsRefineTable(srv.slots, a, ChunkNo(buf), EndingFlag(buf), result);
    FoundInTable(srv.slots, a);
  }

  // A session after a turn of the server.
  lemma SessionGrows(
      open: map<Addr, seq<Part>>, t: map<Addr, int>, t': map<Addr, int>, a: Addr, no: int, last: bool,
      result: SendResult, turn: Turn)
    requires LogMatches(open, t) && TurnOn(t, t', a, no, last, result, turn)
    requires Consecutive(Printed(open, a))
    ensures var p := Printed(open, a);
      var p' := WithPart(p, turn.printed);
      && Consecutive(p')
      && |p'| == (if Admitted(t, a) && no == |p| + 1 then |p| + 1 else |p|)
      && (if !Admitted(t, a) then t' == t && p' == p
          else t' == if a in t' then t[a := |p'|] else t - {a})
  {
    var c := if a in t then t[a] else 0;
    assert a in open <==> a in t;
    assert |Printed(open, a)| == c;
  }

  lemma LogUpdated(open: map<Addr, seq<Part>>, t: map<Addr, int>, a: Addr, p: seq<Part>)
    requires LogMatches(open, t)
    ensures LogMatches(open[a := p], t[a := |p|])
    ensures LogMatches(open - {a}, t - {a})
  {
  }

  // The sessions after a turn: those of others as before, and the one of msg.addr
  // with what has just been printed.
  lemma SessionsServed(s: System, msg: Message, result: SendResult, b: Addr, q: seq<Part>)
    requires Shape(s.server) && |msg.bytes| <= MAXBUF
    ensures var s', p' := Served(s, msg, result), SessionAfter(s, msg, result);
      && (b != msg.addr ==> (HasSession(s', b, q) <==> HasSession(s, b, q)))
      && (HasSession(s', msg.addr, q) ==> HasSession(s, msg.addr, q) || q == p')
      && (HasSession(s, msg.addr, q) ==> HasSession(s', msg.addr, q) || (q <= p' && HasSession(s', msg.addr, p')))
      && (Found(s.server.slots, msg.addr).1 >= 0 ==> HasSession(s', msg.addr, p'))
  {
  }

  lemma ServeKeepsServer(s: System, msg: Message, result: SendResult)
    requires ServerInv(s) && msg in s.up
    ensures ServerInv(Served(s, msg, result))
  {
    var a, buf, turn := msg.addr, Filled(s.server.buf, msg.bytes), Receive(s.server, msg.addr, msg.bytes, result);
    var s', p' := Served(s, msg, result), SessionAfter(s, msg, result);
    var t, t' := Table(s.server.slots), Table(turn.server.slots);
    ServerTurn(s.server, a, msg.bytes, result);
    assert a in s.open ==> HasSession(s, a, s.open[a]);
    SessionGrows(s.open, t, t', a, ChunkNo(buf), EndingFlag(buf), result, turn);
    LogUpdated(s.open, t, a, p');
    assert LogMatches(s'.open, t');
    forall b, q | HasSession(s', b, q) ensures Consecutive(q) {
      SessionsServed(s, msg, result, b, q);
    }
  }

  // ----- the clients

  // What the server prints of a whole file.
  function Parts(pieces: seq<seq<Byte>>): (parts: seq<Part>)
    ensures |parts| == |pieces|
    ensures forall i :: 0 <= i < |pieces| ==> parts[i] == Part(i + 1, i + 1 == |pieces|, CString(pieces[i]))
  {
    seq(|pieces|, i requires 0 <= i < |pieces| => Part(i + 1, i + 1 == |pieces|, CString(pieces[i])))
  }

  ghost predicate Delivered(s: System, a: Addr, k: int) {
    exists p :: HasSession(s, a, p) && k <= |p|
  }

  ghost predicate DeliveredPacket(s: System, a: Addr, pieces: seq<seq<Byte>>, bytes: seq<Byte>, k: int) {
    IsPacket(bytes, pieces, k) && Delivered(s, a, k)
  }

  ghost predicate Genuine(s: System, a: Addr, pieces: seq<seq<Byte>>, bytes: seq<Byte>) {
    exists k :: DeliveredPacket(s, a, pieces, bytes, k)
  }

  ghost predicate ClientInv(s: System, a: Addr, pieces: seq<seq<Byte>>, c: Client) {
    && CanBeSent(pieces) && 1 <= c.no <= |pieces|
    && (c.no > 1 ==> Delivered(s, a, c.no - 1))
    && (c.phase == Finished ==> c.no == |pieces| && Delivered(s, a, c.no))
    && (c.recvBuf == Zeros(MAXBUF) || Genuine(s, a, pieces, c.recvBuf))
    && c.counter <= ATTEMPTS && (c.phase == Sending ==> c.counter < ATTEMPTS)
  }

  // The sessions of a client print its file from the beginning, no further than it
  // has got, and one that is still open has not printed all of it.
  ghost predicate SessionInv(s: System, a: Addr, pieces: seq<seq<Byte>>, no: nat) {
    && (forall p :: HasSession(s, a, p) ==> p <= Parts(pieces) && |p| <= no)
    && (a in s.open ==> |s.open[a]| < |pieces|)
  }

  ghost predicate SentUpTo(bytes: seq<Byte>, pieces: seq<seq<Byte>>, no: nat) {
    exists k :: k <= no && IsPacket(bytes, pieces, k)
  }

  ghost predicate HasSent(up: set<Message>, a: Addr, pieces: seq<seq<Byte>>, no: nat) {
    forall d :: Message(a, d) in up ==> SentUpTo(d, pieces, no)
  }

  // The packets a client has sent at least once.
  function SentCount(c: Client): int {
    if c.counter > 0 then c.no else c.no - 1
  }

  // The network has got exactly the packets that the client has sent.
  ghost predicate Outbox(up: set<Message>, a: Addr, pieces: seq<seq<Byte>>, c: Client) {
    && HasSent(up, a, pieces, c.no)
    && (c.phase != Sending ==> c.counter > 0)
    && (forall k, d :: k <= SentCount(c) && IsPacket(d, pieces, k) ==> Message(a, d) in up)
  }

  ghost predicate AddressInv(s: System, a: Addr, pieces: seq<seq<Byte>>, c: Client) {
    && ClientInv(s, a, pieces, c)
    && SessionInv(s, a, pieces, c.no)
    && (forall d :: Message(a, d) in s.down ==> Genuine(s, a, pieces, d))
  }

  ghost predicate Inv(s: System, files: Files) {
    && ServerInv(s) && s.clients.Keys == files.Keys
    && (forall a :: a in files ==> AddressInv(s, a, files[a], s.clients[a]))
    && (forall a :: a in files ==> Outbox(s.up, a, files[a], s.clients[a]))
  }

  // ----- client steps

  lemma PacketNumber(bytes: seq<Byte>, pieces: seq<seq<Byte>>, k: int)
    requires IsPacket(bytes, pieces, k)
    ensures bytes == Packet(k, k == |pieces|, pieces[k - 1]) && |bytes| == MAXBUF
    ensures forall no: nat {:trigger Acknowledges(bytes, no)} :: Acknowledges(bytes, no) ==> no == k
  {
    PacketAt(pieces, k);
    PacketFields(k, k == |pieces|, pieces[k - 1]);
    DecodeEncode(k);
    forall no: nat | Acknowledges(bytes, no) ensures no == k {
      DecodeEncode(no);
    }
  }

  // Only an acknowledgement that has really been earned is accepted.
  lemma EarnedAcknowledgement(s: System, a: Addr, pieces: seq<seq<Byte>>, buf: seq<Byte>, no: nat)
    requires buf == Zeros(MAXBUF) || Genuine(s, a, pieces, buf)
    requires Acknowledges(buf, no) && no > 0
    ensures Delivered(s, a, no)
  {
    if buf == Zeros(MAXBUF) {
      ZeroAcknowledgesNothing(no);
    } else {
      var k :| DeliveredPacket(s, a, pieces, buf, k);
      PacketNumber(buf, pieces, k);
    }
  }

  // The receive buffer never holds anything but zeros or a genuine echo.
  lemma HeardGenuine(s: System, a: Addr, pieces: seq<seq<Byte>>, buf: seq<Byte>, reply: Reply)
    requires |buf| == MAXBUF && (buf == Zeros(MAXBUF) || Genuine(s, a, pieces, buf))
    requires reply.Arrived? ==> Genuine(s, a, pieces, reply.bytes)
    ensures Heard(buf, reply) == Zeros(MAXBUF) || Genuine(s, a, pieces, Heard(buf, reply))
  {
    if reply.Arrived? {
      var k :| DeliveredPacket(s, a, pieces, reply.bytes, k);
      PacketNumber(reply.bytes, pieces, k);
      assert Heard(buf, reply) == reply.bytes;
    }
  }

  lemma BufferSize(s: System, a: Addr, pieces: seq<seq<Byte>>, c: Client)
    requires ClientInv(s, a, pieces, c)
    ensures |c.recvBuf| == MAXBUF
  {
    if c.recvBuf != Zeros(MAXBUF) {
      var k :| DeliveredPacket(s, a, pieces, c.recvBuf, k);
      PacketNumber(c.recvBuf, pieces, k);
    }
  }

  lemma HearKeepsClient(s: System, a: Addr, pieces: seq<seq<Byte>>, c: Client, reply: Reply)
    requires ClientInv(s, a, pieces, c) && c.phase == Listening
    requires reply.Arrived? ==> Genuine(s, a, pieces, reply.bytes)
    ensures ClientInv(s, a, pieces, AfterReply(c, |pieces|, reply))
  {
    BufferSize(s, a, pieces, c);
    HeardGenuine(s, a, pieces, c.recvBuf, reply);
    if Acknowledges(Heard(c.recvBuf, reply), c.no) {
      EarnedAcknowledgement(s, a, pieces, Heard(c.recvBuf, reply), c.no);
    }
  }

  // Whatever the sessions of address a had printed is still printed.
  ghost predicate Lasting(s: System, s': System, a: Addr) {
    forall p :: HasSession(s, a, p) ==> Delivered(s', a, |p|)
  }

  lemma LastingDelivered(s: System, s': System, a: Addr, k: int)
    requires Lasting(s, s', a) && Delivered(s, a, k)
    ensures Delivered(s', a, k)
  {
    var p :| HasSession(s, a, p) && k <= |p|;
    var p' :| HasSession(s', a, p') && |p| <= |p'|;
  }

  lemma LastingGenuine(s: System, s': System, a: Addr, pieces: seq<seq<Byte>>, bytes: seq<Byte>)
    requires Lasting(s, s', a) && Genuine(s, a, pieces, bytes)
    ensures Genuine(s', a, pieces, bytes)
  {
    var k :| DeliveredPacket(s, a, pieces, bytes, k);
    LastingDelivered(s, s', a, k);
    assert DeliveredPacket(s', a, pieces, bytes, k);
  }

  lemma LastingClient(s: System, s': System, a: Addr, pieces: seq<seq<Byte>>, c: Client)
    requires Lasting(s, s', a) && ClientInv(s, a, pieces, c)
    ensures ClientInv(s', a, pieces, c)
  {
    if c.no > 1 {
      LastingDelivered(s, s', a, c.no - 1);
    }
    if c.phase == Finished {
      LastingDelivered(s, s', a, c.no);
    }
    if c.recvBuf != Zeros(MAXBUF) {
      LastingGenuine(s, s', a, pieces, c.recvBuf);
    }
  }

  // A step that changes no session and no echo.
  lemma QuietKeepsAddress(s: System, s': System, a: Addr, pieces: seq<seq<Byte>>, c: Client)
    requires AddressInv(s, a, pieces, c)
    requires s'.open == s.open && s'.closed == s.closed && s'.down == s.down
    ensures AddressInv(s', a, pieces, c)
  {
    assert forall p :: HasSession(s, a, p) <==> HasSession(s', a, p);
    assert Lasting(s, s', a);
    LastingClient(s, s', a, pieces, c);
    forall d | Message(a, d) in s'.down ensures Genuine(s', a, pieces, d) {
      LastingGenuine(s, s', a, pieces, d);
    }
  }

  lemma QuietKeepsServer(s: System, s': System)
    requires ServerInv(s)
    requires s'.server == s.server && s'.open == s.open && s'.closed == s.closed
    requires forall m :: m in s'.up ==> |m.bytes| <= MAXBUF
    ensures ServerInv(s')
  {
    assert forall a, p :: HasSession(s, a, p) <==> HasSession(s', a, p);
  }

  lemma SentFurther(bytes: seq<Byte>, pieces: seq<seq<Byte>>, no: nat, no': nat)
    requires SentUpTo(bytes, pieces, no) && no <= no'
    ensures SentUpTo(bytes, pieces, no')
  {
  }

  lemma HearKeepsAddress(s: System, a: Addr, pieces: seq<seq<Byte>>, c: Client, reply: Reply)
    requires AddressInv(s, a, pieces, c) && c.phase == Listening
    requires reply.Arrived? ==> Message(a, reply.bytes) in s.down
    ensures AddressInv(s, a, pieces, AfterReply(c, |pieces|, reply))
  {
    HearKeepsClient(s, a, pieces, c, reply);
  }

  lemma HearKeepsOutbox(up: set<Message>, a: Addr, pieces: seq<seq<Byte>>, c: Client, reply: Reply)
    requires Outbox(up, a, pieces, c) && c.phase == Listening
    ensures Outbox(up, a, pieces, AfterReply(c, |pieces|, reply))
  {
    forall d | Message(a, d) in up ensures SentUpTo(d, pieces, AfterReply(c, |pieces|, reply).no) {
      SentFurther(d, pieces, c.no, AfterReply(c, |pieces|, reply).no);
    }
  }

  lemma SendKeepsOutbox(up: set<Message>, a: Addr, pieces: seq<seq<Byte>>, c: Client, packet: seq<Byte>)
    requires Outbox(up, a, pieces, c) && IsPacket(packet, pieces, c.no)
    ensures Outbox(up + {Message(a, packet)}, a, pieces, AfterSend(c))
  {
    var up' := up + {Message(a, packet)};
    forall d | Message(a, d) in up' ensures SentUpTo(d, pieces, c.no) {
      if d == packet {
        assert c.no <= c.no && IsPacket(packet, pieces, c.no);
      }
    }
    forall k, d | k <= c.no && IsPacket(d, pieces, k) ensures Message(a, d) in up' {
      assert k <= SentCount(c) || d == packet;
    }
  }

  // Packets of others do not matter.
  lemma OutboxStays(up: set<Message>, up': set<Message>, a: Addr, pieces: seq<seq<Byte>>, c: Client)
    requires Outbox(up, a, pieces, c) && up <= up' && forall m :: m in up' && m.addr == a ==> m in up
    ensures Outbox(up', a, pieces, c)
  {
    forall d | Message(a, d) in up' ensures SentUpTo(d, pieces, c.no) {
      assert Message(a, d) in up;
    }
  }

  lemma SendKeepsAddress(s: System, a: Addr, pieces: seq<seq<Byte>>, c: Client)
    requires AddressInv(s, a, pieces, c) && c.phase == Sending
    ensures AddressInv(s, a, pieces, AfterSend(c))
  {
  }

  // A step of client a, seen from client a itself and from the others.
  lemma QuietKeepsInv(s: System, s': System, files: Files, a: Addr, c: Client)
    requires Inv(s, files) && a in files && AddressInv(s, a, files[a], c)
    requires s'.clients == s.clients[a := c]
    requires s'.server == s.server && s'.open == s.open && s'.closed == s.closed && s'.down == s.down
    requires Outbox(s'.up, a, files[a], c)
    requires forall m :: m in s'.up ==> |m.bytes| <= MAXBUF
    requires s.up <= s'.up && forall m :: m in s'.up && m.addr != a ==> m in s.up
    ensures Inv(s', files)
  {
    QuietKeepsServer(s, s');
    QuietKeepsAddress(s, s', a, files[a], c);
    forall b | b in files && b != a
      ensures AddressInv(s', b, files[b], s'.clients[b])
      ensures Outbox(s'.up, b, files[b], s'.clients[b])
    {
      QuietKeepsAddress(s, s', b, files[b], s.clients[b]);
      OutboxStays(s.up, s'.up, b, files[b], s.clients[b]);
    }
  }

  lemma SendKeepsInv(s: System, s': System, files: Files, a: Addr, packet: seq<Byte>)
    requires Inv(s, files) && Send(s, s', files, a, packet)
    ensures Inv(s', files)
  {
    var c := s.clients[a];
    SendKeepsAddress(s, a, files[a], c);
    PacketNumber(packet, files[a], c.no);
    SendKeepsOutbox(s.up, a, files[a], c, packet);
    QuietKeepsInv(s, s', files, a, AfterSend(c));
  }

  lemma HearKeepsInv(s: System, s': System, files: Files, a: Addr, reply: Reply)
    requires Inv(s, files) && Hear(s, s', files, a, reply)
    ensures Inv(s', files)
  {
    HearKeepsAddress(s, a, files[a], s.clients[a], reply);
    HearKeepsOutbox(s.up, a, files[a], s.clients[a], reply);
    QuietKeepsInv(s, s', files, a, AfterReply(s.clients[a], |files[a]|, reply));
  }

  lemma IntrudeKeepsInv(s: System, s': System, files: Files, msg: Message)
    requires Inv(s, files) && Intrude(s, s', files, msg)
    ensures Inv(s', files)
  {
    QuietKeepsServer(s, s');
    forall b | b in files
      ensures AddressInv(s', b, files[b], s'.clients[b])
      ensures Outbox(s'.up, b, files[b], s'.clients[b])
    {
      QuietKeepsAddress(s, s', b, files[b], s.clients[b]);
      OutboxStays(s.up, s'.up, b, files[b], s.clients[b]);
    }
  }

  // ----- server steps

  lemma FilledPacket(buf: seq<Byte>, bytes: seq<Byte>, pieces: seq<seq<Byte>>, k: int)
    requires |buf| == MAXBUF + 1 && IsPacket(bytes, pieces, k)
    ensures |bytes| == MAXBUF
    ensures var b := Filled(buf, bytes);
      && ChunkNo(b) == k && EndingFlag(b) == (k == |pieces|) && Text(b) == CString(pieces[k - 1])
      && b[..MAXBUF] == bytes
  {
    PacketNumber(bytes, pieces, k);
    PacketFields(k, k == |pieces|, pieces[k - 1]);
    PacketText(k, k == |pieces|, pieces[k - 1]);
    var b := Filled(buf, bytes);
    assert b == bytes + [0];
    assert b[..4] == bytes[..4] && b[4..8] == bytes[4..8];
  }

  // The turn of the server on a packet of a client's file.
  lemma PacketTurn(srv: Server, a: Addr, bytes: seq<Byte>, pieces: seq<seq<Byte>>, k: int, result: SendResult)
    requires Shape(srv) && Distinct(srv.slots) && IsPacket(bytes, pieces, k) && |bytes| <= MAXBUF
    ensures var t, turn := Table(srv.slots), Receive(srv, a, bytes, result);
      && TurnOn(t, Table(turn.server.slots), a, k, k == |pieces|, result, turn)
      && (turn.printed.Some? ==> turn.printed.value == Parts(pieces)[k - 1])
      && (turn.echo.Some? ==> turn.echo.value == bytes)
  {
    FilledPacket(srv.buf, bytes, pieces, k);
    ServerTurn(srv, a, bytes, result);
  }

  lemma PrefixGrows(p: seq<Part>, parts: seq<Part>)
    requires p <= parts && |p| < |parts|
    ensures p + [parts[|p|]] <= parts
  {
  }

  // The session goes on printing the file, and an echo means that it was printed.
  lemma SessionStaysPrefix(
      open: map<Addr, seq<Part>>, t: map<Addr, int>, t': map<Addr, int>, a: Addr, pieces: seq<seq<Byte>>,
      k: int, result: SendResult, turn: Turn)
    requires LogMatches(open, t) && TurnOn(t, t', a, k, k == |pieces|, result, turn) && 1 <= k <= |pieces|
    requires turn.printed.Some? ==> turn.printed.value == Parts(pieces)[k - 1]
    requires Printed(open, a) <= Parts(pieces) && |Printed(open, a)| < |pieces|
    ensures var p, p' := Printed(open, a), WithPart(Printed(open, a), turn.printed);
      && p <= p' <= Parts(pieces)
      && (p' == p || |p'| == k)
      && (Admitted(t, a) && a in t' ==> |p'| < |pieces|)
      && (turn.echo.Some? ==> k <= |p'|)
  {
    var p := Printed(open, a);
    assert a in open <==> a in t;
    assert |p| == if a in t then t[a] else 0;
    PrefixGrows(p, Parts(pieces));
  }

  lemma ServeKeepsOthers(s: System, msg: Message, result: SendResult, b: Addr, pieces: seq<seq<Byte>>, c: Client)
    requires Shape(s.server) && |msg.bytes| <= MAXBUF
    requires AddressInv(s, b, pieces, c) && b != msg.addr
    ensures AddressInv(Served(s, msg, result), b, pieces, c)
  {
    var s' := Served(s, msg, result);
    forall p ensures HasSession(s', b, p) <==> HasSession(s, b, p) {
      SessionsServed(s, msg, result, b, p);
    }
    assert Lasting(s, s', b);
    LastingClient(s, s', b, pieces, c);
    forall d | Message(b, d) in s'.down ensures Genuine(s', b, pieces, d) {
      LastingGenuine(s, s', b, pieces, d);
    }
    assert b in s'.open <==> b in s.open;
  }

  lemma ServeLasts(s: System, msg: Message, result: SendResult)
    requires Shape(s.server) && |msg.bytes| <= MAXBUF
    ensures Lasting(s, Served(s, msg, result), msg.addr)
  {
    forall p | HasSession(s, msg.addr, p) ensures Delivered(Served(s, msg, result), msg.addr, |p|) {
      SessionsServed(s, msg, result, msg.addr, p);
    }
  }

  // What the server does with packet k of the client's own file.
  lemma ServePacket(s: System, msg: Message, result: SendResult, pieces: seq<seq<Byte>>, no: nat, k: int)
    requires ServerInv(s) && SessionInv(s, msg.addr, pieces, no)
    requires |msg.bytes| <= MAXBUF && IsPacket(msg.bytes, pieces, k) && k <= no
    ensures var p', turn := SessionAfter(s, msg, result), Receive(s.server, msg.addr, msg.bytes, result);
      && p' <= Parts(pieces) && |p'| <= no
      && (turn.echo.Some? ==> Admitted(Table(s.server.slots), msg.addr) && turn.echo.value == msg.bytes && k <= |p'|)
      && (Admitted(Table(s.server.slots), msg.addr) && msg.addr in Table(turn.server.slots) ==> |p'| < |pieces|)
  {
    var a, t := msg.addr, Table(s.server.slots);
    var turn := Receive(s.server, a, msg.bytes, result);
    assert a in s.open ==> HasSession(s, a, s.open[a]);
    PacketTurn(s.server, a, msg.bytes, pieces, k, result);
    SessionStaysPrefix(s.open, t, Table(turn.server.slots), a, pieces, k, result, turn);
  }

  lemma ServeKeepsSessions(s: System, msg: Message, result: SendResult, pieces: seq<seq<Byte>>, no: nat, k: int)
    requires ServerInv(s) && SessionInv(s, msg.addr, pieces, no)
    requires |msg.bytes| <= MAXBUF && IsPacket(msg.bytes, pieces, k) && k <= no
    ensures SessionInv(Served(s, msg, result), msg.addr, pieces, no)
  {
    var s', a := Served(s, msg, result), msg.addr;
    ServePacket(s, msg, result, pieces, no, k);
    FoundInTable(s.server.slots, a);
    forall p | HasSession(s', a, p) ensures p <= Parts(pieces) && |p| <= no {
      SessionsServed(s, msg, result, a, p);
    }
  }

  // A new datagram to a client is the echo of this turn.
  lemma OnlyTheEcho(s: System, msg: Message, result: SendResult, d: seq<Byte>)
    requires Shape(s.server) && |msg.bytes| <= MAXBUF
    requires Message(msg.addr, d) in Served(s, msg, result).down
    ensures Message(msg.addr, d) in s.down || Receive(s.server, msg.addr, msg.bytes, result).echo == Some(d)
  {
  }

  lemma ServeEchoes(
      s: System, msg: Message, result: SendResult, pieces: seq<seq<Byte>>, no: nat, k: int, d: seq<Byte>)
    requires ServerInv(s) && SessionInv(s, msg.addr, pieces, no)
    requires |msg.bytes| <= MAXBUF && IsPacket(msg.bytes, pieces, k) && k <= no
    requires Message(msg.addr, d) in Served(s, msg, result).down
    ensures Message(msg.addr, d) in s.down || Genuine(Served(s, msg, result), msg.addr, pieces, d)
  {
    var s', a := Served(s, msg, result), msg.addr;
    if Message(a, d) !in s.down {
      OnlyTheEcho(s, msg, result, d);
      ServePacket(s, msg, result, pieces, no, k);
      FoundInTable(s.server.slots, a);
      SessionsServed(s, msg, result, a, []);
      assert HasSession(s', a, SessionAfter(s, msg, result));
      assert DeliveredPacket(s', a, pieces, d, k);
    }
  }

  lemma ServeKeepsAddress(s: System, msg: Message, result: SendResult, pieces: seq<seq<Byte>>, c: Client)
    requires ServerInv(s) && AddressInv(s, msg.addr, pieces, c) && msg in s.up
    requires HasSent(s.up, msg.addr, pieces, c.no)
    ensures AddressInv(Served(s, msg, result), msg.addr, pieces, c)
  {
    var s', a := Served(s, msg, result), msg.addr;
    assert Message(a, msg.bytes) in s.up;
    var k :| k <= c.no && IsPacket(msg.bytes, pieces, k);
    ServeLasts(s, msg, result);
    LastingClient(s, s', a, pieces, c);
    ServeKeepsSessions(s, msg, result, pieces, c.no, k);
    forall d | Message(a, d) in s'.down ensures Genuine(s', a, pieces, d) {
      ServeEchoes(s, msg, result, pieces, c.no, k, d);
      if Message(a, d) in s.down {
        LastingGenuine(s, s', a, pieces, d);
      }
    }
  }

  lemma ServeKeepsInv(s: System, files: Files, msg: Message, result: SendResult)
    requires Inv(s, files) && msg in s.up
    ensures Inv(Served(s, msg, result), files)
  {
    ServeKeepsServer(s, msg, result);
    forall b | b in files ensures AddressInv(Served(s, msg, result), b, files[b], s.clients[b]) {
      if b == msg.addr {
        ServeKeepsAddress(s, msg, result, files[b], s.clients[b]);
      } else {
        ServeKeepsOthers(s, msg, result, b, files[b], s.clients[b]);
      }
    }
  }

  lemma NextKeepsInv(s: System, s': System, files: Files)
    requires Inv(s, files) && Next(s, s', files)
    ensures Inv(s', files)
  {
    if a, packet :| Send(s, s', files, a, packet) {
      SendKeepsInv(s, s', files, a, packet);
    } else if a, reply :| Hear(s, s', files, a, reply) {
      HearKeepsInv(s, s', files, a, reply);
    } else if msg :| Intrude(s, s', files, msg) {
      IntrudeKeepsInv(s, s', files, msg);
    } else {
      var msg, result :| Serve(s, s', msg, result);
      ServeKeepsInv(s, files, msg, result);
    }
  }

  // ----- results about whole runs

  ghost function InitWith(files: Files): System -> bool {
    s => Init(s, files)
  }

  ghost function NextWith(files: Files): (System, System) -> bool {
    (s, s') => Next(s, s', files)
  }

  ghost function InvWith(files: Files): System -> bool {
    s => Inv(s, files)
  }

  ghost predicate IsRun(run: seq<System>, files: Files) {
    AllCanBeSent(files) && Runs.IsRun(InitWith(files), NextWith(files), run)
  }

  lemma NothingYet(slots: seq<Slot>, a: Addr)
    requires forall i :: 0 <= i < |slots| ==> slots[i].free
    ensures a !in Table(slots)
  {
  }

  lemma InitIsInv(s: System, files: Files)
    requires Init(s, files) && AllCanBeSent(files)
    ensures Inv(s, files)
  {
    forall a ensures a !in Table(s.server.slots) {
      NothingYet(s.server.slots, a);
    }
    forall a | a in files ensures AddressInv(s, a, files[a], s.clients[a]) {
      assert s.clients[a] == Fresh(1);
    }
  }

  lemma InvIsInductive(files: Files)
    requires AllCanBeSent(files)
    ensures Runs.Inductive(InitWith(files), NextWith(files), InvWith(files))
  {
    forall s | InitWith(files)(s) ensures InvWith(files)(s) {
      InitIsInv(s, files);
    }
    forall s, s' | InvWith(files)(s) && NextWith(files)(s, s') ensures InvWith(files)(s') {
      NextKeepsInv(s, s', files);
    }
  }

  lemma InvInEveryRun(run: seq<System>, files: Files, i: nat)
    requires IsRun(run, files) && i < |run|
    ensures Inv(run[i], files)
  {
    InvIsInductive(files);
    Runs.InvariantHolds(InitWith(files), NextWith(files), InvWith(files), run, i);
  }

  // Every session of a client, open or closed, has printed exactly the first chunks
  // of its file, in order, without a gap or a repetition; an open one has printed as
  // many as its slot says, and not all.  Whoever the sender is, chunk numbers go up
  // from 1 one by one, and never more than five sessions are open.
  lemma SessionsPrintPrefixes(run: seq<System>, files: Files, i: nat, a: Addr, p: seq<Part>)
    requires IsRun(run, files) && i < |run| && HasSession(run[i], a, p)
    ensures Consecutive(p) && |run[i].open| <= MAXCLIENTS
    ensures a in files ==> p <= Parts(files[a])
    ensures a in run[i].open ==> a in Table(run[i].server.slots)
    ensures a in run[i].open ==> |run[i].open[a]| == Table(run[i].server.slots)[a]
    ensures a in run[i].open && a in files ==> |run[i].open[a]| < |files[a]|
  {
    var s := run[i];
    InvInEveryRun(run, files, i);
    RoomIffFree(s.server.slots);
    assert s.open.Keys == Table(s.server.slots).Keys;
    assert a in files ==> AddressInv(s, a, files[a], s.clients[a]);
  }

  // An echo on its way to a client that the client would take for the acknowledgement
  // of a chunk means that a session has printed this chunk.
  lemma EchoesAreEarned(run: seq<System>, files: Files, i: nat, a: Addr, bytes: seq<Byte>, no: nat)
    requires IsRun(run, files) && i < |run| && a in files && no > 0
    requires Message(a, bytes) in run[i].down && Acknowledges(bytes, no)
    ensures Delivered(run[i], a, no)
  {
    InvInEveryRun(run, files, i);
    assert AddressInv(run[i], a, files[a], run[i].clients[a]);
    EarnedAcknowledgement(run[i], a, files[a], bytes, no);
  }

  // A client that finishes without giving up has had its whole file printed by one
  // session.
  lemma FinishedMeansPrinted(run: seq<System>, files: Files, i: nat, a: Addr)
    requires IsRun(run, files) && i < |run| && a in files
    requires a in run[i].clients && run[i].clients[a].phase == Finished
    ensures HasSession(run[i], a, Parts(files[a])) && a in files
  {
    var s := run[i];
    InvInEveryRun(run, files, i);
    assert AddressInv(s, a, files[a], s.clients[a]);
    var p :| HasSession(s, a, p) && |files[a]| <= |p|;
    assert p == Parts(files[a]);
  }

  // The text a session has printed.
  function PrintedText(p: seq<Part>): seq<Byte> {
    Join(seq(|p|, i requires 0 <= i < |p| => p[i].text))
  }

  // The text of a finished transfer is the file if and only if there is no NUL in it.
  lemma FinishedTextIsFile(run: seq<System>, files: Files, i: nat, a: Addr, file: seq<Byte>)
    requires IsRun(run, files) && i < |run| && a in files && files[a] == Chunks(file)
    requires a in run[i].clients && run[i].clients[a].phase == Finished
    ensures HasSession(run[i], a, Parts(files[a]))
    ensures PrintedText(Parts(files[a])) == file <==> 0 !in file
  {
    FinishedMeansPrinted(run, files, i, a);
    PartsText(files[a]);
    TextRoundTrip(file);
  }

  lemma PartsText(pieces: seq<seq<Byte>>)
    ensures PrintedText(Parts(pieces)) == Join(Texts(pieces))
  {
    var p := Parts(pieces);
    assert seq(|p|, j requires 0 <= j < |p| => p[j].text) == Texts(pieces);
  }

  ghost predicate FirstSession(s: System, a: Addr) {
    forall p :: Session(a, p) !in s.closed
  }

  // While its first session is open, the server is at the client's chunk or at the
  // one before it.
  lemma ServerKeepsUp(run: seq<System>, files: Files, i: nat, a: Addr)
    requires IsRun(run, files) && i < |run| && a in files && FirstSession(run[i], a)
    ensures a in run[i].clients
    ensures var no, t := run[i].clients[a].no, Table(run[i].server.slots);
      var c := if a in t then t[a] else 0;
      no - 1 <= c <= no
  {
    InvInEveryRun(run, files, i);
    FirstSessionNumbers(run[i], files, a);
  }

  lemma FirstSessionNumbers(s: System, files: Files, a: Addr)
    requires Inv(s, files) && a in files && FirstSession(s, a)
    ensures a in s.clients && s.clients[a].no - 1 <= |Printed(s.open, a)| <= s.clients[a].no
    ensures var t := Table(s.server.slots); |Printed(s.open, a)| == if a in t then t[a] else 0
    ensures |Printed(s.open, a)| < |files[a]|
  {
    var c := s.clients[a];
    assert AddressInv(s, a, files[a], c);
    assert a in s.open ==> HasSession(s, a, s.open[a]);
    assert a in s.open <==> a in Table(s.server.slots);
    if c.no > 1 {
      var p :| HasSession(s, a, p) && c.no - 1 <= |p|;
    }
  }

  // ----- how much a client does

  // The datagrams a client may still send.
  function Left(c: Client, n: nat): int {
    ATTEMPTS * (n - c.no) + ATTEMPTS - c.counter
  }

  ghost function SendsLeft(s: System, a: Addr, n: nat): int {
    if a in s.clients then Left(s.clients[a], n) else 0
  }

  ghost function SendsOf(files: Files, a: Addr): (System, System) -> bool {
    (s, s') => exists packet :: Send(s, s', files, a, packet)
  }

  lemma ReplyLeft(c: Client, n: nat, reply: Reply)
    requires c.counter <= ATTEMPTS
    ensures Left(AfterReply(c, n, reply), n) <= Left(c, n)
  {
  }

  lemma CounterRange(s: System, files: Files, a: Addr)
    requires Inv(s, files) && a in files
    ensures a in s.clients && 1 <= s.clients[a].no <= |files[a]| && s.clients[a].counter <= ATTEMPTS
    ensures |s.clients[a].recvBuf| == MAXBUF && CanBeSent(files[a])
    ensures s.clients[a].phase == Finished ==> s.clients[a].no == |files[a]|
  {
    assert AddressInv(s, a, files[a], s.clients[a]);
    BufferSize(s, a, files[a], s.clients[a]);
  }

  // Any step but a send of client a.
  lemma OtherSteps(s: System, s': System, files: Files, a: Addr)
    requires s.clients.Keys == files.Keys && Next(s, s', files) && a in files && !SendsOf(files, a)(s, s')
    ensures a in s.clients && a in s'.clients
    ensures
      || s'.clients[a] == s.clients[a]
      || exists reply :: s'.clients[a] == AfterReply(s.clients[a], |files[a]|, reply)
  {
    if b, packet :| Send(s, s', files, b, packet) {
    } else if b, reply :| Hear(s, s', files, b, reply) {
    } else if msg :| Intrude(s, s', files, msg) {
    } else {
      var msg, result :| Serve(s, s', msg, result);
    }
  }

  lemma SendsLeftGoesDown(s: System, s': System, files: Files, a: Addr)
    requires Inv(s, files) && Next(s, s', files) && a in files
    ensures SendsLeft(s', a, |files[a]|) <= SendsLeft(s, a, |files[a]|) - if SendsOf(files, a)(s, s') then 1 else 0
  {
    CounterRange(s, files, a);
    if SendsOf(files, a)(s, s') {
      var packet :| Send(s, s', files, a, packet);
    } else {
      OtherSteps(s, s', files, a);
      if reply :| s'.clients[a] == AfterReply(s.clients[a], |files[a]|, reply) {
        ReplyLeft(s.clients[a], |files[a]|, reply);
      }
    }
  }

  ghost function SendsLeftOf(a: Addr, n: nat): System -> int {
    s => SendsLeft(s, a, n)
  }

  lemma SendsAreCounted(files: Files, a: Addr)
    requires a in files
    ensures Runs.CountedLowers(NextWith(files), InvWith(files), SendsOf(files, a), SendsLeftOf(a, |files[a]|))
  {
    var left := SendsLeftOf(a, |files[a]|);
    forall s, s' | InvWith(files)(s) && NextWith(files)(s, s')
      ensures left(s') <= if SendsOf(files, a)(s, s') then left(s) - 1 else left(s)
    {
      SendsLeftGoesDown(s, s', files, a);
    }
  }

  // In every run, whatever the network does, a client sends at most six datagrams
  // for each of its pieces.
  lemma ClientSendsAreBounded(run: seq<System>, files: Files, a: Addr)
    requires IsRun(run, files) && a in files
    ensures Runs.CountSteps(SendsOf(files, a), run) <= 6 * |files[a]|
  {
    var left := SendsLeftOf(a, |files[a]|);
    InvIsInductive(files);
    SendsAreCounted(files, a);
    Runs.CountBound(InitWith(files), NextWith(files), InvWith(files), SendsOf(files, a), left, run);
    InvInEveryRun(run, files, |run| - 1);
    CounterRange(run[|run| - 1], files, a);
    assert run[0].clients[a] == Fresh(1);
  }
}
