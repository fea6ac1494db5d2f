// The server of lab_8/zadanie_1/serwer.c: a table of five slots, one per
// transfer in progress, and the loop body that handles one datagram.
module TransferServer {
  import opened Wire
  import opened Wrappers

  const MAXCLIENTS := 5

  type Addr = nat   // a sockaddr_in; only its equality matters

  datatype Slot = Slot(free: bool, chunkNo: int, addr: Addr)

  datatype Part = Part(no: int, last: bool, text: seq<Byte>)   // what the server prints

  // What sendto returns; any error but EPIPE ends the program.
  datatype SendResult = Sent | BrokenPipe

  // The table and the receive buffer, which keeps its old bytes between datagrams.
  datatype Server = Server(slots: seq<Slot>, buf: seq<Byte>)

  predicate Shape(srv: Server) {
    |srv.slots| == MAXCLIENTS && |srv.buf| == MAXBUF + 1
  }

  // ----- findIndex

  predicate HeldBy(slot: Slot, addr: Addr) {
    !slot.free && slot.addr == addr
  }

  // The first slot held by addr, or -1.
  function SlotOf(slots: seq<Slot>, addr: Addr): (i: int)
    ensures -1 <= i < |slots|
    ensures i >= 0 ==> HeldBy(slots[i], addr) && forall k :: 0 <= k < i ==> !HeldBy(slots[k], addr)
    ensures i == -1 ==> forall k :: 0 <= k < |slots| ==> !HeldBy(slots[k], addr)
  {
    if |slots| == 0 then -1
    else
      var i := SlotOf(slots[..|slots| - 1], addr);
      if i >= 0 then i else if HeldBy(slots[|slots| - 1], addr) then |slots| - 1 else -1
  }

  // The last free slot, or -1.
  function LastFree(slots: seq<Slot>): (i: int)
    ensures -1 <= i < |slots|
    ensures i >= 0 ==> slots[i].free && forall k :: i < k < |slots| ==> !slots[k].free
    ensures i == -1 ==> forall k :: 0 <= k < |slots| ==> !slots[k].free
  {
    if |slots| == 0 then -1
    else if slots[|slots| - 1].free then |slots| - 1
    else LastFree(slots[..|slots| - 1])
  }

  // findIndex: the table afterwards, and the index, -1 for a newcomer to a full table.
  function Found(slots: seq<Slot>, addr: Addr): (r: (seq<Slot>, int))
    ensures |r.0| == |slots| && -1 <= r.1 < |slots|
    ensures r.1 >= 0 ==> HeldBy(r.0[r.1], addr)
  {
    var pos, empty := SlotOf(slots, addr), LastFree(slots);
    if pos == -1 && empty != -1 then (slots[empty := Slot(false, 0, addr)], empty) else (slots, pos)
  }

  // ----- one turn of the loop in server_work

  // recvfrom and the terminator: what the buffer holds after a datagram.
  function Filled(buf: seq<Byte>, data: seq<Byte>): (r: seq<Byte>)
    requires |buf| == MAXBUF + 1 && |data| <= MAXBUF
    ensures |r| == MAXBUF + 1
  {
    data + [0] + buf[|data| + 1..]
  }

  // The slot after chunk "no" with this flag has arrived.
  function SlotAfter(slot: Slot, no: int, last: bool): Slot {
    if no == slot.chunkNo + 1 then Slot(last, slot.chunkNo + 1, slot.addr) else slot
  }

  // The table after a datagram with these header fields.
  function SlotsAfter(slots: seq<Slot>, addr: Addr, no: int, last: bool, result: SendResult): seq<Slot> {
    var (found, index) := Found(slots, addr);
    if index < 0 || no > found[index].chunkNo + 1 then found
    else
      var slot' := SlotAfter(found[index], no, last);
      found[index := if result == Sent then slot' else slot'.(free := true)]
  }

  datatype Turn = Turn(server: Server, printed: Option<Part>, echo: Option<seq<Byte>>)

  function Receive(srv: Server, addr: Addr, data: seq<Byte>, result: SendResult): Turn
    requires Shape(srv) && |data| <= MAXBUF
  {
    var buf := Filled(srv.buf, data);
    var (found, index) := Found(srv.slots, addr);
    var no, last := ChunkNo(buf), EndingFlag(buf);
    Turn(
      Server(SlotsAfter(srv.slots, addr, no, last, result), buf),
      if index >= 0 && no == found[index].chunkNo + 1 then Some(Part(no, last, Text(buf))) else None,
      if index >= 0 && no <= found[index].chunkNo + 1 && result == Sent then Some(buf[..MAXBUF]) else None)
  }

  // ----- the table as a partial map from addresses to chunk numbers

  ghost predicate Distinct(slots: seq<Slot>) {
    forall i, j :: 0 <= i < j < |slots| && !slots[i].free && !slots[j].free ==> slots[i].addr != slots[j].addr
  }

  // The chunk number of every address that holds a slot.
  function Table(slots: seq<Slot>): (t: map<Addr, int>)
    ensures forall a {:trigger a in t} :: a in t <==> SlotOf(slots, a) >= 0
    ensures forall a {:trigger t[a]} :: a in t ==> t[a] == slots[SlotOf(slots, a)].chunkNo
  {
    if |slots| == 0 then map[]
    else
      var t, last := Table(slots[..|slots| - 1]), slots[|slots| - 1];
      if last.free || last.addr in t then t else t[last.addr := last.chunkNo]
  }

  // The same turn on a map with room for this many entries.
  function TableAfter(
      t: map<Addr, int>, capacity: nat, addr: Addr, no: int, last: bool, result: SendResult): map<Addr, int> {
    if addr !in t && |t| >= capacity then t
    else
      var c := if addr in t then t[addr] else 0;
      if no > c + 1 then t[addr := c]
      else if result == BrokenPipe || (no == c + 1 && last) then t - {addr}
      else t[addr := if no == c + 1 then c + 1 else c]
  }

  // A distinct table has room in its map exactly when it has a free slot.
  lemma {:induction false} RoomIffFree(slots: seq<Slot>)
    requires Distinct(slots)
    ensures |Table(slots)| <= |slots|
    ensures |Table(slots)| == |slots| <==> LastFree(slots) == -1
  {
    if |slots| > 0 {
      var front, last := slots[..|slots| - 1], slots[|slots| - 1];
      RoomIffFree(front);
      if !last.free {
        assert SlotOf(front, last.addr) == -1;
      }
    }
  }

  // Where a holder sits.
  lemma HolderSlot(slots: seq<Slot>, i: nat, a: Addr)
    requires Distinct(slots) && i < |slots| && HeldBy(slots[i], a)
    ensures SlotOf(slots, a) == i
  {
  }

  // Slot i is free and addr holds nothing, or addr holds slot i.
  predicate MayWrite(slots: seq<Slot>, i: nat, addr: Addr) {
    i < |slots| && SlotOf(slots, addr) == if slots[i].free then -1 else i
  }

  // Writing a slot that is one's own, or free, moves nobody else.
  lemma SlotWritten(slots: seq<Slot>, i: nat, slot: Slot, a: Addr)
    requires Distinct(slots) && MayWrite(slots, i, slot.addr)
    ensures Distinct(slots[i := slot])
    ensures SlotOf(slots[i := slot], a) == if a != slot.addr then SlotOf(slots, a) else if slot.free then -1 else i
  {
    var slots' := slots[i := slot];
    var k := SlotOf(slots, a);
    if a != slot.addr && k >= 0 {
      HolderSlot(slots', k, a);
    } else if a == slot.addr && !slot.free {
      HolderSlot(slots', i, a);
    }
  }

  // A map that differs from t at one address only.
  lemma Updated(t: map<Addr, int>, t': map<Addr, int>, addr: Addr, removed: bool, value: int)
    requires forall a :: a in t' <==> if a == addr then !removed else a in t
    requires forall a :: a in t' ==> t'[a] == if a == addr then value else t[a]
    ensures t' == if removed then t - {addr} else t[addr := value]
  {
  }

  lemma TableWritten(slots: seq<Slot>, i: nat, slot: Slot)
    requires Distinct(slots) && MayWrite(slots, i, slot.addr)
    ensures Distinct(slots[i := slot])
    ensures Table(slots[i := slot]) ==
      if slot.free then Table(slots) - {slot.addr} else Table(slots)[slot.addr := slot.chunkNo]
  {
    SlotWritten(slots, i, slot, slot.addr);
    var t, t' := Table(slots), Table(slots[i := slot]);
    forall a
      ensures a in t' <==> if a == slot.addr then !slot.free else a in t
      ensures a in t' ==> t'[a] == if a == slot.addr then slot.chunkNo else t[a]
    {
      EntryWritten(slots, i, slot, a);
    }
    Updated(t, t', slot.addr, slot.free, slot.chunkNo);
  }

  lemma EntryWritten(slots: seq<Slot>, i: nat, slot: Slot, a: Addr)
    requires Distinct(slots) && MayWrite(slots, i, slot.addr)
    ensures var t, t' := Table(slots), Table(slots[i := slot]);
      && (a in t' <==> if a == slot.addr then !slot.free else a in t)
      && (a in t' ==> t'[a] == if a == slot.addr then slot.chunkNo else t[a])
  {
    SlotWritten(slots, i, slot, a);
  }

  // findIndex on the map: a known address keeps its entry, a newcomer gets one with
  // chunk number 0 if there is room.
  lemma FoundInTable(slots: seq<Slot>, addr: Addr)
    requires Distinct(slots)
    ensures var (found, index) := Found(slots, addr);
      && Distinct(found)
      && (index < 0 <==> addr !in Table(slots) && |Table(slots)| >= |slots|)
      && (index < 0 ==> found == slots)
      && (index >= 0 ==>
            && MayWrite(found, index, addr)
            && found[index].chunkNo == (if addr in Table(slots) then Table(slots)[addr] else 0)
            && Table(found) == Table(slots)[addr := found[index].chunkNo])
  {
    RoomIffFree(slots);
    if SlotOf(slots, addr) >= 0 {
      KnownInTable(slots, addr);
    } else if LastFree(slots) != -1 {
      NewcomerInTable(slots, LastFree(slots), addr);
    }
  }

  lemma KnownInTable(slots: seq<Slot>, addr: Addr)
    requires Distinct(slots) && SlotOf(slots, addr) >= 0
    ensures var i, t := SlotOf(slots, addr), Table(slots);
      MayWrite(slots, i, addr) && addr in t && t[addr] == slots[i].chunkNo && t[addr := slots[i].chunkNo] == t
  {
    var i, t := SlotOf(slots, addr), Table(slots);
    assert addr in t && t[addr] == slots[i].chunkNo;
  }

  lemma NewcomerInTable(slots: seq<Slot>, empty: nat, addr: Addr)
    requires Distinct(slots) && SlotOf(slots, addr) == -1 && empty < |slots| && slots[empty].free
    ensures var found := slots[empty := Slot(false, 0, addr)];
      Distinct(found) && MayWrite(found, empty, addr) && Table(found) == Table(slots)[addr := 0]
  {
    TableWritten(slots, empty, Slot(false, 0, addr));
    SlotWritten(slots, empty, Slot(false, 0, addr), addr);
  }

  lemma SlotTurn(t: map<Addr, int>, found: seq<Slot>, index: nat, no: int, last: bool, result: SendResult)
    requires Distinct(found) && index < |found| && MayWrite(found, index, found[index].addr) && !found[index].free
    requires Table(found) == t[found[index].addr := found[index].chunkNo]
    requires no <= found[index].chunkNo + 1
    ensures var slot' := SlotAfter(found[index], no, last);
      var slots' := found[index := if result == Sent then slot' else slot'.(free := true)];
      var addr, c := found[index].addr, found[index].chunkNo;
      && Distinct(slots')
      && Table(slots') == if result == BrokenPipe || (no == c + 1 && last) then t - {addr}
                          else t[addr := if no == c + 1 then c + 1 else c]
  {
    var slot' := SlotAfter(found[index], no, last);
    var written := if result == Sent then slot' else slot'.(free := true);
    TableWritten(found, index, written);
    Overwrite(t, written.addr, found[index].chunkNo, written.chunkNo);
  }

  // The server's handling of a datagram refines the map.
  lemma SlotsRefineTable(slots: seq<Slot>, addr: Addr, no: int, last: bool, result: SendResult)
    requires Distinct(slots)
    ensures Distinct(SlotsAfter(slots, addr, no, last, result))
    ensures Table(SlotsAfter(slots, addr, no, last, result)) ==
      TableAfter(Table(slots), |slots|, addr, no, last, result)
  {
    var t, r := Table(slots), Found(slots, addr);
    FoundInTable(slots, addr);
    if r.1 < 0 {
    } else if no > r.0[r.1].chunkNo + 1 {
    } else {
      SlotTurn(t, r.0, r.1, no, last, result);
    }
  }

  // It never has more entries than there are slots.
  lemma TableFits(slots: seq<Slot>, addr: Addr, no: int, last: bool, result: SendResult)
    requires Distinct(slots)
    ensures |TableAfter(Table(slots), |slots|, addr, no, last, result)| <= |slots|
  {
    SlotsRefineTable(slots, addr, no, last, result);
    RoomIffFree(SlotsAfter(slots, addr, no, last, result));
  }

  lemma Overwrite(t: map<Addr, int>, addr: Addr, c: int, c': int)
    ensures t[addr := c] - {addr} == t - {addr}
    ensures t[addr := c][addr := c'] == t[addr := c']
  {
  }

  // A chunk is printed exactly when it is the next one of a session that has, or
  // can get, a slot; a datagram is echoed when it is that one or an earlier one.
  lemma PrintsAndEchoes(srv: Server, addr: Addr, data: seq<Byte>, result: SendResult)
    requires Shape(srv) && Distinct(srv.slots) && |data| <= MAXBUF
    ensures var no := ChunkNo(Filled(srv.buf, data));
      var t, turn := Table(srv.slots), Receive(srv, addr, data, result);
      var c := if addr in t then t[addr] else 0;
      var served := addr in t || |t| < 5;
      && (turn.printed != None <==> served && no == c + 1)
      && (turn.echo != None <==> served && no <= c + 1 && result == Sent)
  {
    FoundInTable(srv.slots, addr);
  }

  // A datagram from one address leaves the entries of all the others alone.
  lemma OthersUntouched(slots: seq<Slot>, addr: Addr, no: int, last: bool, result: SendResult, other: Addr)
    requires Distinct(slots) && other != addr
    ensures var t, t' := Table(slots), Table(SlotsAfter(slots, addr, no, last, result));
      && (other in t' <==> other in t)
      && (other in t ==> t'[other] == t[other])
  {
    SlotsRefineTable(slots, addr, no, last, result);
    OtherEntry(Table(slots), |slots|, addr, no, last, result, other);
  }

  lemma OtherEntry(
      t: map<Addr, int>, capacity: nat, addr: Addr, no: int, last: bool, result: SendResult, other: Addr)
    requires other != addr
    ensures var t' := TableAfter(t, capacity, addr, no, last, result);
      && (other in t' <==> other in t)
      && (other in t ==> t'[other] == t[other])
  {
  }

  // ----- the server itself, its table and buffer updated in place

  class TransferServer {
    const clients: array<Slot>
    const buf: array<Byte>

    ghost predicate Valid()
      reads this
    {
      clients.Length == MAXCLIENTS && buf.Length == MAXBUF + 1
    }

    ghost function View(): Server
      reads this, clients, buf
    {
      Server(clients[..], buf[..])
    }

    constructor ()
      ensures Valid() && fresh(clients) && fresh(buf)
      ensures Shape(View()) && Distinct(View().slots) && Table(View().slots) == map[]
    {
      clients := new Slot[MAXCLIENTS](i => Slot(true, 0, 0));
      buf := new Byte[MAXBUF + 1](i => 0);
    }

    method FindIndex(clientAddr: Addr) returns (pos: int)
      requires Valid()
      modifies clients
      ensures (clients[..], pos) == Found(old(clients[..]), clientAddr)
    {
      var empty := -1;
      pos := -1;
      var i := 0;
      while i < MAXCLIENTS && pos == -1
        invariant 0 <= i <= MAXCLIENTS && -1 <= pos < i + 1 && -1 <= empty < i
        invariant clients[..] == old(clients[..])
        invariant pos == -1 ==> forall k :: 0 <= k < i ==> !HeldBy(clients[k], clientAddr)
        invariant pos >= 0 ==> pos == i < MAXCLIENTS && HeldBy(clients[pos], clientAddr)
        invariant pos >= 0 ==> forall k :: 0 <= k < pos ==> !HeldBy(clients[k], clientAddr)
        invariant empty >= 0 ==> clients[empty].free
        invariant forall k :: empty < k < i ==> !clients[k].free
        decreases MAXCLIENTS - i, pos == -1
      {
        if clients[i].free {
          empty := i;   // in case this is a new client
          i := i + 1;
        } else if clients[i].addr == clientAddr {
          pos := i;     // the client is known
        } else {
          i := i + 1;
        }
      }
      assert pos == SlotOf(clients[..], clientAddr);
      assert pos == -1 ==> empty == LastFree(clients[..]);
      if pos == -1 && empty != -1 {
        clients[empty] := Slot(false, 0, clientAddr);
        pos := empty;
      }
    }

    // recvfrom into the buffer, and the terminator behind the received bytes.
    method Fill(data: seq<Byte>)
      requires Valid() && |data| <= MAXBUF
      modifies buf
      ensures buf[..] == Filled(old(buf[..]), data)
    {
      for i := 0 to |data|
        invariant buf[..i] == data[..i]
        invariant forall k :: i <= k < buf.Length ==> buf[k] == old(buf[k])
      {
        buf[i] := data[i];
        assert buf[..i + 1] == buf[..i] + [data[i]];
      }
      buf[|data|] := 0;
      assert buf[..] == buf[..|data|] + [0] + buf[|data| + 1..];
    }

    // A chunk that is not ahead of the session: the next one is printed.
    method PrintChunk(index: nat, chunkNo: int) returns (printed: Option<Part>)
      requires Valid() && index < MAXCLIENTS && !clients[index].free && chunkNo <= clients[index].chunkNo + 1
      modifies clients
      ensures clients[..] ==
        old(clients[..])[index := SlotAfter(old(clients[index]), chunkNo, EndingFlag(buf[..]))]
      ensures printed ==
        if chunkNo == old(clients[index].chunkNo) + 1 then Some(Part(chunkNo, EndingFlag(buf[..]), Text(buf[..])))
        else None
    {
      printed := None;
      if chunkNo == clients[index].chunkNo + 1 {
        assert buf[..][4..8] == buf[4..8] && buf[..][HEADER..] == buf[HEADER..];
        var endingFlag := DecodeInt(buf[4..8]);
        printed := Some(Part(chunkNo, endingFlag != 0, CString(buf[HEADER..])));
        if endingFlag != 0 {
          clients[index] := clients[index].(free := true);
        }
        clients[index] := clients[index].(chunkNo := clients[index].chunkNo + 1);
      }
      assert clients[..] == old(clients[..])[index := clients[index]];
    }

    // One turn of the loop in server_work.
    method ServeOne(clientAddr: Addr, data: seq<Byte>, result: SendResult)
      returns (printed: Option<Part>, echo: Option<seq<Byte>>)
      requires Valid() && |data| <= MAXBUF
      modifies clients, buf
      ensures Turn(View(), printed, echo) == Receive(old(View()), clientAddr, data, result)
    {
      printed, echo := None, None;
      Fill(data);
      var index := FindIndex(clientAddr);
      if index >= 0 {
        var chunkNo := DecodeInt(buf[..4]);
        assert buf[..][..4] == buf[..4];
        if chunkNo > clients[index].chunkNo + 1 {
          return;
        }
        printed := PrintChunk(index, chunkNo);
        if result == Sent {
          echo := Some(buf[..MAXBUF]);
        } else {
          clients[index] := clients[index].(free := true);
        }
      }
    }
  }
}
