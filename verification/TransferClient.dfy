// The clients of the file transfer: client_work of lab_8/zadanie_1/client.c,
// which reads the file with single read calls, and doClient of l7-2_client.c,
// which reads it with bulk_read.  Replies and the sizes of short reads are
// arbitrary.
module TransferClient {
  import opened Wire

  // What recv brings before the alarm.
  datatype Reply = Arrived(bytes: seq<Byte>) | Timeout

  datatype Phase = Sending | Listening | Finished | GaveUp

  // "no" is chunkNo, "counter" the number of times the chunk has been sent.
  datatype Client = Client(no: nat, counter: nat, recvBuf: seq<Byte>, phase: Phase)

  const ATTEMPTS := 6   // the loop goes round while counter <= 5

  // About to send chunk no for the first time: recv_buf has been cleared.
  function Fresh(no: nat): Client {
    Client(no, 0, Zeros(MAXBUF), Sending)
  }

  function AfterSend(c: Client): Client {
    c.(counter := c.counter + 1, phase := Listening)
  }

  // recv writes over the beginning of the buffer; a longer datagram is cut off.
  function Overlay(buf: seq<Byte>, data: seq<Byte>): (r: seq<Byte>)
    ensures |r| == |buf| && forall i :: 0 <= i < |r| ==> r[i] == if i < |data| then data[i] else buf[i]
  {
    if |data| >= |buf| then data[..|buf|] else data + buf[|data|..]
  }

  predicate Acknowledges(recvBuf: seq<Byte>, no: nat) {
    |recvBuf| == MAXBUF && IsInt32(no) && recvBuf[..4] == EncodeInt(no)
  }

  // The end of one attempt at a chunk of a file of n chunks.
  function AfterReply(c: Client, n: nat, reply: Reply): Client {
    var buf := Heard(c.recvBuf, reply);
    if !Acknowledges(buf, c.no) then
      Client(c.no, c.counter, buf, if c.counter < ATTEMPTS then Sending else GaveUp)
    else if c.no < n then Fresh(c.no + 1)
    else Client(c.no, c.counter, buf, Finished)
  }

  // ----- one run of a client against any replies

  function Heard(buf: seq<Byte>, reply: Reply): (r: seq<Byte>)
    ensures |r| == |buf|
  {
    if reply.Arrived? then Overlay(buf, reply.bytes) else buf
  }

  // recv_buf after i attempts at a chunk, when k replies have been used before it.
  function RecvBuf(replies: nat -> Reply, k: nat, i: nat): (r: seq<Byte>)
    ensures |r| == MAXBUF
  {
    if i == 0 then Zeros(MAXBUF) else Heard(RecvBuf(replies, k, i - 1), replies(k + i - 1))
  }

  // Attempt number i at chunk no is acknowledged.
  predicate Acknowledged(no: nat, replies: nat -> Reply, k: nat, i: nat) {
    Acknowledges(RecvBuf(replies, k, i), no)
  }

  // The first acknowledged attempt from attempt i on, or the last one allowed.
  function Attempts(no: nat, replies: nat -> Reply, k: nat, i: nat): (m: nat)
    requires 1 <= i <= ATTEMPTS
    ensures i <= m <= ATTEMPTS
    ensures m < ATTEMPTS ==> Acknowledged(no, replies, k, m)
    ensures forall j :: i <= j < m ==> !Acknowledged(no, replies, k, j)
    decreases ATTEMPTS - i
  {
    if i == ATTEMPTS || Acknowledged(no, replies, k, i) then i else Attempts(no, replies, k, i + 1)
  }

  // The client after i attempts at chunk no of n.
  function ClientAfter(no: nat, n: nat, replies: nat -> Reply, k: nat, i: nat): Client {
    if i == 0 then Fresh(no) else AfterReply(AfterSend(ClientAfter(no, n, replies, k, i - 1)), n, replies(k + i - 1))
  }

  // One attempt of the step-by-step client.
  lemma OneAttempt(no: nat, n: nat, i: nat, buf: seq<Byte>, reply: Reply)
    requires i > 0
    ensures var c, heard := AfterReply(AfterSend(Client(no, i - 1, buf, Sending)), n, reply), Heard(buf, reply);
      if Acknowledges(heard, no) then (if no < n then c == Fresh(no + 1) else c.phase == Finished)
      else c == Client(no, i, heard, if i < ATTEMPTS then Sending else GaveUp)
  {
  }

  // It stays at the chunk until attempt m, if no attempt before m is acknowledged.
  lemma {:induction false} StaysAtChunk(no: nat, n: nat, replies: nat -> Reply, k: nat, i: nat, m: nat)
    requires i < m <= ATTEMPTS && forall j :: 1 <= j < m ==> !Acknowledged(no, replies, k, j)
    ensures ClientAfter(no, n, replies, k, i) == Client(no, i, RecvBuf(replies, k, i), Sending)
    decreases i
  {
    if i > 0 {
      StaysAtChunk(no, n, replies, k, i - 1, m);
      OneAttempt(no, n, i, RecvBuf(replies, k, i - 1), replies(k + i - 1));
      assert !Acknowledged(no, replies, k, i);
    }
  }

  // Attempts is what the step-by-step client does: it stays at the chunk until
  // attempt m, and then moves on, finishes or gives up.
  lemma {:induction false} StepsFollowAttempts(no: nat, n: nat, replies: nat -> Reply, k: nat, i: nat)
    requires i <= Attempts(no, replies, k, 1)
    ensures var m, c := Attempts(no, replies, k, 1), ClientAfter(no, n, replies, k, i);
      if i < m then c == Client(no, i, RecvBuf(replies, k, i), Sending)
      else if !Acknowledged(no, replies, k, m) then c.phase == GaveUp
      else if no < n then c == Fresh(no + 1)
      else c.phase == Finished
  {
    var m := Attempts(no, replies, k, 1);
    if i < m {
      StaysAtChunk(no, n, replies, k, i, m);
    } else {
      StaysAtChunk(no, n, replies, k, m - 1, m);
      LastAttempt(no, n, replies, k, m);
    }
  }

  lemma LastAttempt(no: nat, n: nat, replies: nat -> Reply, k: nat, m: nat)
    requires 0 < m <= ATTEMPTS && (m < ATTEMPTS ==> Acknowledged(no, replies, k, m))
    requires ClientAfter(no, n, replies, k, m - 1) == Client(no, m - 1, RecvBuf(replies, k, m - 1), Sending)
    ensures var c := ClientAfter(no, n, replies, k, m);
      if !Acknowledged(no, replies, k, m) then c.phase == GaveUp
      else if no < n then c == Fresh(no + 1)
      else c.phase == Finished
  {
    OneAttempt(no, n, m, RecvBuf(replies, k, m - 1), replies(k + m - 1));
  }

  function Repeat(packet: seq<Byte>, m: nat): (r: seq<seq<Byte>>)
    ensures |r| == m && forall i :: 0 <= i < m ==> r[i] == packet
  {
    seq(m, i => packet)
  }

  // For chunk no, when k replies have been used before: how often it is sent, and
  // whether it is acknowledged in the end.
  type Outcomes = (nat, nat) -> (nat, bool)

  function OutcomesOf(replies: nat -> Reply): Outcomes {
    (no: nat, k: nat) =>
      var m := Attempts(no, replies, k, 1);
      (m, Acknowledged(no, replies, k, m))
  }

  // Everything a client sends from chunk "no" on, and whether it finishes.
  function Transmission(packets: seq<seq<Byte>>, no: nat, outcomes: Outcomes, k: nat): (r: (seq<seq<Byte>>, bool))
    requires 1 <= no <= |packets|
    decreases |packets| - no
  {
    var (m, acknowledged) := outcomes(no, k);
    var here := Repeat(packets[no - 1], m);
    if acknowledged && no < |packets| then
      var (rest, finished) := Transmission(packets, no + 1, outcomes, k + m);
      (here + rest, finished)
    else (here, acknowledged)
  }

  // Six sends for each chunk at most, and at least one for each if it finishes.
  lemma {:induction false} TransmissionBounds(packets: seq<seq<Byte>>, no: nat, outcomes: Outcomes, k: nat)
    requires 1 <= no <= |packets|
    requires forall i: nat, j: nat :: 1 <= outcomes(i, j).0 <= ATTEMPTS
    ensures var (sent, finished) := Transmission(packets, no, outcomes, k);
      && |sent| <= ATTEMPTS * (|packets| - no + 1)
      && (finished ==> |packets| - no + 1 <= |sent|)
    decreases |packets| - no
  {
    var (m, acknowledged) := outcomes(no, k);
    if acknowledged && no < |packets| {
      TransmissionBounds(packets, no + 1, outcomes, k + m);
    }
  }

  // Everything sent for a whole file cut into full chunks, and whether the client finishes.
  ghost function WholeFile(data: seq<Byte>, outcomes: Outcomes): (all: (seq<seq<Byte>>, bool))
    requires IsInt32(|data| / CHUNK + 1)
  {
    Transmission(Packets(Chunks(data)), 1, outcomes, 0)
  }

  // With replies that never come, the first chunk is sent six times and that is all.
  lemma SilenceGivesUp(packets: seq<seq<Byte>>, replies: nat -> Reply, k: nat)
    requires |packets| > 0 && forall i: nat :: replies(i) == Timeout
    ensures Transmission(packets, 1, OutcomesOf(replies), k) == (Repeat(packets[0], 6), false)
    ensures |Transmission(packets, 1, OutcomesOf(replies), k).0| == 6
  {
    ZeroAcknowledgesNothing(1);
    SilentBuf(replies, k, Attempts(1, replies, k, 1));
  }

  // Five attempts in vain leave a sixth: if it is acknowledged, the client goes on to
  // the next chunk or finishes, and if not it gives up.
  lemma SixthAttemptDecides(no: nat, n: nat, replies: nat -> Reply, k: nat)
    requires forall i :: 1 <= i <= 5 ==> !Acknowledged(no, replies, k, i)
    ensures OutcomesOf(replies)(no, k) == (6, Acknowledged(no, replies, k, 6))
    ensures var c := ClientAfter(no, n, replies, k, 6);
      if !Acknowledged(no, replies, k, 6) then c.phase == GaveUp
      else if no < n then c == Fresh(no + 1)
      else c.phase == Finished
    ensures forall i: nat :: i < 6 ==> ClientAfter(no, n, replies, k, i).phase == Sending
  {
    StepsFollowAttempts(no, n, replies, k, 6);
    forall i: nat | i < 6 ensures ClientAfter(no, n, replies, k, i).phase == Sending {
      StepsFollowAttempts(no, n, replies, k, i);
    }
  }

  lemma {:induction false} SilentBuf(replies: nat -> Reply, k: nat, i: nat)
    requires forall j: nat :: replies(j) == Timeout
    ensures RecvBuf(replies, k, i) == Zeros(MAXBUF)
  {
    if i > 0 {
      SilentBuf(replies, k, i - 1);
    }
  }

  lemma ZeroAcknowledgesNothing(no: nat)
    requires no > 0
    ensures !Acknowledges(Zeros(MAXBUF), no)
  {
    if IsInt32(no) {
      DecodeEncode(no);
      DecodeEncode(0);
      assert EncodeInt(0) == Zeros(MAXBUF)[..4];
    }
  }

  // ----- reading the file

  // How much one read call returns: nothing at the end, otherwise at least one byte
  // and at most what is asked for and there.
  function Granted(offer: nat, count: nat, rest: nat): (n: nat)
    ensures n <= count && n <= rest
    ensures n == 0 <==> count == 0 || rest == 0
  {
    var most := if count < rest then count else rest;
    if most == 0 then 0 else if offer < 1 then 1 else if offer > most then most else offer
  }

  // The pieces that single read calls cut a file into; a short one ends the transfer.
  function Pieces(data: seq<Byte>, kernel: nat -> nat, call: nat): (pieces: seq<seq<Byte>>)
    ensures 1 <= |pieces| <= |data| / CHUNK + 1
    ensures forall i :: 0 <= i < |pieces| - 1 ==> |pieces[i]| == CHUNK
    ensures |pieces[|pieces| - 1]| < CHUNK
    ensures Join(pieces) <= data
    decreases |data|
  {
    var n := Granted(kernel(call), CHUNK, |data|);
    if n < CHUNK then
      assert Join([data[..n]]) == data[..n] + Join([]) by { assert [data[..n]][1..] == []; }
      [data[..n]]
    else
      var rest := Pieces(data[CHUNK..], kernel, call + 1);
      assert ([data[..CHUNK]] + rest)[1..] == rest;
      assert data == data[..CHUNK] + data[CHUNK..];
      [data[..CHUNK]] + rest
  }

  // Every read call brings a full chunk, or everything up to the end of the file.
  predicate FullReads(data: seq<Byte>, kernel: nat -> nat, call: nat) {
    var n := Granted(kernel(call), CHUNK, |data|);
    if |data| < CHUNK then n == |data| else n == CHUNK && FullReads(data[CHUNK..], kernel, call + 1)
  }

  // client_work transmits the whole file if and only if no read call is short
  // before the end of the file; then its chunks are those of bulk_read.
  lemma {:induction false} SingleReadsSuffice(data: seq<Byte>, kernel: nat -> nat, call: nat)
    ensures Join(Pieces(data, kernel, call)) == data <==> FullReads(data, kernel, call)
    ensures FullReads(data, kernel, call) ==> Pieces(data, kernel, call) == Chunks(data)
    decreases |data|
  {
    var n := Granted(kernel(call), CHUNK, |data|);
    if n < CHUNK {
      JoinOne(data[..n]);
      assert data[..|data|] == data;
    } else {
      var rest := data[CHUNK..];
      SingleReadsSuffice(rest, kernel, call + 1);
      JoinMore(data[..CHUNK], Pieces(rest, kernel, call + 1));
      assert data == data[..CHUNK] + rest;
      SameTail(data[..CHUNK], Join(Pieces(rest, kernel, call + 1)), rest);
    }
  }

  lemma JoinOne(piece: seq<Byte>)
    ensures Join([piece]) == piece
  {
    assert [piece][1..] == [];
  }

  lemma JoinMore(piece: seq<Byte>, pieces: seq<seq<Byte>>)
    ensures Join([piece] + pieces) == piece + Join(pieces)
  {
    assert ([piece] + pieces)[1..] == pieces;
  }

  lemma SameTail(head: seq<Byte>, a: seq<Byte>, b: seq<Byte>)
    ensures head + a == head + b <==> a == b
  {
    assert (head + a)[|head|..] == a && (head + b)[|head|..] == b;
  }

  // The datagrams for these pieces.
  function Packets(pieces: seq<seq<Byte>>): (packets: seq<seq<Byte>>)
    requires IsInt32(|pieces|)
    requires forall i :: 0 <= i < |pieces| ==> |pieces[i]| <= CHUNK
    ensures |packets| == |pieces|
  {
    seq(|pieces|, i requires 0 <= i < |pieces| => Packet(i + 1, i + 1 == |pieces|, pieces[i]))
  }

  lemma PacketAt(pieces: seq<seq<Byte>>, no: nat)
    requires 1 <= no <= |pieces| && IsInt32(|pieces|)
    requires forall k :: 0 <= k < |pieces| ==> |pieces[k]| <= CHUNK
    ensures Packets(pieces)[no - 1] == Packet(no, no == |pieces|, pieces[no - 1])
  {
  }

  lemma PiecesBound(pieces: seq<seq<Byte>>, most: nat, replies: nat -> Reply)
    requires 0 < |pieces| <= most && IsInt32(|pieces|)
    requires forall i :: 0 <= i < |pieces| ==> |pieces[i]| <= CHUNK
    ensures |Transmission(Packets(pieces), 1, OutcomesOf(replies), 0).0| <= 6 * most
  {
    TransmissionBounds(Packets(pieces), 1, OutcomesOf(replies), 0);
  }

  // Whatever the replies and the sizes of the reads, a run of the client with single
  // reads sends at most 6 * (size / 568 + 1) datagrams.
  lemma SendsAreBounded(data: seq<Byte>, kernel: nat -> nat, replies: nat -> Reply)
    requires IsInt32(|data| / CHUNK + 1)
    ensures |PiecewiseFile(data, kernel, OutcomesOf(replies)).0| <= 6 * (|data| / CHUNK + 1)
  {
    PiecesBound(Pieces(data, kernel, 0), |data| / CHUNK + 1, replies);
  }

  // So does the client with bulk reads.
  lemma BulkSendsAreBounded(data: seq<Byte>, replies: nat -> Reply)
    requires IsInt32(|data| / CHUNK + 1)
    ensures |WholeFile(data, OutcomesOf(replies)).0| <= 6 * (|data| / CHUNK + 1)
  {
    PiecesBound(Chunks(data), |data| / CHUNK + 1, replies);
  }

  // ----- the clients themselves

  // An open file: read calls return what "kernel" grants, call by call.
  class InputFile {
    const data: seq<Byte>
    const kernel: nat -> nat
    var pos: nat
    var calls: nat

    ghost predicate Valid()
      reads this
    {
      pos <= |data|
    }

    // What has not been read yet.
    ghost function Rest(): seq<Byte>
      requires Valid()
      reads this
    {
      data[pos..]
    }

    constructor (data: seq<Byte>, kernel: nat -> nat)
      ensures Valid() && this.data == data && this.kernel == kernel && Rest() == data && calls == 0
    {
      this.data, this.kernel := data, kernel;
      pos, calls := 0, 0;
    }

    method Read(count: nat) returns (bytes: seq<Byte>)
      requires Valid()
      modifies this
      ensures Valid() && calls == old(calls) + 1
      ensures |bytes| == Granted(kernel(old(calls)), count, |old(Rest())|)
      ensures bytes == old(Rest())[..|bytes|] && Rest() == old(Rest())[|bytes|..]
    {
      var n := Granted(kernel(calls), count, |data| - pos);
      bytes := data[pos..pos + n];
      pos, calls := pos + n, calls + 1;
    }

    // bulk_read of l7_common.h: a full read out of any short reads.
    method BulkRead(count: nat) returns (bytes: seq<Byte>)
      requires Valid()
      modifies this
      ensures Valid()
      ensures |bytes| == if |old(Rest())| < count then |old(Rest())| else count
      ensures bytes == old(Rest())[..|bytes|] && Rest() == old(Rest())[|bytes|..]
    {
      bytes := [];
      var left: nat := count;
      var more := true;
      while more
        invariant Valid() && |bytes| + left == count
        invariant old(Rest()) == bytes + Rest()
        invariant !more ==> left == 0
        decreases more, left
      {
        ghost var before, unread := bytes, Rest();
        var c := Read(left);
        PartRead(old(Rest()), before, unread, c, Rest());
        if |c| == 0 {
          return;
        }
        bytes := bytes + c;
        left := left - |c|;
        more := left > 0;
      }
    }
  }

  // What has been read, and what is still unread, after one more read.
  lemma PartRead(all: seq<Byte>, bytes: seq<Byte>, unread: seq<Byte>, c: seq<Byte>, rest: seq<Byte>)
    requires all == bytes + unread && |c| <= |unread| && c == unread[..|c|] && rest == unread[|c|..]
    ensures all == (bytes + c) + rest
  {
  }

  // Attempt m is the first one acknowledged, or the last one allowed.
  ghost predicate StopsAt(no: nat, replies: nat -> Reply, k: nat, m: nat) {
    && 1 <= m <= ATTEMPTS && (m < ATTEMPTS ==> Acknowledged(no, replies, k, m))
    && forall j :: 1 <= j < m ==> !Acknowledged(no, replies, k, j)
  }

  // The retransmission loop for one chunk, when k replies have been used before.
  method Retransmit(packet: seq<Byte>, no: nat, replies: nat -> Reply, k: nat, ghost m: nat)
    returns (sent: seq<seq<Byte>>, acknowledged: bool)
    requires IsInt32(no) && StopsAt(no, replies, k, m)
    ensures sent == Repeat(packet, m) && (acknowledged <==> Acknowledged(no, replies, k, m))
  {
    var recvBuf := Zeros(MAXBUF);
    var counter: nat := 0;
    sent, acknowledged := [], false;
    var again := true;
    while again
      invariant counter <= m && recvBuf == RecvBuf(replies, k, counter)
      invariant |sent| == counter && forall i :: 0 <= i < counter ==> sent[i] == packet
      invariant again <==> counter < m
      invariant !again ==> (acknowledged <==> Acknowledged(no, replies, k, counter))
      decreases again, ATTEMPTS - counter
    {
      counter := counter + 1;
      sent := sent + [packet];
      recvBuf := Heard(recvBuf, replies(k + counter - 1));
      acknowledged := recvBuf[..4] == EncodeInt(no);
      again := !acknowledged && counter <= 5;
      assert acknowledged <==> Acknowledged(no, replies, k, counter);
    }
    assert sent == Repeat(packet, counter);
  }

  method SendAndWait(packet: seq<Byte>, no: nat, replies: nat -> Reply, k: nat)
    returns (sent: seq<seq<Byte>>, acknowledged: bool)
    requires IsInt32(no)
    ensures (sent, acknowledged) ==
      var (m, ok) := OutcomesOf(replies)(no, k);
      (Repeat(packet, m), ok)
  {
    sent, acknowledged := Retransmit(packet, no, replies, k, Attempts(no, replies, k, 1));
  }

  // The rest of the run, when "sent" has been sent and chunk no comes next.
  ghost predicate Continues(
      all: (seq<seq<Byte>>, bool), sent: seq<seq<Byte>>, packets: seq<seq<Byte>>, no: nat, outcomes: Outcomes)
  {
    && 1 <= no <= |packets|
    && var rest := Transmission(packets, no, outcomes, |sent|);
       all == (sent + rest.0, rest.1)
  }

  // What one round of the outer loop does to the rest of the run.
  lemma Continued(
      all: (seq<seq<Byte>>, bool), sent: seq<seq<Byte>>, packets: seq<seq<Byte>>, no: nat, outcomes: Outcomes)
    requires Continues(all, sent, packets, no, outcomes)
    ensures var (m, acknowledged) := outcomes(no, |sent|);
      var sent' := sent + Repeat(packets[no - 1], m);
      if acknowledged && no < |packets| then Continues(all, sent', packets, no + 1, outcomes)
      else all == (sent', acknowledged)
  {
    var (m, acknowledged) := outcomes(no, |sent|);
    if acknowledged && no < |packets| {
      var rest := Transmission(packets, no + 1, outcomes, |sent| + m);
      assert sent + (Repeat(packets[no - 1], m) + rest.0) == sent + Repeat(packets[no - 1], m) + rest.0;
    }
  }

  lemma StartsWhole(packets: seq<seq<Byte>>, outcomes: Outcomes, sent: seq<seq<Byte>>, no: nat)
    requires |packets| > 0 && sent == [] && no == 1
    ensures Continues(Transmission(packets, 1, outcomes, 0), sent, packets, no, outcomes)
  {
    var all := Transmission(packets, 1, outcomes, 0);
    assert sent + all.0 == all.0;
  }

  // What a full read has found when chunk "no" was next.
  lemma NextChunk(rest: seq<Byte>, chunks: seq<seq<Byte>>, no: nat, chunk: seq<Byte>, rest': seq<Byte>)
    requires 1 <= no <= |chunks| && Chunks(rest) == chunks[no - 1..]
    requires |chunk| == if |rest| < CHUNK then |rest| else CHUNK
    requires chunk == rest[..|chunk|] && rest' == rest[|chunk|..]
    ensures chunk == chunks[no - 1]
    ensures |chunk| < CHUNK <==> no == |chunks|
    ensures no < |chunks| ==> Chunks(rest') == chunks[no..]
  {
    assert chunks[no - 1..][0] == chunks[no - 1] && chunks[no - 1..][1..] == chunks[no..];
    if |rest| >= CHUNK {
      assert ([rest[..CHUNK]] + Chunks(rest[CHUNK..]))[1..] == Chunks(rest[CHUNK..]);
    }
  }

  // What a single read has found when piece "no" was next.
  lemma NextPiece(
      rest: seq<Byte>, kernel: nat -> nat, call: nat, pieces: seq<seq<Byte>>, no: nat,
      piece: seq<Byte>, rest': seq<Byte>)
    requires 1 <= no <= |pieces| && Pieces(rest, kernel, call) == pieces[no - 1..]
    requires |piece| == Granted(kernel(call), CHUNK, |rest|)
    requires piece == rest[..|piece|] && rest' == rest[|piece|..]
    ensures piece == pieces[no - 1]
    ensures |piece| < CHUNK <==> no == |pieces|
    ensures no < |pieces| ==> Pieces(rest', kernel, call + 1) == pieces[no..]
  {
    assert pieces[no - 1..][0] == pieces[no - 1] && pieces[no - 1..][1..] == pieces[no..];
    if |piece| == CHUNK {
      var tail := Pieces(rest[CHUNK..], kernel, call + 1);
      assert ([rest[..CHUNK]] + tail)[1..] == tail;
    }
  }

  // One round of the outer loop, once the packet is made up.
  method Round(
      packet: seq<Byte>, no: nat, replies: nat -> Reply, sent: seq<seq<Byte>>,
      ghost packets: seq<seq<Byte>>, ghost all: (seq<seq<Byte>>, bool))
    returns (sent': seq<seq<Byte>>, acknowledged: bool)
    requires IsInt32(no) && Continues(all, sent, packets, no, OutcomesOf(replies))
    requires packet == packets[no - 1]
    ensures if acknowledged && no < |packets|
            then Continues(all, sent', packets, no + 1, OutcomesOf(replies))
            else all == (sent', acknowledged)
  {
    Continued(all, sent, packets, no, OutcomesOf(replies));
    var attempts, ok := SendAndWait(packet, no, replies, |sent|);
    return sent + attempts, ok;
  }

  // client_work reads a piece with one read call.
  method ReadPiece(file: InputFile, no: nat, ghost pieces: seq<seq<Byte>>) returns (piece: seq<Byte>)
    requires file.Valid() && 1 <= no <= |pieces|
    requires Pieces(file.Rest(), file.kernel, file.calls) == pieces[no - 1..]
    modifies file
    ensures file.Valid() && piece == pieces[no - 1]
    ensures |piece| < CHUNK <==> no == |pieces|
    ensures no < |pieces| ==> Pieces(file.Rest(), file.kernel, file.calls) == pieces[no..]
  {
    ghost var rest, call := file.Rest(), file.calls;
    piece := file.Read(CHUNK);
    NextPiece(rest, file.kernel, call, pieces, no, piece, file.Rest());
  }

  // It makes up the packet around the piece.
  method NextPacket(file: InputFile, no: nat, ghost pieces: seq<seq<Byte>>) returns (packet: seq<Byte>, full: bool)
    requires file.Valid() && 1 <= no <= |pieces| && IsInt32(|pieces|)
    requires forall i :: 0 <= i < |pieces| ==> |pieces[i]| <= CHUNK
    requires Pieces(file.Rest(), file.kernel, file.calls) == pieces[no - 1..]
    modifies file
    ensures file.Valid() && packet == Packets(pieces)[no - 1]
    ensures full <==> no < |pieces|
    ensures full ==> Pieces(file.Rest(), file.kernel, file.calls) == pieces[no..]
  {
    PacketAt(pieces, no);
    var piece := ReadPiece(file, no, pieces);
    full := !(|piece| < CHUNK);
    packet := Packet(no, |piece| < CHUNK, piece);
  }

  // The file is read from piece "no" on, and "all" goes on with the pieces from there.
  ghost predicate PiecesAhead(
      rest: seq<Byte>, kernel: nat -> nat, call: nat, pieces: seq<seq<Byte>>, no: nat,
      all: (seq<seq<Byte>>, bool), sent: seq<seq<Byte>>, outcomes: Outcomes)
  {
    && 1 <= no <= |pieces| && IsInt32(|pieces|)
    && (forall i :: 0 <= i < |pieces| ==> |pieces[i]| <= CHUNK)
    && Pieces(rest, kernel, call) == pieces[no - 1..]
    && Continues(all, sent, Packets(pieces), no, outcomes)
  }

  // Everything sent for a file that single reads cut, and whether the client finishes.
  ghost function PiecewiseFile(data: seq<Byte>, kernel: nat -> nat, outcomes: Outcomes): (all: (seq<seq<Byte>>, bool))
    requires IsInt32(|data| / CHUNK + 1)
  {
    Transmission(Packets(Pieces(data, kernel, 0)), 1, outcomes, 0)
  }

  lemma FileAhead(
      rest: seq<Byte>, kernel: nat -> nat, call: nat, pieces: seq<seq<Byte>>, sent: seq<seq<Byte>>, no: nat,
      outcomes: Outcomes)
    requires pieces == Pieces(rest, kernel, call) && IsInt32(|pieces|) && sent == [] && no == 1
    requires 0 < |pieces| && forall i :: 0 <= i < |pieces| ==> |pieces[i]| <= CHUNK
    ensures PiecesAhead(
      rest, kernel, call, pieces, no, Transmission(Packets(pieces), 1, outcomes, 0), sent, outcomes)
  {
    assert pieces[0..] == pieces;
    StartsWhole(Packets(pieces), outcomes, sent, no);
  }

  // One round of the outer loop in client_work.
  method PieceRound(
      file: InputFile, no: nat, replies: nat -> Reply, sent: seq<seq<Byte>>,
      ghost pieces: seq<seq<Byte>>, ghost all: (seq<seq<Byte>>, bool))
    returns (sent': seq<seq<Byte>>, acknowledged: bool, full: bool)
    requires file.Valid()
    requires PiecesAhead(file.Rest(), file.kernel, file.calls, pieces, no, all, sent, OutcomesOf(replies))
    modifies file
    ensures file.Valid() && (full <==> no < |pieces|)
    ensures if acknowledged && full
            then PiecesAhead(file.Rest(), file.kernel, file.calls, pieces, no + 1, all, sent', OutcomesOf(replies))
            else all == (sent', acknowledged)
  {
    var packet;
    packet, full := NextPacket(file, no, pieces);
    sent', acknowledged := Round(packet, no, replies, sent, Packets(pieces), all);
  }

  // client_work: it sends exactly the datagrams for the pieces its reads bring, each
  // as often as the replies make it, and finishes if it did not give up.
  method ClientWork(file: InputFile, replies: nat -> Reply) returns (sent: seq<seq<Byte>>, finished: bool)
    requires file.Valid() && file.Rest() == file.data && file.calls == 0
    requires IsInt32(|file.data| / CHUNK + 1)
    modifies file
    ensures (sent, finished) == PiecewiseFile(file.data, file.kernel, OutcomesOf(replies))
  {
    ghost var pieces := Pieces(file.data, file.kernel, 0);
    ghost var all := PiecewiseFile(file.data, file.kernel, OutcomesOf(replies));
    var chunkNo: nat := 0;
    var more := true;
    sent, finished := [], true;
    FileAhead(file.data, file.kernel, 0, pieces, sent, chunkNo + 1, OutcomesOf(replies));
    while more
      invariant file.Valid() && finished
      invariant more ==> PiecesAhead(
          file.Rest(), file.kernel, file.calls, pieces, chunkNo + 1, all, sent, OutcomesOf(replies))
      invariant !more ==> all == (sent, true)
      decreases more, |pieces| - chunkNo
    {
      chunkNo := chunkNo + 1;
      sent, finished, more := PieceRound(file, chunkNo, replies, sent, pieces, all);
      if !finished {
        return;
      }
    }
  }

  // doClient reads a chunk with bulk_read and makes up the packet around it; "last"
  // is its sticky flag.
  method NextBulkPacket(file: InputFile, no: nat, ghost chunks: seq<seq<Byte>>) returns (packet: seq<Byte>, last: bool)
    requires file.Valid() && 1 <= no <= |chunks| && IsInt32(|chunks|)
    requires forall i :: 0 <= i < |chunks| ==> |chunks[i]| <= CHUNK
    requires Chunks(file.Rest()) == chunks[no - 1..]
    modifies file
    ensures file.Valid() && packet == Packets(chunks)[no - 1]
    ensures last <==> no == |chunks|
    ensures !last ==> Chunks(file.Rest()) == chunks[no..]
  {
    ghost var rest := file.Rest();
    PacketAt(chunks, no);
    var piece := file.BulkRead(CHUNK);
    NextChunk(rest, chunks, no, piece, file.Rest());
    last := |piece| < CHUNK;
    packet := Packet(no, last, piece);
  }

  // The file is cut in the chunks from "no" on, and "all" goes on with these.
  ghost predicate Ahead(
      rest: seq<Byte>, chunks: seq<seq<Byte>>, no: nat,
      all: (seq<seq<Byte>>, bool), sent: seq<seq<Byte>>, outcomes: Outcomes)
  {
    && 1 <= no <= |chunks| && IsInt32(|chunks|)
    && (forall i :: 0 <= i < |chunks| ==> |chunks[i]| <= CHUNK)
    && Chunks(rest) == chunks[no - 1..]
    && Continues(all, sent, Packets(chunks), no, outcomes)
  }

  lemma WholeFileAhead(data: seq<Byte>, sent: seq<seq<Byte>>, no: nat, outcomes: Outcomes)
    requires IsInt32(|data| / CHUNK + 1) && sent == [] && no == 1
    ensures Ahead(data, Chunks(data), no, WholeFile(data, outcomes), sent, outcomes)
  {
    assert Chunks(data)[0..] == Chunks(data);
    StartsWhole(Packets(Chunks(data)), outcomes, sent, no);
  }

  // One round of the outer loop in doClient.
  method BulkRound(
      file: InputFile, no: nat, replies: nat -> Reply, sent: seq<seq<Byte>>,
      ghost chunks: seq<seq<Byte>>, ghost all: (seq<seq<Byte>>, bool))
    returns (sent': seq<seq<Byte>>, acknowledged: bool, last: bool)
    requires file.Valid() && Ahead(file.Rest(), chunks, no, all, sent, OutcomesOf(replies))
    modifies file
    ensures file.Valid() && (last <==> no == |chunks|)
    ensures if acknowledged && !last
            then Ahead(file.Rest(), chunks, no + 1, all, sent', OutcomesOf(replies))
            else all == (sent', acknowledged)
  {
    var packet;
    packet, last := NextBulkPacket(file, no, chunks);
    sent', acknowledged := Round(packet, no, replies, sent, Packets(chunks), all);
  }

  // doClient: with bulk_read the same datagrams go out for every pattern of short
  // reads, those of the chunks of the file.
  method DoClient(file: InputFile, replies: nat -> Reply) returns (sent: seq<seq<Byte>>, finished: bool)
    requires file.Valid() && file.Rest() == file.data
    requires IsInt32(|file.data| / CHUNK + 1)
    modifies file
    ensures (sent, finished) == WholeFile(file.data, OutcomesOf(replies))
  {
    ghost var chunks, all := Chunks(file.data), WholeFile(file.data, OutcomesOf(replies));
    var chunkNo: nat := 0;
    var last := false;
    sent, finished := [], true;
    WholeFileAhead(file.data, sent, chunkNo + 1, OutcomesOf(replies));
    while !last
      invariant file.Valid() && finished
      invariant !last ==> Ahead(file.Rest(), chunks, chunkNo + 1, all, sent, OutcomesOf(replies))
      invariant last ==> all == (sent, true)
      decreases !last, |chunks| - chunkNo
    {
      chunkNo := chunkNo + 1;
      sent, finished, last := BulkRound(file, chunkNo, replies, sent, chunks, all);
      if !finished {
        return;
      }
    }
  }
}
