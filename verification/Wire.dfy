// Datagrams and text of the file transfer in lab_8/zadanie_1: 576 bytes, of
// which the first eight are a chunk number and a last-chunk flag in network
// byte order and the rest is file data padded with zeros.
module Wire {

  type Byte = b: int | 0 <= b < 256

  const MAXBUF := 576
  const HEADER := 8      // 2 * sizeof(int32_t)
  const CHUNK := 568     // MAXBUF - HEADER

  // ----- htonl and ntohl on int32_t

  predicate IsInt32(n: int) {
    -0x8000_0000 <= n < 0x8000_0000
  }

  // The n low bytes of u, most significant first.
  function Digits(u: nat, n: nat): (bytes: seq<Byte>)
    ensures |bytes| == n
  {
    if n == 0 then [] else Digits(u / 256, n - 1) + [u % 256]
  }

  function Value(bytes: seq<Byte>): nat {
    if bytes == [] then 0 else Value(bytes[..|bytes| - 1]) * 256 + bytes[|bytes| - 1]
  }

  function Power256(n: nat): nat {
    if n == 0 then 1 else 256 * Power256(n - 1)
  }

  lemma {:induction false} ValueDigits(u: nat, n: nat)
    requires u < Power256(n)
    ensures Value(Digits(u, n)) == u
  {
    if n > 0 {
      ValueDigits(u / 256, n - 1);
      assert Digits(u, n)[..n - 1] == Digits(u / 256, n - 1);
    }
  }

  lemma {:induction false} DigitsValue(bytes: seq<Byte>)
    ensures Digits(Value(bytes), |bytes|) == bytes
    ensures Value(bytes) < Power256(|bytes|)
  {
    if bytes != [] {
      var front, last := bytes[..|bytes| - 1], bytes[|bytes| - 1];
      DigitsValue(front);
      assert Value(bytes) / 256 == Value(front) && Value(bytes) % 256 == last;
    }
  }

  lemma FourBytes()
    ensures Power256(4) == 0x1_0000_0000
  {
    assert Power256(1) == 256;
    assert Power256(2) == 0x1_0000;
    assert Power256(3) == 0x100_0000;
  }

  // htonl
  function EncodeInt(n: int): (bytes: seq<Byte>)
    requires IsInt32(n)
    ensures |bytes| == 4
  {
    Digits(if n < 0 then n + 0x1_0000_0000 else n, 4)
  }

  // ntohl
  function DecodeInt(bytes: seq<Byte>): (n: int)
    requires |bytes| == 4
    ensures IsInt32(n)
  {
    DigitsValue(bytes);
    FourBytes();
    var u := Value(bytes);
    if u >= 0x8000_0000 then u - 0x1_0000_0000 else u
  }

  // The four bytes on the wire: two's complement, the most significant byte first.
  lemma NetworkByteOrder(n: int)
    requires IsInt32(n)
    ensures var u := if n < 0 then n + 0x1_0000_0000 else n;
      EncodeInt(n) == [u / 0x100_0000, u / 0x1_0000 % 256, u / 0x100 % 256, u % 256]
  {
    var u: nat := if n < 0 then n + 0x1_0000_0000 else n;
    assert Digits(u / 0x100_0000, 1) == [u / 0x100_0000] by { assert Digits(0, 0) == []; }
    assert Digits(u / 0x1_0000, 2) == Digits(u / 0x100_0000, 1) + [u / 0x1_0000 % 256];
    assert Digits(u / 0x100, 3) == Digits(u / 0x1_0000, 2) + [u / 0x100 % 256];
  }

  lemma DecodeEncode(n: int)
    requires IsInt32(n)
    ensures DecodeInt(EncodeInt(n)) == n
  {
    FourBytes();
    ValueDigits(if n < 0 then n + 0x1_0000_0000 else n, 4);
  }

  lemma EncodeDecode(bytes: seq<Byte>)
    requires |bytes| == 4
    ensures EncodeInt(DecodeInt(bytes)) == bytes
  {
    DigitsValue(bytes);
    FourBytes();
  }

  // ----- datagrams

  function Zeros(n: nat): (z: seq<Byte>)
    ensures |z| == n && forall i :: 0 <= i < n ==> z[i] == 0
  {
    seq(n, i => 0)
  }

  // The datagram that carries one piece of a file.
  function Packet(no: int, last: bool, piece: seq<Byte>): (p: seq<Byte>)
    requires IsInt32(no) && |piece| <= CHUNK
    ensures |p| == MAXBUF
  {
    EncodeInt(no) + EncodeInt(if last then 1 else 0) + piece + Zeros(CHUNK - |piece|)
  }

  function ChunkNo(buf: seq<Byte>): int
    requires |buf| >= HEADER
  {
    DecodeInt(buf[..4])
  }

  function EndingFlag(buf: seq<Byte>): bool
    requires |buf| >= HEADER
  {
    DecodeInt(buf[4..8]) != 0
  }

  // What printf("%s") prints from these bytes: everything before the first NUL.
  function CString(bytes: seq<Byte>): (text: seq<Byte>)
    ensures text <= bytes && 0 !in text
    ensures |text| < |bytes| ==> bytes[|text|] == 0
  {
    if bytes == [] || bytes[0] == 0 then [] else [bytes[0]] + CString(bytes[1..])
  }

  // The text behind the header of a terminated buffer.
  function Text(buf: seq<Byte>): seq<Byte>
    requires |buf| >= HEADER
  {
    CString(buf[HEADER..])
  }

  // The first NUL is where the text ends.
  lemma {:induction false} CStringUnique(bytes: seq<Byte>, n: nat)
    requires n <= |bytes| && 0 !in bytes[..n] && (n < |bytes| ==> bytes[n] == 0)
    ensures CString(bytes) == bytes[..n]
  {
    if n == 0 {
    } else {
      assert bytes[0] == bytes[..n][0];
      assert bytes[1..][..n - 1] == bytes[..n][1..];
      CStringUnique(bytes[1..], n - 1);
      assert bytes[..n] == [bytes[0]] + bytes[1..][..n - 1];
    }
  }

  // A datagram read back: its number, its flag, and its piece up to the first NUL.
  lemma PacketFields(no: int, last: bool, piece: seq<Byte>)
    requires IsInt32(no) && |piece| <= CHUNK
    ensures ChunkNo(Packet(no, last, piece)) == no
    ensures EndingFlag(Packet(no, last, piece)) == last
    ensures Packet(no, last, piece)[..4] == EncodeInt(no)
  {
    var flag := if last then 1 else 0;
    DecodeEncode(no);
    DecodeEncode(flag);
    var p := Packet(no, last, piece);
    assert p[..4] == EncodeInt(no);
    assert p[4..8] == EncodeInt(flag);
  }

  lemma PacketText(no: int, last: bool, piece: seq<Byte>)
    requires IsInt32(no) && |piece| <= CHUNK
    ensures Text(Packet(no, last, piece) + [0]) == CString(piece)
  {
    var padding := Zeros(CHUNK - |piece|);
    BehindHeader(EncodeInt(no) + EncodeInt(if last then 1 else 0), piece, padding);
    TerminatedText(piece, padding + [0]);
  }

  lemma BehindHeader(header: seq<Byte>, piece: seq<Byte>, padding: seq<Byte>)
    requires |header| == HEADER
    ensures (header + piece + padding + [0])[HEADER..] == piece + (padding + [0])
  {
    assert header + piece + padding + [0] == header + (piece + (padding + [0]));
  }

  // Padding with NULs does not change the text.
  lemma TerminatedText(piece: seq<Byte>, padding: seq<Byte>)
    requires padding != [] && padding[0] == 0
    ensures CString(piece + padding) == CString(piece)
  {
    var text := CString(piece);
    assert (piece + padding)[..|text|] == text;
    CStringUnique(piece + padding, |text|);
  }

  // ----- files and their chunks

  function Join(parts: seq<seq<Byte>>): seq<Byte> {
    if parts == [] then [] else parts[0] + Join(parts[1..])
  }

  // A file cut into full chunks and a shorter, possibly empty, last one.
  function Chunks(file: seq<Byte>): (chunks: seq<seq<Byte>>)
    ensures |chunks| == |file| / CHUNK + 1
    ensures forall i :: 0 <= i < |chunks| - 1 ==> |chunks[i]| == CHUNK
    ensures |chunks[|chunks| - 1]| < CHUNK
    ensures Join(chunks) == file
  {
    if |file| < CHUNK then
      assert Join([file]) == file + Join([]) by { assert [file][1..] == []; }
      [file]
    else
      var rest := Chunks(file[CHUNK..]);
      assert ([file[..CHUNK]] + rest)[1..] == rest;
      [file[..CHUNK]] + rest
  }

  // What is printed of each chunk.
  function Texts(parts: seq<seq<Byte>>): (texts: seq<seq<Byte>>)
    ensures |texts| == |parts| && forall i :: 0 <= i < |parts| ==> texts[i] == CString(parts[i])
  {
    seq(|parts|, i requires 0 <= i < |parts| => CString(parts[i]))
  }

  lemma {:induction false} JoinTexts(parts: seq<seq<Byte>>)
    ensures |Join(Texts(parts))| <= |Join(parts)|
    ensures Join(Texts(parts)) == Join(parts) <==> 0 !in Join(parts)
  {
    if parts != [] {
      JoinTexts(parts[1..]);
      assert Texts(parts)[1..] == Texts(parts[1..]);
      var head, text := parts[0], CString(parts[0]);
      var tail, tail' := Join(parts[1..]), Join(Texts(parts[1..]));
      if 0 !in head {
        CStringUnique(head, |head|);
        assert head[..|head|] == head;
        assert head + tail == head + tail' <==> tail == tail' by {
          assert (head + tail)[|head|..] == tail && (head + tail')[|head|..] == tail';
        }
      } else {
        assert |text| < |head|;
      }
    }
  }

  // The printed texts give back the file if and only if it has no NUL in it.
  lemma TextRoundTrip(file: seq<Byte>)
    ensures Join(Texts(Chunks(file))) == file <==> 0 !in file
  {
    JoinTexts(Chunks(file));
  }
}
