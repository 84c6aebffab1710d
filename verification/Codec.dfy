/** The binary frames that the server and its peers exchange: a big-endian sequence number, a header
    byte, and for everything but acknowledgements a length field and a payload. */
module Codec {

  type byte = x: int | 0 <= x < 256

  type Bytes = seq<byte>

  const TWO_32: nat := 0x1_0000_0000

  /** Go's conversion of an int to uint32. */
  function U32(n: int): (v: nat)
    ensures v < TWO_32
  {
    n % TWO_32
  }

  function BigEndian(v: nat): (b: Bytes)
    requires v < TWO_32
    ensures |b| == 4
  {
    [v / 0x100_0000, v / 0x1_0000 % 256, v / 0x100 % 256, v % 256]
  }

  function FromBigEndian(b: Bytes): (v: nat)
    requires |b| == 4
    ensures v < TWO_32
  {
    var b0: int, b1: int, b2: int, b3: int := b[0], b[1], b[2], b[3];
    b0 * 0x100_0000 + b1 * 0x1_0000 + b2 * 0x100 + b3
  }

  lemma BigEndianRoundTrip(v: nat)
    requires v < TWO_32
    ensures FromBigEndian(BigEndian(v)) == v
  {
    assert v / 0x100 == v / 0x1_0000 * 256 + v / 0x100 % 256;
    assert v / 0x1_0000 == v / 0x100_0000 * 256 + v / 0x1_0000 % 256;
  }

  lemma BigEndianIsOnto(b: Bytes)
    requires |b| == 4
    ensures BigEndian(FromBigEndian(b)) == b
  {
    var v := FromBigEndian(b);
    var b0: int, b1: int, b2: int := b[0], b[1], b[2];
    assert v / 0x100_0000 == b0;
    assert v / 0x1_0000 == b0 * 256 + b1;
    assert v / 0x100 == b0 * 0x1_0000 + b1 * 256 + b2;
  }

  // ---------------------------------------------------------------- the header byte

  const PUSH_ALL := 0
  const PUSH_PEER := 1
  const NOTIFY := 2
  const ACK := 3

  /** version << 4 | kind << 1 | flag, on fields that fit their bits. */
  function Header(version: nat, kind: nat, flag: nat): byte
    requires version < 16 && kind < 8 && flag < 2
  {
    version * 16 + kind * 2 + flag
  }

  function VersionOf(h: byte): nat { h / 16 }  // h >> 4

  function KindOf(h: byte): nat { h % 16 / 2 }  // (h & 0xf) >> 1

  function FlagOf(h: byte): nat { h % 2 }  // h & 0x1

  lemma HeaderBijection(version: nat, kind: nat, flag: nat, h: byte)
    requires version < 16 && kind < 8 && flag < 2
    ensures VersionOf(h) < 16 && KindOf(h) < 8 && FlagOf(h) < 2
    ensures Header(version, kind, flag) == h <==> (version, kind, flag) == (VersionOf(h), KindOf(h), FlagOf(h))
  {
    assert h == h / 16 * 16 + h % 16;
    assert h % 16 == h % 16 / 2 * 2 + h % 2;
  }

  // ---------------------------------------------------------------- frames, as byte sequences

  function PushFrame(id: int, payload: Bytes, isBrAll: bool): Bytes {
    BigEndian(U32(id)) + [Header(1, if isBrAll then PUSH_ALL else PUSH_PEER, 1)]
    + BigEndian(U32(|payload|)) + payload
  }

  function ServerAckFrame(id: int): Bytes {
    BigEndian(U32(id)) + [Header(1, ACK, 1)]
  }

  function ClientAckFrame(id: int): Bytes {
    BigEndian(U32(id)) + [Header(1, ACK, 0)]
  }

  /** "Hello SkyTime" in ASCII. */
  const GREETING: Bytes := [72, 101, 108, 108, 111, 32, 83, 107, 121, 84, 105, 109, 101]

  function NotifyFrame(id: int): Bytes {
    BigEndian(U32(id)) + [Header(1, NOTIFY, 0)] + BigEndian(U32(|GREETING|)) + GREETING
  }

  // ---------------------------------------------------------------- the encoders, in place

  method PutUint32(buf: array<byte>, at: nat, v: nat)
    requires at + 4 <= buf.Length && v < TWO_32
    modifies buf
    ensures buf[..] == old(buf[..at]) + BigEndian(v) + old(buf[at + 4..])
  {
    buf[at] := v / 0x100_0000;
    buf[at + 1] := v / 0x1_0000 % 256;
    buf[at + 2] := v / 0x100 % 256;
    buf[at + 3] := v % 256;
  }

  method Copy(buf: array<byte>, at: nat, src: Bytes)
    requires at + |src| <= buf.Length
    modifies buf
    ensures buf[..] == old(buf[..at]) + src + old(buf[at + |src|..])
  {
    forall i | 0 <= i < |src| {
      buf[at + i] := src[i];
    }
  }

  method EncodePush(id: int, payload: Bytes, isBrAll: bool) returns (buf: array<byte>)
    ensures fresh(buf) && buf[..] == PushFrame(id, payload, isBrAll)
  {
    buf := new byte[9 + |payload|](_ => 0);
    PutUint32(buf, 0, U32(id));
    var b4: byte := Header(1, PUSH_PEER, 1);
    if isBrAll {
      b4 := Header(1, PUSH_ALL, 1);
    }
    buf[4] := b4;
    assert buf[..5] == BigEndian(U32(id)) + [b4];
    PutUint32(buf, 5, U32(|payload|));
    assert buf[..9] == BigEndian(U32(id)) + [b4] + BigEndian(U32(|payload|));
    Copy(buf, 9, payload);
    assert buf[9 + |payload|..] == [];
  }

  method EncodeServerAck(id: int) returns (buf: array<byte>)
    ensures fresh(buf) && buf[..] == ServerAckFrame(id)
  {
    buf := new byte[5](_ => 0);
    PutUint32(buf, 0, U32(id));
    buf[4] := Header(1, ACK, 1);
  }

  method EncodeClientAck(id: int) returns (buf: array<byte>)
    ensures fresh(buf) && buf[..] == ClientAckFrame(id)
  {
    buf := new byte[5](_ => 0);
    PutUint32(buf, 0, U32(id));
    buf[4] := Header(1, ACK, 0);
  }

  method EncodeNotify(id: int) returns (buf: array<byte>)
    ensures fresh(buf) && buf[..] == NotifyFrame(id)
  {
    buf := new byte[9 + |GREETING|](_ => 0);
    PutUint32(buf, 0, U32(id));
    buf[4] := Header(1, NOTIFY, 0);
    PutUint32(buf, 5, U32(|GREETING|));
    Copy(buf, 9, GREETING);
  }

  // ---------------------------------------------------------------- the decoders

  /** A Go slice as read from the socket: `length` bytes, and the spare capacity behind them.
      Indexing is bounded by the length, re-slicing with an upper bound by the capacity. */
  datatype GoSlice = GoSlice(backing: Bytes, length: nat) {
    predicate Valid() { length <= |backing| }
  }

  datatype Result<T> = Ok(value: T) | OutOfRange

  /** What the receiving loops make of a text message. */
  datatype Message =
    | AckMessage(id: nat, version: nat, flag: nat)
    | BodyMessage(id: nat, version: nat, kind: nat, flag: nat, bodyLen: nat, body: Bytes)
    | BareMessage(id: nat, version: nat, kind: nat, flag: nat)

  predicate HasHeader(m: GoSlice) {
    4 <= |m.backing| && 4 < m.length
  }

  function IdOf(m: GoSlice): nat
    requires m.Valid() && HasHeader(m)
  {
    FromBigEndian(m.backing[0..4])
  }

  /** The server's receiving loop; it slices the body of a notify message only for its verbose log. */
  function ServerDecode(m: GoSlice, verbose: bool): Result<Message>
    requires m.Valid()
  {
    if !HasHeader(m) then OutOfRange
    else
      var h := m.backing[4];
      if KindOf(h) == ACK then Ok(AckMessage(IdOf(m), VersionOf(h), FlagOf(h)))
      else if KindOf(h) == NOTIFY then
        if |m.backing| < 9 || (verbose && m.length < 9) then OutOfRange
        else Ok(BodyMessage(IdOf(m), VersionOf(h), NOTIFY, FlagOf(h), FromBigEndian(m.backing[5..9]),
                            if verbose then m.backing[9..m.length] else []))
      else Ok(BareMessage(IdOf(m), VersionOf(h), KindOf(h), FlagOf(h)))
  }

  /** The client's receiving loop; it slices the body of a peer message only. */
  function ClientDecode(m: GoSlice): Result<Message>
    requires m.Valid()
  {
    if !HasHeader(m) then OutOfRange
    else
      var h := m.backing[4];
      if KindOf(h) == ACK then Ok(AckMessage(IdOf(m), VersionOf(h), FlagOf(h)))
      else if |m.backing| < 9 then OutOfRange
      else if KindOf(h) != PUSH_PEER then Ok(BareMessage(IdOf(m), VersionOf(h), KindOf(h), FlagOf(h)))
      else if m.length < 9 then OutOfRange
      else Ok(BodyMessage(IdOf(m), VersionOf(h), PUSH_PEER, FlagOf(h), FromBigEndian(m.backing[5..9]),
                          m.backing[9..m.length]))
  }

  /** The frames that the client answers with, if any. */
  function ClientAnswer(m: GoSlice): Result<seq<Bytes>>
    requires m.Valid()
  {
    match ClientDecode(m)
    case OutOfRange => OutOfRange
    case Ok(d) => if d.BodyMessage? then Ok([ClientAckFrame(d.id)]) else Ok([])
  }

  // ---------------------------------------------------------------- round trips

  ghost predicate Carries(m: GoSlice, frame: Bytes) {
    m.Valid() && m.backing[..m.length] == frame
  }

  lemma FrameParts(m: GoSlice, id: int, h: byte, rest: Bytes)
    requires Carries(m, BigEndian(U32(id)) + [h] + rest)
    ensures HasHeader(m) && m.length == 5 + |rest| && m.backing[4] == h && IdOf(m) == U32(id)
    ensures m.backing[5..m.length] == rest
  {
    var f := m.backing[..m.length];
    assert f == BigEndian(U32(id)) + [h] + rest;
    assert m.backing[0..4] == f[0..4] == BigEndian(U32(id));
    assert m.backing[5..m.length] == f[5..] == rest;
    assert m.backing[4] == f[4];
    BigEndianRoundTrip(U32(id));
  }

  lemma BodyParts(m: GoSlice, id: int, h: byte, payload: Bytes)
    requires Carries(m, BigEndian(U32(id)) + [h] + BigEndian(U32(|payload|)) + payload)
    ensures HasHeader(m) && m.length == 9 + |payload| && m.backing[4] == h && IdOf(m) == U32(id)
    ensures FromBigEndian(m.backing[5..9]) == U32(|payload|) && m.backing[9..m.length] == payload
  {
    var rest := BigEndian(U32(|payload|)) + payload;
    assert BigEndian(U32(id)) + [h] + BigEndian(U32(|payload|)) + payload == BigEndian(U32(id)) + [h] + rest;
    FrameParts(m, id, h, rest);
    assert m.backing[5..9] == rest[..4] == BigEndian(U32(|payload|));
    assert m.backing[9..m.length] == rest[4..];
    BigEndianRoundTrip(U32(|payload|));
  }

  lemma U32Exact(n: int)
    ensures U32(n) == n <==> 0 <= n < TWO_32
  {
  }

  /** A push frame reaches the client intact, and exactly the peer-addressed ones are acknowledged, with the
      id they carried. The id survives the trip exactly when it fits 32 bits, the length field exactly when
      it equals the number of bytes that follow. */
  lemma PushRoundTrip(m: GoSlice, id: nat, payload: Bytes, isBrAll: bool)
    requires Carries(m, PushFrame(id, payload, isBrAll))
    ensures ClientDecode(m).Ok? && ClientAnswer(m).Ok?
    ensures ClientDecode(m).value.id == id <==> id < TWO_32
    ensures !isBrAll ==>
              && ClientDecode(m).value == BodyMessage(U32(id), 1, PUSH_PEER, 1, U32(|payload|), payload)
              && (U32(|payload|) == m.length - 9 <==> |payload| < TWO_32)
              && ClientAnswer(m).value == [ClientAckFrame(id)]
    ensures isBrAll ==> ClientDecode(m).value == BareMessage(U32(id), 1, PUSH_ALL, 1) && ClientAnswer(m).value == []
  {
    var h := Header(1, if isBrAll then PUSH_ALL else PUSH_PEER, 1);
    BodyParts(m, id, h, payload);
    HeaderBijection(1, if isBrAll then PUSH_ALL else PUSH_PEER, 1, h);
    U32Exact(id);
    U32Exact(|payload|);
    U32Exact(U32(id));
  }

  /** An acknowledgement travels in either direction; it gives back the id that the frame being
      acknowledged carried. */
  lemma AckRoundTrip(m: GoSlice, id: nat, verbose: bool)
    ensures Carries(m, ClientAckFrame(id)) ==> ServerDecode(m, verbose) == Ok(AckMessage(U32(id), 1, 0))
    ensures Carries(m, ServerAckFrame(id)) ==> ClientDecode(m) == Ok(AckMessage(U32(id), 1, 1)) && ClientAnswer(m) == Ok([])
  {
    if Carries(m, ClientAckFrame(id)) {
      assert ClientAckFrame(id) == BigEndian(U32(id)) + [Header(1, ACK, 0)] + [];
      FrameParts(m, id, Header(1, ACK, 0), []);
    }
    if Carries(m, ServerAckFrame(id)) {
      assert ServerAckFrame(id) == BigEndian(U32(id)) + [Header(1, ACK, 1)] + [];
      FrameParts(m, id, Header(1, ACK, 1), []);
    }
  }

  lemma NotifyRoundTrip(m: GoSlice, id: nat, verbose: bool)
    requires Carries(m, NotifyFrame(id))
    ensures ServerDecode(m, verbose) ==
            Ok(BodyMessage(U32(id), 1, NOTIFY, 0, |GREETING|, if verbose then GREETING else []))
  {
    BodyParts(m, id, Header(1, NOTIFY, 0), GREETING);
  }

  // ---------------------------------------------------------------- the layout, in plain numbers

  /** Four bytes from `at` on, the first one the highest. */
  function Weighted(f: Bytes, at: nat): int
    requires at + 4 <= |f|
  {
    var b0: int, b1: int, b2: int, b3: int := f[at], f[at + 1], f[at + 2], f[at + 3];
    b0 * 0x100_0000 + b1 * 0x1_0000 + b2 * 0x100 + b3
  }

  lemma BigEndianInNumbers(v: nat)
    requires v < TWO_32
    ensures Weighted(BigEndian(v), 0) == v
  {
    BigEndianRoundTrip(v);
  }

  /** A frame with this id and this header byte. */
  ghost predicate LaidOut(f: Bytes, id: int, header: byte) {
    5 <= |f| && Weighted(f, 0) == id % 0x1_0000_0000 && f[4] == header
  }

  /** And with this payload behind its length. */
  ghost predicate WithPayload(f: Bytes, payload: Bytes) {
    && |f| == 9 + |payload| && f[9..] == payload
    && Weighted(f, 5) == |payload| % 0x1_0000_0000
  }

  lemma BodyLaidOut(id: int, h: byte, payload: Bytes)
    ensures var f := BigEndian(U32(id)) + [h] + BigEndian(U32(|payload|)) + payload; LaidOut(f, id, h) && WithPayload(f, payload)
  {
    BigEndianInNumbers(U32(id));
    BigEndianInNumbers(U32(|payload|));
    hide BigEndian;
  }

  /** The five frames, byte by byte: the id and the length in big-endian order, and the header bytes 0x11 for a push to
      everybody, 0x13 for one to a peer, 0x17 and 0x16 for the acknowledgements of the server and of the client, and
      0x14 for a notify frame, whose payload is "Hello SkyTime". */
  lemma FrameLayout(id: int, payload: Bytes)
    ensures LaidOut(PushFrame(id, payload, true), id, 0x11) && WithPayload(PushFrame(id, payload, true), payload)
    ensures LaidOut(PushFrame(id, payload, false), id, 0x13) && WithPayload(PushFrame(id, payload, false), payload)
    ensures LaidOut(ServerAckFrame(id), id, 0x17) && |ServerAckFrame(id)| == 5
    ensures LaidOut(ClientAckFrame(id), id, 0x16) && |ClientAckFrame(id)| == 5
    ensures LaidOut(NotifyFrame(id), id, 0x14)
    ensures WithPayload(NotifyFrame(id), [72, 101, 108, 108, 111, 32, 83, 107, 121, 84, 105, 109, 101])
  {
    BodyLaidOut(id, 0x11, payload);
    BodyLaidOut(id, 0x13, payload);
    BodyLaidOut(id, 0x14, GREETING);
    BigEndianInNumbers(U32(id));
    hide BigEndian, U32;
  }

  /** A decoder runs out of the slice, which ends the process, exactly in these cases: fewer than five bytes; on the
      server a notify frame in a slice with room for fewer than nine, or, when it is logged, shorter than nine; on the
      client a frame other than an acknowledgement in a slice with room for fewer than nine, or a peer message shorter
      than nine. */
  lemma DecodersFailExactly(m: GoSlice, verbose: bool)
    requires m.Valid()
    ensures ServerDecode(m, verbose).OutOfRange? <==>
            || m.length < 5
            || (m.backing[4] / 2 % 8 == 2 && (|m.backing| < 9 || (verbose && m.length < 9)))
    ensures ClientDecode(m).OutOfRange? <==>
            || m.length < 5
            || (m.backing[4] / 2 % 8 != 3 && |m.backing| < 9)
            || (m.backing[4] / 2 % 8 == 1 && m.length < 9)
  {
    if 5 <= m.length {
      var h := m.backing[4];
      assert h % 16 / 2 == h / 2 % 8;
    }
  }
}
