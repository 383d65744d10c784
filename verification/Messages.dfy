/** The messages between servers, and those between client and server. */
module Messages {
  import opened Bytes
  import opened Heads
  import opened Options
  import opened BigEndian
  import opened Packets

  // ---- Fixed-width fields ----

  function GetU16(s: seq<Byte>): (n: U16)
    requires |s| == 2
    ensures n == Value(s) && Encode(n, 2) == s
  {
    Widths();
    EncodeOfValue(s);
    Value(s)
  }

  function GetU32(s: seq<Byte>): (n: U32)
    requires |s| == 4
    ensures n == Value(s) && Encode(n, 4) == s
  {
    Widths();
    EncodeOfValue(s);
    Value(s)
  }

  function PutS64(v: I64): (s: seq<Byte>)
    ensures |s| == 8
  {
    Widths();
    Encode(Unsigned(v, 8), 8)
  }

  function GetS64(s: seq<Byte>): (v: I64)
    requires |s| == 8
    ensures v == Signed(Value(s), 8) && PutS64(v) == s
  {
    Widths();
    EncodeOfValue(s);
    Signed(Value(s), 8)
  }

  function PutS8(v: I8): Byte {
    v % 0x100
  }

  function GetS8(b: Byte): (v: I8)
    ensures PutS8(v) == b
  {
    if b < 0x80 then b else b as int - 0x100
  }

  lemma U16RoundTrip(n: U16)
    ensures GetU16(Encode(n, 2)) == n
  {
    Widths();
    ValueOfEncode(n, 2);
  }

  lemma U32RoundTrip(n: U32)
    ensures GetU32(Encode(n, 4)) == n
  {
    Widths();
    ValueOfEncode(n, 4);
  }

  lemma S64RoundTrip(v: I64)
    ensures GetS64(PutS64(v)) == v
  {
    Widths();
    ValueOfEncode(Unsigned(v, 8), 8);
    assert Value(PutS64(v)) == Unsigned(v, 8);
  }

  // ---- The body of a message between servers ----

  datatype BodyFields = BodyFields(
    messageID: U16, packetNo: U32, srcAccountID: I64, dstAccountID: I64, gsID: U16, body: seq<Byte>)

  const BODY_HEAD: nat := 24

  function BodyBytes(b: BodyFields): (s: seq<Byte>)
    ensures |s| == BODY_HEAD + |b.body|
  {
    Encode(b.messageID, 2) + Encode(b.packetNo, 4) + PutS64(b.srcAccountID) + PutS64(b.dstAccountID)
    + Encode(b.gsID, 2) + b.body
  }

  /** Field values after reading them one after the other: the first that is cut short becomes zero, and those
      behind it keep what they had. */
  function ReadU16At(data: seq<Byte>, from: nat, was: U16): U16 {
    if |data| >= from + 2 then GetU16(data[from..from + 2]) else if |data| >= from then 0 else was
  }

  function ReadU32At(data: seq<Byte>, from: nat, was: U32): U32 {
    if |data| >= from + 4 then GetU32(data[from..from + 4]) else if |data| >= from then 0 else was
  }

  function ReadS64At(data: seq<Byte>, from: nat, was: I64): I64 {
    if |data| >= from + 8 then GetS64(data[from..from + 8]) else if |data| >= from then 0 else was
  }

  function FilledBody(was: BodyFields, data: seq<Byte>): BodyFields {
    BodyFields(
      ReadU16At(data, 0, was.messageID), ReadU32At(data, 2, was.packetNo),
      ReadS64At(data, 6, was.srcAccountID), ReadS64At(data, 14, was.dstAccountID),
      ReadU16At(data, 22, was.gsID), if |data| >= BODY_HEAD then data[BODY_HEAD..] else was.body)
  }

  class SSMessageBody {
    var messageID: U16
    var packetNo: U32
    var srcAccountID: I64
    var dstAccountID: I64
    var gsID: U16
    var body: seq<Byte>

    constructor (b: BodyFields)
      ensures Fields() == b
    {
      messageID, packetNo, srcAccountID := b.messageID, b.packetNo, b.srcAccountID;
      dstAccountID, gsID, body := b.dstAccountID, b.gsID, b.body;
    }

    function Fields(): BodyFields
      reads this
    {
      BodyFields(messageID, packetNo, srcAccountID, dstAccountID, gsID, body)
    }

    method Marshal() returns (data: seq<Byte>)
      ensures data == BodyBytes(Fields())
    {
      hide Encode, Pow;
      var writer := new Packet([]);
      writer.WriteU16(messageID);
      writer.WriteU32(packetNo);
      writer.WriteS64(srcAccountID);
      writer.WriteS64(dstAccountID);
      writer.WriteU16(gsID);
      writer.WriteRawBytes(body);
      return writer.data;
    }

    method UnMarshal(data: seq<Byte>) returns (ok: bool)
      modifies this
      ensures ok <==> |data| >= BODY_HEAD
      ensures Fields() == FilledBody(old(Fields()), data)
    {
      hide Value, Encode, Pow, Signed, PutS64;
      var reader := new Packet(data);
      messageID, ok := reader.ReadU16();
      if !ok {
        return;
      }
      packetNo, ok := reader.ReadU32();
      if !ok {
        return;
      }
      srcAccountID, ok := reader.ReadS64();
      if !ok {
        SignedZero();
        return;
      }
      dstAccountID, ok := reader.ReadS64();
      if !ok {
        SignedZero();
        return;
      }
      gsID, ok := reader.ReadU16();
      if !ok {
        return;
      }
      body, ok := reader.ReadRestBytes();
    }
  }

  lemma SignedZero()
    ensures Signed(0, 8) == 0
  {
  }

  /** What was marshalled is read back, whatever the receiving message held before. */
  lemma BodyRoundTrip(was: BodyFields, b: BodyFields)
    ensures FilledBody(was, BodyBytes(b)) == b
  {
    var s := BodyBytes(b);
    U16RoundTrip(b.messageID);
    U32RoundTrip(b.packetNo);
    S64RoundTrip(b.srcAccountID);
    S64RoundTrip(b.dstAccountID);
    U16RoundTrip(b.gsID);
    hide Encode, PutS64, GetU16, GetU32, GetS64, Value;
    assert s[0..2] == Encode(b.messageID, 2);
    assert s[2..6] == Encode(b.packetNo, 4);
    assert s[6..14] == PutS64(b.srcAccountID);
    assert s[14..22] == PutS64(b.dstAccountID);
    assert s[22..24] == Encode(b.gsID, 2);
    assert s[24..] == b.body;
  }

  /** Where each field stands: big-endian, at the offsets 0, 2, 6, 14 and 22, and the body from 24 on. */
  lemma BodyLayout(b: BodyFields)
    ensures var s := BodyBytes(b);
            && Value(s[0..2]) == b.messageID && Value(s[2..6]) == b.packetNo
            && Signed(Value(s[6..14]), 8) == b.srcAccountID && Signed(Value(s[14..22]), 8) == b.dstAccountID
            && Value(s[22..24]) == b.gsID && s[24..] == b.body
  {
    var s := BodyBytes(b);
    U16RoundTrip(b.messageID);
    U32RoundTrip(b.packetNo);
    S64RoundTrip(b.srcAccountID);
    S64RoundTrip(b.dstAccountID);
    U16RoundTrip(b.gsID);
    hide Encode, PutS64, Value;
    assert s[0..2] == Encode(b.messageID, 2);
    assert s[2..6] == Encode(b.packetNo, 4);
    assert s[6..14] == PutS64(b.srcAccountID);
    assert s[14..22] == PutS64(b.dstAccountID);
    assert s[22..24] == Encode(b.gsID, 2);
    assert s[24..] == b.body;
  }

  /** What was read is marshalled to the same bytes: exactly the inputs of at least 24 bytes are messages. */
  lemma BodyReMarshals(was: BodyFields, data: seq<Byte>)
    requires |data| >= BODY_HEAD
    ensures BodyBytes(FilledBody(was, data)) == data
  {
    assert data == data[0..2] + data[2..6] + data[6..14] + data[14..22] + data[22..24] + data[24..];
  }

  // ---- The head of a message between servers ----

  datatype SSMessage = SSMessage(head: Head, body: seq<Byte>)

  const MSG_HEAD_LEN: nat := 8

  function HeadBytes(h: Head): (s: seq<Byte>)
    ensures |s| == MSG_HEAD_LEN
  {
    [PutS8(h.ssCmd), PutS8(h.transType), PutS8(h.srcType), PutS8(h.dstType)]
    + Encode(h.srcID as int, 2) + Encode(h.dstID as int, 2)
  }

  method PackSSMessage(m: SSMessage) returns (r: seq<Byte>)
    ensures r == HeadBytes(m.head) + m.body
  {
    var h := m.head;
    var buf := new Byte[MSG_HEAD_LEN];
    buf[0] := PutS8(h.ssCmd);
    buf[1] := PutS8(h.transType);
    buf[2] := PutS8(h.srcType);
    buf[3] := PutS8(h.dstType);
    PutUint16(buf, 4, h.srcID as int);
    PutUint16(buf, 6, h.dstID as int);
    assert buf[..] == HeadBytes(h);
    return buf[..] + m.body;
  }

  /** binary.BigEndian.PutUint16(buf[at:], n). */
  method PutUint16(buf: array<Byte>, at: nat, n: U16)
    requires at + 2 <= buf.Length
    modifies buf
    ensures buf[..] == old(buf[..at]) + Encode(n, 2) + old(buf[at + 2..])
  {
    buf[at] := n / 0x100;
    buf[at + 1] := n % 0x100;
  }

  function Unpacked(buff: seq<Byte>): (r: Option<SSMessage>) {
    if |buff| < MSG_HEAD_LEN then None
    else
      Some(SSMessage(
             Head(GetS8(buff[0]), GetS8(buff[1]), GetS8(buff[2]), GetS8(buff[3]),
                  GetU16(buff[4..6]) as ServerId, GetU16(buff[6..8]) as ServerId),
             buff[8..]))
  }

  /** Where each field of the head stands: one byte each for command and types, then the two ids, big-endian. */
  lemma HeadLayout(h: Head)
    ensures var s := HeadBytes(h);
            && GetS8(s[0]) == h.ssCmd && GetS8(s[1]) == h.transType
            && GetS8(s[2]) == h.srcType && GetS8(s[3]) == h.dstType
            && Value(s[4..6]) == h.srcID as int && Value(s[6..8]) == h.dstID as int
  {
    var s := HeadBytes(h);
    U16RoundTrip(h.srcID as int);
    U16RoundTrip(h.dstID as int);
    assert s[4..6] == Encode(h.srcID as int, 2);
    assert s[6..8] == Encode(h.dstID as int, 2);
  }

  /** Packing and unpacking are inverse to each other: a buffer unpacks to m exactly if m packs to it, and the buffers
      that unpack at all are those of at least eight bytes. */
  lemma HeadRoundTrip(m: SSMessage, buff: seq<Byte>)
    ensures Unpacked(buff) == Some(m) <==> buff == HeadBytes(m.head) + m.body
    ensures Unpacked(buff).Some? <==> |buff| >= 8
  {
    UnpackOfPack(m);
    if |buff| >= 8 {
      PackOfUnpack(buff);
    }
  }

  lemma UnpackOfPack(m: SSMessage)
    ensures Unpacked(HeadBytes(m.head) + m.body) == Some(m)
  {
    var s := HeadBytes(m.head) + m.body;
    U16RoundTrip(m.head.srcID as int);
    U16RoundTrip(m.head.dstID as int);
    assert s[4..6] == Encode(m.head.srcID as int, 2);
    assert s[6..8] == Encode(m.head.dstID as int, 2);
    assert s[8..] == m.body;
  }

  lemma PackOfUnpack(buff: seq<Byte>)
    requires |buff| >= 8
    ensures var m := Unpacked(buff).value; HeadBytes(m.head) + m.body == buff
  {
    assert buff == buff[..4] + buff[4..6] + buff[6..8] + buff[8..];
  }

  // ---- Messages between client and server ----

  datatype ClientFields = ClientFields(messageID: U16, packetNo: U32, version: U16, body: seq<Byte>)

  function FilledClient(was: ClientFields, data: seq<Byte>): ClientFields {
    ClientFields(
      ReadU16At(data, 0, was.messageID), ReadU32At(data, 2, was.packetNo), ReadU16At(data, 6, was.version),
      if |data| >= MSG_HEAD_LEN then data[MSG_HEAD_LEN..] else was.body)
  }

  /** What the writer of Marshal holds. */
  function ClientBytes(m: ClientFields): seq<Byte> {
    Encode(m.messageID, 2) + Encode(m.packetNo, 4) + Encode(m.version, 2) + m.body
  }

  class CSMessage {
    var messageID: U16
    var packetNo: U32
    var version: U16
    var body: seq<Byte>

    constructor (m: ClientFields)
      ensures Fields() == m
    {
      messageID, packetNo, version, body := m.messageID, m.packetNo, m.version, m.body;
    }

    function Fields(): ClientFields
      reads this
    {
      ClientFields(messageID, packetNo, version, body)
    }

    /** Returns the buffer it allocated first, not what it has written: every message marshals to nothing. */
    method Marshal() returns (data: seq<Byte>)
      ensures data == []
    {
      var buffer: seq<Byte> := [];
      var writer := new Packet([]);
      writer.WriteU16(messageID);
      writer.WriteU32(packetNo);
      writer.WriteU16(version);
      writer.WriteRawBytes(body);
      assert writer.data == ClientBytes(Fields());
      return buffer;
    }

    method UnMarshal(data: seq<Byte>) returns (ok: bool)
      modifies this
      ensures ok <==> |data| >= MSG_HEAD_LEN
      ensures Fields() == FilledClient(old(Fields()), data)
    {
      var reader := new Packet(data);
      messageID, ok := reader.ReadU16();
      if !ok {
        return;
      }
      packetNo, ok := reader.ReadU32();
      if !ok {
        return;
      }
      version, ok := reader.ReadU16();
      if !ok {
        return;
      }
      body, ok := reader.ReadRestBytes();
    }
  }

  /** UnMarshal inverts what Marshal writes but does not return. */
  lemma ClientRoundTrip(was: ClientFields, m: ClientFields, data: seq<Byte>)
    ensures |data| >= MSG_HEAD_LEN && FilledClient(was, data) == m <==> data == ClientBytes(m)
  {
    var s := ClientBytes(m);
    U16RoundTrip(m.messageID);
    U32RoundTrip(m.packetNo);
    U16RoundTrip(m.version);
    assert s[0..2] == Encode(m.messageID, 2);
    assert s[2..6] == Encode(m.packetNo, 4);
    assert s[6..8] == Encode(m.version, 2);
    assert s[8..] == m.body;
    if |data| >= MSG_HEAD_LEN {
      assert data == data[0..2] + data[2..6] + data[6..8] + data[8..];
    }
  }

  /** Where each field stands in what Marshal writes but does not return. */
  lemma ClientLayout(m: ClientFields)
    ensures var s := ClientBytes(m);
            && |s| == 8 + |m.body| && Value(s[0..2]) == m.messageID && Value(s[2..6]) == m.packetNo
            && Value(s[6..8]) == m.version && s[8..] == m.body
  {
    var s := ClientBytes(m);
    U16RoundTrip(m.messageID);
    U32RoundTrip(m.packetNo);
    U16RoundTrip(m.version);
    assert s[0..2] == Encode(m.messageID, 2);
    assert s[2..6] == Encode(m.packetNo, 4);
    assert s[6..8] == Encode(m.version, 2);
    assert s[8..] == m.body;
  }

  /** Reading back what Marshal returned fails for every message. */
  method MarshalLosesMessage(m: ClientFields, was: ClientFields) returns (ok: bool, back: ClientFields)
    ensures !ok && back == was.(messageID := 0)
  {
    var sent := new CSMessage(m);
    var data := sent.Marshal();
    var received := new CSMessage(was);
    ok := received.UnMarshal(data);
    back := received.Fields();
  }
}
