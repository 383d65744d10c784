/**
 Length-prefixed frames on a byte stream, and the whole wire stack over them.

 A connection delivers its bytes in chunks of any sizes, empty ones included.
 */
module Framing {
  import opened Bytes
  import opened Heads
  import opened Options
  import opened BigEndian
  import opened Messages

  const SIZE_MAX: nat := 0x10_0000

  function Flat(chunks: seq<seq<Byte>>): seq<Byte> {
    if chunks == [] then [] else chunks[0] + Flat(chunks[1..])
  }

  /** The reading end of a connection. */
  class Reader {
    var chunks: seq<seq<Byte>>

    constructor (arriving: seq<seq<Byte>>)
      ensures chunks == arriving
    {
      chunks := arriving;
    }

    function Ahead(): seq<Byte>
      reads this
    {
      Flat(chunks)
    }

    /** io.Reader: hands over at most n bytes, from one chunk; fails when nothing more arrives. */
    method Read(n: nat) returns (got: seq<Byte>, ok: bool)
      requires n > 0
      modifies this
      ensures ok <==> old(chunks) != []
      ensures |got| <= n && old(Ahead()) == got + Ahead()
      ensures ok ==> |chunks| + |Ahead()| < old(|chunks| + |Ahead()|)
      ensures !ok ==> got == [] && chunks == []
    {
      if chunks == [] {
        return [], false;
      }
      var chunk := chunks[0];
      ok := true;
      if |chunk| <= n {
        got, chunks := chunk, chunks[1..];
      } else {
        got, chunks := chunk[..n], [chunk[n..]] + chunks[1..];
        assert chunks[1..] == old(chunks)[1..];
      }
    }

    /** io.ReadFull: reads until n bytes are there or the stream ends, and takes what there was in either case. */
    method ReadFull(n: nat) returns (buf: seq<Byte>, ok: bool)
      modifies this
      ensures ok <==> n <= |old(Ahead())|
      ensures ok ==> buf == old(Ahead())[..n] && Ahead() == old(Ahead())[n..]
      ensures !ok ==> Ahead() == []
    {
      buf, ok := [], true;
      while |buf| < n && ok
        invariant |buf| <= n && buf + Ahead() == old(Ahead())
        invariant !ok ==> Ahead() == [] && |buf| < n
        decreases ok, |chunks| + |Ahead()|
      {
        var got;
        got, ok := Read(n - |buf|);
        buf := buf + got;
      }
    }
  }

  /** The writing end: the bytes handed to the connection. */
  class Stream {
    var sent: seq<Byte>

    constructor ()
      ensures sent == []
    {
      sent := [];
    }

    method Write(b: seq<Byte>)
      modifies this
      ensures sent == old(sent) + b
    {
      sent := sent + b;
    }
  }

  // ---- The codec ----

  /** `uint32(len(b))`. */
  function Length(b: seq<Byte>): U32 {
    |b| % 0x1_0000_0000
  }

  function Frame(b: seq<Byte>): (f: seq<Byte>)
    ensures |f| == 4 + |b|
  {
    Encode(Length(b), 4) + b
  }

  datatype Outcome = Received(b: seq<Byte>, rest: seq<Byte>) | TooLarge | Ended

  /** The first frame of a stream. */
  function FirstFrame(s: seq<Byte>): Outcome {
    if |s| < 4 then Ended
    else
      var n := GetU32(s[..4]);
      if n > SIZE_MAX then TooLarge
      else if |s| < 4 + n then Ended
      else Received(s[4..4 + n], s[4 + n..])
  }

  class SessionCodec {
    constructor () {
    }

    method Read(r: Reader) returns (b: seq<Byte>, ok: bool)
      modifies r
      ensures ok <==> FirstFrame(old(r.Ahead())).Received?
      ensures ok ==> FirstFrame(old(r.Ahead())) == Received(b, r.Ahead())
    {
      var h;
      h, ok := r.ReadFull(4);
      if !ok {
        return [], false;
      }
      var n := GetU32(h);
      if n > SIZE_MAX {
        return [], false;
      }
      b, ok := r.ReadFull(n);
    }

    method Write(w: Stream, b: seq<Byte>) returns (ok: bool)
      modifies w
      ensures ok <==> Length(b) <= SIZE_MAX
      ensures w.sent == old(w.sent) + (if ok then Frame(b) else [])
    {
      var n: U32 := Length(b);
      if n > SIZE_MAX {
        return false;
      }
      var h := new Byte[4];
      PutUint32(h, n);
      w.Write(h[..]);
      w.Write(b);
      return true;
    }

    /** binary.BigEndian.PutUint32. */
    static method PutUint32(h: array<Byte>, n: U32)
      requires h.Length == 4
      modifies h
      ensures h[..] == Encode(n, 4)
    {
      Packets.Packet.FourBytes(n);
      h[0] := n / 0x100_0000;
      h[1] := n / 0x1_0000 % 0x100;
      h[2] := n / 0x100 % 0x100;
      h[3] := n % 0x100;
    }

    /** The writer's batch: frames one buffer after the other, and stops at the first that is too large. */
    method WriteAll(w: Stream, bufs: seq<seq<Byte>>) returns (ok: bool)
      modifies w
      ensures ok <==> forall i :: 0 <= i < |bufs| ==> Length(bufs[i]) <= SIZE_MAX
      ensures ok ==> w.sent == old(w.sent) + FrameAll(bufs)
      ensures !ok ==>
                exists k :: 0 <= k < |bufs| && Length(bufs[k]) > SIZE_MAX && w.sent == old(w.sent) + FrameAll(bufs[..k])
    {
      hide FrameAll, Frame, Length;
      NoFrames();
      for i := 0 to |bufs|
        invariant forall j :: 0 <= j < i ==> Length(bufs[j]) <= SIZE_MAX
        invariant w.sent == old(w.sent) + FrameAll(bufs[..i])
      {
        ok := Write(w, bufs[i]);
        if !ok {
          return;
        }
        FrameAllBack(bufs, i);
      }
      assert bufs[..|bufs|] == bufs;
      ok := true;
    }

    /** The reading loop: hands on one frame after the other until a read fails. */
    method Serve(r: Reader) returns (received: seq<seq<Byte>>)
      modifies r
      ensures received == Frames(old(r.Ahead()))
    {
      hide FirstFrame, Flat;
      received := [];
      while true
        invariant received + Frames(r.Ahead()) == Frames(old(r.Ahead()))
        decreases |r.Ahead()|
      {
        ghost var ahead := r.Ahead();
        FramesUnfold(ahead);
        var b, ok := Read(r);
        if !ok {
          return;
        }
        received := received + [b];
      }
    }
  }

  function FrameAll(bufs: seq<seq<Byte>>): seq<Byte> {
    if bufs == [] then [] else FrameAll(bufs[..|bufs| - 1]) + Frame(bufs[|bufs| - 1])
  }

  /** All frames that can be read from a stream. */
  function Frames(s: seq<Byte>): seq<seq<Byte>>
    decreases |s|
  {
    match FirstFrame(s)
    case Received(b, rest) => [b] + Frames(rest)
    case _ => []
  }

  lemma FramesUnfold(s: seq<Byte>)
    ensures FirstFrame(s).Received? ==> Frames(s) == [FirstFrame(s).b] + Frames(FirstFrame(s).rest)
    ensures FirstFrame(s).Received? ==> |FirstFrame(s).rest| < |s|
    ensures !FirstFrame(s).Received? ==> Frames(s) == []
  {
  }

  predicate Sendable(bufs: seq<seq<Byte>>) {
    forall i :: 0 <= i < |bufs| ==> |bufs[i]| <= SIZE_MAX
  }

  // ---- Round trips ----

  /** One frame, followed by anything. */
  lemma FrameRoundTrip(b: seq<Byte>, rest: seq<Byte>)
    requires |b| <= SIZE_MAX
    ensures FirstFrame(Frame(b) + rest) == Received(b, rest)
  {
    var s := Frame(b) + rest;
    assert s[..4] == Encode(|b|, 4);
    U32RoundTrip(|b|);
    assert s[4..4 + |b|] == b;
    assert s[4 + |b|..] == rest;
  }

  /** The length is cut to thirty-two bits before it is checked: a buffer the codec accepts is read back as it was
      exactly if it is shorter than four gigabytes. */
  lemma AcceptedRoundTripIff(b: seq<Byte>)
    requires Length(b) <= SIZE_MAX
    ensures FirstFrame(Frame(b)) == Received(b, []) <==> |b| < 0x1_0000_0000
  {
    var s := Frame(b);
    assert s[..4] == Encode(Length(b), 4);
    U32RoundTrip(Length(b));
    if |b| < 0x1_0000_0000 {
      FrameRoundTrip(b, []);
      assert s + [] == s;
    }
  }

  /** Such a longer buffer: four gigabytes of zeros are accepted, behind a header that announces nothing. */
  lemma HugeBufferLost()
    ensures var b := seq(0x1_0000_0000, _ => 0);
            && Length(b) <= SIZE_MAX && Frame(b)[..4] == [0, 0, 0, 0] && FirstFrame(Frame(b)) != Received(b, [])
  {
    var b: seq<Byte> := seq(0x1_0000_0000, _ => 0);
    AcceptedRoundTripIff(b);
    Packets.Packet.FourBytes(0);
  }

  lemma NoFrames()
    ensures FrameAll([]) == []
  {
  }

  lemma FrameAllBack(bufs: seq<seq<Byte>>, i: nat)
    requires i < |bufs|
    ensures FrameAll(bufs[..i + 1]) == FrameAll(bufs[..i]) + Frame(bufs[i])
  {
    assert bufs[..i + 1][..i] == bufs[..i];
  }

  lemma FrameAllFront(bufs: seq<seq<Byte>>)
    requires bufs != []
    ensures FrameAll(bufs) == Frame(bufs[0]) + FrameAll(bufs[1..])
  {
    hide Frame;
    var front := bufs[..|bufs| - 1];
    if front == [] {
      assert bufs[1..] == [];
    } else {
      FrameAllFront(front);
      assert bufs[1..][..|bufs| - 2] == front[1..];
      assert FrameAll(bufs[1..]) == FrameAll(front[1..]) + Frame(bufs[|bufs| - 1]);
    }
  }

  /** An incomplete frame is not delivered. */
  lemma CutFrameEnds(b: seq<Byte>, n: nat)
    requires |b| <= SIZE_MAX && n < |Frame(b)|
    ensures FirstFrame(Frame(b)[..n]) == Ended
  {
    if 4 <= n {
      assert Frame(b)[..n][..4] == Encode(|b|, 4);
      U32RoundTrip(|b|);
    }
  }

  /** Of any first n bytes of a stream of frames, exactly the frames that are complete are received. */
  lemma {:induction false} PrefixRoundTrip(bufs: seq<seq<Byte>>, n: nat) returns (k: nat)
    requires Sendable(bufs) && n <= |FrameAll(bufs)|
    ensures k <= |bufs| && Frames(FrameAll(bufs)[..n]) == bufs[..k]
    ensures |FrameAll(bufs[..k])| <= n && (k < |bufs| ==> n < |FrameAll(bufs[..k + 1])|)
    decreases |bufs|
  {
    if bufs == [] {
      return 0;
    }
    FrameAllFront(bufs);
    var first, more := Frame(bufs[0]), FrameAll(bufs[1..]);
    if n < |first| {
      assert FrameAll(bufs)[..n] == first[..n];
      CutFrameEnds(bufs[0], n);
      OneFrame(bufs);
      return 0;
    }
    var j := PrefixRoundTrip(bufs[1..], n - |first|);
    k := j + 1;
    PrefixOneMore(bufs, n, j);
  }

  lemma PrefixOneMore(bufs: seq<seq<Byte>>, n: nat, j: nat)
    requires Sendable(bufs) && bufs != [] && |Frame(bufs[0])| <= n <= |FrameAll(bufs)| && j < |bufs|
    requires var m := n - |Frame(bufs[0])|;
             && m <= |FrameAll(bufs[1..])| && Frames(FrameAll(bufs[1..])[..m]) == bufs[1..][..j]
             && |FrameAll(bufs[1..][..j])| <= m && (j < |bufs[1..]| ==> m < |FrameAll(bufs[1..][..j + 1])|)
    ensures Frames(FrameAll(bufs)[..n]) == bufs[..j + 1]
    ensures |FrameAll(bufs[..j + 1])| <= n && (j + 1 < |bufs| ==> n < |FrameAll(bufs[..j + 2])|)
  {
    hide Frame, FrameAll, FirstFrame;
    var first, more, m := Frame(bufs[0]), FrameAll(bufs[1..]), n - |Frame(bufs[0])|;
    FrameAllFront(bufs);
    assert FrameAll(bufs)[..n] == first + more[..m];
    FrameRoundTrip(bufs[0], more[..m]);
    FramesUnfold(first + more[..m]);
    assert bufs[..j + 1] == [bufs[0]] + bufs[1..][..j];
    PrefixFront(bufs, j + 1);
    if j + 1 < |bufs| {
      PrefixFront(bufs, j + 2);
    }
  }

  lemma PrefixFront(bufs: seq<seq<Byte>>, k: nat)
    requires 0 < k <= |bufs|
    ensures FrameAll(bufs[..k]) == Frame(bufs[0]) + FrameAll(bufs[1..][..k - 1])
  {
    hide Frame;
    FrameAllFront(bufs[..k]);
    assert bufs[..k][1..] == bufs[1..][..k - 1];
  }

  lemma OneFrame(bufs: seq<seq<Byte>>)
    requires bufs != []
    ensures FrameAll(bufs[..0]) == [] && FrameAll(bufs[..1]) == Frame(bufs[0])
  {
    hide Frame;
    assert bufs[..1][..0] == bufs[..0];
  }

  /** All frames of a whole stream are received. */
  lemma WholeRoundTrip(bufs: seq<seq<Byte>>)
    requires Sendable(bufs)
    ensures Frames(FrameAll(bufs)) == bufs
  {
    var s := FrameAll(bufs);
    var k := PrefixRoundTrip(bufs, |s|);
    assert s[..|s|] == s;
    if k < |bufs| {
      PrefixGrows(bufs, k + 1);
    }
  }

  lemma {:induction false} PrefixGrows(bufs: seq<seq<Byte>>, k: nat)
    requires k <= |bufs|
    ensures |FrameAll(bufs[..k])| <= |FrameAll(bufs)|
    decreases |bufs|
  {
    if k < |bufs| {
      var front := bufs[..|bufs| - 1];
      PrefixGrows(front, k);
      assert front[..k] == bufs[..k];
    } else {
      assert bufs[..k] == bufs;
    }
  }

  lemma FirstFrameWasSent(s: seq<Byte>)
    requires FirstFrame(s).Received?
    ensures var f := FirstFrame(s); |f.b| <= SIZE_MAX && s == Frame(f.b) + f.rest && |f.rest| < |s|
  {
    var f := FirstFrame(s);
    assert s == s[..4] + f.b + f.rest;
  }

  /** Nothing is invented: of any stream at all, what was received frames to its beginning. */
  lemma {:induction false} ReceivedWasSent(s: seq<Byte>)
    ensures Sendable(Frames(s)) && FrameAll(Frames(s)) <= s
    decreases |s|
  {
    hide Frame, FirstFrame, FrameAll;
    var first := FirstFrame(s);
    FramesUnfold(s);
    if first.Received? {
      ReceivedWasSent(first.rest);
      FirstFrameWasSent(s);
      FrameAllFront(Frames(s));
      assert Frames(s)[1..] == Frames(first.rest);
    } else {
      NoFrames();
    }
  }

  // ---- The whole stack ----

  datatype Message = Message(head: Head, fields: BodyFields)

  function MessageBytes(m: Message): (s: seq<Byte>)
    ensures |s| == MSG_HEAD_LEN + BODY_HEAD + |m.fields.body|
  {
    HeadBytes(m.head) + BodyBytes(m.fields)
  }

  /** What a receiver makes of a frame: no message if the head or the body is too short. */
  function MessageOf(b: seq<Byte>): Option<Message> {
    var m := Unpacked(b);
    if m.None? || |m.value.body| < BODY_HEAD then None
    else Some(Message(m.value.head, FilledBody(BodyFields(0, 0, 0, 0, 0, []), m.value.body)))
  }

  /** A frame is read as m exactly if m is what was packed into it. */
  lemma MessageRoundTrip(m: Message, b: seq<Byte>)
    ensures MessageOf(b) == Some(m) <==> b == MessageBytes(m)
    ensures MessageOf(b).Some? <==> |b| >= 32
  {
    var none := BodyFields(0, 0, 0, 0, 0, []);
    BodyRoundTrip(none, m.fields);
    HeadRoundTrip(SSMessage(m.head, BodyBytes(m.fields)), b);
    var u := Unpacked(b);
    if u.Some? {
      HeadRoundTrip(u.value, b);
      if |u.value.body| >= BODY_HEAD {
        BodyReMarshals(none, u.value.body);
      }
    }
  }

  function Packed(ms: seq<Message>): (r: seq<seq<Byte>>)
    ensures |r| == |ms| && forall i :: 0 <= i < |ms| ==> r[i] == MessageBytes(ms[i])
  {
    seq(|ms|, i requires 0 <= i < |ms| => MessageBytes(ms[i]))
  }

  /** Any list of messages, encoded, framed, cut off anywhere and delivered in any chunks, decodes to the messages
      whose last byte has arrived: all of them if nothing was cut off. */
  method StackRoundTrip(ms: seq<Message>, chunks: seq<seq<Byte>>) returns (received: seq<seq<Byte>>)
    requires forall i :: 0 <= i < |ms| ==> |ms[i].fields.body| <= SIZE_MAX - 32
    requires Flat(chunks) <= FrameAll(Packed(ms))
    ensures |received| <= |ms|
    ensures forall i :: 0 <= i < |received| ==> MessageOf(received[i]) == Some(ms[i])
    ensures |FrameAll(Packed(ms)[..|received|])| <= |Flat(chunks)|
    ensures |received| < |ms| ==> |Flat(chunks)| < |FrameAll(Packed(ms)[..|received| + 1])|
    ensures Flat(chunks) == FrameAll(Packed(ms)) ==> |received| == |ms|
  {
    hide Flat, FrameAll, Frames, MessageBytes, MessageOf;
    var r := new Reader(chunks);
    var codec := new SessionCodec();
    received := codec.Serve(r);
    ghost var k := PrefixRoundTrip(Packed(ms), |Flat(chunks)|);
    assert FrameAll(Packed(ms))[..|Flat(chunks)|] == Flat(chunks);
    forall i | 0 <= i < k
      ensures MessageOf(received[i]) == Some(ms[i])
    {
      MessageRoundTrip(ms[i], received[i]);
    }
    if k < |ms| {
      PrefixGrows(Packed(ms), k + 1);
    }
  }
}
