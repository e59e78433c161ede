/**
 The fleet protocol on the wire: one frame per message, written back to back on a
 stream. Writing accepts any digest string of up to 65535 bytes; reading gives up
 on one of more than 1024.
 */
module FleetCodec {
  import opened BigEndian
  import opened Prelude

  datatype Message = Message(kind: Byte, nonce: nat, hash: seq<Byte>, size: int, offset: int)

  const MAX_WRITTEN := 65535
  const MAX_READ := 1024

  predicate InRange(m: Message) { m.nonce < 0x1_0000_0000 && Int64(m.size) && Int64(m.offset) }

  function Head(m: Message): (bs: seq<Byte>)
    ensures |bs| == 5
  {
    [m.kind] + Put(m.nonce, 4)
  }

  function Frame(m: Message): (bs: seq<Byte>)
    requires InRange(m)
    ensures |bs| == 23 + |m.hash|
  {
    Head(m) + Put(|m.hash|, 2) + m.hash + PutInt64(m.size) + PutInt64(m.offset)
  }

  /** What writing a message puts on the stream, and whether it succeeded. */
  function Encode(m: Message): (seq<Byte>, bool)
    requires InRange(m)
  {
    if |m.hash| > MAX_WRITTEN then (Head(m), false) else (Frame(m), true)
  }

  /** The next message and what follows it, or nothing when the bytes run out or the digest is too long. */
  function Decode(s: seq<Byte>): Option<(Message, seq<Byte>)> {
    if |s| < 7 then None
    else
      var n := Get(s[5..7]);
      if n > MAX_READ || |s| < 23 + n then None
      else Some((Message(s[0], Get(s[1..5]), s[7..7 + n], GetInt64(s[7 + n..15 + n]), GetInt64(s[15 + n..23 + n])),
                 s[23 + n..]))
  }

  /** The layout of a frame: kind, nonce, length of the digest, digest, size, offset; numbers big-endian. */
  lemma FrameParts(m: Message, rest: seq<Byte>)
    requires InRange(m)
    ensures var s, n := Frame(m) + rest, |m.hash|;
            && s[0] == m.kind && s[1..5] == Put(m.nonce, 4) && s[5..7] == Put(n, 2) && s[7..7 + n] == m.hash
            && s[7 + n..15 + n] == PutInt64(m.size) && s[15 + n..23 + n] == PutInt64(m.offset) && s[23 + n..] == rest
  {
  }

  /** A written message is read back, and nothing beyond it is touched, exactly when its digest fits the reader. */
  lemma DecodeEncode(m: Message, rest: seq<Byte>)
    requires InRange(m) && |m.hash| <= MAX_WRITTEN
    ensures Decode(Frame(m) + rest) == if |m.hash| <= MAX_READ then Some((m, rest)) else None
  {
    FrameParts(m, rest);
    Widths();
    GetPut(m.nonce, 4);
    GetPut(|m.hash|, 2);
    Int64RoundTrip(m.size);
    Int64RoundTrip(m.offset);
  }

  /** Only the frame of a message reads as that message. */
  lemma EncodeDecode(s: seq<Byte>)
    requires Decode(s).Some?
    ensures var (m, rest) := Decode(s).value;
            InRange(m) && |m.hash| <= MAX_READ && s == Frame(m) + rest
  {
    var (m, rest) := Decode(s).value;
    var n := |m.hash|;
    Widths();
    PutGet(s[1..5]);
    PutGet(s[5..7]);
    Int64Bytes(s[7 + n..15 + n]);
    Int64Bytes(s[15 + n..23 + n]);
    assert s == [s[0]] + s[1..5] + s[5..7] + s[7..7 + n] + s[7 + n..15 + n] + s[15 + n..23 + n] + s[23 + n..];
  }

  lemma HeadIsNoFrame(m: Message, s: seq<Byte>)
    requires InRange(m) && s <= Head(m)
    ensures Decode(s).None?
  {
  }

  /** A frame cut short does not read as any message. */
  lemma CutFrameUnread(m: Message, k: nat)
    requires InRange(m) && |m.hash| <= MAX_WRITTEN && k < |Frame(m)|
    ensures Decode(Frame(m)[..k]).None?
  {
    if k >= 7 {
      FrameParts(m, []);
      assert Frame(m) + [] == Frame(m);
      assert Frame(m)[..k][5..7] == Put(|m.hash|, 2);
      Widths();
      GetPut(|m.hash|, 2);
    }
  }

  // ----- streams ------------------------------------------------------------

  predicate AllInRange(ms: seq<Message>) { forall k :: 0 <= k < |ms| ==> InRange(ms[k]) }

  /** What a sender writes; a failed write ends the stream. */
  function Written(ms: seq<Message>): seq<Byte>
    requires AllInRange(ms)
  {
    if ms == [] then []
    else
      var (bs, ok) := Encode(ms[0]);
      if ok then bs + Written(ms[1..]) else bs
  }

  function Received(s: seq<Byte>): seq<Message>
    decreases |s|
  {
    var d := Decode(s);
    if d.None? then []
    else
      assert |d.value.1| < |s|;
      [d.value.0] + Received(d.value.1)
  }

  /** The messages before the first unreadable one that lie whole within the first `k` bytes. */
  function Whole(ms: seq<Message>, k: int): (r: seq<Message>)
    requires AllInRange(ms)
    ensures r <= ms
  {
    if ms == [] || |ms[0].hash| > MAX_READ || k < |Frame(ms[0])| then []
    else
      var rest := Whole(ms[1..], k - |Frame(ms[0])|);
      assert ms == [ms[0]] + ms[1..];
      [ms[0]] + rest
  }

  /**
   However much of a stream arrives, the receiver sees exactly the messages that
   arrived whole, in order — never a part of one, never one that was not sent.
   */
  lemma {:induction false} StreamReceived(ms: seq<Message>, k: nat)
    requires AllInRange(ms) && k <= |Written(ms)|
    ensures Received(Written(ms)[..k]) == Whole(ms, k)
    decreases |ms|
  {
    if ms != [] {
      var m, s := ms[0], Written(ms)[..k];
      if |m.hash| > MAX_WRITTEN {
        HeadIsNoFrame(m, s);
      } else if k < |Frame(m)| {
        assert s == Frame(m)[..k];
        CutFrameUnread(m, k);
      } else {
        var tail := Written(ms[1..])[..k - |Frame(m)|];
        assert s == Frame(m) + tail;
        DecodeEncode(m, tail);
        if |m.hash| <= MAX_READ { StreamReceived(ms[1..], k - |Frame(m)|); }
      }
    }
  }

  /** What is left of a stream when nothing more can be read from it. */
  function Leftover(s: seq<Byte>): seq<Byte>
    decreases |s|
  {
    var d := Decode(s);
    if d.None? then s
    else
      assert |d.value.1| < |s|;
      Leftover(d.value.1)
  }

  lemma WrittenOneMore(m: Message, ms: seq<Message>)
    requires InRange(m) && |m.hash| <= MAX_WRITTEN && AllInRange(ms)
    ensures AllInRange([m] + ms) && Written([m] + ms) == Frame(m) + Written(ms)
  {
    assert ([m] + ms)[0] == m && ([m] + ms)[1..] == ms;
  }

  lemma ReceivedOneMore(s: seq<Byte>, m: Message, rest: seq<Byte>)
    requires Decode(s) == Some((m, rest))
    ensures Received(s) == [m] + Received(rest) && Leftover(s) == Leftover(rest) && |rest| < |s|
  {
  }

  lemma Regrouped(a: seq<Byte>, b: seq<Byte>, c: seq<Byte>)
    ensures a + (b + c) == (a + b) + c
  {
  }

  /** Any stream is the frames of the messages received from it, followed by what is left over. */
  lemma {:induction false} StreamIsItsMessages(s: seq<Byte>)
    ensures AllInRange(Received(s)) && s == Written(Received(s)) + Leftover(s)
    decreases |s|, 1
  {
    if Decode(s).Some? {
      EncodeDecode(s);
      DecodedStream(s, Decode(s).value.0, Decode(s).value.1);
    }
  }

  lemma {:induction false} DecodedStream(s: seq<Byte>, m: Message, rest: seq<Byte>)
    requires Decode(s) == Some((m, rest)) && InRange(m) && |m.hash| <= MAX_READ && s == Frame(m) + rest
    ensures AllInRange(Received(s)) && s == Written(Received(s)) + Leftover(s)
    decreases |s|, 0
  {
    ReceivedOneMore(s, m, rest);
    StreamIsItsMessages(rest);
    WrittenOneMore(m, Received(rest));
    Regrouped(Frame(m), Written(Received(rest)), Leftover(rest));
  }

  lemma {:induction false} WholeWhenFitting(ms: seq<Message>)
    requires AllInRange(ms)
    ensures Whole(ms, |Written(ms)|) == ms <==> forall k :: 0 <= k < |ms| ==> |ms[k].hash| <= MAX_READ
    decreases |ms|
  {
    if ms != [] {
      WholeWhenFitting(ms[1..]);
      assert ms == [ms[0]] + ms[1..];
      var rest := ms[1..];
      if |ms[0].hash| <= MAX_READ {
        assert |Written(ms)| - |Frame(ms[0])| == |Written(rest)|;
        assert Whole(ms, |Written(ms)|) == [ms[0]] + Whole(rest, |Written(rest)|);
        assert Whole(ms, |Written(ms)|)[1..] == Whole(rest, |Written(rest)|);
        assert forall k :: 0 <= k < |rest| ==> rest[k] == ms[k + 1];
      }
    }
  }

  /**
   Decoding the frames of a list of messages gives back exactly that list if and only
   if every digest fits the reader, and then no byte is left over.
   */
  lemma WholeStream(ms: seq<Message>)
    requires AllInRange(ms)
    ensures Received(Written(ms)) == ms <==> forall k :: 0 <= k < |ms| ==> |ms[k].hash| <= MAX_READ
    ensures Received(Written(ms)) == ms ==> Leftover(Written(ms)) == []
  {
    StreamReceived(ms, |Written(ms)|);
    assert Written(ms)[..|Written(ms)|] == Written(ms);
    WholeWhenFitting(ms);
    StreamIsItsMessages(Written(ms));
  }

  /** The receiving loop: messages are handed on one by one until the stream cannot be read further. */
  method HandleStream(s: seq<Byte>) returns (handed: seq<Message>)
    ensures handed == Received(s)
  {
    handed := [];
    var left := s;
    while true
      invariant handed + Received(left) == Received(s)
      decreases |left|
    {
      var d := Decode(left);
      if d.None? { return; }
      handed := handed + [d.value.0];
      left := d.value.1;
    }
  }
}
