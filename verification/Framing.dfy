/** Length-prefixed framing: the writer and the reader of NetClient, and the admin codec. */
module Framing {
  import opened Prelude

  const MAX_FRAME := 65536

  type byte = x: int | 0 <= x < 256

  /** Four big-endian bytes; a larger size keeps its low 32 bits, as the casts do. */
  function Header(size: nat): seq<byte> {
    [size / 0x100_0000 % 256, size / 0x1_0000 % 256, size / 0x100 % 256, size % 256]
  }

  function SizeOf(h: seq<byte>): nat
    requires |h| >= 4
  {
    var a: int, b: int, c: int, d: int := h[0], h[1], h[2], h[3];
    a * 0x100_0000 + b * 0x1_0000 + c * 0x100 + d
  }

  function Frame(body: seq<byte>): seq<byte> { Header(|body|) + body }

  function Frames(bodies: seq<seq<byte>>): seq<seq<byte>> {
    if bodies == [] then [] else [Frame(bodies[0])] + Frames(bodies[1..])
  }

  /** How reading stops: a valid beginning of a frame is left over, or the size is refused. */
  datatype Stop = NeedMore(rest: seq<byte>) | BadSize(size: nat)

  /** The bodies the read loop obtains from a stream. */
  function Decode(stream: seq<byte>): (seq<seq<byte>>, Stop) {
    if |stream| < 4 then ([], NeedMore(stream))
    else
      var n := SizeOf(stream);
      if n == 0 || n > MAX_FRAME then ([], BadSize(n))
      else if |stream| < 4 + n then ([], NeedMore(stream))
      else
        var (bodies, stop) := Decode(stream[4 + n..]);
        ([stream[4..4 + n]] + bodies, stop)
  }

  lemma HeaderRoundTrip(size: nat)
    ensures SizeOf(Header(size)) == size % TWO32
    ensures |Header(size)| == 4
    ensures var h := Header(size);
            (h[0] as int) * 0x100_0000 + (h[1] as int) * 0x1_0000 + (h[2] as int) * 0x100 + h[3] == size % TWO32
  {
    var (a, b, c) := (size / 0x100, size / 0x1_0000, size / 0x100_0000);
    assert size == a * 0x100 + size % 256;
    assert a / 0x100 == b && b / 0x100 == c;
    assert a == b * 0x100 + a % 256 && b == c * 0x100 + b % 256;
    assert c == (c / 256) * 256 + c % 256;
    assert size == (c / 256) * TWO32 + SizeOf(Header(size));
  }

  /** A whole frame is read off the front; an empty one, which `send` does not refuse, is not. */
  lemma DecodeFrame(body: seq<byte>, rest: seq<byte>)
    requires |body| <= 65536
    ensures Decode(Frame(body) + rest) ==
            if body == [] then ([], BadSize(0)) else ([body] + Decode(rest).0, Decode(rest).1)
  {
    var s := Frame(body) + rest;
    HeaderRoundTrip(|body|);
    SizeInFront(body, rest);
    assert s[4..4 + |body|] == body && s[4 + |body|..] == rest;
  }

  /** A larger frame is refused, whatever follows its header. */
  lemma OversizeRefused(body: seq<byte>, rest: seq<byte>)
    requires 65536 < |body| < TWO32
    ensures Decode(Frame(body) + rest) == ([], BadSize(|body|))
  {
    SizeInFront(body, rest);
  }

  lemma SizeInFront(body: seq<byte>, rest: seq<byte>)
    requires |body| < TWO32
    ensures |Frame(body) + rest| >= 4 && SizeOf(Frame(body) + rest) == |body|
  {
    HeaderRoundTrip(|body|);
    assert (Frame(body) + rest)[..4] == Header(|body|);
  }

  predicate Sendable(bodies: seq<seq<byte>>) { forall i :: 0 <= i < |bodies| ==> |bodies[i]| <= MAX_FRAME }

  predicate AllNonempty(bodies: seq<seq<byte>>) { forall i :: 0 <= i < |bodies| ==> bodies[i] != [] }

  lemma FramesFirst(bodies: seq<seq<byte>>)
    requires bodies != []
    ensures Flatten(Frames(bodies)) == Frame(bodies[0]) + Flatten(Frames(bodies[1..]))
  {
    assert Frames(bodies)[1..] == Frames(bodies[1..]);
  }

  /** The reader gets back exactly what was sent if and only if no body is empty. */
  lemma {:induction false} StreamRoundTrip(bodies: seq<seq<byte>>)
    requires Sendable(bodies)
    ensures Decode(Flatten(Frames(bodies))) == (bodies, NeedMore([])) <==> AllNonempty(bodies)
    ensures Decode(Flatten(Frames(bodies))).0 <= bodies
  {
    if bodies != [] {
      var rest := bodies[1..];
      StreamRoundTrip(rest);
      FramesFirst(bodies);
      DecodeFrame(bodies[0], Flatten(Frames(rest)));
      Extended(bodies[0], rest, Decode(Flatten(Frames(rest))).0);
      assert bodies == [bodies[0]] + rest;
      assert AllNonempty(bodies) <==> bodies[0] != [] && AllNonempty(rest);
    }
  }

  lemma Extended<T>(x: T, a: seq<T>, b: seq<T>)
    ensures [x] + b == [x] + a <==> b == a
    ensures b <= a ==> [x] + b <= [x] + a
  {
    assert ([x] + a)[1..] == a && ([x] + b)[1..] == b;
  }

  lemma DecodeBeginning(body: seq<byte>, tail: seq<byte>, k: nat)
    requires 0 < |body| <= MAX_FRAME && k < 4 + |body|
    ensures Decode((Frame(body) + tail)[..k]) == ([], NeedMore((Frame(body) + tail)[..k]))
  {
    var part := (Frame(body) + tail)[..k];
    HeaderRoundTrip(|body|);
    if k >= 4 {
      assert part[..4] == Header(|body|);
      assert SizeOf(part) == SizeOf(Header(|body|)) == |body|;
    }
  }

  /** A truncated stream yields a prefix of the bodies and no protocol error. */
  lemma {:induction false} TruncatedStream(bodies: seq<seq<byte>>, k: nat)
    requires Sendable(bodies) && AllNonempty(bodies) && k <= |Flatten(Frames(bodies))|
    ensures var (got, stop) := Decode(Flatten(Frames(bodies))[..k]); got <= bodies && stop.NeedMore?
  {
    if bodies != [] {
      var (first, rest) := (bodies[0], bodies[1..]);
      var tail := Flatten(Frames(rest));
      FramesFirst(bodies);
      HeaderRoundTrip(|first|);
      assert first != [] && |Frame(first)| == 4 + |first|;
      if k < 4 + |first| {
        DecodeBeginning(first, tail, k);
      } else {
        var part := tail[..k - 4 - |first|];
        TruncatedStream(rest, k - 4 - |first|);
        assert (Frame(first) + tail)[..k] == Frame(first) + part;
        DecodeFrame(first, part);
        Extended(first, rest, Decode(part).0);
        assert bodies == [first] + rest;
      }
    } else {
      assert Decode([]) == ([], NeedMore([]));
    }
  }

  predicate Whole(stream: seq<byte>) {
    |stream| >= 4 && 0 < SizeOf(stream) <= MAX_FRAME && |stream| >= 4 + SizeOf(stream)
  }

  function FrontBody(stream: seq<byte>): seq<byte>
    requires Whole(stream)
  {
    stream[4..4 + SizeOf(stream)]
  }

  function Behind(stream: seq<byte>): seq<byte>
    requires Whole(stream)
  {
    stream[4 + SizeOf(stream)..]
  }

  lemma DecodeWhole(stream: seq<byte>)
    requires Whole(stream)
    ensures Decode(stream) == ([FrontBody(stream)] + Decode(Behind(stream)).0, Decode(Behind(stream)).1)
  {}

  /** Reading loses nothing: a stream without a bad size is its bodies' frames and the rest. */
  lemma {:induction false} DecodeIsInverse(stream: seq<byte>)
    requires Decode(stream).1.NeedMore?
    ensures stream == Flatten(Frames(Decode(stream).0)) + Decode(stream).1.rest
    ensures Sendable(Decode(stream).0) && AllNonempty(Decode(stream).0)
    decreases |stream|
  {
    if Whole(stream) {
      var (bodies, stop) := Decode(Behind(stream));
      DecodeWhole(stream);
      DecodeIsInverse(Behind(stream));
      HeaderBytes(stream);
      FramesCons(FrontBody(stream), bodies);
      Reassemble(stream, SizeOf(stream), Flatten(Frames(bodies)), stop.rest);
    } else {
      assert Decode(stream).0 == [] && Decode(stream).1 == NeedMore(stream);
    }
  }

  lemma Reassemble(stream: seq<byte>, n: nat, tail: seq<byte>, rest: seq<byte>)
    requires |stream| >= 4 + n && stream[4 + n..] == tail + rest && Header(n) == stream[..4]
    ensures stream == (Frame(stream[4..4 + n]) + tail) + rest
  {
    assert stream == stream[..4] + stream[4..4 + n] + stream[4 + n..];
  }

  lemma FramesCons(body: seq<byte>, bodies: seq<seq<byte>>)
    ensures Flatten(Frames([body] + bodies)) == Frame(body) + Flatten(Frames(bodies))
  {
    assert ([body] + bodies)[1..] == bodies;
    assert Frames([body] + bodies)[1..] == Frames(bodies);
  }

  lemma HeaderBytes(h: seq<byte>)
    requires |h| >= 4
    ensures Header(SizeOf(h)) == h[..4]
  {
    var size: int := SizeOf(h);
    var a: int, b: int, c: int, d: int := h[0], h[1], h[2], h[3];
    assert size / 0x100 == a * 0x1_0000 + b * 0x100 + c;
    assert size / 0x1_0000 == a * 0x100 + b;
    assert size / 0x100_0000 == a;
  }

  // ----- the admin codec -----

  /** `encode_frame` has no size check and casts the size to 32 bits. */
  function AdminEncode(payload: seq<byte>): seq<byte> { Header(|payload| % TWO32) + payload }

  function AdminDecodeLength(data: seq<byte>): nat { if |data| < 4 then 0 else SizeOf(data) }

  lemma HeaderKeepsLowBits(size: nat)
    ensures Header(size % TWO32) == Header(size)
  {
    var (a, b) := (Header(size), Header(size % TWO32));
    HeaderRoundTrip(size);
    HeaderRoundTrip(size % TWO32);
    HeaderBytes(a);
    HeaderBytes(b);
    assert a[..4] == a && b[..4] == b;
  }

  /** Both codecs write the same bytes, and the admin reader finds the length below 4 GiB. */
  lemma AdminAgrees(payload: seq<byte>)
    ensures AdminEncode(payload) == Frame(payload)
    ensures AdminDecodeLength(AdminEncode(payload)) == |payload| <==> |payload| < TWO32
  {
    HeaderKeepsLowBits(|payload|);
    HeaderRoundTrip(|payload|);
    assert SizeOf(Frame(payload)) == SizeOf(Header(|payload|));
  }

  // ----- the client -----

  /** The framing part of `send`. */
  method BuildFrame(body: seq<byte>) returns (frame: array<byte>)
    requires |body| <= MAX_FRAME
    ensures fresh(frame) && frame[..] == Frame(body)
  {
    frame := new byte[4 + |body|];
    frame[0], frame[1] := |body| / 0x100_0000 % 256, |body| / 0x1_0000 % 256;
    frame[2], frame[3] := |body| / 0x100 % 256, |body| % 256;
    for i := 0 to |body|
      invariant frame[..4 + i] == Header(|body|) + body[..i]
    {
      frame[4 + i] := body[i];
    }
    assert body[..|body|] == body;
  }

  /** The loop of `read_loop` over everything one connection delivers. */
  method ReadLoop(stream: seq<byte>) returns (bodies: seq<seq<byte>>, stop: Stop)
    ensures (bodies, stop) == Decode(stream)
  {
    bodies := [];
    var left := stream;
    assert [] + Decode(stream).0 == Decode(stream).0;
    while true
      invariant Decode(stream).0 == bodies + Decode(left).0 && Decode(stream).1 == Decode(left).1
      decreases |left|
    {
      assert bodies + [] == bodies;
      if |left| < 4 {
        return bodies, NeedMore(left);
      }
      var n := SizeOf(left);
      if n == 0 || n > MAX_FRAME {
        return bodies, BadSize(n);
      }
      if |left| < 4 + n {
        return bodies, NeedMore(left);
      }
      DecodeWhole(left);
      OneMore(bodies, FrontBody(left), Decode(Behind(left)).0);
      bodies := bodies + [left[4..4 + n]];
      left := left[4 + n..];
    }
  }

  lemma OneMore<T>(a: seq<T>, x: T, b: seq<T>)
    ensures a + ([x] + b) == (a + [x]) + b
  {}

  /** The outbound half of a NetClient; everything below runs on its strand. */
  class NetClient {
    var sendQueue: seq<seq<byte>>
    /** What the current socket has accepted. */
    ghost var wire: seq<byte>
    /** The unsent part of a frame on which the socket broke. */
    ghost var broken: seq<byte>
    /** Bodies posted since the queue was last cleared. */
    ghost var posted: seq<seq<byte>>

    ghost predicate Valid() reads this {
      && Sendable(posted)
      && Flatten(Frames(posted)) == wire + broken + Flatten(sendQueue)
    }

    constructor ()
      ensures Valid() && posted == [] && sendQueue == []
    {
      sendQueue, wire, broken, posted := [], [], [], [];
    }

    method Send(body: seq<byte>) returns (dropped: bool)
      requires Valid()
      modifies this`sendQueue, this`posted
      ensures Valid()
      ensures dropped <==> |body| > 65536
      ensures posted == if dropped then old(posted) else old(posted) + [body]
      ensures sendQueue == if dropped then old(sendQueue) else old(sendQueue) + [Frame(body)]
    {
      if |body| > MAX_FRAME {
        return true;
      }
      var frame := BuildFrame(body);
      PostOne(posted, body, wire + broken, sendQueue);
      sendQueue := sendQueue + [frame[..]];
      posted := posted + [body];
      return false;
    }

    /** One turn of `write_loop`: the socket takes the front frame, or breaks after some bytes of it. */
    method WriteFront(accepted: nat)
      requires Valid() && broken == [] && sendQueue != [] && accepted <= |sendQueue[0]|
      modifies this`sendQueue, this`wire, this`broken
      ensures Valid()
      ensures sendQueue == old(sendQueue)[1..]
      ensures wire == old(wire) + old(sendQueue)[0][..accepted]
      ensures broken == old(sendQueue)[0][accepted..]
    {
      ghost var frame := sendQueue[0];
      sendQueue := sendQueue[1..];
      assert frame == frame[..accepted] + frame[accepted..];
      wire, broken := wire + frame[..accepted], frame[accepted..];
    }

    /** The connection ended: `run` drops what is still queued before it reconnects. */
    method Disconnected()
      modifies this
      ensures Valid() && sendQueue == [] && posted == [] && wire == []
    {
      while sendQueue != []
        decreases |sendQueue|
      {
        sendQueue := sendQueue[1..];
      }
      wire, broken, posted := [], [], [];
    }

    /** At any moment the peer's reader has a prefix of the posted bodies, in posting order. */
    lemma PeerReadsPrefix()
      requires Valid() && AllNonempty(posted)
      ensures Decode(wire).0 <= posted && Decode(wire).1.NeedMore?
      ensures broken == [] && sendQueue == [] ==> Decode(wire).0 == posted
    {
      var all := Flatten(Frames(posted));
      assert all[..|wire|] == wire;
      TruncatedStream(posted, |wire|);
      if broken == [] && sendQueue == [] {
        assert all == wire;
        StreamRoundTrip(posted);
      }
    }
  }

  /** Posting a body and queueing its frame extend the promised and the remaining bytes alike. */
  lemma PostOne(bodies: seq<seq<byte>>, body: seq<byte>, out: seq<byte>, queue: seq<seq<byte>>)
    requires Flatten(Frames(bodies)) == out + Flatten(queue)
    ensures Flatten(Frames(bodies + [body])) == out + Flatten(queue + [Frame(body)])
  {
    FramesSnoc(bodies, body);
    calc {
      Flatten(Frames(bodies + [body]));
      { FlattenAppend(Frames(bodies), [Frame(body)]); }
      (out + Flatten(queue)) + Flatten([Frame(body)]);
      out + (Flatten(queue) + Flatten([Frame(body)]));
      { FlattenAppend(queue, [Frame(body)]); }
      out + Flatten(queue + [Frame(body)]);
    }
  }

  lemma {:induction false} FramesSnoc(bodies: seq<seq<byte>>, body: seq<byte>)
    ensures Frames(bodies + [body]) == Frames(bodies) + [Frame(body)]
  {
    if bodies == [] {
      assert [] + [body] == [body];
    } else {
      FramesSnoc(bodies[1..], body);
      assert (bodies + [body])[1..] == bodies[1..] + [body];
    }
  }
}
