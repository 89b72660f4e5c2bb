/**
  The specification of the stream protocol: a frame is a four-byte big-endian length
  followed by that many bytes.  Every decoder of the system (the server's codec, the C
  client's ring parser, the Python client's deque parser) is proved against `Decode`.
 */
module Framing {
  import opened Wire

  type Message = Bytes

  const HEADER: int := 4       // kHeaderLen, NET_PACKAGE_LENGTH
  const MAX_BODY: int := 65536 // the largest length the server's codec accepts

  predicate Small(m: Message) {
    |m| <= MAX_BODY
  }

  function Encode(m: Message): Bytes
    requires |m| < TWO_TO_THE_31
  {
    HostToNetwork32(|m|) + m
  }

  ghost predicate AllSmall(ms: seq<Message>) {
    forall i :: 0 <= i < |ms| ==> Small(ms[i])
  }

  ghost function EncodeAll(ms: seq<Message>): Bytes
    requires AllSmall(ms)
  {
    if ms == [] then [] else Encode(ms[0]) + EncodeAll(ms[1..])
  }

  /** A complete, acceptable frame stands at the front of `b`. */
  predicate Ready(b: Bytes) {
    |b| >= HEADER && 0 <= NetworkToHost32(b) <= MAX_BODY && |b| >= NetworkToHost32(b) + HEADER
  }

  /** The header at the front of `b` is one the codec refuses. */
  predicate Stuck(b: Bytes) {
    |b| >= HEADER && (NetworkToHost32(b) > MAX_BODY || NetworkToHost32(b) < 0)
  }

  function Body(b: Bytes): Message
    requires Ready(b)
  {
    b[HEADER..HEADER + NetworkToHost32(b)]
  }

  function Tail(b: Bytes): Bytes
    requires Ready(b)
  {
    b[HEADER + NetworkToHost32(b)..]
  }

  datatype Decoded = Decoded(msgs: seq<Message>, rest: Bytes)

  /** The specification decoder: take complete frames off the front while there are any. */
  function Decode(b: Bytes): (d: Decoded)
    decreases |b|
  {
    if Ready(b) then
      var d := Decode(Tail(b));
      Decoded([Body(b)] + d.msgs, d.rest)
    else
      Decoded([], b)
  }

  function Concat(chunks: seq<Bytes>): Bytes {
    if chunks == [] then [] else chunks[0] + Concat(chunks[1..])
  }

  /** Decoding chunk by chunk, each time resuming from the bytes left over. */
  function Feed(pending: Bytes, chunks: seq<Bytes>): Decoded
    decreases |chunks|
  {
    if chunks == [] then Decoded([], pending)
    else
      var d := Decode(pending + chunks[0]);
      var e := Feed(d.rest, chunks[1..]);
      Decoded(d.msgs + e.msgs, e.rest)
  }

  /** A frame on the bytes: four bytes that read as the length of the message, most significant
      first, and then the message. */
  lemma FrameLayout(m: Message)
    requires |m| < TWO_TO_THE_31
    ensures |Encode(m)| == 4 + |m| && Encode(m)[4..] == m && Unsigned32(Encode(m)) == |m|
  {
    ToBytesAndBack(|m|);
    assert Encode(m)[..4] == HostToNetwork32(|m|);
  }

  // ----- Splitting a stream anywhere -----

  lemma ReadyExtends(a: Bytes, b: Bytes)
    requires Ready(a)
    ensures Ready(a + b)
    ensures Body(a + b) == Body(a)
    ensures Tail(a + b) == Tail(a) + b
  {
    assert NetworkToHost32(a + b) == NetworkToHost32(a);
  }

  lemma {:induction false} DecodeSplit(a: Bytes, b: Bytes)
    ensures var d := Decode(a);
            var e := Decode(d.rest + b);
            Decode(a + b) == Decoded(d.msgs + e.msgs, e.rest)
    decreases |a|
  {
    if Ready(a) {
      ReadyExtends(a, b);
      DecodeSplit(Tail(a), b);
      var d := Decode(Tail(a));
      var e := Decode(d.rest + b);
      assert [Body(a)] + (d.msgs + e.msgs) == ([Body(a)] + d.msgs) + e.msgs;
    } else {
      var e := Decode(a + b);
      assert [] + e.msgs == e.msgs;
    }
  }

  lemma {:induction false} DecodeRestIdle(b: Bytes)
    ensures !Ready(Decode(b).rest)
    ensures Decode(Decode(b).rest) == Decoded([], Decode(b).rest)
    decreases |b|
  {
    if Ready(b) {
      DecodeRestIdle(Tail(b));
    }
  }

  lemma IdleStream(b: Bytes)
    requires !Ready(b)
    ensures Decode(b) == Decoded([], b)
  {
  }

  /** Chunking independence: any split of any stream, valid or not, gives the same messages
      and the same leftover bytes as the whole stream fed at once. */
  lemma {:induction false} FeedIsDecode(pending: Bytes, chunks: seq<Bytes>)
    requires !Ready(pending)
    ensures Feed(pending, chunks) == Decode(pending + Concat(chunks))
    decreases |chunks|
  {
    if chunks == [] {
      assert pending + [] == pending;
    } else {
      var d := Decode(pending + chunks[0]);
      DecodeRestIdle(pending + chunks[0]);
      FeedIsDecode(d.rest, chunks[1..]);
      DecodeSplit(pending + chunks[0], Concat(chunks[1..]));
      assert pending + (chunks[0] + Concat(chunks[1..])) == pending + chunks[0] + Concat(chunks[1..]);
    }
  }

  // ----- Decode is the inverse of EncodeAll -----

  lemma EncodeReady(m: Message, b: Bytes)
    requires Small(m)
    ensures Ready(Encode(m) + b)
    ensures Body(Encode(m) + b) == m
    ensures Tail(Encode(m) + b) == b
  {
    var e := Encode(m) + b;
    EndianInverse(|m|, e[..4]);
    assert e[..4] == HostToNetwork32(|m|);
    assert NetworkToHost32(e) == NetworkToHost32(e[..4]);
  }

  lemma ReadyEncode(b: Bytes)
    requires Ready(b)
    ensures Encode(Body(b)) + Tail(b) == b
  {
    var n := NetworkToHost32(b);
    EndianInverse(n, b[..4]);
    assert Unsigned32(b[..4]) == n;
    assert HostToNetwork32(n) == b[..4];
    assert b == b[..4] + b[4..4 + n] + b[4 + n..];
  }

  lemma DecodeSoundStep(b: Bytes, d: Decoded)
    requires Ready(b)
    requires AllSmall(d.msgs)
    requires EncodeAll(d.msgs) + d.rest == Tail(b)
    ensures AllSmall([Body(b)] + d.msgs)
    ensures EncodeAll([Body(b)] + d.msgs) + d.rest == b
  {
    ReadyEncode(b);
    var m := Body(b);
    assert ([m] + d.msgs)[1..] == d.msgs;
    assert (Encode(m) + EncodeAll(d.msgs)) + d.rest == Encode(m) + (EncodeAll(d.msgs) + d.rest);
  }

  /** Every decoded prefix re-encodes to exactly the bytes it came from. */
  lemma {:induction false} DecodeSound(b: Bytes)
    ensures var d := Decode(b);
            && AllSmall(d.msgs)
            && EncodeAll(d.msgs) + d.rest == b
            && !Ready(d.rest)
    decreases |b|
  {
    if Ready(b) {
      DecodeSound(Tail(b));
      DecodeSoundStep(b, Decode(Tail(b)));
    } else {
      assert [] + b == b;
    }
  }

  /** Round trip, with any incomplete or refused tail behind the frames: together with
      `DecodeSound` this pins `Decode` down without naming its recursion. */
  lemma {:induction false} DecodeUnique(ms: seq<Message>, r: Bytes)
    requires AllSmall(ms)
    requires !Ready(r)
    ensures Decode(EncodeAll(ms) + r) == Decoded(ms, r)
    decreases |ms|
  {
    if ms == [] {
      assert EncodeAll(ms) + r == r;
    } else {
      var t := EncodeAll(ms[1..]) + r;
      assert EncodeAll(ms) + r == Encode(ms[0]) + t;
      EncodeReady(ms[0], t);
      DecodeUnique(ms[1..], r);
      assert [ms[0]] + ms[1..] == ms;
    }
  }

  lemma {:induction false} EncodeAllConcat(ms: seq<Message>, ns: seq<Message>)
    requires AllSmall(ms) && AllSmall(ns)
    ensures AllSmall(ms + ns)
    ensures EncodeAll(ms + ns) == EncodeAll(ms) + EncodeAll(ns)
    decreases |ms|
  {
    if ms == [] {
      assert ms + ns == ns;
    } else {
      EncodeAllConcat(ms[1..], ns);
      assert ms + ns == [ms[0]] + (ms[1..] + ns);
      assert (ms + ns)[1..] == ms[1..] + ns;
      var e, f, g := Encode(ms[0]), EncodeAll(ms[1..]), EncodeAll(ns);
      assert e + (f + g) == (e + f) + g;
      hide Encode;
    }
  }

  lemma EncodeAllSnoc(ms: seq<Message>, m: Message)
    requires AllSmall(ms) && Small(m)
    ensures AllSmall(ms + [m])
    ensures EncodeAll(ms + [m]) == EncodeAll(ms) + Encode(m)
  {
    EncodeAllConcat(ms, [m]);
    assert [m][1..] == [];
  }

  /** The bytes of a whole exchange, cut anywhere, decode to the messages sent. */
  lemma RoundTrip(ms: seq<Message>, chunks: seq<Bytes>)
    requires AllSmall(ms)
    requires Concat(chunks) == EncodeAll(ms)
    ensures Feed([], chunks) == Decoded(ms, [])
  {
    FeedIsDecode([], chunks);
    DecodeUnique(ms, []);
    assert [] + Concat(chunks) == EncodeAll(ms) + [];
  }
}
