/**
  The server seen from the network: connections come and go, and bytes arrive in chunks on
  many connections, interleaved in any way.  Each chunk is appended to what its connection has
  left over and decoded, and the messages found are handled at once (p2pServer/codec.h,
  LengthHeaderCodec::onMessage, calling p2pServer::onMessage).
 */
module Relay {
  import opened Wire
  import opened Framing
  import opened Registry

  datatype Net<C> =
    | Open(conn: C, time: int)
    | Close(conn: C)
    | Input(conn: C, chunk: Bytes, time: int)
    | Timer(time: int)

  ghost function Left<C>(pending: map<C, Bytes>, c: C): Bytes {
    if c in pending then pending[c] else []
  }

  ghost function Arrivals<C>(c: C, ms: seq<Message>, time: int): seq<Event<C>> {
    if ms == [] then [] else [Arrive(c, ms[0], time)] + Arrivals(c, ms[1..], time)
  }

  /** One call of the codec: the messages in order, then a shutdown if it is stuck. */
  ghost function Received<C>(c: C, d: Decoded, time: int): seq<Event<C>> {
    Arrivals(c, d.msgs, time) + (if Stuck(d.rest) then [Refused(c)] else [])
  }

  ghost function Events<C>(pending: map<C, Bytes>, n: Net<C>): seq<Event<C>> {
    match n
    case Open(c, t) => [Up(c, t)]
    case Close(c) => [Gone(c)]
    case Input(c, chunk, t) => Received(c, Decode(Left(pending, c) + chunk), t)
    case Timer(t) => [Tick(t)]
  }

  ghost function Next<C>(pending: map<C, Bytes>, n: Net<C>): map<C, Bytes> {
    if n.Input? then pending[n.conn := Decode(Left(pending, n.conn) + n.chunk).rest] else pending
  }

  /** The server's events for a whole history of the network. */
  ghost function Flatten<C>(pending: map<C, Bytes>, ns: seq<Net<C>>): seq<Event<C>>
    decreases |ns|
  {
    if ns == [] then [] else Events(pending, ns[0]) + Flatten(Next(pending, ns[0]), ns[1..])
  }

  /** What each connection has left over after a history. */
  ghost function Pending<C>(pending: map<C, Bytes>, ns: seq<Net<C>>): map<C, Bytes>
    decreases |ns|
  {
    if ns == [] then pending else Pending(Next(pending, ns[0]), ns[1..])
  }

  /** Everything that arrived on `c`, as one stream. */
  ghost function Stream<C>(ns: seq<Net<C>>, c: C): Bytes {
    if ns == [] then [] else (if ns[0].Input? && ns[0].conn == c then ns[0].chunk else []) + Stream(ns[1..], c)
  }

  ghost function MessagesOf<C>(es: seq<Event<C>>, c: C): seq<Message> {
    if es == [] then []
    else (if es[0].Arrive? && es[0].conn == c then [es[0].message] else []) + MessagesOf(es[1..], c)
  }

  // ----- Histories in a row -----

  lemma {:induction false} FlattenConcat<C>(pending: map<C, Bytes>, ns: seq<Net<C>>, ks: seq<Net<C>>)
    ensures Flatten(pending, ns + ks) == Flatten(pending, ns) + Flatten(Pending(pending, ns), ks)
    decreases |ns|
  {
    hide Events, Next;
    if ns == [] {
      assert ns + ks == ks;
    } else {
      assert (ns + ks)[0] == ns[0] && (ns + ks)[1..] == ns[1..] + ks;
      FlattenConcat(Next(pending, ns[0]), ns[1..], ks);
    }
  }

  // ----- Per-connection streams -----

  lemma {:induction false} MessagesConcat<C>(es: seq<Event<C>>, fs: seq<Event<C>>, c: C)
    ensures MessagesOf(es + fs, c) == MessagesOf(es, c) + MessagesOf(fs, c)
  {
    if es == [] {
      assert es + fs == fs;
    } else {
      assert (es + fs)[1..] == es[1..] + fs;
      MessagesConcat(es[1..], fs, c);
    }
  }

  lemma {:induction false} ArrivalsOf<C>(c: C, ms: seq<Message>, time: int, x: C)
    ensures MessagesOf(Arrivals(c, ms, time), x) == if x == c then ms else []
  {
    if ms != [] {
      ArrivalsOf(c, ms[1..], time, x);
      assert Arrivals(c, ms, time)[1..] == Arrivals(c, ms[1..], time);
    }
  }

  lemma {:induction false} ArrivalsAre<C>(c: C, ms: seq<Message>, time: int)
    ensures |Arrivals(c, ms, time)| == |ms|
    ensures forall i :: 0 <= i < |ms| ==> Arrivals(c, ms, time)[i] == Arrive(c, ms[i], time)
  {
    if ms != [] {
      ArrivalsAre(c, ms[1..], time);
    }
  }

  lemma EventsOf<C>(pending: map<C, Bytes>, n: Net<C>, x: C)
    ensures MessagesOf(Events(pending, n), x) ==
      if n.Input? && n.conn == x then Decode(Left(pending, x) + n.chunk).msgs else []
  {
    match n
    case Input(c, chunk, t) =>
      var d := Decode(Left(pending, c) + chunk);
      var tail := if Stuck(d.rest) then [Refused(c)] else [];
      ArrivalsOf(c, d.msgs, t, x);
      MessagesConcat(Arrivals(c, d.msgs, t), tail, x);
      assert MessagesOf(tail, x) == [];
    case _ =>
  }

  /** Chunking independence in the whole server: whatever the interleaving and the cutting,
      the messages handled for a connection are those its byte stream decodes to. */
  lemma {:induction false} MessagesAreDecoded<C>(pending: map<C, Bytes>, ns: seq<Net<C>>, x: C)
    requires !Ready(Left(pending, x))
    ensures MessagesOf(Flatten(pending, ns), x) == Decode(Left(pending, x) + Stream(ns, x)).msgs
    decreases |ns|
  {
    hide Ready, Decode, Events, MessagesOf;
    if ns == [] {
      IdleStream(Left(pending, x));
      NoMessages(x);
      assert Left(pending, x) + [] == Left(pending, x);
    } else {
      var n, next, rest := ns[0], Next(pending, ns[0]), Stream(ns[1..], x);
      EventsOf(pending, n, x);
      MessagesConcat(Events(pending, n), Flatten(next, ns[1..]), x);
      if n.Input? && n.conn == x {
        var b := Left(pending, x) + n.chunk;
        DecodeRestIdle(b);
        MessagesAreDecoded(next, ns[1..], x);
        DecodeSplit(b, rest);
        assert Left(pending, x) + (n.chunk + rest) == b + rest;
      } else {
        assert Left(next, x) == Left(pending, x);
        MessagesAreDecoded(next, ns[1..], x);
        assert [] + rest == rest;
      }
    }
  }

  lemma NoMessages<C>(x: C)
    ensures MessagesOf([], x) == []
  {
  }

  /** If a connection's stream is so far a prefix of some encoded messages, the messages handled
      are a prefix of them. */
  lemma PrefixArrives<C>(ns: seq<Net<C>>, x: C, ms: seq<Message>, later: Bytes)
    requires AllSmall(ms) && Stream(ns, x) + later == EncodeAll(ms)
    ensures MessagesOf(Flatten(map[], ns), x) <= ms
    ensures later == [] ==> MessagesOf(Flatten(map[], ns), x) == ms
  {
    hide Flatten, MessagesOf, Decode, EncodeAll, Stream;
    MessagesAreDecoded(map[], ns, x);
    assert [] + Stream(ns, x) == Stream(ns, x);
    DecodeSplit(Stream(ns, x), later);
    DecodeUnique(ms, []);
    assert EncodeAll(ms) + [] == EncodeAll(ms);
    if later == [] {
      assert Stream(ns, x) + [] == Stream(ns, x);
    }
  }

  // ----- Runs of one codec call -----

  lemma MessageKeepsAlive<C>(s: State<C>, c: C, m: Message, time: int, x: C)
    requires Closed(s) && c in s.info && Alive(s, x)
    ensures Alive(OnMessage(s, c, m, time), x)
  {
    hide Closed, SubscribeDevice, UnsubscribeDevice, UnregisterDevice, SendData, HeartBeat;
  }

  lemma {:induction false} ReceivedCanRun<C>(s: State<C>, c: C, ms: seq<Message>, tail: seq<Event<C>>, time: int)
    requires Closed(s) && Alive(s, c) && tail in {[], [Refused(c)]}
    ensures CanRun(s, Arrivals(c, ms, time) + tail)
    decreases |ms|
  {
    hide Closed, OnMessage;
    if ms == [] {
      assert Arrivals(c, ms, time) + tail == tail;
    } else {
      var s1 := OnMessage(s, c, ms[0], time);
      MessageKeepsAlive(s, c, ms[0], time, c);
      ReceivedCanRun(s1, c, ms[1..], tail, time);
      var es := Arrivals(c, ms, time) + tail;
      assert es[0] == Arrive(c, ms[0], time) && es[1..] == Arrivals(c, ms[1..], time) + tail;
    }
  }

  // ----- Histories the network can produce -----

  /** A connection comes up once, and bytes and its end come from a connection that is up. */
  ghost predicate Possible<C>(s: State<C>, n: Net<C>) {
    match n
    case Open(c, _) => c !in s.info
    case Close(c) => Alive(s, c)
    case Input(c, _, _) => Alive(s, c)
    case Timer(_) => true
  }

  lemma PossibleRuns<C>(s: State<C>, pending: map<C, Bytes>, n: Net<C>)
    requires Closed(s) && Possible(s, n)
    ensures CanRun(s, Events(pending, n))
    ensures !n.Input? ==> Run(s, Events(pending, n)) == Step(s, Events(pending, n)[0])
  {
    hide Closed, Step, Decode;
    if n.Input? {
      var d := Decode(Left(pending, n.conn) + n.chunk);
      ReceivedCanRun(s, n.conn, d.msgs, if Stuck(d.rest) then [Refused(n.conn)] else [], n.time);
    } else {
      var es := Events(pending, n);
      assert es[1..] == [];
    }
  }

  ghost predicate CanServe<C>(s: State<C>, pending: map<C, Bytes>, ns: seq<Net<C>>)
    requires Closed(s)
    decreases |ns|
  {
    ns == []
    || (&& Possible(s, ns[0]) && CanRun(s, Events(pending, ns[0]))
        && CanServe(Run(s, Events(pending, ns[0])), Next(pending, ns[0]), ns[1..]))
  }

  lemma {:induction false} RunConcat<C>(s: State<C>, es: seq<Event<C>>, fs: seq<Event<C>>)
    requires Closed(s) && CanRun(s, es) && CanRun(Run(s, es), fs)
    ensures CanRun(s, es + fs) && Run(s, es + fs) == Run(Run(s, es), fs)
    decreases |es|
  {
    hide Closed, Step, Enabled;
    if es == [] {
      assert es + fs == fs;
    } else {
      assert (es + fs)[0] == es[0] && (es + fs)[1..] == es[1..] + fs;
      RunConcat(Step(s, es[0]), es[1..], fs);
    }
  }

  lemma {:induction false} ServedRuns<C>(s: State<C>, pending: map<C, Bytes>, ns: seq<Net<C>>)
    requires Closed(s) && CanServe(s, pending, ns)
    ensures CanRun(s, Flatten(pending, ns))
    ensures ns != [] ==>
      var s1, p1 := Run(s, Events(pending, ns[0])), Next(pending, ns[0]);
      CanRun(s1, Flatten(p1, ns[1..])) && Run(s, Flatten(pending, ns)) == Run(s1, Flatten(p1, ns[1..]))
    decreases |ns|
  {
    hide Closed, Events, Next, Possible;
    if ns != [] {
      var es := Events(pending, ns[0]);
      ServedRuns(Run(s, es), Next(pending, ns[0]), ns[1..]);
      hide Run, CanRun;
      RunConcat(s, es, Flatten(Next(pending, ns[0]), ns[1..]));
    }
  }
}
