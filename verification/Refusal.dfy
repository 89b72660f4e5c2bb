/**
  Which lengths the server's codec refuses, and what that means for a connection
  (p2pServer/codec.h, LengthHeaderCodec::onMessage).
 */
module Refusal {
  import opened Wire
  import opened Framing
  import opened Registry
  import opened Ownership
  import opened PubSub
  import opened Relay
  import opened Delivery

  /** One call of the codec shuts the connection down if and only if what it leaves starts with
      a length above 65536, read as an unsigned number: negative lengths are among these. */
  lemma RefusedExactly<C>(c: C, b: Bytes, t: int)
    ensures var rest := Decode(b).rest;
            Refused(c) in Received(c, Decode(b), t) <==> |rest| >= 4 && Unsigned32(rest) > 65536
  {
    hide Decode, Arrivals, Unsigned32;
    ArrivalsAre(c, Decode(b).msgs, t);
    var tail := if Stuck(Decode(b).rest) then [Refused(c)] else [];
    var es := Arrivals(c, Decode(b).msgs, t);
    assert Refused(c) !in es;
    assert tail != [] ==> (es + tail)[|es|] == Refused(c);
    assert Refused(c) in es + tail <==> Refused(c) in tail;
  }

  lemma {:induction false} OwnMessagesKeepConnected<C>(s: State<C>, c: C, ms: seq<Message>, t: int)
    requires Closed(s) && Alive(s, c)
    ensures CanRun(s, Arrivals(c, ms, t))
    ensures var r := Run(s, Arrivals(c, ms, t)); Alive(r, c) && (IsConnected(r, c) <==> IsConnected(s, c))
    decreases |ms|
  {
    hide Closed, OnMessage;
    if ms != [] {
      var s1 := OnMessage(s, c, ms[0], t);
      MessageKeepsAlive(s, c, ms[0], t, c);
      OwnMessageKeepsConnected(s, c, ms[0], t);
      OwnMessagesKeepConnected(s1, c, ms[1..], t);
      assert Arrivals(c, ms, t)[1..] == Arrivals(c, ms[1..], t);
    }
  }

  lemma OwnMessageKeepsConnected<C>(s: State<C>, c: C, m: Message, t: int)
    requires Closed(s) && c in s.info
    ensures IsConnected(OnMessage(s, c, m, t), c) <==> IsConnected(s, c)
  {
    hide Closed, Effect;
    EffectSent(s, c, m, t, c);
  }

  /** The connection is connected after the call if and only if it was before and no such length
      is left; no message of its own shuts it down. */
  lemma CodecShutsDown<C>(s: State<C>, c: C, b: Bytes, t: int)
    requires Closed(s) && Alive(s, c)
    ensures CanRun(s, Received(c, Decode(b), t))
    ensures var r, rest := Run(s, Received(c, Decode(b), t)), Decode(b).rest;
            && c in r.info
            && (IsConnected(r, c) <==> IsConnected(s, c) && !(|rest| >= 4 && Unsigned32(rest) > 65536))
  {
    hide Closed, Decode, Arrivals, Unsigned32, Run, CanRun;
    var es, d := Arrivals(c, Decode(b).msgs, t), Decode(b);
    OwnMessagesKeepConnected(s, c, d.msgs, t);
    if Stuck(d.rest) {
      RefusedRuns(Run(s, es), c);
      RunConcat(s, es, [Refused(c)]);
    } else {
      assert es + [] == es;
    }
  }

  lemma RefusedRuns<C>(s: State<C>, c: C)
    requires Closed(s) && Alive(s, c)
    ensures CanRun(s, [Refused(c)]) && c in Run(s, [Refused(c)]).info && !IsConnected(Run(s, [Refused(c)]), c)
  {
    hide Closed;
    var es: seq<Event<C>> := [Refused(c)];
    assert es[1..] == [];
  }

  /** A header above the limit at the front of the buffer is enough. */
  lemma OverlongShutsDown<C>(s: State<C>, c: C, b: Bytes, t: int)
    requires Closed(s) && Alive(s, c) && |b| >= 4 && Unsigned32(b) > 65536
    ensures Decode(b) == Decoded([], b) && CanRun(s, Received(c, Decode(b), t))
    ensures !IsConnected(Run(s, Received(c, Decode(b), t)), c)
  {
    hide Closed, Unsigned32, Run, CanRun, Received;
    CodecShutsDown(s, c, b, t);
  }

  /** Over any history of the network: a connection whose stream so far ends in a refused length
      is not connected, however the stream was cut and whatever came after. */
  lemma {:induction false} RefusedForEver<C>(s: State<C>, pending: map<C, Bytes>, ns: seq<Net<C>>, c: C)
    requires Closed(s) && CanServe(s, pending, ns) && !Ready(Left(pending, c))
    requires |Left(pending, c)| >= 4 && Unsigned32(Left(pending, c)) > 65536 ==> c in s.info && !IsConnected(s, c)
    ensures CanRun(s, Flatten(pending, ns))
    ensures var rest := Decode(Left(pending, c) + Stream(ns, c)).rest;
            |rest| >= 4 && Unsigned32(rest) > 65536 ==> !IsConnected(Run(s, Flatten(pending, ns)), c)
    decreases |ns|
  {
    hide Closed, Ready, Decode, Unsigned32, Run, CanRun, Events, Possible;
    ServedRuns(s, pending, ns);
    if ns == [] {
      IdleStream(Left(pending, c));
      assert Left(pending, c) + [] == Left(pending, c);
      NothingRuns(s);
    } else {
      var n, next, rest := ns[0], Next(pending, ns[0]), Stream(ns[1..], c);
      var s1 := Run(s, Events(pending, n));
      if n.Input? && n.conn == c {
        var b := Left(pending, c) + n.chunk;
        InputShutsDown(s, pending, n, c);
        DecodeRestIdle(b);
        DecodeSplit(b, rest);
        assert Left(pending, c) + (n.chunk + rest) == b + rest;
      } else {
        assert Left(next, c) == Left(pending, c) && [] + rest == rest;
        if c in s.info && !IsConnected(s, c) {
          SilentForEver(s, Events(pending, n), c);
        }
      }
      RefusedForEver(s1, next, ns[1..], c);
    }
  }

  lemma NothingRuns<C>(s: State<C>)
    requires Closed(s)
    ensures CanRun(s, []) && Run(s, []) == s
  {
  }

  lemma InputShutsDown<C>(s: State<C>, pending: map<C, Bytes>, n: Net<C>, c: C)
    requires Closed(s) && n.Input? && n.conn == c && Possible(s, n)
    ensures CanRun(s, Events(pending, n))
    ensures var r, rest := Run(s, Events(pending, n)), Decode(Left(pending, c) + n.chunk).rest;
            |rest| >= 4 && Unsigned32(rest) > 65536 ==> c in r.info && !IsConnected(r, c)
  {
    hide Closed, Decode, Unsigned32, Run, CanRun, Received;
    CodecShutsDown(s, c, Left(pending, c) + n.chunk, n.time);
  }
}
