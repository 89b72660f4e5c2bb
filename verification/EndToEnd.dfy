/**
  The whole path: commands are composed and framed by one client, cut anywhere by the network,
  decoded, relayed and framed again by the server, cut anywhere again, and parsed into the inbox
  of another client.
 */
module EndToEnd {
  import opened Wire
  import opened Framing
  import opened Protocol
  import opened Registry
  import opened Ownership
  import opened PubSub
  import opened Relay
  import opened Delivery
  import opened ClientSpec
  import CClient
  import PyClient
  import Server

  // ----- What the server handles -----

  /** Every message the server handles in this run is at most this long. */
  ghost predicate Bounded<C>(es: seq<Event<C>>, max: int) {
    forall i :: 0 <= i < |es| && es[i].Arrive? ==> |es[i].message| <= max
  }

  lemma EventsAreOwn<C>(pending: map<C, Bytes>, n: Net<C>, i: nat)
    requires i < |Events(pending, n)| && Events(pending, n)[i].Arrive?
    ensures n.Input? && Events(pending, n)[i].conn == n.conn && Small(Events(pending, n)[i].message)
  {
    hide Decode, Arrivals, EncodeAll, Ready;
    if n.Input? {
      var b := Left(pending, n.conn) + n.chunk;
      DecodeSound(b);
      ArrivalsAre(n.conn, Decode(b).msgs, n.time);
    }
  }

  /** Whatever clients send, the codec hands over no message above its limit. */
  lemma {:induction false} CodecBoundsMessages<C>(pending: map<C, Bytes>, ns: seq<Net<C>>)
    ensures Bounded(Flatten(pending, ns), MAX_BODY)
    decreases |ns|
  {
    hide Events, Next;
    if ns != [] {
      var first := Events(pending, ns[0]);
      forall i | 0 <= i < |first| && first[i].Arrive?
        ensures Small(first[i].message)
      {
        EventsAreOwn(pending, ns[0], i);
      }
      CodecBoundsMessages(Next(pending, ns[0]), ns[1..]);
    }
  }

  /** The connections run by C clients: what has arrived on each is a prefix of the frames of
      the commands its client accepted, in order, as `CClient.Client.Live` writes them. */
  ghost predicate FromClients<C>(ns: seq<Net<C>>, work: map<C, seq<Act>>) {
    && (forall c :: c in work ==> Stream(ns, c) <= CClient.Outgoing(work[c]))
    && (forall i :: 0 <= i < |ns| && ns[i].Input? ==> ns[i].conn in work)
  }

  lemma {:induction false} ArrivalIsListed<C>(es: seq<Event<C>>, i: nat)
    requires i < |es| && es[i].Arrive?
    ensures es[i].message in MessagesOf(es, es[i].conn)
  {
    if i > 0 {
      ArrivalIsListed(es[1..], i - 1);
    }
  }

  lemma {:induction false} ArrivalsHaveSender<C>(pending: map<C, Bytes>, ns: seq<Net<C>>, work: map<C, seq<Act>>, i: nat)
    requires forall j :: 0 <= j < |ns| && ns[j].Input? ==> ns[j].conn in work
    requires i < |Flatten(pending, ns)| && Flatten(pending, ns)[i].Arrive?
    ensures Flatten(pending, ns)[i].conn in work
    decreases |ns|
  {
    if ns != [] {
      var first := Events(pending, ns[0]);
      if i < |first| {
        EventsAreOwn(pending, ns[0], i);
      } else {
        ArrivalsHaveSender(Next(pending, ns[0]), ns[1..], work, i - |first|);
      }
    }
  }

  /** What the server has handled for a client is a prefix of what the client sent, and all of
      it once all its bytes have arrived. */
  lemma HandledIsPrefix<C>(ns: seq<Net<C>>, c: C, script: seq<Message>)
    requires AllSmall(script) && Stream(ns, c) <= EncodeAll(script)
    ensures MessagesOf(Flatten(map[], ns), c) <= script
    ensures Stream(ns, c) == EncodeAll(script) ==> MessagesOf(Flatten(map[], ns), c) == script
  {
    hide MessagesOf, Flatten, Stream, EncodeAll;
    var wire, got := EncodeAll(script), Stream(ns, c);
    assert got + wire[|got|..] == wire;
    PrefixArrives(ns, c, script, wire[|got|..]);
  }

  /** The C client's length guard bounds every message the server ever handles. */
  lemma GuardBoundsMessages<C>(ns: seq<Net<C>>, work: map<C, seq<Act>>)
    requires FromClients(ns, work)
    ensures Bounded(Flatten(map[], ns), MAX_SEND_LENGTH + 1)
  {
    hide MessagesOf, Flatten, Stream, EncodeAll, Script;
    var es := Flatten(map[], ns);
    forall i | 0 <= i < |es| && es[i].Arrive?
      ensures |es[i].message| <= MAX_SEND_LENGTH + 1
    {
      var c := es[i].conn;
      ArrivalsHaveSender(map[], ns, work, i);
      CClient.ScriptIsComposed(work[c]);
      var script := Script(CApi, work[c]);
      HandledIsPrefix(ns, c, script);
      ArrivalIsListed(es, i);
      var ms := MessagesOf(es, c);
      var j :| 0 <= j < |ms| && ms[j] == es[i].message;
      assert CClient.Composed(script[j]);
    }
  }

  // ----- What the server writes -----

  lemma {:induction false} OutputIsGood<C>(s: State<C>, es: seq<Event<C>>, x: C, max: int)
    requires Closed(s) && CanRun(s, es) && Bounded(es, max) && 2 <= max
    ensures AllGood(Log(s, es, x), max)
    decreases |es|
  {
    hide Closed, Step;
    if es != [] {
      EmittedIsGood(s, es[0], x, max);
      hide Emitted;
      OutputIsGood(Step(s, es[0]), es[1..], x, max);
    }
  }

  lemma EmittedIsGood<C>(s: State<C>, e: Event<C>, x: C, max: int)
    requires Closed(s) && Enabled(s, e) && (e.Arrive? ==> |e.message| <= max) && 2 <= max
    ensures AllGood(Emitted(s, e, x), max)
  {
    hide Closed;
  }

  /** What has been written to `x` by the end of a history of the network. */
  ghost function Written<C>(idleSeconds: int, ns: seq<Net<C>>, x: C): seq<Message>
    requires CanRun(Init(idleSeconds), Flatten(map[], ns))
  {
    Output(Run(Init(idleSeconds), Flatten(map[], ns)), x)
  }

  /** The hypothesis of the client parsers is derived, not assumed: everything the server writes
      is a stream of well-formed messages no longer than those it handles. */
  lemma WrittenIsSane<C>(idleSeconds: int, ns: seq<Net<C>>, x: C, max: int)
    requires CanRun(Init(idleSeconds), Flatten(map[], ns)) && Bounded(Flatten(map[], ns), max) && 2 <= max <= MAX_BODY
    ensures var out := Written(idleSeconds, ns, x);
            AllSmall(out) && Sane(EncodeAll(out), max) && Decode(EncodeAll(out)) == Decoded(out, [])
    ensures Written(idleSeconds, ns, x) == Log(Init(idleSeconds), Flatten(map[], ns), x)
  {
    hide Run, CanRun, Bounded, Closed, Flatten, Log;
    var es, s0 := Flatten(map[], ns), Init<C>(idleSeconds);
    InitFits<C>(idleSeconds);
    RunOutput(s0, es, x);
    var out := Written(idleSeconds, ns, x);
    assert out == Log(s0, es, x);
    OutputIsGood(s0, es, x, max);
    SaneEncode(out, max);
    DecodeUnique(out, []);
    assert EncodeAll(out) + [] == EncodeAll(out);
  }

  lemma InitFits<C>(idleSeconds: int)
    ensures Wf(Init<C>(idleSeconds)) && Refines(Init<C>(idleSeconds), NoTopics())
    ensures forall x: C :: Output(Init<C>(idleSeconds), x) == []
  {
  }

  // ----- What a client reads -----

  /** A client has read some of what the server wrote: the frames it has taken out are the first
      of those written, all of them once it has read everything. */
  lemma FramesRead<C>(idleSeconds: int, ns: seq<Net<C>>, x: C, api: Api, acts: seq<Act>, max: int)
    requires CanRun(Init(idleSeconds), Flatten(map[], ns)) && Bounded(Flatten(map[], ns), max) && 2 <= max <= MAX_BODY
    requires var out := Written(idleSeconds, ns, x); AllSmall(out) && Incoming(acts) <= EncodeAll(out)
    ensures !Ready([]) && Sane([] + Incoming(acts), max) && AllProper(Happenings(api, [], acts))
    ensures var out, frames := Written(idleSeconds, ns, x), Frames(Happenings(api, [], acts));
            frames <= out && (Incoming(acts) == EncodeAll(out) ==> frames == out)
  {
    hide CanRun, Run, Closed, Bounded, Flatten, Written, Sane, Ready, Decode, Frames, Happenings, Incoming, EncodeAll;
    hide AllProper, AllSmall, Log;
    WrittenIsSane(idleSeconds, ns, x, max);
    var wire, got := EncodeAll(Written(idleSeconds, ns, x)), Incoming(acts);
    var rest := wire[|got|..];
    assert got + rest == wire && [] + got == got;
    NothingIsReady();
    SaneSplit(got, rest, max);
    SaneIsProper(api, [], acts, max);
    FramesAreDecoded(api, [], acts);
    DecodeSplit(got, rest);
  }

  lemma NothingIsReady()
    ensures !Ready([])
  {
  }

  lemma FiltersOfPrefix(ms: seq<Message>, ns: seq<Message>)
    requires ms <= ns
    ensures Datas(ms) <= Datas(ns) && CallBacks(ms) <= CallBacks(ns)
  {
    assert ns == ms + ns[|ms|..];
    FiltersConcat(ms, ns[|ms|..]);
  }

  lemma {:induction false} TextsOfPrefix<C>(due: seq<(C, Message)>, ms: seq<Message>)
    requires ms <= Texts(due)
    ensures |ms| <= |due| == |Texts(due)| && ms == Texts(due[..|ms|])
  {
    if due != [] {
      if ms == [] {
        TextsOfPrefix(due[1..], []);
      } else {
        TextsOfPrefix(due[1..], ms[1..]);
        assert due[..|ms|][1..] == due[1..][..|ms| - 1];
      }
    }
  }

  /** End to end.  Take any history of the network in which every register was safe, any
      connection `x`, and a client of either kind that has read some of what was written to `x`,
      in any pieces and sending whatever it likes meanwhile.  The payloads it has got are those
      of the first messages due to `x` - those sent, by whatever connection, while `x` was its
      subscriber - each once, byte for byte, in the order the server took them; and of all of
      them if `x` is still connected and everything has been read. */
  lemma EndToEndDelivery<C>(idleSeconds: int, ns: seq<Net<C>>, x: C, api: Api, acts: seq<Act>, max: int)
    requires var es := Flatten(map[], ns);
             CanRun(Init(idleSeconds), es) && AllSafe(Init(idleSeconds), es) && Bounded(es, max) && 2 <= max <= MAX_BODY
    requires var out := Written(idleSeconds, ns, x); AllSmall(out) && Incoming(acts) <= EncodeAll(out)
    ensures var es, got := Flatten(map[], ns), Payloads(Frames(Happenings(api, [], acts)));
            var due := Due(NoTopics(), es, x);
            && |got| <= |due| && got == Payloads(Texts(due[..|got|]))
            && (IsConnected(Run(Init(idleSeconds), es), x) && Incoming(acts) == EncodeAll(Written(idleSeconds, ns, x))
                ==> |got| == |due|)
  {
    hide Run, CanRun, AllSafe, Bounded, Closed, Core, Refines, Flatten, Due, Log, IsConnected, Written, Incoming;
    hide Frames, Happenings, EncodeAll, Payloads, Datas, Texts, Sane, AllProper;
    var es, s0 := Flatten(map[], ns), Init<C>(idleSeconds);
    var frames := Frames(Happenings(api, [], acts));
    var due := Due(NoTopics(), es, x);
    InitFits<C>(idleSeconds);
    WrittenIsSane(idleSeconds, ns, x, max);
    FramesRead(idleSeconds, ns, x, api, acts, max);
    DeliveriesAreDue(s0, NoTopics(), es, x);
    FiltersOfPrefix(frames, Written(idleSeconds, ns, x));
    TextsOfPrefix(due, Datas(frames));
    PayloadsOfDatas(frames);
    PayloadPerData(frames);
  }

  /** The same for the callbacks, with no hypothesis on the registers: those a client has got are
      the first of the answers the server gave to commands from this very connection; nothing
      forwarded to it, whatever its bytes, is among them. */
  lemma EndToEndReplies<C>(idleSeconds: int, ns: seq<Net<C>>, x: C, api: Api, acts: seq<Act>, max: int)
    requires CanRun(Init(idleSeconds), Flatten(map[], ns)) && Bounded(Flatten(map[], ns), max) && 2 <= max <= MAX_BODY
    requires var out := Written(idleSeconds, ns, x); AllSmall(out) && Incoming(acts) <= EncodeAll(out)
    ensures var es, got := Flatten(map[], ns), CallBacks(Frames(Happenings(api, [], acts)));
            && got <= Replies(Init(idleSeconds), es, x)
            && (IsConnected(Run(Init(idleSeconds), es), x) && Incoming(acts) == EncodeAll(Written(idleSeconds, ns, x))
                ==> got == Replies(Init(idleSeconds), es, x))
  {
    hide Run, CanRun, Bounded, Closed, Core, Refines, Flatten, Log, IsConnected, Replies, Written, Incoming;
    hide Frames, Happenings, EncodeAll, CallBacks, Sane, AllProper;
    InitFits<C>(idleSeconds);
    WrittenIsSane(idleSeconds, ns, x, max);
    FramesRead(idleSeconds, ns, x, api, acts, max);
    RepliesCorrespond(Init<C>(idleSeconds), Flatten(map[], ns), x);
    FiltersOfPrefix(Frames(Happenings(api, [], acts)), Written(idleSeconds, ns, x));
  }

  // ----- Whose answer a client takes a callback for -----

  /** After `j` acts of the client the network had got as far as `m`: the client had read only
      what was written to `x` by then, and the server had been sent only what was accepted. */
  ghost predicate Moment<C>(idleSeconds: int, ns: seq<Net<C>>, x: C, api: Api, acts: seq<Act>, j: nat, m: nat) {
    && j <= |acts| && m <= |ns|
    && var past, script := ns[..m], Script(api, acts[..j]);
    && CanRun(Init(idleSeconds), Flatten(map[], past))
    && AllSmall(script) && Stream(past, x) <= EncodeAll(script)
    && var out := Written(idleSeconds, past, x);
    AllSmall(out) && Incoming(acts[..j]) <= EncodeAll(out)
  }

  /** There is such a moment for every number of acts. */
  ghost predicate Causal<C>(idleSeconds: int, ns: seq<Net<C>>, x: C, api: Api, acts: seq<Act>, when: seq<nat>) {
    |when| == |acts| + 1 && forall j :: 0 <= j <= |acts| ==> Moment(idleSeconds, ns, x, api, acts, j, when[j])
  }

  lemma BoundedPrefix<C>(ns: seq<Net<C>>, m: nat, max: int)
    requires m <= |ns| && Bounded(Flatten(map[], ns), max)
    ensures Bounded(Flatten(map[], ns[..m]), max)
  {
    hide Flatten, Pending;
    var es, fs := Flatten(map[], ns[..m]), Flatten(Pending(map[], ns[..m]), ns[m..]);
    FlattenConcat(map[], ns[..m], ns[m..]);
    assert ns == ns[..m] + ns[m..];
    assert forall i :: 0 <= i < |es| ==> (es + fs)[i] == es[i];
  }

  /** The callbacks of a kind that a client has got are the server's answers to its first commands
      of that kind, and no more than it queued. */
  lemma CallBacksFollowCommands<C>(idleSeconds: int, ns: seq<Net<C>>, x: C, api: Api, acts: seq<Act>, max: int, command: byte)
    requires CanRun(Init(idleSeconds), Flatten(map[], ns)) && Bounded(Flatten(map[], ns), max) && 2 <= max <= MAX_BODY
    requires var out := Written(idleSeconds, ns, x); AllSmall(out) && Incoming(acts) <= EncodeAll(out)
    requires IsCommand(command)
    ensures var got := Returned(Happenings(api, [], acts), command);
            && got <= AnswersTo(Init(idleSeconds), Flatten(map[], ns), x, command)
            && (AllSmall(Script(api, acts)) && Stream(ns, x) <= EncodeAll(Script(api, acts)) ==>
                  |got| <= Asks(Happenings(api, [], acts), command))
  {
    hide Run, CanRun, Bounded, Closed, Flatten, IsConnected, Replies, Written, Incoming, AnswersTo, MessagesOf, Stream;
    hide Frames, Happenings, EncodeAll, CallBacks, OfKind, Script, Asks;
    InitFits<C>(idleSeconds);
    var es, hs, code := Flatten(map[], ns), Happenings(api, [], acts), CALL_BACK_MASK + command;
    EndToEndReplies(idleSeconds, ns, x, api, acts, max);
    OfKindCallBacks(Frames(hs), code);
    OfKindPrefix(CallBacks(Frames(hs)), Replies(Init<C>(idleSeconds), es, x), code);
    AnswersAreReplies(Init<C>(idleSeconds), es, x, command);
    if AllSmall(Script(api, acts)) && Stream(ns, x) <= EncodeAll(Script(api, acts)) {
      HandledIsPrefix(ns, x, Script(api, acts));
      OfKindPrefix(MessagesOf(es, x), Script(api, acts), command);
      AsksAreScript(api, [], acts, command);
    }
  }

  lemma PromptedByServer<C>(idleSeconds: int, ns: seq<Net<C>>, x: C, api: Api, acts: seq<Act>, max: int, when: seq<nat>,
                            command: byte)
    requires Bounded(Flatten(map[], ns), max) && 2 <= max <= MAX_BODY && IsCommand(command)
    requires Causal(idleSeconds, ns, x, api, acts, when)
    ensures Prompted(Happenings(api, [], acts), command)
  {
    hide Bounded, Flatten, Returned, Asks, Happenings, Moment, Incoming, Script, Written, Stream, EncodeAll;
    forall j | 0 <= j <= |acts|
      ensures |Returned(Happenings(api, [], acts[..j]), command)| <= Asks(Happenings(api, [], acts[..j]), command)
    {
      PromptedAt(idleSeconds, ns, x, api, acts, max, j, when[j], command);
    }
    PromptedByActs(api, acts, command);
  }

  lemma PromptedAt<C>(idleSeconds: int, ns: seq<Net<C>>, x: C, api: Api, acts: seq<Act>, max: int, j: nat, m: nat, command: byte)
    requires Bounded(Flatten(map[], ns), max) && 2 <= max <= MAX_BODY && IsCommand(command)
    requires Moment(idleSeconds, ns, x, api, acts, j, m)
    ensures |Returned(Happenings(api, [], acts[..j]), command)| <= Asks(Happenings(api, [], acts[..j]), command)
  {
    hide CanRun, Bounded, Flatten, Returned, Asks, Happenings, Incoming, Script, Written, Stream, EncodeAll, AnswersTo;
    BoundedPrefix(ns, m, max);
    CallBacksFollowCommands(idleSeconds, ns[..m], x, api, acts[..j], max, command);
  }

  /** What a client shows for a kind of command, and when it is the answer to the last one: if and
      only if as many callbacks of the kind have come as commands were queued.  What it shows
      otherwise, if anything, is the answer to an earlier one. */
  ghost predicate ShowsAnswers<C>(idleSeconds: int, es: seq<Event<C>>, x: C, hs: seq<Happening>, command: byte)
    requires CanRun(Init(idleSeconds), es) && AllProper(hs) && IsCommand(command)
  {
    var answers, got, n := AnswersTo(Init(idleSeconds), es, x, command), Returned(hs, command), Asks(hs, command);
    var k := Shows(hs, command);
    && got <= answers && |got| <= n && k <= |got|
    && (k > 0 ==> |answers[k - 1]| >= 2 && Stands(hs, command) == Answer(answers[k - 1][1]))
    && (k == 0 <==> !Stands(hs, command).Answer?)
    && (n > 0 ==> (k == n <==> |got| == n))
  }

  lemma EndToEndAnswers<C>(idleSeconds: int, ns: seq<Net<C>>, x: C, api: Api, acts: seq<Act>, max: int, when: seq<nat>,
                           command: byte)
    requires CanRun(Init(idleSeconds), Flatten(map[], ns)) && Bounded(Flatten(map[], ns), max) && 2 <= max <= MAX_BODY
    requires var out := Written(idleSeconds, ns, x); AllSmall(out) && Incoming(acts) <= EncodeAll(out)
    requires Causal(idleSeconds, ns, x, api, acts, when) && IsCommand(command)
    ensures AllProper(Happenings(api, [], acts))
    ensures ShowsAnswers(idleSeconds, Flatten(map[], ns), x, Happenings(api, [], acts), command)
  {
    hide CanRun, Bounded, Flatten, Returned, Asks, Happenings, Incoming, Written, EncodeAll, AnswersTo, Causal, AllProper, Stands;
    var hs := Happenings(api, [], acts);
    FramesRead(idleSeconds, ns, x, api, acts, max);
    CallBacksFollowCommands(idleSeconds, ns, x, api, acts, max, command);
    PromptedByServer(idleSeconds, ns, x, api, acts, max, when, command);
    PromptedAtEnd(hs, command);
    if Stands(hs, command).Answer? {
      ShownIsLastReturned(hs, command);
    }
    if Asks(hs, command) > 0 {
      LastAnswerShown(hs, command);
    }
  }

  lemma PromptedAtEnd(hs: seq<Happening>, command: byte)
    requires IsCommand(command) && Prompted(hs, command)
    ensures |Returned(hs, command)| <= Asks(hs, command)
  {
    assert hs[..|hs|] == hs;
  }

  // ----- The server at work -----

  /** A server that is started and serves a whole history of the network: the socket of every
      connection has carried exactly the frames the end-to-end statements say are written. */
  method RunServer(idleSeconds: int, ns: seq<Net<Server.Connection>>, ghost conns: set<Server.Connection>)
    returns (server: Server.P2pServer)
    requires forall c :: c in conns ==> c.phase.Connected? && c.sent == [] && c.WireValid()
    requires Server.Buffered(Server.Feeds(conns, map[])) && Server.Separate(conns)
    requires CanServe(Init(idleSeconds), map[], ns)
    requires forall i :: 0 <= i < |ns| && !ns[i].Timer? ==> ns[i].conn in conns
    modifies conns, Server.Inputs(conns), Server.Storage(conns)
    ensures fresh(server) && server.Valid() && server.all <= conns
    ensures CanRun(Init(idleSeconds), Flatten(map[], ns)) && server.Model() == Run(Init(idleSeconds), Flatten(map[], ns))
    ensures forall c :: c in server.all ==>
      var out := Written(idleSeconds, ns, c); AllSmall(out) && c.wire == EncodeAll(out)
  {
    hide Run, CanRun, CanServe, Flatten, Server.Buffered, Server.Separate, Server.Connection.WireValid, Closed, Core;
    server := new Server.P2pServer(idleSeconds);
    server.Serve(ns, Server.Feeds(conns, map[]));
  }

  // ----- From publisher to subscriber -----

  /** The events of a history that goes on from another. */
  ghost function Later<C>(before: seq<Net<C>>, after: seq<Net<C>>): seq<Event<C>> {
    Flatten(Pending(map[], before), after)
  }

  ghost function EarlyDue<C>(before: seq<Net<C>>, x: C): seq<(C, Message)> {
    Due(NoTopics(), Flatten(map[], before), x)
  }

  ghost function LateDue<C>(before: seq<Net<C>>, after: seq<Net<C>>, x: C): seq<(C, Message)> {
    Due(AbstractRun(NoTopics(), Flatten(map[], before)), Later(before, after), x)
  }

  /** `x` is `p`'s subscriber from the end of `before` on, all through `after`. */
  ghost predicate Follows<C>(before: seq<Net<C>>, after: seq<Net<C>>, x: C, p: C) {
    Standing(AbstractRun(NoTopics(), Flatten(map[], before)), Later(before, after), x, p)
  }

  /** The part of what `p`'s client sent that the server handled during `after`. */
  ghost function Slice<C>(before: seq<Net<C>>, after: seq<Net<C>>, p: C, script: seq<Message>): (r: seq<Message>)
    requires |MessagesOf(Flatten(map[], before), p)| + |MessagesOf(Later(before, after), p)| <= |script|
  {
    var k := |MessagesOf(Flatten(map[], before), p)|;
    script[k..k + |MessagesOf(Later(before, after), p)|]
  }

  /** While a subscription stands, what is due to the subscriber from the publisher is exactly
      the data messages of a contiguous part of what the publisher's client sent: it starts where
      the server stood when the subscription did, and ends with the last command sent once all
      the publisher's bytes have arrived. */
  lemma StandingDelivery<C>(before: seq<Net<C>>, after: seq<Net<C>>, x: C, p: C, script: seq<Message>)
    requires AllSmall(script) && Stream(before + after, p) <= EncodeAll(script) && Follows(before, after, x, p)
    ensures Due(NoTopics(), Flatten(map[], before + after), x) == EarlyDue(before, x) + LateDue(before, after, x)
    ensures var k, n := |MessagesOf(Flatten(map[], before), p)|, |MessagesOf(Later(before, after), p)|;
            && k + n <= |script|
            && SentBy(LateDue(before, after, x), p) == Datas(Slice(before, after, p, script))
            && (Stream(before + after, p) == EncodeAll(script) ==> Slice(before, after, p, script) == script[k..])
  {
    hide Flatten, Pending, MessagesOf, Stream, EncodeAll, Due, Standing, AbstractRun, Datas, SentBy;
    var es, fs := Flatten(map[], before), Later(before, after);
    FlattenConcat(map[], before, after);
    DueConcat(NoTopics(), es, fs, x);
    StandingSubscription(AbstractRun(NoTopics(), es), fs, x, p);
    HandledIsPrefix(before + after, p, script);
    MessagesConcat(es, fs, p);
    var k := |MessagesOf(es, p)|;
    assert script[k..k + |MessagesOf(fs, p)|] == MessagesOf(es + fs, p)[k..];
  }

  /** From application to application: what is due to the subscriber from the publisher carries,
      byte for byte, a contiguous part of the data the publisher's application passed to its
      client, up to the last of it once all bytes have arrived. */
  lemma AppDataDelivered<C>(before: seq<Net<C>>, after: seq<Net<C>>, x: C, p: C, api: Api, acts: seq<Act>)
    requires AllSmall(Script(api, acts)) && Stream(before + after, p) <= EncodeAll(Script(api, acts))
    requires Follows(before, after, x, p)
    ensures var given, got := Given(api, acts), Payloads(SentBy(LateDue(before, after, x), p));
            var k := |MessagesOf(Flatten(map[], before), p)|;
            && k <= |Script(api, acts)|
            && var a := |Payloads(Script(api, acts)[..k])|;
            && a + |got| <= |given| && got == given[a..a + |got|]
            && (Stream(before + after, p) == EncodeAll(Script(api, acts)) ==> got == given[a..])
  {
    hide Flatten, Later, LateDue, MessagesOf, Stream, EncodeAll, Follows, Script, Given, Payloads, SentBy, Datas;
    var script := Script(api, acts);
    var k := |MessagesOf(Flatten(map[], before), p)|;
    StandingDelivery(before, after, x, p, script);
    var slice := Slice(before, after, p, script);
    PayloadsOfDatas(slice);
    PayloadsAreGiven(api, acts);
    var rest := script[k + |slice|..];
    assert script == script[..k] + (slice + rest);
    PayloadsConcat(script[..k], slice + rest);
    PayloadsConcat(slice, rest);
    assert slice == script[k..] ==> rest == [];
    NoPayloads();
  }

  lemma NoPayloads()
    ensures Payloads([]) == []
  {
  }

  lemma SentByPrefix<C>(l: seq<(C, Message)>, n: nat, p: C)
    requires n <= |l|
    ensures SentBy(l[..n], p) <= SentBy(l, p)
  {
    hide SentBy;
    assert l == l[..n] + l[n..];
    SentByConcat(l[..n], l[n..], p);
  }

  /** What a subscriber has got, `g` payloads in all: those of the first messages due to it.
      From where its subscription to `p` stands, those from `p` are the first of a contiguous
      part of what `p`'s client sent, which reaches its end once all its bytes have arrived. */
  ghost predicate Delivered<C>(got: seq<Bytes>, before: seq<Net<C>>, after: seq<Net<C>>, x: C, p: C, script: seq<Message>) {
    var early, late := EarlyDue(before, x), LateDue(before, after, x);
    var g := |got|;
    && g <= |early| + |late|
    && got == Payloads(Texts((early + late)[..g]))
    && |MessagesOf(Flatten(map[], before), p)| + |MessagesOf(Later(before, after), p)| <= |script|
    && (|early| <= g ==> SentBy(late[..g - |early|], p) <= Datas(Slice(before, after, p, script)))
    && (|early| + |late| == g ==> SentBy(late, p) == Datas(Slice(before, after, p, script)))
    && (AllSmall(script) && Stream(before + after, p) == EncodeAll(script) ==>
          Slice(before, after, p, script) == script[|MessagesOf(Flatten(map[], before), p)|..])
  }

  lemma DeliveredToSubscriber<C>(idleSeconds: int, before: seq<Net<C>>, after: seq<Net<C>>, x: C, p: C, script: seq<Message>,
                                 api: Api, acts: seq<Act>, max: int)
    requires var es := Flatten(map[], before + after);
             CanRun(Init(idleSeconds), es) && AllSafe(Init(idleSeconds), es) && Bounded(es, max) && 2 <= max <= MAX_BODY
    requires AllSmall(script) && Stream(before + after, p) <= EncodeAll(script) && Follows(before, after, x, p)
    requires var out := Written(idleSeconds, before + after, x); AllSmall(out) && Incoming(acts) <= EncodeAll(out)
    ensures var got := Payloads(Frames(Happenings(api, [], acts)));
            && Delivered(got, before, after, x, p, script)
            && (IsConnected(Run(Init(idleSeconds), Flatten(map[], before + after)), x)
                && Incoming(acts) == EncodeAll(Written(idleSeconds, before + after, x))
                ==> |got| == |EarlyDue(before, x)| + |LateDue(before, after, x)|)
  {
    hide Run, CanRun, AllSafe, Bounded, Flatten, Later, EarlyDue, LateDue, Slice, Follows, MessagesOf, Stream, Due;
    hide IsConnected, Written, Incoming, Frames, Happenings, EncodeAll, Payloads, Texts, SentBy, Datas;
    EndToEndDelivery(idleSeconds, before + after, x, api, acts, max);
    StandingDelivery(before, after, x, p, script);
    var early, late := EarlyDue(before, x), LateDue(before, after, x);
    var g := |Payloads(Frames(Happenings(api, [], acts)))|;
    if |early| <= g {
      SentByPrefix(late, g - |early|, p);
    }
  }

  /** A C client at work as the connection `x`, among C clients: its list, its flags, and what it
      writes.  `work` is what each client does, this one included. */
  method RunCClient<C>(client: CClient.Client, acts: seq<Act>, ghost idleSeconds: int, ghost before: seq<Net<C>>,
                       ghost after: seq<Net<C>>, ghost work: map<C, seq<Act>>, ghost when: seq<nat>, ghost x: C, ghost p: C)
    requires client.Valid() && client.fifo.Contents() == []
    requires forall i :: 0 <= i < |acts| && acts[i].Recv? ==> |acts[i].chunk| <= CClient.RECV_SIZE
    requires FromClients(before + after, work) && x in work && work[x] == acts && p in work && Follows(before, after, x, p)
    requires var es := Flatten(map[], before + after); CanRun(Init(idleSeconds), es) && AllSafe(Init(idleSeconds), es)
    requires var out := Written(idleSeconds, before + after, x); AllSmall(out) && Incoming(acts) <= EncodeAll(out)
    modifies client, client.fifo, client.fifo.data, client.list, client.list.nodes
    ensures client.Valid() && old(client.list.Contents()) <= client.list.Contents()
    ensures var got := client.list.Contents()[|old(client.list.Contents())|..];
            && Delivered(got, before, after, x, p, Script(CApi, work[p]))
            && (IsConnected(Run(Init(idleSeconds), Flatten(map[], before + after)), x)
                && Incoming(acts) == EncodeAll(Written(idleSeconds, before + after, x))
                ==> |got| == |EarlyDue(before, x)| + |LateDue(before, after, x)|)
    ensures var hs, es := Happenings(CApi, [], acts), Flatten(map[], before + after);
            && AllProper(hs) && CallBacks(Frames(hs)) <= Replies(Init(idleSeconds), es, x)
            && forall c: byte :: IsCommand(c) ==>
                 && client.status.Flag(c) == (match Stands(hs, c)
                                              case Untouched => old(client.status).Flag(c)
                                              case Waiting => 0xff
                                              case Answer(result) => if result == 0x01 then 0x01 else 0x00)
                 && (Causal(idleSeconds, before + after, x, CApi, acts, when) ==> ShowsAnswers(idleSeconds, es, x, hs, c))
    ensures old(client.sendFifo) == [] && old(client.socket) == [] ==> client.socket <= CClient.Outgoing(acts)
  {
    hide Run, CanRun, AllSafe, Bounded, Flatten, EarlyDue, LateDue, FromClients, Delivered, Follows, Closed, Causal;
    hide IsConnected, Written, Incoming, Frames, Happenings, EncodeAll, Payloads, CallBacks, Replies, Sane, Ready, Decode;
    hide CClient.Client.Valid, CClient.ApplyAll, Stands, Script, AllProper, ShowsAnswers, AllSmall;
    ghost var hs, v, ns, max := Happenings(CApi, [], acts), client.Visible(), before + after, CClient.MAX_COMMAND;
    FromClient(ns, work, p);
    GuardBoundsMessages(ns, work);
    BoundedByMore(Flatten(map[], ns), MAX_SEND_LENGTH + 1, max);
    FramesRead(idleSeconds, ns, x, CApi, acts, max);
    DeliveredToSubscriber(idleSeconds, before, after, x, p, Script(CApi, work[p]), CApi, acts, max);
    EndToEndReplies(idleSeconds, ns, x, CApi, acts, max);
    client.Live(acts);
    CClient.ApplyMeaning(v, hs, HEART_BEAT);
    forall c: byte | IsCommand(c)
      ensures client.status.Flag(c) == (match Stands(hs, c)
                                        case Untouched => old(client.status).Flag(c)
                                        case Waiting => 0xff
                                        case Answer(result) => if result == 0x01 then 0x01 else 0x00)
      ensures Causal(idleSeconds, ns, x, CApi, acts, when) ==> ShowsAnswers(idleSeconds, Flatten(map[], ns), x, hs, c)
    {
      CClient.ApplyMeaning(v, hs, c);
      if Causal(idleSeconds, ns, x, CApi, acts, when) {
        EndToEndAnswers(idleSeconds, ns, x, CApi, acts, max, when, c);
      }
    }
    if old(client.sendFifo) == [] && old(client.socket) == [] {
      CClient.WroteOutgoing(acts, client.socket, client.sendFifo);
    }
  }

  /** A Python client at work as the connection `x`, among clients of any kind: its queue, which
      takes payloads while it has room, and its responses. */
  method RunPyClient<C>(client: PyClient.Receiver, acts: seq<Act>, ghost idleSeconds: int, ghost before: seq<Net<C>>,
                        ghost after: seq<Net<C>>, ghost script: seq<Message>, ghost when: seq<nat>, ghost x: C, ghost p: C)
    requires client.Valid() && client.Contents() == [] && |client.recvDataQueue| <= PyClient.QUEUE_SIZE
    requires AllSmall(script) && Stream(before + after, p) <= EncodeAll(script) && Follows(before, after, x, p)
    requires var es := Flatten(map[], before + after); CanRun(Init(idleSeconds), es) && AllSafe(Init(idleSeconds), es)
    requires var out := Written(idleSeconds, before + after, x); AllSmall(out) && Incoming(acts) <= EncodeAll(out)
    modifies client
    ensures client.Valid()
    ensures var got := Payloads(Frames(Happenings(PyApi, [], acts)));
            && var all := old(client.recvDataQueue) + got;
            && client.recvDataQueue == (if |all| <= 4096 then all else all[..4096])
            && Delivered(got, before, after, x, p, script)
            && (IsConnected(Run(Init(idleSeconds), Flatten(map[], before + after)), x)
                && Incoming(acts) == EncodeAll(Written(idleSeconds, before + after, x))
                ==> |got| == |EarlyDue(before, x)| + |LateDue(before, after, x)|)
    ensures var hs, es := Happenings(PyApi, [], acts), Flatten(map[], before + after);
            && AllProper(hs) && CallBacks(Frames(hs)) <= Replies(Init(idleSeconds), es, x)
            && forall c: byte :: IsCommand(c) ==>
                 && client.commandResponse[c] == (match Stands(hs, c)
                                                  case Untouched => old(client.commandResponse)[c]
                                                  case Waiting => 0xff
                                                  case Answer(result) => result)
                 && (Causal(idleSeconds, before + after, x, PyApi, acts, when) ==> ShowsAnswers(idleSeconds, es, x, hs, c))
  {
    hide Run, CanRun, AllSafe, Bounded, Flatten, EarlyDue, LateDue, Delivered, Follows, Closed, Causal;
    hide IsConnected, Written, Incoming, Frames, Happenings, EncodeAll, Payloads, CallBacks, Replies, Sane, Ready, Decode;
    hide PyClient.Receiver.Contents, PyClient.ApplyAll, Stands, Script, AllProper;
    hide ShowsAnswers, AllSmall;
    ghost var hs, v, ns := Happenings(PyApi, [], acts), client.Visible(), before + after;
    CodecBoundsMessages(map[], ns);
    FramesRead(idleSeconds, ns, x, PyApi, acts, MAX_BODY);
    DeliveredToSubscriber(idleSeconds, before, after, x, p, script, PyApi, acts, MAX_BODY);
    EndToEndReplies(idleSeconds, ns, x, PyApi, acts, MAX_BODY);
    client.Live(acts);
    PyClient.ApplyMeaning(v, hs, HEART_BEAT);
    forall c: byte | IsCommand(c)
      ensures client.commandResponse[c] == (match Stands(hs, c)
                                            case Untouched => old(client.commandResponse)[c]
                                            case Waiting => 0xff
                                            case Answer(result) => result)
      ensures Causal(idleSeconds, ns, x, PyApi, acts, when) ==> ShowsAnswers(idleSeconds, Flatten(map[], ns), x, hs, c)
    {
      PyClient.ApplyMeaning(v, hs, c);
      if Causal(idleSeconds, ns, x, PyApi, acts, when) {
        EndToEndAnswers(idleSeconds, ns, x, PyApi, acts, MAX_BODY, when, c);
      }
    }
  }

  lemma FromClient<C>(ns: seq<Net<C>>, work: map<C, seq<Act>>, c: C)
    requires FromClients(ns, work) && c in work
    ensures AllSmall(Script(CApi, work[c])) && Stream(ns, c) <= EncodeAll(Script(CApi, work[c]))
  {
    CClient.ScriptIsComposed(work[c]);
  }

  lemma BoundedByMore<C>(es: seq<Event<C>>, few: int, many: int)
    requires Bounded(es, few) && few <= many
    ensures Bounded(es, many)
  {
  }
}
