/**
  What the server writes to each connection over a whole run: which payloads are forwarded
  to whom, and which callbacks answer which commands (sendDataFunc, callbackFunc and
  onMessage in p2pServer/p2pServer.cc).
 */
module Delivery {
  import opened Wire
  import opened Framing
  import opened Protocol
  import opened Registry
  import opened Ownership
  import opened PubSub
  import opened Relay

  // ----- What one step appends to one output -----

  ghost function Emitted<C>(s: State<C>, e: Event<C>, x: C): seq<Message>
    requires Closed(s) && Enabled(s, e)
  {
    if e.Arrive? && IsConnected(s, x) then
      (if Classify(e.message).Data? && x in s.info[e.conn].sendToList then [e.message] else [])
      + (if x == e.conn && !Classify(e.message).Unknown? then [Reply(s, e)] else [])
    else []
  }

  ghost function Reply<C>(s: State<C>, e: Event<C>): Message
    requires Closed(s) && Enabled(s, e) && e.Arrive? && !Classify(e.message).Unknown?
  {
    KnownCommand(e.message);
    CallBack(e.message, Result(s, e.conn, e.message))
  }

  /** What a callback says, in terms of the relation: the code of the command with the callback
      bit, and success except for a subscribe to no other registered connection and for a check
      of an id that no connected connection holds. */
  lemma ReplyMeaning<C>(s: State<C>, a: Topics<C>, e: Event<C>)
    requires Wf(s) && Refines(s, a) && Enabled(s, e) && e.Arrive? && !Classify(e.message).Unknown?
    ensures var r, k := Reply(s, e), Classify(e.message);
            && e.message != [] && |r| == 2 && r[0] as int == CALL_BACK_MASK as int + e.message[0] as int
            && r[1] in {EXEC_FAIL, EXEC_SUCCESS}
            && (r[1] == EXEC_FAIL <==>
                  || (k.Subscribe? && !(k.id in a.owner && a.owner[k.id] != e.conn))
                  || (k.Check? && !(k.id in a.owner && IsConnected(s, a.owner[k.id]))))
  {
    KnownCommand(e.message);
    if Classify(e.message).Subscribe? {
      SubscribeRefines(s, a, e.conn, Classify(e.message).id);
    }
    OwnerAgrees(s, a);
    hide Core, Refines, SubscribeDevice;
  }

  lemma EffectSent<C>(s: State<C>, c: C, m: Message, time: int, x: C)
    requires Closed(s) && c in s.info && x in s.info
    ensures Effect(s, c, m, time).sent[x] ==
      s.sent[x] + (if IsConnected(s, x) && Classify(m).Data? && x in s.info[c].sendToList then [m] else [])
    ensures IsConnected(Effect(s, c, m, time), c) == IsConnected(s, c)
    ensures IsConnected(Effect(s, c, m, time), x) ==> IsConnected(s, x)
  {
    hide SubscribeDevice, UnsubscribeDevice, UnregisterDevice, HeartBeat;
    hide Closed;
  }

  lemma ArriveSent<C>(s: State<C>, e: Event<C>, x: C)
    requires Closed(s) && Enabled(s, e) && e.Arrive? && x in s.info
    ensures OnMessage(s, e.conn, e.message, e.time).sent[x] == s.sent[x] + Emitted(s, e, x)
    ensures IsConnected(OnMessage(s, e.conn, e.message, e.time), x) ==> IsConnected(s, x)
  {
    hide Effect, Result;
    var c, m, s1 := e.conn, e.message, Effect(s, e.conn, e.message, e.time);
    EffectSent(s, c, m, e.time, x);
    if !Classify(m).Unknown? {
      KnownCommand(m);
      var f := if IsConnected(s, x) && Classify(m).Data? && x in s.info[c].sendToList then [m] else [];
      var g := if IsConnected(s, x) && x == c then [Reply(s, e)] else [];
      assert Send(s1, c, Reply(s, e)).sent[x] == s1.sent[x] + g;
      assert (s.sent[x] + f) + g == s.sent[x] + (f + g);
    }
  }

  lemma StepSent<C>(s: State<C>, e: Event<C>, x: C)
    requires Closed(s) && Enabled(s, e) && x in s.info
    ensures Step(s, e).sent[x] == s.sent[x] + Emitted(s, e, x)
    ensures IsConnected(Step(s, e), x) ==> IsConnected(s, x)
  {
    if e.Arrive? {
      hide Closed, OnMessage, Emitted;
      ArriveSent(s, e, x);
    } else if e.Tick? {
      hide Closed, Sweep;
      SweepPhases(s, 0, e.time, x);
    } else {
      hide Closed, UnregisterDevice;
    }
  }

  lemma {:induction false} SweepPhases<C>(s: State<C>, i: nat, now: int, x: C)
    requires Closed(s) && x in s.info
    ensures IsConnected(Sweep(s, i, now), x) ==> IsConnected(s, x)
    decreases |s.connectionList| - i
  {
    hide Closed;
    if i < |s.connectionList| && !Breaks(s, i, now) {
      SweepPhases(SweepStep(s, i, now), i + 1, now, x);
    }
  }

  /** The output of `x` so far; none before it comes up. */
  ghost function Output<C>(s: State<C>, x: C): seq<Message> {
    if x in s.sent then s.sent[x] else []
  }

  lemma NewcomerOutput<C>(s: State<C>, e: Event<C>, x: C)
    requires Closed(s) && Enabled(s, e) && x !in s.info
    ensures Output(Step(s, e), x) == [] && Emitted(s, e, x) == []
    ensures x in Step(s, e).info ==> e.Up? && e.conn == x
  {
    KeysAgree(s);
    KeysAgree(Step(s, e));
    hide Closed, OnMessage, ConnectionDown, Sweep;
    if !e.Up? {
      SameKeys(s, e);
    }
  }

  lemma SameKeys<C>(s: State<C>, e: Event<C>)
    requires Closed(s) && Enabled(s, e) && !e.Up?
    ensures Step(s, e).info.Keys == s.info.Keys
  {
    hide Closed, OnMessage, ConnectionDown, Sweep;
  }

  /** Appending to the output, whether or not `x` is up yet; a connection that is connected
      after the step was connected before it, unless it has just come up. */
  lemma StepOutput<C>(s: State<C>, e: Event<C>, x: C)
    requires Closed(s) && Enabled(s, e)
    ensures Output(Step(s, e), x) == Output(s, x) + Emitted(s, e, x)
    ensures IsConnected(Step(s, e), x) && x in s.info ==> IsConnected(s, x)
  {
    KeysAgree(s);
    KeysAgree(Step(s, e));
    hide Closed, Step, Emitted;
    if x in s.info {
      StepSent(s, e, x);
    } else {
      NewcomerOutput(s, e, x);
    }
  }

  lemma KeysAgree<C>(s: State<C>)
    requires Closed(s)
    ensures s.sent.Keys == s.info.Keys && s.phase.Keys == s.info.Keys
  {
  }

  // ----- Whole runs -----

  ghost function Log<C>(s: State<C>, es: seq<Event<C>>, x: C): seq<Message>
    requires Closed(s) && CanRun(s, es)
    decreases |es|
  {
    if es == [] then [] else Emitted(s, es[0], x) + Log(Step(s, es[0]), es[1..], x)
  }

  lemma {:induction false} RunOutput<C>(s: State<C>, es: seq<Event<C>>, x: C)
    requires Closed(s) && CanRun(s, es)
    ensures Output(Run(s, es), x) == Output(s, x) + Log(s, es, x)
    ensures IsConnected(Run(s, es), x) && x in s.info ==> IsConnected(s, x)
    decreases |es|
  {
    hide Closed, Step, Emitted, Output;
    if es != [] {
      StepOutput(s, es[0], x);
      RunOutput(Step(s, es[0]), es[1..], x);
    }
  }

  /** The callbacks due to `x`, in the order its known commands arrived. */
  ghost function Replies<C>(s: State<C>, es: seq<Event<C>>, x: C): seq<Message>
    requires Closed(s) && CanRun(s, es)
    decreases |es|
  {
    if es == [] then []
    else
      (if es[0].Arrive? && es[0].conn == x && !Classify(es[0].message).Unknown? then [Reply(s, es[0])] else [])
      + Replies(Step(s, es[0]), es[1..], x)
  }

  /** The data messages due to `x`, each with its sender: those sent by `c` while `(x, c)` is
      in the relation. */
  ghost function Due<C>(a: Topics<C>, es: seq<Event<C>>, x: C): seq<(C, Message)>
    decreases |es|
  {
    if es == [] then []
    else
      (if es[0].Arrive? && Classify(es[0].message).Data? && (x, es[0].conn) in a.pairs
       then [(es[0].conn, es[0].message)] else [])
      + Due(Abstract(a, es[0]), es[1..], x)
  }

  ghost function Texts<C>(l: seq<(C, Message)>): seq<Message> {
    if l == [] then [] else [l[0].1] + Texts(l[1..])
  }

  lemma EmittedParts<C>(s: State<C>, e: Event<C>, x: C)
    requires Closed(s) && Enabled(s, e)
    ensures AllFrames(Emitted(s, e, x))
    ensures CallBacks(Emitted(s, e, x)) ==
      if e.Arrive? && IsConnected(s, x) && x == e.conn && !Classify(e.message).Unknown? then [Reply(s, e)] else []
    ensures Datas(Emitted(s, e, x)) ==
      if e.Arrive? && IsConnected(s, x) && Classify(e.message).Data? && x in s.info[e.conn].sendToList then [e.message] else []
  {
    hide Closed;
    if e.Arrive? && !Classify(e.message).Unknown? {
      KnownCommand(e.message);
      var r := Reply(s, e);
      assert CallBacks([r]) == [r] && Datas([r]) == [];
      assert CallBacks([e.message]) == [] && (Classify(e.message).Data? ==> Datas([e.message]) == [e.message]);
      FiltersConcat([e.message], [r]);
    }
  }

  /** A connection that is no longer connected is written nothing more. */
  lemma {:induction false} SilentForEver<C>(s: State<C>, es: seq<Event<C>>, x: C)
    requires Closed(s) && CanRun(s, es) && x in s.info && !IsConnected(s, x)
    ensures Log(s, es, x) == [] && !IsConnected(Run(s, es), x)
    decreases |es|
  {
    hide Closed, Step, Enabled;
    if es != [] {
      StepOutput(s, es[0], x);
      SilentForEver(Step(s, es[0]), es[1..], x);
    }
  }

  /** Response correspondence, over any run, with no discipline assumed: on any output the frames
      with the callback bit are, one to one and in order, the answers to the first known commands
      of that connection, and to all of them if it is still connected; every other frame is a
      data frame. */
  lemma {:induction false} RepliesCorrespond<C>(s: State<C>, es: seq<Event<C>>, x: C)
    requires Closed(s) && CanRun(s, es)
    ensures CallBacks(Log(s, es, x)) <= Replies(s, es, x)
    ensures IsConnected(Run(s, es), x) ==> CallBacks(Log(s, es, x)) == Replies(s, es, x)
    ensures AllFrames(Log(s, es, x))
    decreases |es|
  {
    hide Closed, Step, Emitted, Reply;
    if es != [] {
      if x in s.info && !IsConnected(s, x) {
        SilentForEver(s, es, x);
      } else {
        EmittedParts(s, es[0], x);
        RepliesCorrespond(Step(s, es[0]), es[1..], x);
        FiltersConcat(Emitted(s, es[0], x), Log(Step(s, es[0]), es[1..], x));
      }
    }
  }

  // ----- Which command an answer is for -----

  ghost predicate IsCommandOf<C>(e: Event<C>, x: C, command: byte) {
    e.Arrive? && e.conn == x && e.message != [] && e.message[0] == command
  }

  /** The server's answer to an event, if it is a known command. */
  ghost function Answered<C>(s: State<C>, e: Event<C>): seq<Message>
    requires Closed(s)
  {
    if Enabled(s, e) && e.Arrive? && !Classify(e.message).Unknown? then [Reply(s, e)] else []
  }

  /** The server's answers to the commands of one kind from `x`, in the order they arrived. */
  ghost function AnswersTo<C>(s: State<C>, es: seq<Event<C>>, x: C, command: byte): seq<Message>
    requires Closed(s) && CanRun(s, es)
    decreases |es|
  {
    if es == [] then []
    else (if IsCommandOf(es[0], x, command) then Answered(s, es[0]) else []) + AnswersTo(Step(s, es[0]), es[1..], x, command)
  }

  lemma AnswerCode<C>(s: State<C>, e: Event<C>, x: C, command: byte)
    requires Closed(s) && Enabled(s, e) && IsCommand(command)
    ensures IsCommandOf(e, x, command) ==> |Answered(s, e)| == 1
    ensures var now := if e.Arrive? && e.conn == x then Answered(s, e) else [];
            OfKind(now, CALL_BACK_MASK + command) == if IsCommandOf(e, x, command) then Answered(s, e) else []
    ensures var said := if e.Arrive? && e.conn == x then [e.message] else [];
            |OfKind(said, command)| == if IsCommandOf(e, x, command) then 1 else 0
  {
    hide Closed, Result;
    var now: seq<Message> := if e.Arrive? && e.conn == x then Answered(s, e) else [];
    assert now != [] ==> now[1..] == [] && now[0][0] == e.message[0] + CALL_BACK_MASK;
    var said: seq<Message> := if e.Arrive? && e.conn == x then [e.message] else [];
    assert said != [] ==> said[1..] == [];
  }

  /** The callbacks of a kind are the answers to the commands of that kind, one for each. */
  lemma {:induction false} AnswersAreReplies<C>(s: State<C>, es: seq<Event<C>>, x: C, command: byte)
    requires Closed(s) && CanRun(s, es) && IsCommand(command)
    ensures OfKind(Replies(s, es, x), CALL_BACK_MASK + command) == AnswersTo(s, es, x, command)
    ensures |AnswersTo(s, es, x, command)| == |OfKind(MessagesOf(es, x), command)|
    decreases |es|
  {
    hide Closed, Step, Enabled, Reply, Classify, OfKind, IsCommandOf;
    if es == [] {
      NothingOfKind(command);
      NothingOfKind(CALL_BACK_MASK + command);
    } else {
      var e := es[0];
      AnswersAreReplies(Step(s, e), es[1..], x, command);
      AnswerCode(s, e, x, command);
      var now := if e.Arrive? && e.conn == x then Answered(s, e) else [];
      OfKindConcat(now, Replies(Step(s, e), es[1..], x), CALL_BACK_MASK + command);
      var said := if e.Arrive? && e.conn == x then [e.message] else [];
      OfKindConcat(said, MessagesOf(es[1..], x), command);
    }
  }

  lemma NothingOfKind(code: byte)
    ensures OfKind([], code) == []
  {
  }

  /** Answer number `i` of a kind is what the server replied to command number `i` of that kind,
      in the state that command arrived in. */
  lemma {:induction false} AnswerIsForCommand<C>(s: State<C>, es: seq<Event<C>>, x: C, command: byte, i: nat) returns (j: nat)
    requires Closed(s) && CanRun(s, es) && IsCommand(command) && i < |AnswersTo(s, es, x, command)|
    ensures j < |es| && IsCommandOf(es[j], x, command) && |OfKind(MessagesOf(es[..j], x), command)| == i
    ensures CanRun(s, es[..j]) && Answered(Run(s, es[..j]), es[j]) == [AnswersTo(s, es, x, command)[i]]
    decreases |es|
  {
    hide Closed, Step, Enabled, Answered, OfKind, IsCommandOf;
    var e := es[0];
    AnswerCode(s, e, x, command);
    NothingOfKind(command);
    if IsCommandOf(e, x, command) && i == 0 {
      j := 0;
    } else {
      var mine := if IsCommandOf(e, x, command) then 1 else 0;
      var k := AnswerIsForCommand(Step(s, e), es[1..], x, command, i - mine);
      j := k + 1;
      assert es[..j][0] == e && es[..j][1..] == es[1..][..k];
      var said := if e.Arrive? && e.conn == x then [e.message] else [];
      OfKindConcat(said, MessagesOf(es[1..][..k], x), command);
    }
  }

  /** What the relation says to the subscribes of `x`: success if another connection owns the id. */
  ghost function Decisions<C>(a: Topics<C>, es: seq<Event<C>>, x: C): seq<Message>
    decreases |es|
  {
    if es == [] then []
    else
      (if IsCommandOf(es[0], x, SUBSCRIBE_DEVICE) then [Decision(a, x, Classify(es[0].message).id)] else [])
      + Decisions(Abstract(a, es[0]), es[1..], x)
  }

  ghost function Decision<C>(a: Topics<C>, x: C, d: Id): Message {
    [CALL_BACK_MASK + SUBSCRIBE_DEVICE, if d in a.owner && a.owner[d] != x then EXEC_SUCCESS else EXEC_FAIL]
  }

  /** In every run with safe registers the answers to the subscribes of a connection are what the
      relation says. */
  lemma {:induction false} SubscribesAreDecided<C>(s: State<C>, a: Topics<C>, es: seq<Event<C>>, x: C)
    requires Wf(s) && Refines(s, a) && CanRun(s, es) && AllSafe(s, es)
    ensures AnswersTo(s, es, x, SUBSCRIBE_DEVICE) == Decisions(a, es, x)
    decreases |es|
  {
    hide Closed, Core, Refines, Step, Abstract, Safe, Enabled, Answered, Decision;
    if es != [] {
      StepKeeps(s, es[0]);
      StepRefines(s, a, es[0]);
      if IsCommandOf(es[0], x, SUBSCRIBE_DEVICE) {
        OneDecided(s, a, es[0], x);
      }
      SubscribesAreDecided(Step(s, es[0]), Abstract(a, es[0]), es[1..], x);
    }
  }

  lemma OneDecided<C>(s: State<C>, a: Topics<C>, e: Event<C>, x: C)
    requires Wf(s) && Refines(s, a) && Enabled(s, e) && IsCommandOf(e, x, SUBSCRIBE_DEVICE)
    ensures Classify(e.message).Subscribe? && Answered(s, e) == [Decision(a, x, Classify(e.message).id)]
  {
    hide Closed, Core, Refines, Reply, Enabled;
    ReplyMeaning(s, a, e);
    var r := Reply(s, e);
    assert r == [r[0], r[1]];
  }

  /** In every run with safe registers, the data frames written to a connection are the first of
      those the relation says are due to it - each once, whole, and in order - and all of them
      if it is still connected. */
  lemma {:induction false} DeliveriesAreDue<C>(s: State<C>, a: Topics<C>, es: seq<Event<C>>, x: C)
    requires Wf(s) && Refines(s, a) && CanRun(s, es) && AllSafe(s, es)
    ensures Datas(Log(s, es, x)) <= Texts(Due(a, es, x))
    ensures IsConnected(Run(s, es), x) ==> Datas(Log(s, es, x)) == Texts(Due(a, es, x))
    decreases |es|
  {
    hide Closed, Core, Refines, Step, Emitted, Abstract, Safe;
    if es != [] {
      var e := es[0];
      if x in s.info && !IsConnected(s, x) {
        SilentForEver(s, es, x);
      } else {
        EmittedParts(s, e, x);
        StepKeeps(s, e);
        StepRefines(s, a, e);
        DeliveriesAreDue(Step(s, e), Abstract(a, e), es[1..], x);
        FiltersConcat(Emitted(s, e, x), Log(Step(s, e), es[1..], x));
        if e.Arrive? {
          ListedIffPaired(s, a, e.conn, x);
        }
        var now := if e.Arrive? && Classify(e.message).Data? && (x, e.conn) in a.pairs then [(e.conn, e.message)] else [];
        TextsCons(now, Due(Abstract(a, e), es[1..], x));
      }
    }
  }

  lemma TextsCons<C>(now: seq<(C, Message)>, later: seq<(C, Message)>)
    requires |now| <= 1
    ensures Texts(now + later) == (if now == [] then [] else [now[0].1]) + Texts(later)
  {
    if now == [] {
      assert now + later == later;
    } else {
      assert (now + later)[1..] == later;
    }
  }

  lemma ListedIffPaired<C>(s: State<C>, a: Topics<C>, p: C, x: C)
    requires Refines(s, a) && p in s.info && (x in s.info ==> IsConnected(s, x))
    ensures (IsConnected(s, x) && x in s.info[p].sendToList) <==> (x, p) in a.pairs
  {
    if (x, p) in a.pairs {
      assert (x, p).0 in s.info;
    }
  }

  // ----- A standing subscription -----

  /** The pair is in the relation all through the run. */
  ghost predicate Standing<C>(a: Topics<C>, es: seq<Event<C>>, x: C, p: C)
    decreases |es|
  {
    (x, p) in a.pairs && (es == [] || Standing(Abstract(a, es[0]), es[1..], x, p))
  }

  /** A condition on the events alone: neither goes down or unregisters, and `x` does not
      unsubscribe from anything. */
  ghost predicate Steady<C>(es: seq<Event<C>>, x: C, p: C) {
    forall i :: 0 <= i < |es| ==>
      && !(es[i].Gone? && es[i].conn in {x, p})
      && !(es[i].Arrive? && es[i].conn in {x, p} && Classify(es[i].message).Unregister?)
      && !(es[i].Arrive? && es[i].conn == x && Classify(es[i].message).Unsubscribe?)
  }

  lemma SteadyStep<C>(a: Topics<C>, e: Event<C>, x: C, p: C)
    requires (x, p) in a.pairs && Steady([e], x, p)
    ensures (x, p) in Abstract(a, e).pairs
  {
    assert [e][0] == e;
  }

  lemma {:induction false} SteadyStands<C>(a: Topics<C>, es: seq<Event<C>>, x: C, p: C)
    requires (x, p) in a.pairs && Steady(es, x, p)
    ensures Standing(a, es, x, p)
    decreases |es|
  {
    hide Abstract;
    if es != [] {
      assert Steady([es[0]], x, p);
      SteadyStep(a, es[0], x, p);
      SteadyStands(Abstract(a, es[0]), es[1..], x, p);
    }
  }

  ghost function SentBy<C>(l: seq<(C, Message)>, p: C): seq<Message> {
    if l == [] then [] else (if l[0].0 == p then [l[0].1] else []) + SentBy(l[1..], p)
  }

  lemma {:induction false} SentByConcat<C>(l: seq<(C, Message)>, k: seq<(C, Message)>, p: C)
    ensures SentBy(l + k, p) == SentBy(l, p) + SentBy(k, p)
  {
    if l == [] {
      assert l + k == k;
    } else {
      assert (l + k)[1..] == l[1..] + k;
      SentByConcat(l[1..], k, p);
    }
  }

  /** While a subscription stands, everything the publisher sends is due to the subscriber:
      every message exactly once, in the order sent. */
  lemma {:induction false} StandingSubscription<C>(a: Topics<C>, es: seq<Event<C>>, x: C, p: C)
    requires Standing(a, es, x, p)
    ensures SentBy(Due(a, es, x), p) == Datas(MessagesOf(es, p))
    decreases |es|
  {
    hide Abstract;
    if es != [] {
      var e := es[0];
      StandingSubscription(Abstract(a, e), es[1..], x, p);
      var now := if e.Arrive? && Classify(e.message).Data? && (x, e.conn) in a.pairs then [(e.conn, e.message)] else [];
      SentByConcat(now, Due(Abstract(a, e), es[1..], x), p);
      assert now != [] ==> now[1..] == [];
      var first := if e.Arrive? && e.conn == p then [e.message] else [];
      FiltersConcat(first, MessagesOf(es[1..], p));
      assert first != [] ==> first[1..] == [];
    }
  }

  /** What is due over two runs in a row. */
  lemma {:induction false} DueConcat<C>(a: Topics<C>, es: seq<Event<C>>, fs: seq<Event<C>>, x: C)
    ensures Due(a, es + fs, x) == Due(a, es, x) + Due(AbstractRun(a, es), fs, x)
    decreases |es|
  {
    hide Abstract;
    if es == [] {
      assert es + fs == fs;
    } else {
      assert (es + fs)[1..] == es[1..] + fs && (es + fs)[0] == es[0];
      DueConcat(Abstract(a, es[0]), es[1..], fs, x);
    }
  }

  lemma {:induction false} TextsConcat<C>(l: seq<(C, Message)>, k: seq<(C, Message)>)
    ensures Texts(l + k) == Texts(l) + Texts(k)
  {
    if l == [] {
      assert l + k == k;
    } else {
      assert (l + k)[1..] == l[1..] + k;
      TextsConcat(l[1..], k);
    }
  }
}
