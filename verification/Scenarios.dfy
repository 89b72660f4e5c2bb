/**
  Short runs of the server that the general statements are about: the exchange the relay is for,
  a subscriber that unsubscribes from an id after it has changed hands, and a client that takes
  the answer to one command for the answer to the next.
 */
module Scenarios {
  import opened Wire
  import opened Framing
  import opened Protocol
  import opened Registry
  import opened Ownership
  import opened PubSub
  import opened Relay
  import opened Delivery
  import ClientSpec
  import CClient

  /** Connections come up and send messages, registers keep the discipline, and nobody claims an
      id of `x`. */
  ghost predicate Calm<C>(a: Topics<C>, live: set<C>, es: seq<Event<C>>, x: C)
    decreases |es|
  {
    es == []
    || (es[0].Up? && es[0].conn !in live && Calm(a, live + {es[0].conn}, es[1..], x))
    || (es[0].Arrive? && es[0].conn in live && Disciplined(a, es[0]) && Spares(a, es[0], x)
        && Calm(Abstract(a, es[0]), live, es[1..], x))
  }

  ghost predicate Spares<C>(a: Topics<C>, e: Event<C>, x: C)
    requires e.Arrive?
  {
    var cmd := Classify(e.message);
    cmd.Register? && cmd.id in a.owner ==> a.owner[cmd.id] != x
  }

  ghost predicate AllAlive<C>(s: State<C>) {
    forall c :: c in s.info ==> Alive(s, c)
  }

  /** A calm run can happen, is safe, and leaves `x` connected. */
  lemma {:induction false} CalmRuns<C>(s: State<C>, a: Topics<C>, es: seq<Event<C>>, x: C)
    requires Wf(s) && Refines(s, a) && AllAlive(s) && Calm(a, s.info.Keys, es, x)
    requires x in s.info ==> IsConnected(s, x)
    ensures CanRun(s, es) && AllSafe(s, es)
    ensures x in Run(s, es).info ==> IsConnected(Run(s, es), x)
    decreases |es|
  {
    hide Closed, Core, Refines, Step, Abstract, AllAlive, Spares, IsConnected, Disciplined;
    if es != [] {
      var e := es[0];
      CalmStep(s, a, e, x);
      StepKeeps(s, e);
      StepRefines(s, a, e);
      CalmRuns(Step(s, e), Abstract(a, e), es[1..], x);
    }
  }

  lemma CalmStep<C>(s: State<C>, a: Topics<C>, e: Event<C>, x: C)
    requires Wf(s) && Refines(s, a) && AllAlive(s) && (x in s.info ==> IsConnected(s, x))
    requires (e.Up? && e.conn !in s.info) || (e.Arrive? && e.conn in s.info && Disciplined(a, e) && Spares(a, e, x))
    ensures Enabled(s, e) && Safe(s, e) && AllAlive(Step(s, e))
    ensures e.Up? ==> Step(s, e).info.Keys == s.info.Keys + {e.conn} && Abstract(a, e) == a
    ensures e.Arrive? ==> Step(s, e).info.Keys == s.info.Keys
    ensures x in Step(s, e).info ==> IsConnected(Step(s, e), x)
  {
    hide Closed, Core, Refines, OnMessage, RegisterSafe, MayRegister;
    match e {
      case Up(c, t) =>
      case Arrive(c, m, t) =>
        if Classify(m).Register? {
          DisciplineIsSafe(s, a, c, Classify(m).id);
        }
        OwnerAgrees(s, a);
        forall y | y in s.info
          ensures Alive(OnMessage(s, c, m, t), y)
        {
          MessageKeepsAlive(s, c, m, t, y);
        }
        if x in s.info {
          StaysConnected(s, c, m, t, x);
        }
    }
  }

  /** Only a register of an id of `x` shuts `x` down. */
  lemma StaysConnected<C>(s: State<C>, c: C, m: Message, time: int, x: C)
    requires Closed(s) && c in s.info && x in s.info && IsConnected(s, x)
    requires Classify(m).Register? && Classify(m).id in s.connections ==> s.connections[Classify(m).id] != x
    ensures IsConnected(OnMessage(s, c, m, time), x)
  {
    hide Closed, SubscribeDevice, UnsubscribeDevice, UnregisterDevice, SendData, HeartBeat;
  }

  lemma InitIsCalm<C>(idleSeconds: int)
    ensures var s := Init<C>(idleSeconds); Wf(s) && Refines(s, NoTopics()) && AllAlive(s) && s.info.Keys == {}
    ensures forall x: C :: Output(Init<C>(idleSeconds), x) == []
  {
  }

  /** What a calm run writes to `x` is what is due to it. */
  lemma CalmDelivers<C>(es: seq<Event<C>>, x: C, idleSeconds: int)
    requires Calm(NoTopics(), {}, es, x)
    ensures CanRun(Init(idleSeconds), es)
    ensures x in Run(Init(idleSeconds), es).info ==>
      Datas(Output(Run(Init(idleSeconds), es), x)) == Texts(Due(NoTopics(), es, x))
  {
    hide Run, CanRun, AllSafe, Due, Log, Closed, Core, Refines, Calm, Texts, Datas;
    var s0 := Init<C>(idleSeconds);
    InitIsCalm<C>(idleSeconds);
    CalmRuns(s0, NoTopics(), es, x);
    RunOutput(s0, es, x);
    DeliveriesAreDue(s0, NoTopics(), es, x);
    assert Output(Run(s0, es), x) == Log(s0, es, x);
  }

  lemma {:induction false} JoinedStays<C>(s: State<C>, es: seq<Event<C>>, i: nat)
    requires Closed(s) && CanRun(s, es) && i < |es| && es[i].Up?
    ensures es[i].conn in Run(s, es).info
    decreases |es|
  {
    hide Closed, OnMessage, ConnectionDown, Shutdown, Sweep;
    if i > 0 {
      JoinedStays(Step(s, es[0]), es[1..], i - 1);
    }
  }

  // ----- The exchange the relay is for -----

  /** `p` and `x` connect, `p` registers `d`, `x` subscribes to it, and `p` sends. */
  ghost function Exchange<C>(p: C, x: C, d: Id, data: Bytes, t: int): seq<Event<C>> {
    [Up(p, t), Up(x, t), Arrive(p, [REGISTER_DEVICE] + d.name, t),
     Arrive(x, [SUBSCRIBE_DEVICE] + d.name, t), Arrive(p, [SEND_DATA] + data, t)]
  }

  lemma Commands(d: Id, data: Bytes)
    ensures Classify([REGISTER_DEVICE] + d.name) == Register(d) && Classify([SUBSCRIBE_DEVICE] + d.name) == Subscribe(d)
    ensures Classify([UNSUBSCRIBE_DEVICE] + d.name) == Unsubscribe(d) && Classify([SEND_DATA] + data) == Command.Data
  {
    var r, s, u: Message := [REGISTER_DEVICE] + d.name, [SUBSCRIBE_DEVICE] + d.name, [UNSUBSCRIBE_DEVICE] + d.name;
    assert r[1..] == d.name && s[1..] == d.name && u[1..] == d.name;
  }

  lemma SendIsDue<C>(a: Topics<C>, live: set<C>, p: C, x: C, data: Bytes, t: int)
    requires (x, p) in a.pairs && p in live
    ensures var es := [Arrive(p, [SEND_DATA] + data, t)]; Calm(a, live, es, x) && Due(a, es, x) == [(p, [SEND_DATA] + data)]
  {
    var es: seq<Event<C>> := [Arrive(p, [SEND_DATA] + data, t)];
    assert es[1..] == [];
  }

  /** One event in front of a run in which only `due` is due. */
  lemma Before<C>(a: Topics<C>, b: Topics<C>, live: set<C>, e: Event<C>, es: seq<Event<C>>, x: C, due: seq<(C, Message)>)
    requires Abstract(a, e) == b && Due(b, es, x) == due
    requires (e.Up? && e.conn !in live && Calm(b, live + {e.conn}, es, x))
             || (e.Arrive? && e.conn in live && !Classify(e.message).Data? && Disciplined(a, e) && Spares(a, e, x)
                 && Calm(b, live, es, x))
    ensures Calm(a, live, [e] + es, x) && Due(a, [e] + es, x) == due
  {
    assert ([e] + es)[1..] == es && ([e] + es)[0] == e;
    hide Abstract, Spares, Disciplined;
  }

  lemma ExchangeSteps<C>(p: C, x: C, d: Id, data: Bytes, t: int)
    requires p != x && d != DELETE
    ensures var es, none := Exchange(p, x, d, data, t), NoTopics();
            && Abstract(none, es[2]) == Topics(map[d := p], {}) && Disciplined(none, es[2])
            && Abstract(Topics(map[d := p], {}), es[3]) == Topics(map[d := p], {(x, p)})
  {
    Commands(d, data);
    hide Classify;
    var none: Topics<C> := NoTopics();
    assert none.owner[d := p] == map[d := p];
  }

  lemma ExchangeIsCalm<C>(p: C, x: C, d: Id, data: Bytes, t: int)
    requires p != x && d != DELETE
    ensures var es := Exchange(p, x, d, data, t);
            Calm(NoTopics(), {}, es, x) && Due(NoTopics(), es, x) == [(p, [SEND_DATA] + data)]
  {
    hide Abstract, Calm, Due, Classify, Disciplined;
    var es := Exchange(p, x, d, data, t);
    Commands(d, data);
    ExchangeSteps(p, x, d, data, t);
    UpsAreNothing(NoTopics(), es);
    var none: Topics<C> := NoTopics();
    var owned, followed := Topics(map[d := p], {}), Topics(map[d := p], {(x, p)});
    var all, due: seq<(C, Message)> := {p, x}, [(p, [SEND_DATA] + data)];
    assert [es[3]] + es[4..] == es[3..] && [es[2]] + es[3..] == es[2..];
    assert [es[1]] + es[2..] == es[1..] && [es[0]] + es[1..] == es;
    assert {p} + {x} == all && {} + {p} == {p};
    SendIsDue(followed, all, p, x, data, t);
    NotARegister(owned, es[3]);
    Before(owned, followed, all, es[3], es[4..], x, due);
    Before(none, owned, all, es[2], es[3..], x, due);
    Before(none, none, {p}, es[1], es[2..], x, due);
    Before(none, none, {}, es[0], es[1..], x, due);
  }

  lemma NotARegister<C>(a: Topics<C>, e: Event<C>)
    requires e.Arrive? && !Classify(e.message).Register?
    ensures Disciplined(a, e)
  {
  }

  /** The exchange can happen, and exactly that message is among the data frames written to `x`. */
  lemma ExchangeDelivers<C>(p: C, x: C, d: Id, data: Bytes, t: int, idleSeconds: int)
    requires p != x && d != DELETE
    ensures CanRun(Init(idleSeconds), Exchange(p, x, d, data, t))
    ensures Datas(Output(Run(Init(idleSeconds), Exchange(p, x, d, data, t)), x)) == [[SEND_DATA] + data]
  {
    hide Run, CanRun, Calm, Due, Closed, Output;
    ExchangeIsCalm(p, x, d, data, t);
    OnlyOneServed(Exchange(p, x, d, data, t), p, x, data, idleSeconds);
  }

  /** In a calm run in which `x` comes up second and only that message is due to it. */
  lemma OnlyOneServed<C>(es: seq<Event<C>>, p: C, x: C, data: Bytes, idleSeconds: int)
    requires Calm(NoTopics(), {}, es, x) && Due(NoTopics(), es, x) == [(p, [SEND_DATA] + data)]
    requires |es| > 1 && es[1].Up? && es[1].conn == x
    ensures CanRun(Init(idleSeconds), es)
    ensures Datas(Output(Run(Init(idleSeconds), es), x)) == [[SEND_DATA] + data]
  {
    hide Run, CanRun, Calm, Due, Closed, Output, Datas;
    InitIsCalm<C>(idleSeconds);
    CalmDelivers(es, x, idleSeconds);
    JoinedStays(Init<C>(idleSeconds), es, 1);
    var due: seq<(C, Message)> := [(p, [SEND_DATA] + data)];
    assert due[1..] == [];
  }

  // ----- Unsubscribing from an id that has changed hands -----

  /** `p` registers `d`, `x` subscribes to it, `q` takes `d` over, `x` unsubscribes from `d`, and
      `p` sends. */
  ghost function TakenOver<C>(p: C, x: C, q: C, d: Id, data: Bytes, t: int): seq<Event<C>> {
    [Up(p, t), Up(x, t), Up(q, t), Arrive(p, [REGISTER_DEVICE] + d.name, t), Arrive(x, [SUBSCRIBE_DEVICE] + d.name, t),
     Arrive(q, [REGISTER_DEVICE] + d.name, t), Arrive(x, [UNSUBSCRIBE_DEVICE] + d.name, t),
     Arrive(p, [SEND_DATA] + data, t)]
  }

  lemma TakenOverSteps<C>(p: C, x: C, q: C, d: Id, data: Bytes, t: int)
    requires p != x && p != q && x != q && d != DELETE
    ensures var es := TakenOver(p, x, q, d, data, t);
            var followed, taken := Topics(map[d := p], {(x, p)}), Topics(map[d := q], {(x, p)});
            && Abstract(NoTopics(), es[3]) == Topics(map[d := p], {}) && Disciplined(NoTopics(), es[3])
            && Abstract(Topics(map[d := p], {}), es[4]) == followed
            && Abstract(followed, es[5]) == taken && Disciplined(followed, es[5])
            && Abstract(taken, es[6]) == taken
  {
    Commands(d, data);
    hide Classify;
    var none: Topics<C> := NoTopics();
    assert none.owner[d := p] == map[d := p] && map[d := p][d := q] == map[d := q];
  }

  lemma TakenOverTail<C>(p: C, x: C, q: C, d: Id, data: Bytes, t: int)
    requires p != x && p != q && x != q && d != DELETE
    ensures var es := TakenOver(p, x, q, d, data, t)[3..];
            Calm(NoTopics(), {p, x, q}, es, x) && Due(NoTopics(), es, x) == [(p, [SEND_DATA] + data)]
  {
    hide Abstract, Calm, Due, Classify, Disciplined;
    var es := TakenOver(p, x, q, d, data, t);
    Commands(d, data);
    TakenOverSteps(p, x, q, d, data, t);
    var none: Topics<C> := NoTopics();
    var owned, followed, taken := Topics(map[d := p], {}), Topics(map[d := p], {(x, p)}), Topics(map[d := q], {(x, p)});
    var all, due: seq<(C, Message)> := {p, x, q}, [(p, [SEND_DATA] + data)];
    assert [es[6]] + es[7..] == es[6..] && [es[5]] + es[6..] == es[5..];
    assert [es[4]] + es[5..] == es[4..] && [es[3]] + es[4..] == es[3..];
    SendIsDue(taken, all, p, x, data, t);
    NotARegister(taken, es[6]);
    Before(taken, taken, all, es[6], es[7..], x, due);
    Before(followed, taken, all, es[5], es[6..], x, due);
    NotARegister(owned, es[4]);
    Before(owned, followed, all, es[4], es[5..], x, due);
    Before(none, owned, all, es[3], es[4..], x, due);
  }

  lemma TakenOverIsCalm<C>(p: C, x: C, q: C, d: Id, data: Bytes, t: int)
    requires p != x && p != q && x != q && d != DELETE
    ensures var es := TakenOver(p, x, q, d, data, t);
            Calm(NoTopics(), {}, es, x) && Due(NoTopics(), es, x) == [(p, [SEND_DATA] + data)]
  {
    hide Abstract, Calm, Due, Classify, Disciplined, Spares;
    var es := TakenOver(p, x, q, d, data, t);
    TakenOverTail(p, x, q, d, data, t);
    UpsAreNothing(NoTopics(), es);
    var none: Topics<C> := NoTopics();
    var due: seq<(C, Message)> := [(p, [SEND_DATA] + data)];
    assert [es[2]] + es[3..] == es[2..] && [es[1]] + es[2..] == es[1..] && [es[0]] + es[1..] == es;
    assert {p, x} + {q} == {p, x, q} && {p} + {x} == {p, x} && {} + {p} == {p};
    Before(none, none, {p, x}, es[2], es[3..], x, due);
    Before(none, none, {p}, es[1], es[2..], x, due);
    Before(none, none, {}, es[0], es[1..], x, due);
  }

  /** Although `x` has unsubscribed from the only id it ever followed, what `p` sends afterwards
      is written to it.  `PubSub.UnsubscribeStopsOwnerOnly` says exactly when this happens. */
  lemma UnsubscribedIsServed<C>(p: C, x: C, q: C, d: Id, data: Bytes, t: int, idleSeconds: int)
    requires p != x && p != q && x != q && d != DELETE
    ensures CanRun(Init(idleSeconds), TakenOver(p, x, q, d, data, t))
    ensures Datas(Output(Run(Init(idleSeconds), TakenOver(p, x, q, d, data, t)), x)) == [[SEND_DATA] + data]
  {
    hide Run, CanRun, Calm, Due, Closed, Output;
    TakenOverIsCalm(p, x, q, d, data, t);
    OnlyOneServed(TakenOver(p, x, q, d, data, t), p, x, data, idleSeconds);
  }

  lemma UpsAreNothing<C>(a: Topics<C>, es: seq<Event<C>>)
    ensures forall i :: 0 <= i < |es| && es[i].Up? ==> Abstract(a, es[i]) == a
  {
  }

  // ----- An answer that comes late -----

  /** `x` subscribes to `d` before `p` registers it, and again afterwards. */
  ghost function TwiceAsked<C>(x: C, p: C, d: Id, t: int): seq<Event<C>> {
    [Up(x, t), Up(p, t), Arrive(x, [SUBSCRIBE_DEVICE] + d.name, t), Arrive(p, [REGISTER_DEVICE] + d.name, t),
     Arrive(x, [SUBSCRIBE_DEVICE] + d.name, t)]
  }

  /** What happens to the client of `x` when its first call has given up waiting and the callback
      comes after the second has begun. */
  ghost function LateFirst(answer: Message): seq<ClientSpec.Happening> {
    [ClientSpec.Asked(SUBSCRIBE_DEVICE), ClientSpec.Asked(SUBSCRIBE_DEVICE), ClientSpec.Came(answer)]
  }

  /** The server refuses the first subscribe and accepts the second; the client, having got only
      the first answer, shows failure for the second.  `ClientSpec.CallGetsOwnAnswer` says exactly
      when a call returns its own answer. */
  lemma LateAnswerIsTaken<C>(x: C, p: C, d: Id, t: int, idleSeconds: int, v: CClient.View)
    requires p != x && d != DELETE
    ensures var es := TwiceAsked(x, p, d, t);
            && CanRun(Init(idleSeconds), es)
            && var answers := AnswersTo(Init(idleSeconds), es, x, SUBSCRIBE_DEVICE);
            && |answers| == 2 && answers[0] == [CALL_BACK_MASK + SUBSCRIBE_DEVICE, EXEC_FAIL]
            && answers[1] == [CALL_BACK_MASK + SUBSCRIBE_DEVICE, EXEC_SUCCESS]
            && var hs := LateFirst(answers[0]);
            && ClientSpec.AllProper(hs) && CClient.ApplyAll(v, hs).status.Flag(SUBSCRIBE_DEVICE) == EXEC_FAIL
            && ClientSpec.Asks(hs, SUBSCRIBE_DEVICE) == 2 && |ClientSpec.Returned(hs, SUBSCRIBE_DEVICE)| == 1
  {
    var s0 := Init<C>(idleSeconds);
    var answer: Message := [CALL_BACK_MASK + SUBSCRIBE_DEVICE, EXEC_FAIL];
    hide Run, CanRun, AllSafe, Closed, Core, Refines, AnswersTo, Calm, CClient.ApplyAll, ClientSpec.Stands;
    hide ClientSpec.Asks, ClientSpec.Returned;
    InitIsCalm<C>(idleSeconds);
    TwiceIsCalm(x, p, d, t);
    CalmRuns(s0, NoTopics(), TwiceAsked(x, p, d, t), x);
    SubscribesAreDecided(s0, NoTopics(), TwiceAsked(x, p, d, t), x);
    LateShown(answer, v);
  }

  lemma LateShown(answer: Message, v: CClient.View)
    requires answer == [CALL_BACK_MASK + SUBSCRIBE_DEVICE, EXEC_FAIL]
    ensures var hs := LateFirst(answer);
            && ClientSpec.AllProper(hs) && CClient.ApplyAll(v, hs).status.Flag(SUBSCRIBE_DEVICE) == EXEC_FAIL
            && ClientSpec.Asks(hs, SUBSCRIBE_DEVICE) == 2 && |ClientSpec.Returned(hs, SUBSCRIBE_DEVICE)| == 1
  {
    hide CClient.ApplyAll, ClientSpec.Stands, ClientSpec.Asks, ClientSpec.Returned;
    var first: seq<ClientSpec.Happening> := [ClientSpec.Asked(SUBSCRIBE_DEVICE)];
    var hs := LateFirst(answer);
    assert hs == first + [ClientSpec.Asked(SUBSCRIBE_DEVICE)] + [] + [ClientSpec.Came(answer)];
    ClientSpec.OneHappening(first[0], SUBSCRIBE_DEVICE);
    ClientSpec.CallStands(first, SUBSCRIBE_DEVICE, [], answer);
    ClientSpec.CallCounts(first, SUBSCRIBE_DEVICE, [], answer);
    CClient.ApplyMeaning(v, hs, SUBSCRIBE_DEVICE);
  }

  lemma TwiceIsCalm<C>(x: C, p: C, d: Id, t: int)
    requires p != x && d != DELETE
    ensures var es := TwiceAsked(x, p, d, t);
            && Calm(NoTopics(), {}, es, x)
            && Decisions(NoTopics(), es, x) == [[CALL_BACK_MASK + SUBSCRIBE_DEVICE, EXEC_FAIL],
                                                [CALL_BACK_MASK + SUBSCRIBE_DEVICE, EXEC_SUCCESS]]
  {
    var es := TwiceAsked(x, p, d, t);
    Commands(d, []);
    hide Classify;
    var none: Topics<C> := NoTopics();
    var owned := Topics(map[d := p], {});
    assert none.owner[d := p] == map[d := p];
    assert Abstract(none, es[2]) == none && Abstract(none, es[3]) == owned && Disciplined(none, es[3]);
    var e1, e2, e3, e4, e5 := es[1..], es[2..], es[3..], es[4..], es[5..];
    assert es[1..][1..] == e2 && e2[1..] == e3 && e3[1..] == e4 && e4[1..] == e5 && e5 == [];
    assert {} + {x} == {x} && {x} + {p} == {x, p};
    assert Calm(Abstract(owned, es[4]), {x, p}, e5, x);
    assert Calm(owned, {x, p}, e4, x);
    assert Calm(none, {x, p}, e3, x);
    assert Calm(none, {x, p}, e2, x);
    assert Calm(none, {x}, e1, x);
    assert Decisions(owned, e4, x) == [Decision(owned, x, d)];
    assert Decisions(none, e3, x) == [Decision(owned, x, d)];
    assert Decisions(none, e2, x) == [Decision(none, x, d)] + [Decision(owned, x, d)];
    assert Decisions(none, e1, x) == Decisions(none, e2, x) && Decisions(none, es, x) == Decisions(none, e1, x);
  }
}
