/**
  What is left of a connection whose DOWN callback has run: nothing, exactly when no connection
  that claims an id still lists somebody who is down.
 */
module Teardown {
  import opened Framing
  import opened Registry
  import opened Ownership
  import opened PubSub

  /** A connection whose DOWN callback has run is under no id, on no registered publisher's list,
      and not in the idle list. */
  ghost predicate TornDown<C>(s: State<C>, c: C)
    requires Closed(s)
  {
    && c !in s.connections.Values
    && (forall d :: d in s.connections ==> c !in s.info[s.connections[d]].sendToList)
    && (forall n :: n in s.connectionList ==> n.conn != c)
    && c in s.info && s.info[c].deviceId == DELETE
  }

  ghost predicate AllTornDown<C>(s: State<C>)
    requires Closed(s)
  {
    forall c :: c in s.phase && s.phase[c].Down? ==> TornDown(s, c)
  }

  /** No registered publisher lists a connection that is down. */
  ghost predicate Clean<C>(s: State<C>) {
    forall d, x :: d in s.connections && s.connections[d] in s.info && x in s.info[s.connections[d]].sendToList ==>
      Alive(s, x)
  }

  /** What teardown needs of a register besides: a connection that claims an id lists nobody who
      is down. */
  ghost predicate Tidy<C>(s: State<C>, e: Event<C>)
    requires Enabled(s, e)
  {
    e.Arrive? && Classify(e.message).Register? && s.info[e.conn].deviceId != Classify(e.message).id ==>
      forall x :: x in s.info[e.conn].sendToList ==> Alive(s, x)
  }

  ghost predicate AllTidy<C>(s: State<C>, es: seq<Event<C>>)
    requires Closed(s) && CanRun(s, es)
    decreases |es|
  {
    es == [] || (Tidy(s, es[0]) && AllTidy(Step(s, es[0]), es[1..]))
  }

  lemma TornDownIffClean<C>(s: State<C>, a: Topics<C>)
    requires Wf(s) && Refines(s, a)
    ensures AllTornDown(s) <==> Clean(s)
  {
    hide Listed, Backed, Mirrored, ListsDistinct;
    if AllTornDown(s) {
      forall d, x | d in s.connections && s.connections[d] in s.info && x in s.info[s.connections[d]].sendToList
        ensures Alive(s, x)
      {
        assert x in s.phase && (s.phase[x].Down? ==> TornDown(s, x));
      }
    }
  }

  /** The lists only lose entries or gain connections that are up, and the entries only go. */
  lemma CleanFrom<C>(s: State<C>, r: State<C>)
    requires Closed(s) && Clean(s) && r.info.Keys >= s.info.Keys
    requires forall d :: d in r.connections ==> d in s.connections && r.connections[d] == s.connections[d]
    requires forall p, x :: p in s.info && x in r.info[p].sendToList ==> x in s.info[p].sendToList || Alive(r, x)
    requires forall x :: x in s.info && Alive(s, x) ==> Alive(r, x)
    ensures Clean(r)
  {
    hide Alive;
  }

  lemma UnregisterShrinks<C>(s: State<C>, c: C, p: C)
    requires Closed(s) && c in s.info && p in s.info
    ensures forall x :: x in UnregisterDevice(s, c).info[p].sendToList ==> x in s.info[p].sendToList
  {
    hide Closed, UnsubscribeAll, OwnsOneOf;
    UnsubscribeAllExact(s, c, p);
    UnsubscribeAllExact(s, c, c);
  }

  lemma UnregisterClean<C>(s: State<C>, c: C)
    requires Closed(s) && Clean(s) && c in s.info
    ensures Clean(UnregisterDevice(s, c))
  {
    hide Closed, Clean, UnregisterDevice;
    UnregisterConnections(s, c);
    var r := UnregisterDevice(s, c);
    forall p, x | p in s.info && x in r.info[p].sendToList
      ensures x in s.info[p].sendToList
    {
      UnregisterShrinks(s, c, p);
    }
    CleanFrom(s, r);
  }

  lemma GoneClean<C>(s: State<C>, a: Topics<C>, c: C)
    requires Wf(s) && Refines(s, a) && Clean(s) && Alive(s, c)
    ensures Clean(ConnectionDown(s, c))
  {
    hide Closed, Core, Refines, Clean, UnregisterDevice, ConnectionDown, Leave, Erased;
    DownAfterUnregister(s, c);
    UnregisterRefines(s, a, c);
    UnregisterClean(s, c);
    UnregisterAlive(s, c);
    Unlisted(UnregisterDevice(s, c), Leave(a, c), c);
    ErasedClean(UnregisterDevice(s, c), c);
  }

  lemma ErasedClean<C>(s: State<C>, c: C)
    requires Closed(s) && Clean(s) && c in s.info
    requires forall d :: d in s.connections && s.connections[d] in s.info ==> c !in s.info[s.connections[d]].sendToList
    ensures Clean(Erased(s, c))
  {
    hide Closed, EraseAt;
    assert forall x :: x in s.info && x != c ==> Alive(Erased(s, c), x) == Alive(s, x);
  }

  lemma UnregisterAlive<C>(s: State<C>, c: C)
    requires Closed(s) && c in s.info && Alive(s, c)
    ensures Alive(UnregisterDevice(s, c), c) && UnregisterDevice(s, c).info[c].subscribeIdList == []
  {
    hide Closed, UnsubscribeAll;
    UnsubscribeAllExact(s, c, c);
  }

  lemma EffectClean<C>(s: State<C>, c: C, m: Message, time: int)
    requires Wf(s) && Clean(s) && Alive(s, c) && !Classify(m).Register?
    ensures Clean(Effect(s, c, m, time))
  {
    hide Closed, Core, Clean, UnregisterDevice;
    var r := Effect(s, c, m, time);
    if Classify(m).Unregister? {
      UnregisterClean(s, c);
    } else {
      CleanFrom(s, r);
    }
  }

  /** A safe register keeps teardown complete if and only if it is tidy. */
  lemma RegisterClean<C>(s: State<C>, a: Topics<C>, c: C, d: Id)
    requires Wf(s) && Refines(s, a) && Clean(s) && Alive(s, c) && RegisterSafe(s, c, d)
    ensures Clean(RegisterDevice(s, c, d)) <==>
      (s.info[c].deviceId != d ==> forall x :: x in s.info[c].sendToList ==> Alive(s, x))
  {
    hide Closed, Core, Refines, RegisterDevice;
    var r := RegisterDevice(s, c, d);
    OwnerId(s, a, c);
    OwnerAgrees(s, a);
    forall x | x in s.info
      ensures r.info[x].sendToList == s.info[x].sendToList && Alive(r, x) == Alive(s, x)
    {
      RegisterAt(s, c, d, x);
    }
    RegisterAt(s, c, d, c);
    assert d in r.connections && r.connections[d] == c;
    if s.info[c].deviceId == d || forall x :: x in s.info[c].sendToList ==> Alive(s, x) {
      forall e, x | e in r.connections && r.connections[e] in r.info && x in r.info[r.connections[e]].sendToList
        ensures Alive(r, x)
      {
        ListedIsUp(r, r.connections[e], x);
        assert e == d || (e in s.connections && r.connections[e] == s.connections[e]);
        assert s.info[c].deviceId == d ==> d in s.connections && s.connections[d] == c;
      }
    } else if Clean(r) {
      var x :| x in s.info[c].sendToList && !Alive(s, x);
      ListedIsUp(s, c, x);
      assert x in r.info[r.connections[d]].sendToList;
    }
  }

  lemma SameClean<C>(s: State<C>, r: State<C>)
    requires Closed(s) && Closed(r) && r.info == s.info && r.phase == s.phase && r.connections == s.connections
    ensures Clean(r) <==> Clean(s)
  {
    hide Closed, Clean;
    if Clean(s) {
      CleanFrom(s, r);
    } else if Clean(r) {
      CleanFrom(r, s);
    }
  }

  lemma {:induction false} SweepClean<C>(s: State<C>, i: nat, now: int)
    requires Wf(s) && Clean(s)
    ensures Clean(Sweep(s, i, now))
    decreases |s.connectionList| - i
  {
    hide Closed, Core, Clean, SweepStep;
    if i < |s.connectionList| && !Breaks(s, i, now) {
      SweepStepKeeps(s, i, now);
      SweepStepClean(s, i, now);
      SweepClean(SweepStep(s, i, now), i + 1, now);
    }
  }

  lemma SweepStepClean<C>(s: State<C>, i: nat, now: int)
    requires Closed(s) && Clean(s) && i < |s.connectionList|
    ensures Clean(SweepStep(s, i, now))
  {
    hide Clean;
    assert s.connectionList[i].conn in s.info;
    hide Closed;
    CleanFrom(s, SweepStep(s, i, now));
  }

  /** Every event with safe registers keeps teardown complete if and only if it is tidy. */
  lemma StepClean<C>(s: State<C>, a: Topics<C>, e: Event<C>)
    requires Wf(s) && Refines(s, a) && Clean(s) && Enabled(s, e) && Safe(s, e)
    ensures Clean(Step(s, e)) <==> Tidy(s, e)
  {
    hide Closed, Core, Refines, Clean, ConnectionUp, ConnectionDown, Effect, Sweep, RegisterSafe;
    match e
    case Up(c, t) => UpClean(s, c, t);
    case Gone(c) => GoneClean(s, a, c);
    case Arrive(c, m, t) =>
      if Classify(m).Register? {
        RegisterClean(s, a, c, Classify(m).id);
        RegisterIs(s, c, m, t);
      } else {
        EffectClean(s, c, m, t);
      }
      if !Classify(m).Unknown? {
        KnownCommand(m);
        SameClean(Effect(s, c, m, t), OnMessage(s, c, m, t));
      }
    case Refused(c) => CleanFrom(s, Shutdown(s, c));
    case Tick(t) => SweepClean(s, 0, t);
  }

  lemma RegisterIs<C>(s: State<C>, c: C, m: Message, time: int)
    requires Closed(s) && c in s.info && Classify(m).Register?
    ensures Effect(s, c, m, time) == RegisterDevice(s, c, Classify(m).id)
  {
    hide RegisterDevice, Closed;
  }

  lemma UpClean<C>(s: State<C>, c: C, now: int)
    requires Closed(s) && Clean(s) && c !in s.info
    ensures Clean(ConnectionUp(s, c, now))
  {
    hide Clean;
    CleanFrom(s, ConnectionUp(s, c, now));
  }

  ghost predicate TornDownThroughout<C>(s: State<C>, es: seq<Event<C>>)
    requires Closed(s) && CanRun(s, es)
    decreases |es|
  {
    AllTornDown(s) && (es == [] || TornDownThroughout(Step(s, es[0]), es[1..]))
  }

  /** In a run with safe registers, teardown is complete throughout if and only if no connection
      that claims an id lists anybody who is down. */
  lemma {:induction false} TeardownExact<C>(s: State<C>, a: Topics<C>, es: seq<Event<C>>)
    requires Wf(s) && Refines(s, a) && AllTornDown(s) && CanRun(s, es) && AllSafe(s, es)
    ensures TornDownThroughout(s, es) <==> AllTidy(s, es)
    ensures AllTidy(s, es) ==> AllTornDown(Run(s, es))
    decreases |es|
  {
    hide Closed, Core, Refines, Step, Abstract, Safe, Tidy, Enabled, AllTornDown;
    if es != [] {
      var e := es[0];
      StepKeeps(s, e);
      StepRefines(s, a, e);
      TornDownIffClean(s, a);
      StepClean(s, a, e);
      TornDownIffClean(Step(s, e), Abstract(a, e));
      if Tidy(s, e) {
        TeardownExact(Step(s, e), Abstract(a, e), es[1..]);
      } else if TornDownThroughout(s, es) {
        TornDownStarts(Step(s, e), es[1..]);
      }
    }
  }

  lemma TornDownStarts<C>(s: State<C>, es: seq<Event<C>>)
    requires Closed(s) && CanRun(s, es) && TornDownThroughout(s, es)
    ensures AllTornDown(s)
  {
    hide Closed, AllTornDown;
  }

  /** Complete teardown, in every run with safe and tidy registers and for ever after. */
  lemma TeardownIsComplete<C>(idleSeconds: int, es: seq<Event<C>>, c: C)
    requires CanRun(Init(idleSeconds), es) && AllSafe(Init(idleSeconds), es) && AllTidy(Init(idleSeconds), es)
    requires var s := Run(Init(idleSeconds), es); c in s.phase && s.phase[c].Down?
    ensures TornDown(Run(Init(idleSeconds), es), c)
  {
    hide Run, CanRun, AllSafe, AllTidy, TornDown;
    assert AllTornDown(Init<C>(idleSeconds));
    TeardownExact(Init<C>(idleSeconds), NoTopics(), es);
  }
}
