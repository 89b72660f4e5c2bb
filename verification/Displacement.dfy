/**
  Displacement safety: once another connection has taken over its id, nothing the displaced
  connection does, short of registering again, is visible in the registry except in its own
  subscriptions (p2pServer/p2pServer.cc, registerDeviceFunc and unregisterDeviceFunc).
 */
module Displacement {
  import opened Framing
  import opened Registry
  import opened Ownership
  import opened IdleList

  /** Two records of some connection differ at most in whether `o` is listed. */
  ghost predicate SameFor<C>(i: ConnInfo<C>, j: ConnInfo<C>, o: C) {
    && i.deviceId == j.deviceId
    && i.subscribeIdList == j.subscribeIdList
    && i.lastReceiveTime == j.lastReceiveTime
    && Without(i.sendToList, o) == Without(j.sendToList, o)
  }

  /** The registries agree on everything but `o`'s own record and `o`'s own subscriptions. */
  ghost predicate Same<C>(s: State<C>, r: State<C>, o: C) {
    && r.connections == s.connections && r.idleSeconds == s.idleSeconds
    && r.info.Keys == s.info.Keys && r.phase.Keys == s.phase.Keys
    && (forall x :: x in s.info && x != o ==> SameFor(s.info[x], r.info[x], o))
    && (forall x :: x in s.phase && x != o ==> r.phase[x] == s.phase[x])
  }

  lemma SameTransitive<C>(s: State<C>, r: State<C>, q: State<C>, o: C)
    requires Same(s, r, o) && Same(s, q, o)
    ensures Same(q, r, o)
  {
  }

  // ----- Lists with one entry masked -----

  lemma {:induction false} WithoutSnoc<C>(l: seq<C>, c: C, o: C)
    ensures Without(l + [c], o) == Without(l, o) + (if c == o then [] else [c])
  {
    if l == [] {
      assert [] + [c] == [c] && [c][1..] == [];
    } else {
      WithoutSnoc(l[1..], c, o);
      assert (l + [c])[1..] == l[1..] + [c];
    }
  }

  lemma WithoutAdd<C>(l: seq<C>, c: C, o: C)
    ensures Without(Add(l, c), o) == if c == o then Without(l, o) else Add(Without(l, o), c)
  {
    WithoutSnoc(l, c, o);
  }

  lemma {:induction false} WithoutCommute<C>(l: seq<C>, c: C, o: C)
    ensures Without(Without(l, c), o) == Without(Without(l, o), c)
  {
    if l != [] {
      WithoutCommute(l[1..], c, o);
    }
  }

  lemma {:induction false} WithoutConnected<C>(l: seq<C>, phase: map<C, Phase>, o: C)
    ensures Without(OnlyConnected(l, phase), o) == OnlyConnected(Without(l, o), phase)
  {
    if l != [] {
      WithoutConnected(l[1..], phase, o);
    }
  }

  lemma {:induction false} ConnectedSame<C>(l: seq<C>, p: map<C, Phase>, q: map<C, Phase>, o: C)
    requires p.Keys == q.Keys && (forall x :: x in p && x != o ==> q[x] == p[x]) && o !in l
    ensures OnlyConnected(l, p) == OnlyConnected(l, q)
  {
    if l != [] {
      ConnectedSame(l[1..], p, q, o);
    }
  }

  // ----- Steps of one record -----

  lemma SetBoth<C>(s: State<C>, r: State<C>, o: C, c: C, i: ConnInfo<C>, j: ConnInfo<C>)
    requires Same(s, r, o) && (c == o || SameFor(i, j, o))
    ensures Same(SetInfo(s, c, i), SetInfo(r, c, j), o)
  {
  }

  lemma SetRight<C>(s: State<C>, r: State<C>, o: C, c: C, j: ConnInfo<C>)
    requires Same(s, r, o) && c in s.info && (c == o || SameFor(r.info[c], j, o))
    ensures Same(s, SetInfo(r, c, j), o)
  {
  }

  lemma ShutdownBoth<C>(s: State<C>, r: State<C>, o: C, c: C)
    requires Same(s, r, o)
    ensures Same(Shutdown(s, c), Shutdown(r, c), o)
  {
  }

  // ----- What the displaced connection does changes nothing -----

  lemma OwnSubscribe<C>(s: State<C>, o: C, d: Id)
    requires Closed(s) && o in s.info
    ensures Same(s, SubscribeDevice(s, o, d), o)
  {
    if Accepts(s, o, d) {
      var p := s.connections[d];
      assert p in s.info;
      hide Closed, Add, Without;
      var i := s.info[o].(subscribeIdList := Add(s.info[o].subscribeIdList, d));
      SetRight(s, s, o, o, i);
      var s1 := SetInfo(s, o, i);
      WithoutAdd(s1.info[p].sendToList, o, o);
      SetRight(s, s1, o, p, s1.info[p].(sendToList := Add(s1.info[p].sendToList, o)));
    }
  }

  lemma OwnUnsubscribe<C>(s: State<C>, r: State<C>, o: C, d: Id)
    requires Closed(s) && Closed(r) && o in s.info && Same(s, r, o)
    ensures Same(s, UnsubscribeDevice(r, o, d), o)
    ensures UnsubscribeDevice(r, o, d).info[o].deviceId == r.info[o].deviceId
  {
    if d in r.info[o].subscribeIdList {
      assert d in r.connections ==> r.connections[d] in r.info;
      hide Closed, Without, EraseFirst, SameFor;
      var r1 := r;
      if d in r.connections {
        var p := r.connections[d];
        var j := r.info[p].(sendToList := Without(r.info[p].sendToList, o));
        MaskedSame(r.info[p], o);
        SetRight(s, r, o, p, j);
        r1 := SetInfo(r, p, j);
      }
      SetRight(s, r1, o, o, r1.info[o].(subscribeIdList := EraseFirst(r1.info[o].subscribeIdList, d)));
    }
  }

  lemma MaskedSame<C>(i: ConnInfo<C>, o: C)
    ensures SameFor(i, i.(sendToList := Without(i.sendToList, o)), o)
  {
  }

  lemma {:induction false} OwnUnsubscribeAll<C>(s: State<C>, r: State<C>, o: C)
    requires Closed(s) && Closed(r) && o in s.info && Same(s, r, o)
    ensures Same(s, UnsubscribeAll(r, o), o)
    ensures UnsubscribeAll(r, o).info[o].deviceId == r.info[o].deviceId
    decreases |r.info[o].subscribeIdList|
  {
    hide Closed, UnsubscribeDevice, SameFor;
    var l := r.info[o].subscribeIdList;
    if l != [] {
      OwnUnsubscribe(s, r, o, l[0]);
      OwnUnsubscribeAll(s, UnsubscribeDevice(r, o, l[0]), o);
    }
  }

  lemma OwnUnregister<C>(s: State<C>, r: State<C>, o: C)
    requires Closed(s) && Closed(r) && o in s.info && Same(s, r, o) && r.info[o].deviceId == DELETE
    ensures Same(s, UnregisterDevice(r, o), o)
    ensures UnregisterDevice(r, o).info[o].deviceId == DELETE
  {
    hide Closed, UnsubscribeAll, SameFor;
    OwnUnsubscribeAll(s, r, o);
    var r1 := UnsubscribeAll(r, o);
    SetRight(s, r1, o, o, r1.info[o].(sendToList := []));
  }

  lemma EraseClosed<C>(s: State<C>, c: C)
    requires Closed(s) && c in s.info
    ensures Closed(Erased(s, c))
  {
    hide EraseAt;
  }

  lemma OwnGone<C>(s: State<C>, o: C)
    requires Closed(s) && o in s.info && s.info[o].deviceId == DELETE
    ensures Same(s, ConnectionDown(s, o), o) && ConnectionDown(s, o).info[o].deviceId == DELETE
  {
    EraseClosed(s, o);
    hide Closed, SameFor, UnregisterDevice;
    assert o in s.phase by { PhaseKnown(s, o); }
    ReflexiveSame(s, o);
    OwnUnregister(s, Erased(s, o), o);
  }

  lemma PhaseKnown<C>(s: State<C>, o: C)
    requires Closed(s) && o in s.info
    ensures o in s.phase
  {
  }

  lemma ReflexiveSame<C>(s: State<C>, o: C)
    ensures Same(s, s, o)
  {
  }

  lemma OwnEffect<C>(s: State<C>, o: C, m: Message, time: int)
    requires Closed(s) && o in s.info && s.info[o].deviceId == DELETE && !Classify(m).Register?
    ensures Same(s, Effect(s, o, m, time), o) && Effect(s, o, m, time).info[o].deviceId == DELETE
  {
    hide Closed, SameFor, UnregisterDevice, UnsubscribeDevice, RegisterDevice;
    ReflexiveSame(s, o);
    match Classify(m)
    case Subscribe(d) => OwnSubscribe(s, o, d);
    case Data => SetRight(s, s, o, o, s.info[o].(sendToList := OnlyConnected(s.info[o].sendToList, s.phase)));
    case Unregister => OwnUnregister(s, s, o);
    case Unsubscribe(d) => OwnUnsubscribe(s, s, o, d);
    case Check(_) =>
    case Beat => SetRight(s, s, o, o, s.info[o].(lastReceiveTime := time));
    case Unknown =>
  }

  /** No message of `o` except a register, and no teardown of it, is visible outside `o`. */
  lemma OwnStep<C>(s: State<C>, e: Event<C>, o: C)
    requires Closed(s) && Enabled(s, e) && o in s.info && s.info[o].deviceId == DELETE
    requires !e.Tick? && e.conn == o && !(e.Arrive? && Classify(e.message).Register?)
    ensures Same(s, Step(s, e), o) && Step(s, e).info[o].deviceId == DELETE
  {
    hide Closed, SameFor, ConnectionDown, Effect;
    ReflexiveSame(s, o);
    match e
    case Gone(_) => OwnGone(s, o);
    case Arrive(_, m, t) => OwnEffect(s, o, m, t);
    case Refused(_) =>
  }

  // ----- Everyone else's steps do not notice -----

  lemma BothRegister<C>(s: State<C>, r: State<C>, o: C, c: C, d: Id)
    requires Closed(s) && Closed(r) && Same(s, r, o) && c in s.info && c != o
    ensures Same(RegisterDevice(s, c, d), RegisterDevice(r, c, d), o)
  {
    hide Closed, SameFor, Shutdown;
    OwnerKnown(s, d);
    var i, j := s.info[c].(deviceId := d), r.info[c].(deviceId := d);
    Renamed(s.info[c], r.info[c], o, d);
    SetBoth(s, r, o, c, i, j);
    if d in s.connections && s.connections[d] != c {
      var w := s.connections[d];
      var s1, r1 := SetInfo(s, c, i), SetInfo(r, c, j);
      var i', j' := s1.info[w].(deviceId := DELETE), r1.info[w].(deviceId := DELETE);
      if w != o {
        Renamed(s1.info[w], r1.info[w], o, DELETE);
      }
      SetBoth(s1, r1, o, w, i', j');
      ShutdownBoth(SetInfo(s1, w, i'), SetInfo(r1, w, j'), o, w);
    }
  }

  lemma Renamed<C>(i: ConnInfo<C>, j: ConnInfo<C>, o: C, d: Id)
    requires SameFor(i, j, o)
    ensures SameFor(i.(deviceId := d), j.(deviceId := d), o)
  {
  }

  lemma OwnerKnown<C>(s: State<C>, d: Id)
    requires Closed(s)
    ensures d in s.connections ==> s.connections[d] in s.info
  {
  }

  lemma BothSubscribe<C>(s: State<C>, r: State<C>, o: C, c: C, d: Id)
    requires Closed(s) && Closed(r) && Same(s, r, o) && c in s.info && c != o
    ensures Same(SubscribeDevice(s, c, d), SubscribeDevice(r, c, d), o)
  {
    OwnerKnown(s, d);
    hide Closed, Without, Add;
    if Accepts(s, c, d) {
      var i := s.info[c].(subscribeIdList := Add(s.info[c].subscribeIdList, d));
      var j := r.info[c].(subscribeIdList := Add(r.info[c].subscribeIdList, d));
      SetBoth(s, r, o, c, i, j);
      var p := s.connections[d];
      var s1, r1 := SetInfo(s, c, i), SetInfo(r, c, j);
      WithoutAdd(s1.info[p].sendToList, c, o);
      WithoutAdd(r1.info[p].sendToList, c, o);
      SetBoth(s1, r1, o, p, s1.info[p].(sendToList := Add(s1.info[p].sendToList, c)),
              r1.info[p].(sendToList := Add(r1.info[p].sendToList, c)));
    }
  }

  lemma BothUnsubscribe<C>(s: State<C>, r: State<C>, o: C, c: C, d: Id)
    requires Closed(s) && Closed(r) && Same(s, r, o) && c in s.info && c != o
    ensures Same(UnsubscribeDevice(s, c, d), UnsubscribeDevice(r, c, d), o)
  {
    OwnerKnown(s, d);
    hide Closed, Without, EraseFirst;
    if d in s.info[c].subscribeIdList {
      var s1, r1 := s, r;
      if d in s.connections {
        var p := s.connections[d];
        WithoutCommute(s.info[p].sendToList, c, o);
        WithoutCommute(r.info[p].sendToList, c, o);
        var i := s.info[p].(sendToList := Without(s.info[p].sendToList, c));
        var j := r.info[p].(sendToList := Without(r.info[p].sendToList, c));
        SetBoth(s, r, o, p, i, j);
        s1, r1 := SetInfo(s, p, i), SetInfo(r, p, j);
      }
      SetBoth(s1, r1, o, c, s1.info[c].(subscribeIdList := EraseFirst(s1.info[c].subscribeIdList, d)),
              r1.info[c].(subscribeIdList := EraseFirst(r1.info[c].subscribeIdList, d)));
    }
  }

  lemma {:induction false} BothUnsubscribeAll<C>(s: State<C>, r: State<C>, o: C, c: C)
    requires Closed(s) && Closed(r) && Same(s, r, o) && c in s.info && c != o
    ensures Same(UnsubscribeAll(s, c), UnsubscribeAll(r, c), o)
    decreases |s.info[c].subscribeIdList|
  {
    hide Closed, UnsubscribeDevice, Without;
    var l := s.info[c].subscribeIdList;
    if l != [] {
      BothUnsubscribe(s, r, o, c, l[0]);
      BothUnsubscribeAll(UnsubscribeDevice(s, c, l[0]), UnsubscribeDevice(r, c, l[0]), o, c);
    }
  }

  lemma BothUnregister<C>(s: State<C>, r: State<C>, o: C, c: C)
    requires Closed(s) && Closed(r) && Same(s, r, o) && c in s.info && c != o
    ensures Same(UnregisterDevice(s, c), UnregisterDevice(r, c), o)
  {
    hide Closed, UnsubscribeAll, Without;
    BothUnsubscribeAll(s, r, o, c);
    var s1, r1 := UnsubscribeAll(s, c), UnsubscribeAll(r, c);
    var i, j := s1.info[c].(sendToList := []), r1.info[c].(sendToList := []);
    SetBoth(s1, r1, o, c, i, j);
    SetBoth(SetInfo(s1, c, i), SetInfo(r1, c, j), o, c, i.(deviceId := DELETE), j.(deviceId := DELETE));
  }

  lemma BothSend<C>(s: State<C>, r: State<C>, o: C, c: C, m: Message)
    requires Closed(s) && Closed(r) && Same(s, r, o) && c in s.info && c != o
    ensures Same(SendData(s, c, m), SendData(r, c, m), o)
  {
    hide Closed, Without, OnlyConnected;
    var l, k := s.info[c].sendToList, r.info[c].sendToList;
    WithoutConnected(l, s.phase, o);
    WithoutConnected(k, r.phase, o);
    ConnectedSame(Without(l, o), s.phase, r.phase, o);
    SetBoth(s, r, o, c, s.info[c].(sendToList := OnlyConnected(l, s.phase)),
            r.info[c].(sendToList := OnlyConnected(k, r.phase)));
  }

  lemma BothEffect<C>(s: State<C>, r: State<C>, o: C, c: C, m: Message, time: int)
    requires Closed(s) && Closed(r) && Same(s, r, o) && c in s.info && c != o
    ensures Same(Effect(s, c, m, time), Effect(r, c, m, time), o)
  {
    hide Closed, Without, RegisterDevice, SubscribeDevice, SendData, UnregisterDevice, UnsubscribeDevice;
    match Classify(m)
    case Register(d) => BothRegister(s, r, o, c, d);
    case Subscribe(d) => BothSubscribe(s, r, o, c, d);
    case Data => BothSend(s, r, o, c, m);
    case Unregister => BothUnregister(s, r, o, c);
    case Unsubscribe(d) => BothUnsubscribe(s, r, o, c, d);
    case Check(_) =>
    case Beat => SetBoth(s, r, o, c, s.info[c].(lastReceiveTime := time), r.info[c].(lastReceiveTime := time));
    case Unknown =>
  }

  lemma BothGone<C>(s: State<C>, r: State<C>, o: C, c: C)
    requires Closed(s) && Closed(r) && Same(s, r, o) && c in s.info && c != o
    ensures Same(ConnectionDown(s, c), ConnectionDown(r, c), o)
  {
    hide Closed, UnregisterDevice, SameFor, EraseAt;
    EraseClosed(s, c);
    EraseClosed(r, c);
    BothUnregister(Erased(s, c), Erased(r, c), o, c);
  }

  lemma BothTick<C>(s: State<C>, r: State<C>, o: C, now: int)
    requires Wf(s) && Wf(r) && Same(s, r, o) && 0 <= s.idleSeconds
    requires Sorted(s) && NotAfter(s, now) && Sorted(r) && NotAfter(r, now)
    ensures Same(Sweep(s, 0, now), Sweep(r, 0, now), o)
  {
    hide Core, Sorted, NotAfter, Sweep;
    SweepIsFullScan(s, now);
    SweepIsFullScan(r, now);
    hide Without;
  }

  /** A step of anybody else takes registries that agree to registries that agree: in
      particular it is never refused, and never acts differently, because of `o`. */
  lemma OtherStep<C>(s: State<C>, r: State<C>, e: Event<C>, o: C, t: int)
    requires Wf(s) && Wf(r) && Same(s, r, o) && Timed(s, t) && Timed(r, t) && 0 <= s.idleSeconds
    requires Enabled(s, e) && o in s.info && (e.Tick? || e.conn != o) && t <= Clock(t, e)
    ensures Enabled(r, e) && Same(Step(s, e), Step(r, e), o)
  {
    hide Core, Closed, SameFor, ConnectionDown, Effect, Sweep, Sorted;
    match e
    case Up(c, _) =>
      PhaseKnown(s, o);
      UpBoth(s, r, o, c, e.time);
    case Gone(c) => BothGone(s, r, o, c);
    case Arrive(c, m, time) => BothEffect(s, r, o, c, m, time);
    case Refused(c) => ShutdownBoth(s, r, o, c);
    case Tick(now) => BothTick(s, r, o, now);
  }

  lemma UpBoth<C>(s: State<C>, r: State<C>, o: C, c: C, now: int)
    requires Closed(s) && Closed(r) && Same(s, r, o) && c !in s.info
    ensures Same(ConnectionUp(s, c, now), ConnectionUp(r, c, now), o)
  {
    hide Closed;
    assert forall x :: x in s.info && x != o ==> SameFor(s.info[x], r.info[x], o);
  }

  // ----- An id once lost stays lost -----

  lemma UnregisterDevices<C>(s: State<C>, c: C, o: C)
    requires Closed(s) && c in s.info && o in s.info && c != o
    ensures UnregisterDevice(s, c).info[o].deviceId == s.info[o].deviceId
  {
    hide Closed, UnsubscribeAll, OwnsOneOf;
    UnsubscribeAllExact(s, c, o);
  }

  lemma EffectDevices<C>(s: State<C>, c: C, m: Message, time: int, o: C)
    requires Closed(s) && c in s.info && o in s.info && c != o && s.info[o].deviceId == DELETE
    ensures Effect(s, c, m, time).info[o].deviceId == DELETE
  {
    hide Closed, UnregisterDevice;
    UnregisterDevices(s, c, o);
  }

  lemma {:induction false} SweepDevices<C>(s: State<C>, i: nat, now: int, o: C)
    requires Closed(s) && o in s.info
    ensures Sweep(s, i, now).info[o].deviceId == s.info[o].deviceId
    decreases |s.connectionList| - i
  {
    hide Closed;
    if i < |s.connectionList| && !Breaks(s, i, now) {
      SweepDevices(SweepStep(s, i, now), i + 1, now, o);
    }
  }

  lemma OtherStepDevices<C>(s: State<C>, e: Event<C>, o: C)
    requires Closed(s) && Enabled(s, e) && o in s.info && s.info[o].deviceId == DELETE
    requires e.Tick? || e.conn != o
    ensures Step(s, e).info[o].deviceId == DELETE
  {
    hide Closed, Effect, UnregisterDevice, Sweep;
    match e
    case Up(_, _) =>
    case Gone(c) => EraseClosed(s, c); UnregisterDevices(Erased(s, c), c, o);
    case Arrive(c, m, t) => EffectDevices(s, c, m, t, o);
    case Refused(_) =>
    case Tick(t) => SweepDevices(s, 0, t, o);
  }

  // ----- Main result -----

  ghost predicate IsOwn<C>(e: Event<C>, o: C) {
    !e.Tick? && e.conn == o
  }

  /** The run with everything `o` did taken out. */
  ghost function Purge<C>(es: seq<Event<C>>, o: C): seq<Event<C>> {
    if es == [] then [] else (if IsOwn(es[0], o) then [] else [es[0]]) + Purge(es[1..], o)
  }

  ghost predicate NeverRegisters<C>(es: seq<Event<C>>, o: C) {
    forall i :: 0 <= i < |es| && es[i].Arrive? && es[i].conn == o ==> !Classify(es[i].message).Register?
  }

  /** Non-interference: from a state in which `o` holds no id (it was displaced, or never
      registered), the registry at the end of any run in which `o` does not register is the
      one it would have been without any of `o`'s messages and without its teardown, up to
      `o`'s own record and `o`'s own subscriptions. */
  lemma {:induction false} DisplacedIsHarmless<C>(s: State<C>, r: State<C>, o: C, es: seq<Event<C>>, t: int)
    requires Wf(s) && Wf(r) && Same(s, r, o) && Timed(s, t) && Timed(r, t) && 0 <= s.idleSeconds
    requires o in s.info && s.info[o].deviceId == DELETE
    requires CanRun(s, es) && Monotone(t, es) && NeverRegisters(es, o)
    ensures CanRun(r, Purge(es, o)) && Same(Run(s, es), Run(r, Purge(es, o)), o)
    decreases |es|
  {
    hide Core, Closed, Same, Step, Timed;
    if es != [] {
      var e, t' := es[0], Clock(t, es[0]);
      StepKeeps(s, e);
      StepTimed(s, e, t);
      SameIdleSeconds(s, r, o);
      if IsOwn(e, o) {
        OwnStep(s, e, o);
        SameTransitive(s, r, Step(s, e), o);
        LaterTimed(r, t, t');
        DisplacedIsHarmless(Step(s, e), r, o, es[1..], t');
        assert [] + Purge(es[1..], o) == Purge(es[1..], o);
      } else {
        OtherStep(s, r, e, o, t);
        OtherStepDevices(s, e, o);
        StepKeeps(r, e);
        StepTimed(r, e, t);
        DisplacedIsHarmless(Step(s, e), Step(r, e), o, es[1..], t');
        assert ([e] + Purge(es[1..], o))[1..] == Purge(es[1..], o);
      }
    }
  }

  lemma SameIdleSeconds<C>(s: State<C>, r: State<C>, o: C)
    requires Same(s, r, o)
    ensures r.idleSeconds == s.idleSeconds && r.info.Keys == s.info.Keys
  {
  }

  lemma LaterTimed<C>(s: State<C>, t: int, t': int)
    requires Closed(s) && Timed(s, t) && t <= t'
    ensures Timed(s, t')
  {
  }

  /** Taking over an id puts the old owner in the state `DisplacedIsHarmless` speaks of. */
  lemma TakeOverDisplaces<C>(s: State<C>, c: C, d: Id)
    requires Wf(s) && c in s.info && d in s.connections && s.connections[d] != c
    ensures var o, r := s.connections[d], RegisterDevice(s, c, d);
            && r.connections[d] == c && r.info[c].deviceId == d
            && r.info[o].deviceId == DELETE && !r.phase[o].Connected?
            && (forall e :: e in s.connections && e != d ==> e in r.connections && r.connections[e] == s.connections[e])
  {
    hide Core;
  }

  /** Displacement safety in the words of the protocol: after `c` has registered an id that was
      held by `o`, no run in which `o` does not register makes any difference, on account of
      what `o` does, to who owns which id or to whom any owner other than `o` sends, `o` itself
      aside. */
  lemma NewOwnerIsUndisturbed<C>(s: State<C>, c: C, m: Message, time: int, es: seq<Event<C>>)
    requires Wf(s) && Timed(s, time) && 0 <= s.idleSeconds && Alive(s, c)
    requires Classify(m).Register? && Classify(m).id in s.connections && s.connections[Classify(m).id] != c
    requires var r, o := OnMessage(s, c, m, time), s.connections[Classify(m).id];
             CanRun(r, es) && Monotone(time, es) && NeverRegisters(es, o)
    ensures var r, o := OnMessage(s, c, m, time), s.connections[Classify(m).id];
            && r.connections[Classify(m).id] == c
            && CanRun(r, Purge(es, o))
            && var f, g := Run(r, es), Run(r, Purge(es, o));
            && f.connections == g.connections && f.info.Keys == g.info.Keys
            && (forall p :: p in f.info && p != o ==> Without(f.info[p].sendToList, o) == Without(g.info[p].sendToList, o))
  {
    hide Core, Closed, Timed, RegisterDevice, Run, CanRun, Monotone, NeverRegisters, Purge, Without;
    var d := Classify(m).id;
    var r, o := OnMessage(s, c, m, time), s.connections[d];
    OwnerKnown(s, d);
    TakeOverDisplaces(s, c, d);
    OnMessageKeeps(s, c, m, time);
    OnMessageTimed(s, c, m, time, time);
    ReflexiveSame(r, o);
    DisplacedIsHarmless(r, r, o, es, time);
  }
}
