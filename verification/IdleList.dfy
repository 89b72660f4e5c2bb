/**
  The idle list and the timer (p2pServer/p2pServer.cc, onTimer, onConnection and
  heartBeatFunc).  The timer's loop stops at the first young enough connection; that is a
  full scan only because every step keeps the list ordered by `lastReceiveTime`.
 */
module IdleList {
  import opened Framing
  import opened Registry
  import opened Ownership

  ghost predicate Recorded<C>(l: seq<Slot<C>>, info: map<C, ConnInfo<C>>) {
    forall n :: n in l ==> n.conn in info
  }

  ghost predicate SortedSlots<C>(l: seq<Slot<C>>, info: map<C, ConnInfo<C>>)
    requires Recorded(l, info)
  {
    l == [] ||
    (&& (forall n :: n in l[1..] ==> info[l[0].conn].lastReceiveTime <= info[n.conn].lastReceiveTime)
     && SortedSlots(l[1..], info))
  }

  ghost predicate Sorted<C>(s: State<C>)
    requires Closed(s)
  {
    SortedSlots(s.connectionList, s.info)
  }

  /** Nothing was received after `t`. */
  ghost predicate NotAfter<C>(s: State<C>, t: int) {
    forall c :: c in s.info ==> s.info[c].lastReceiveTime <= t
  }

  /** The scan the timer stands for: every connected connection idle for too long is shut
      down, whatever the order of the list. */
  ghost function FullScan<C>(s: State<C>, now: int): State<C>
    requires Closed(s)
  {
    s.(phase := map x | x in s.phase ::
         if s.phase[x].Connected? && Expired(s, x, now) then Disconnecting else s.phase[x])
  }

  // ----- The sweep of a sorted list -----

  lemma {:induction false} SortedAt<C>(l: seq<Slot<C>>, info: map<C, ConnInfo<C>>, i: nat, j: nat)
    requires Recorded(l, info) && SortedSlots(l, info) && i < j < |l|
    ensures info[l[i].conn].lastReceiveTime <= info[l[j].conn].lastReceiveTime
  {
    if i > 0 {
      SortedAt(l[1..], info, i - 1, j - 1);
    } else {
      assert l[j] in l[1..];
    }
  }

  lemma {:induction false} SortedFromIndices<C>(l: seq<Slot<C>>, info: map<C, ConnInfo<C>>)
    requires Recorded(l, info)
    requires forall i, j :: 0 <= i < j < |l| ==> info[l[i].conn].lastReceiveTime <= info[l[j].conn].lastReceiveTime
    ensures SortedSlots(l, info)
  {
    if l != [] {
      SortedFromIndices(l[1..], info);
    }
  }

  lemma {:induction false} DistinctAt<C>(l: seq<Slot<C>>, i: nat, j: nat)
    requires DistinctHandles(l) && i < j < |l|
    ensures l[i].handle != l[j].handle
  {
    if i > 0 {
      DistinctAt(l[1..], i - 1, j - 1);
    } else {
      assert l[j] in l[1..];
    }
  }

  /** Different nodes hold different connections. */
  lemma NodesDiffer<C>(s: State<C>, i: nat, j: nat)
    requires IdleExact(s) && i < |s.connectionList| && j < |s.connectionList| && i != j
    ensures s.connectionList[i].conn != s.connectionList[j].conn
  {
    DistinctAt(s.connectionList, if i < j then i else j, if i < j then j else i);
  }

  /** The connection stands at node `i` or later. */
  ghost predicate AtOrAfter<C>(s: State<C>, i: nat, x: C) {
    exists j :: i <= j < |s.connectionList| && s.connectionList[j].conn == x
  }

  /** Breaking at a sorted node loses nothing: no connection from there on is too old. */
  lemma BreakLosesNothing<C>(s: State<C>, i: nat, now: int, x: C)
    requires Closed(s) && Sorted(s) && i < |s.connectionList| && Breaks(s, i, now)
    requires x in s.info && AtOrAfter(s, i, x)
    ensures !Expired(s, x, now)
  {
    var j :| i <= j < |s.connectionList| && s.connectionList[j].conn == x;
    if i < j {
      SortedAt(s.connectionList, s.info, i, j);
    }
  }

  /** A stored time in the future is set to `now`; the order survives because everything
      before it is at most `now` and everything after it was at least as far ahead. */
  lemma JumpKeepsSorted<C>(s: State<C>, i: nat, now: int)
    requires Closed(s) && IdleExact(s) && Sorted(s) && i < |s.connectionList|
    requires forall j :: 0 <= j < i ==> s.info[s.connectionList[j].conn].lastReceiveTime <= now
    requires now < s.info[s.connectionList[i].conn].lastReceiveTime
    ensures var c := s.connectionList[i].conn;
            SortedSlots(s.connectionList, s.info[c := s.info[c].(lastReceiveTime := now)])
  {
    var l, c := s.connectionList, s.connectionList[i].conn;
    var info := s.info[c := s.info[c].(lastReceiveTime := now)];
    forall j, k | 0 <= j < k < |l|
      ensures info[l[j].conn].lastReceiveTime <= info[l[k].conn].lastReceiveTime
    {
      SortedAt(l, s.info, j, k);
      if j != i {
        NodesDiffer(s, i, j);
      }
      if k != i {
        NodesDiffer(s, i, k);
      }
      if i < k {
        SortedAt(l, s.info, i, k);
      }
    }
    SortedFromIndices(l, info);
  }

  /** An iteration that goes on keeps the order and leaves nothing later than `now` behind. */
  lemma SweepStepTimed<C>(s: State<C>, i: nat, now: int)
    requires Wf(s) && Sorted(s) && 0 <= s.idleSeconds && i < |s.connectionList| && !Breaks(s, i, now)
    requires forall j :: 0 <= j < i ==> s.info[s.connectionList[j].conn].lastReceiveTime <= now
    ensures var r := SweepStep(s, i, now);
            && Sorted(r)
            && (forall j :: 0 <= j <= i ==> r.info[r.connectionList[j].conn].lastReceiveTime <= now)
            && (NotAfter(s, now) ==> r.info == s.info)
  {
    hide Owned, ListsDistinct, Placed;
    var c := s.connectionList[i].conn;
    if Expired(s, c, now) {
      hide SortedSlots, Alive;
    } else {
      JumpKeepsSorted(s, i, now);
      hide SortedSlots, Alive;
    }
  }

  lemma SweepStepPhase<C>(s: State<C>, i: nat, now: int, x: C)
    requires Closed(s) && IdleExact(s) && i < |s.connectionList| && !Breaks(s, i, now) && x in s.info
    ensures var r, c := SweepStep(s, i, now), s.connectionList[i].conn;
            && (AtOrAfter(s, i, x) <==> x == c || AtOrAfter(r, i + 1, x))
            && (x == c ==> !AtOrAfter(r, i + 1, x))
            && (x != c ==> r.info[x] == s.info[x] && r.phase[x] == s.phase[x])
            && (x == c ==> r.phase[x] == if s.phase[x].Connected? && Expired(s, x, now) then Disconnecting else s.phase[x])
  {
    var l, c := s.connectionList, s.connectionList[i].conn;
    if AtOrAfter(s, i, x) && x != c {
      var j :| i <= j < |l| && l[j].conn == x;
      assert i + 1 <= j;
    }
    if x == c && AtOrAfter(s, i + 1, x) {
      var j :| i + 1 <= j < |l| && l[j].conn == x;
      NodesDiffer(s, i, j);
    }
    assert AtOrAfter(SweepStep(s, i, now), i + 1, x) == AtOrAfter(s, i + 1, x);
    hide Closed, IdleExact;
  }

  lemma {:induction false} SweepKeepsSorted<C>(s: State<C>, i: nat, now: int)
    requires Wf(s) && Sorted(s) && 0 <= s.idleSeconds
    requires forall j :: 0 <= j < i && j < |s.connectionList| ==> s.info[s.connectionList[j].conn].lastReceiveTime <= now
    ensures Sorted(Sweep(s, i, now))
    ensures NotAfter(s, now) ==> Sweep(s, i, now).info == s.info
    decreases |s.connectionList| - i
  {
    hide Core, Closed, SweepStep, Sorted;
    if i < |s.connectionList| && !Breaks(s, i, now) {
      SweepStepKeeps(s, i, now);
      SweepStepTimed(s, i, now);
      SweepKeepsSorted(SweepStep(s, i, now), i + 1, now);
    }
  }

  lemma {:induction false} SweepPhase<C>(s: State<C>, i: nat, now: int, x: C)
    requires Wf(s) && Sorted(s) && 0 <= s.idleSeconds && x in s.info
    requires forall j :: 0 <= j < i && j < |s.connectionList| ==> s.info[s.connectionList[j].conn].lastReceiveTime <= now
    ensures Sweep(s, i, now).phase[x] ==
              if AtOrAfter(s, i, x) && s.phase[x].Connected? && Expired(s, x, now) then Disconnecting else s.phase[x]
    decreases |s.connectionList| - i
  {
    hide Core, Closed, SweepStep, Sorted;
    if i < |s.connectionList| {
      if Breaks(s, i, now) {
        if AtOrAfter(s, i, x) {
          BreakLosesNothing(s, i, now, x);
        }
      } else {
        SweepStepKeeps(s, i, now);
        SweepStepTimed(s, i, now);
        CoreIdle(s);
        SweepStepPhase(s, i, now, x);
        SweepPhase(SweepStep(s, i, now), i + 1, now, x);
      }
    }
  }

  lemma CoreIdle<C>(s: State<C>)
    requires Core(s)
    ensures IdleExact(s)
  {
  }

  lemma InList<C>(s: State<C>, c: C)
    requires IdleExact(s) && Alive(s, c)
    ensures AtOrAfter(s, 0, c)
  {
    assert Placed(s, c);
    var j :| 0 <= j < |s.connectionList| && s.connectionList[j] == Slot(s.info[c].position, c);
  }

  /** Early break equals full scan: a sweep of a sorted list shuts down exactly the connected
      connections whose age exceeds the limit and leaves a sorted list, whatever `now` is;
      when no stored time lies in the future it changes nothing else at all. */
  lemma SweepIsFullScan<C>(s: State<C>, now: int)
    requires Wf(s) && Sorted(s) && 0 <= s.idleSeconds
    ensures var r := Sweep(s, 0, now);
            && Sorted(r)
            && r.phase == FullScan(s, now).phase
            && (NotAfter(s, now) ==> r == FullScan(s, now))
  {
    hide Sorted, Sweep, Owned, ListsDistinct;
    SweepKeepsSorted(s, 0, now);
    var r := Sweep(s, 0, now);
    forall x | x in s.info
      ensures r.phase[x] == FullScan(s, now).phase[x]
    {
      SweepPhase(s, 0, now, x);
      if s.phase[x].Connected? {
        InList(s, x);
      }
    }
    assert r.phase.Keys == s.phase.Keys;
  }

  /** The limit, in the units of the source: seconds for the limit, microseconds for the times.
      A connected connection survives the sweep of a sorted list if and only if it was heard
      from within the limit, or lies in the future. */
  lemma IdleLimit<C>(s: State<C>, now: int, x: C)
    requires Wf(s) && Sorted(s) && 0 <= s.idleSeconds && x in s.phase && s.phase[x].Connected?
    ensures x in s.info && x in Sweep(s, 0, now).phase
    ensures Sweep(s, 0, now).phase[x].Connected? <==> now - s.info[x].lastReceiveTime <= s.idleSeconds * 1_000_000
    ensures !Sweep(s, 0, now).phase[x].Down?
  {
    assert x in s.info;
    hide Core, Sorted, Sweep;
    SweepIsFullScan(s, now);
  }

  /** The clock has been set back behind every stored time: all of them become the new time, and
      nobody is shut down. */
  lemma ClockSetBack<C>(s: State<C>, now: int)
    requires Wf(s) && Sorted(s) && 0 <= s.idleSeconds
    requires s.connectionList != [] ==> now < s.info[s.connectionList[0].conn].lastReceiveTime
    ensures var r := Sweep(s, 0, now);
            && r.phase == s.phase
            && forall x :: x in s.info ==> r.info[x] == if Alive(s, x) then s.info[x].(lastReceiveTime := now) else s.info[x]
  {
    hide Core, Closed;
    ListRecorded(s);
    forall j | 0 <= j < |s.connectionList|
      ensures now < s.info[s.connectionList[j].conn].lastReceiveTime
    {
      if j > 0 {
        SortedAt(s.connectionList, s.info, 0, j);
      }
    }
    hide Sorted, Sweep;
    CoreIdle(s);
    var r := Sweep(s, 0, now);
    SetBackFrom(s, 0, now);
    forall x | x in s.info
      ensures r.info[x] == if Alive(s, x) then s.info[x].(lastReceiveTime := now) else s.info[x]
    {
      SetBackAt(s, now, x);
    }
  }

  lemma SetBackAt<C>(s: State<C>, now: int, x: C)
    requires Wf(s) && x in s.info
    requires forall y :: y in s.info ==>
      Sweep(s, 0, now).info[y] == if AtOrAfter(s, 0, y) then s.info[y].(lastReceiveTime := now) else s.info[y]
    ensures Sweep(s, 0, now).info[x] == if Alive(s, x) then s.info[x].(lastReceiveTime := now) else s.info[x]
  {
    hide Closed, Owned, ListsDistinct, Sweep;
    if Alive(s, x) {
      InList(s, x);
    }
    if AtOrAfter(s, 0, x) {
      OnListIsAlive(s, x);
    }
  }

  lemma OnListIsAlive<C>(s: State<C>, x: C)
    requires IdleExact(s) && AtOrAfter(s, 0, x)
    ensures Alive(s, x)
  {
    var j :| 0 <= j < |s.connectionList| && s.connectionList[j].conn == x;
    assert s.connectionList[j] in s.connectionList;
  }

  lemma {:induction false} SetBackFrom<C>(s: State<C>, i: nat, now: int)
    requires Closed(s) && IdleExact(s) && 0 <= s.idleSeconds && i <= |s.connectionList|
    requires forall j :: i <= j < |s.connectionList| ==> now < s.info[s.connectionList[j].conn].lastReceiveTime
    ensures Sweep(s, i, now).phase == s.phase
    ensures forall x :: x in s.info ==>
      Sweep(s, i, now).info[x] == if AtOrAfter(s, i, x) then s.info[x].(lastReceiveTime := now) else s.info[x]
    decreases |s.connectionList| - i
  {
    hide IdleExact, AtOrAfter, Closed;
    if i < |s.connectionList| {
      ListRecorded(s);
      var c := s.connectionList[i].conn;
      var s1 := SetInfo(s, c, s.info[c].(lastReceiveTime := now));
      assert s.connectionList[i] in s.connectionList;
      SetBackStep(s, i, now);
      forall j | i < j < |s.connectionList|
        ensures s.connectionList[j].conn != c
      {
        NodesDiffer(s, i, j);
      }
      SetBackFrom(s1, i + 1, now);
      forall x | x in s.info
        ensures AtOrAfter(s, i, x) <==> x == c || AtOrAfter(s1, i + 1, x)
      {
        NextNode(s, s1, i, x);
      }
      NotLater(s1, i, c);
    } else {
      forall x | x in s.info
        ensures !AtOrAfter(s, i, x)
      {
        PastTheEnd(s, i, x);
      }
    }
  }

  lemma SetBackStep<C>(s: State<C>, i: nat, now: int)
    requires Closed(s) && IdleExact(s) && 0 <= s.idleSeconds && i < |s.connectionList|
    requires s.connectionList[i].conn in s.info && now < s.info[s.connectionList[i].conn].lastReceiveTime
    ensures var c := s.connectionList[i].conn;
            var s1 := SetInfo(s, c, s.info[c].(lastReceiveTime := now));
            Closed(s1) && IdleExact(s1) && Sweep(s, i, now) == Sweep(s1, i + 1, now)
  {
    hide IdleExact;
    var c := s.connectionList[i].conn;
    SetInfoIdle(s, c, s.info[c].(lastReceiveTime := now));
    assert SweepStep(s, i, now) == SetInfo(s, c, s.info[c].(lastReceiveTime := now));
  }

  lemma NextNode<C>(s: State<C>, r: State<C>, i: nat, x: C)
    requires i < |s.connectionList| && r.connectionList == s.connectionList
    ensures AtOrAfter(s, i, x) <==> x == s.connectionList[i].conn || AtOrAfter(r, i + 1, x)
  {
    if AtOrAfter(s, i, x) && x != s.connectionList[i].conn {
      var j :| i <= j < |s.connectionList| && s.connectionList[j].conn == x;
      assert i + 1 <= j;
    }
  }

  lemma NotLater<C>(s: State<C>, i: nat, c: C)
    requires forall j :: i < j < |s.connectionList| ==> s.connectionList[j].conn != c
    ensures !AtOrAfter(s, i + 1, c)
  {
  }

  lemma PastTheEnd<C>(s: State<C>, i: nat, x: C)
    requires |s.connectionList| <= i
    ensures !AtOrAfter(s, i, x)
  {
  }

  // ----- Runs with non-decreasing times -----

  /** No stored time exceeds `t`, the time of the last event, and the list is sorted. */
  ghost predicate Timed<C>(s: State<C>, t: int)
    requires Closed(s)
  {
    Sorted(s) && NotAfter(s, t)
  }

  ghost function Clock<C>(t: int, e: Event<C>): int {
    if e.Up? || e.Arrive? || e.Tick? then e.time else t
  }

  ghost predicate Monotone<C>(t: int, es: seq<Event<C>>)
    decreases |es|
  {
    es == [] || (t <= Clock(t, es[0]) && Monotone(Clock(t, es[0]), es[1..]))
  }

  ghost function LastTime<C>(t: int, es: seq<Event<C>>): int
    decreases |es|
  {
    if es == [] then t else LastTime(Clock(t, es[0]), es[1..])
  }

  /** Every stored time is the same in both states. */
  ghost predicate SameTimes<C>(s: State<C>, r: State<C>) {
    r.info.Keys == s.info.Keys && forall x :: x in s.info ==> r.info[x].lastReceiveTime == s.info[x].lastReceiveTime
  }

  lemma {:induction false} SameTimesSorted<C>(l: seq<Slot<C>>, s: State<C>, r: State<C>)
    requires Recorded(l, s.info) && SortedSlots(l, s.info) && SameTimes(s, r)
    ensures Recorded(l, r.info) && SortedSlots(l, r.info)
  {
    if l != [] {
      SameTimesSorted(l[1..], s, r);
    }
  }

  lemma {:induction false} EraseSorted<C>(l: seq<Slot<C>>, info: map<C, ConnInfo<C>>, handle: nat)
    requires Recorded(l, info) && SortedSlots(l, info)
    ensures Recorded(EraseAt(l, handle), info) && SortedSlots(EraseAt(l, handle), info)
  {
    if l != [] && l[0].handle != handle {
      EraseSorted(l[1..], info, handle);
    }
  }

  lemma {:induction false} AppendSorted<C>(l: seq<Slot<C>>, info: map<C, ConnInfo<C>>, n: Slot<C>)
    requires Recorded(l, info) && SortedSlots(l, info) && n.conn in info
    requires forall m :: m in l ==> info[m.conn].lastReceiveTime <= info[n.conn].lastReceiveTime
    ensures Recorded(l + [n], info) && SortedSlots(l + [n], info)
  {
    if l == [] {
      assert [n][1..] == [];
    } else {
      AppendSorted(l[1..], info, n);
      assert (l + [n])[1..] == l[1..] + [n];
    }
  }

  lemma {:induction false} OtherTimeSorted<C>(l: seq<Slot<C>>, info: map<C, ConnInfo<C>>, c: C, i: ConnInfo<C>)
    requires Recorded(l, info) && SortedSlots(l, info) && forall n :: n in l ==> n.conn != c
    ensures Recorded(l, info[c := i]) && SortedSlots(l, info[c := i])
  {
    if l != [] {
      OtherTimeSorted(l[1..], info, c, i);
    }
  }

  lemma UnsubscribeAllTimes<C>(s: State<C>, c: C)
    requires Closed(s) && c in s.info
    ensures SameTimes(s, UnsubscribeAll(s, c))
  {
    hide Closed, UnsubscribeAll, OwnsOneOf;
    forall x | x in s.info
      ensures UnsubscribeAll(s, c).info[x].lastReceiveTime == s.info[x].lastReceiveTime
    {
      UnsubscribeAllExact(s, c, x);
    }
  }

  lemma UnregisterTimes<C>(s: State<C>, c: C)
    requires Closed(s) && c in s.info
    ensures SameTimes(s, UnregisterDevice(s, c))
  {
    hide Closed, UnsubscribeAll;
    UnsubscribeAllTimes(s, c);
  }

  lemma RegisterTimes<C>(s: State<C>, c: C, d: Id)
    requires Closed(s) && c in s.info
    ensures SameTimes(s, RegisterDevice(s, c, d))
  {
    hide Closed;
  }

  lemma SubscribeTimes<C>(s: State<C>, c: C, d: Id)
    requires Closed(s) && c in s.info
    ensures SameTimes(s, SubscribeDevice(s, c, d))
  {
    hide Closed, Add;
  }

  lemma UnsubscribeTimes<C>(s: State<C>, c: C, d: Id)
    requires Closed(s) && c in s.info
    ensures SameTimes(s, UnsubscribeDevice(s, c, d))
  {
    hide Closed, Without, EraseFirst;
  }

  lemma EffectTimes<C>(s: State<C>, c: C, m: Message, time: int)
    requires Closed(s) && c in s.info && !Classify(m).Beat?
    ensures SameTimes(s, Effect(s, c, m, time))
    ensures Effect(s, c, m, time).connectionList == s.connectionList
  {
    hide Closed, RegisterDevice, SubscribeDevice, UnsubscribeDevice, UnregisterDevice;
    match Classify(m)
    case Register(d) => RegisterTimes(s, c, d);
    case Subscribe(d) => SubscribeTimes(s, c, d);
    case Data =>
    case Unregister => UnregisterTimes(s, c);
    case Unsubscribe(d) => UnsubscribeTimes(s, c, d);
    case Check(_) =>
    case Unknown =>
  }

  lemma HeartBeatTimed<C>(s: State<C>, c: C, t: int, time: int)
    requires Wf(s) && Timed(s, t) && Alive(s, c) && t <= time
    ensures Timed(HeartBeat(s, c, time), time)
  {
    assert Placed(s, c);
    var h := s.info[c].position;
    var l := EraseAt(s.connectionList, h);
    var i := s.info[c].(lastReceiveTime := time);
    SpliceHandles(s.connectionList, Slot(h, c));
    EraseAtHandles(s.connectionList, h);
    EraseSorted(s.connectionList, s.info, h);
    assert forall n :: n in l ==> n.conn != c;
    hide Core, EraseAt, SpliceToEnd;
    OtherTimeSorted(l, s.info, c, i);
    AppendSorted(l, s.info[c := i], Slot(h, c));
  }

  lemma ListRecorded<C>(s: State<C>)
    requires Closed(s)
    ensures Recorded(s.connectionList, s.info)
  {
  }

  lemma EffectTimed<C>(s: State<C>, c: C, m: Message, t: int, time: int)
    requires Wf(s) && Timed(s, t) && Alive(s, c) && t <= time
    ensures Timed(Effect(s, c, m, time), time)
  {
    hide Core, Closed, HeartBeat;
    ListRecorded(s);
    hide RegisterDevice, SubscribeDevice, SendData, UnregisterDevice, UnsubscribeDevice;
    if Classify(m).Beat? {
      hide Sorted;
      HeartBeatTimed(s, c, t, time);
    } else {
      hide Effect;
      EffectTimes(s, c, m, time);
      SameTimesSorted(s.connectionList, s, Effect(s, c, m, time));
    }
  }

  lemma OnMessageTimed<C>(s: State<C>, c: C, m: Message, t: int, time: int)
    requires Wf(s) && Timed(s, t) && Alive(s, c) && t <= time
    ensures Timed(OnMessage(s, c, m, time), time)
  {
    hide Core, Closed, Effect;
    EffectTimed(s, c, m, t, time);
  }

  lemma GoneTimed<C>(s: State<C>, c: C, t: int)
    requires Wf(s) && Timed(s, t) && Alive(s, c)
    ensures Timed(ConnectionDown(s, c), t)
  {
    EraseSorted(s.connectionList, s.info, s.info[c].position);
    EraseKeeps(s, c);
    hide Closed, Core, UnregisterDevice, EraseAt;
    UnregisterTimes(Erased(s, c), c);
    SameTimesSorted(Erased(s, c).connectionList, Erased(s, c), ConnectionDown(s, c));
  }

  lemma UpTimed<C>(s: State<C>, c: C, t: int, now: int)
    requires Wf(s) && Timed(s, t) && c !in s.info && t <= now
    ensures Timed(ConnectionUp(s, c, now), now)
  {
    assert forall n :: n in s.connectionList ==> n.conn != c;
    var i := ConnInfo(DELETE, now, s.nextHandle, [], []);
    OtherTimeSorted(s.connectionList, s.info, c, i);
    AppendSorted(s.connectionList, s.info[c := i], Slot(s.nextHandle, c));
    hide Core, Closed;
  }

  lemma RefusedTimed<C>(s: State<C>, c: C, t: int)
    requires Closed(s) && Timed(s, t) && c in s.info
    ensures Closed(Shutdown(s, c)) && Timed(Shutdown(s, c), t)
  {
  }

  lemma StepTimed<C>(s: State<C>, e: Event<C>, t: int)
    requires Wf(s) && Timed(s, t) && 0 <= s.idleSeconds && Enabled(s, e) && t <= Clock(t, e)
    ensures Timed(Step(s, e), Clock(t, e)) && Step(s, e).idleSeconds == s.idleSeconds
    ensures e.Tick? ==> Step(s, e) == FullScan(s, e.time)
  {
    hide Core, Closed, Sorted, OnMessage, ConnectionDown, ConnectionUp, Sweep;
    match e
    case Up(c, now) => UpTimed(s, c, t, now);
    case Gone(c) => GoneTimed(s, c, t);
    case Arrive(c, m, now) => OnMessageTimed(s, c, m, t, now);
    case Refused(c) => RefusedTimed(s, c, t);
    case Tick(now) => SweepIsFullScan(s, now);
  }

  lemma {:induction false} RunTimed<C>(s: State<C>, es: seq<Event<C>>, t: int)
    requires Wf(s) && Timed(s, t) && 0 <= s.idleSeconds && CanRun(s, es) && Monotone(t, es)
    ensures Wf(Run(s, es)) && Timed(Run(s, es), LastTime(t, es)) && Run(s, es).idleSeconds == s.idleSeconds
    decreases |es|
  {
    hide Core, Closed, Timed, Step;
    if es != [] {
      StepKeeps(s, es[0]);
      StepTimed(s, es[0], t);
      RunTimed(Step(s, es[0]), es[1..], Clock(t, es[0]));
    }
  }

  /** In every run whose event times do not decrease, the next timer tick, early break and
      all, is the full scan: it shuts down exactly the connected connections idle for longer
      than the limit, and leaves the list sorted. */
  lemma TimerIsFullScan<C>(idleSeconds: int, es: seq<Event<C>>, start: int, now: int)
    requires 0 <= idleSeconds && CanRun(Init(idleSeconds), es) && Monotone(start, es) && LastTime(start, es) <= now
    ensures var s := Run(Init(idleSeconds), es);
            Sweep(s, 0, now) == FullScan(s, now) && Sorted(Sweep(s, 0, now))
  {
    RunTimed(Init<C>(idleSeconds), es, start);
    SweepIsFullScan(Run(Init<C>(idleSeconds), es), now);
    hide Sorted, Sweep, Core, Run;
  }

  /** When a connection was last heard from: when it came up, or its last heart beat. */
  ghost function Heard<C>(t: int, es: seq<Event<C>>, x: C): int
    decreases |es|
  {
    if es == [] then t else Heard(HeardNow(t, es[0], x), es[1..], x)
  }

  ghost function HeardNow<C>(t: int, e: Event<C>, x: C): int {
    if e.Up? && e.conn == x then e.time
    else if e.Arrive? && e.conn == x && e.message != [] && e.message[0] == 0x07 then e.time
    else t
  }

  lemma StepHeard<C>(s: State<C>, e: Event<C>, t: int, x: C)
    requires Wf(s) && Timed(s, t) && 0 <= s.idleSeconds && Enabled(s, e) && t <= Clock(t, e)
    ensures x in s.info ==>
      x in Step(s, e).info && Step(s, e).info[x].lastReceiveTime == HeardNow(s.info[x].lastReceiveTime, e, x)
    ensures x !in s.info && x in Step(s, e).info ==> forall u :: Step(s, e).info[x].lastReceiveTime == HeardNow(u, e, x)
  {
    hide Core, Closed, Timed, Effect, ConnectionDown, Sweep;
    match e {
      case Up(c, now) =>
      case Gone(c) => DownTimes(s, c);
      case Arrive(c, m, now) =>
        if Classify(m).Beat? {
          BeatTimes(s, c, m, now);
        } else {
          EffectTimes(s, c, m, now);
        }
      case Refused(c) =>
      case Tick(now) => StepTimed(s, e, t);
    }
  }

  lemma BeatTimes<C>(s: State<C>, c: C, m: Message, time: int)
    requires Closed(s) && c in s.info && Classify(m).Beat?
    ensures m != [] && m[0] == 0x07
    ensures Effect(s, c, m, time).info == s.info[c := s.info[c].(lastReceiveTime := time)]
  {
    hide Closed;
  }

  lemma DownTimes<C>(s: State<C>, c: C)
    requires Wf(s) && Alive(s, c)
    ensures SameTimes(s, ConnectionDown(s, c))
  {
    hide Closed, Core, UnregisterDevice, EraseAt;
    EraseKeeps(s, c);
    UnregisterTimes(Erased(s, c), c);
  }

  lemma {:induction false} RunHeard<C>(s: State<C>, es: seq<Event<C>>, t: int, x: C, u: int)
    requires Wf(s) && Timed(s, t) && 0 <= s.idleSeconds && CanRun(s, es) && Monotone(t, es)
    requires x in s.info ==> u == s.info[x].lastReceiveTime
    ensures x in Run(s, es).info ==> Run(s, es).info[x].lastReceiveTime == Heard(u, es, x)
    decreases |es|
  {
    hide Core, Closed, Timed, Step, HeardNow;
    if es != [] {
      StepKeeps(s, es[0]);
      StepTimed(s, es[0], t);
      StepHeard(s, es[0], t, x);
      RunHeard(Step(s, es[0]), es[1..], Clock(t, es[0]), x, HeardNow(u, es[0], x));
    }
  }

  /** At the end of every run whose event times do not decrease, the next tick leaves connected
      exactly those connected connections that came up or sent a heart beat within the limit:
      seconds for the limit, microseconds for the times. */
  lemma TimerIdleLimit<C>(idleSeconds: int, es: seq<Event<C>>, start: int, now: int, x: C)
    requires 0 <= idleSeconds && CanRun(Init(idleSeconds), es) && Monotone(start, es) && LastTime(start, es) <= now
    requires var s := Run(Init(idleSeconds), es); x in s.phase && s.phase[x].Connected?
    ensures var s := Run(Init(idleSeconds), es);
            && Closed(s) && x in Sweep(s, 0, now).phase
            && (Sweep(s, 0, now).phase[x].Connected? <==> now - Heard(start, es, x) <= idleSeconds * 1_000_000)
  {
    hide Sorted, Sweep, Core, Run, CanRun;
    InitTimed<C>(idleSeconds, start);
    RunTimed(Init<C>(idleSeconds), es, start);
    RunHeard(Init<C>(idleSeconds), es, start, x, start);
    IdleLimit(Run(Init<C>(idleSeconds), es), now, x);
  }

  lemma InitTimed<C>(idleSeconds: int, t: int)
    ensures Wf(Init<C>(idleSeconds)) && Timed(Init<C>(idleSeconds), t)
  {
  }
}
