/**
  What every run of the server keeps, with no assumption on what clients send: unique
  ownership of device ids, duplicate-free lists, and the integrity of the idle list.
 */
module Ownership {
  import opened Framing
  import opened Registry

  ghost predicate Distinct<T>(l: seq<T>) {
    l == [] || (l[0] !in l[1..] && Distinct(l[1..]))
  }

  /** A connection that holds an id is the one stored under it. */
  ghost predicate Owned<C>(s: State<C>) {
    forall c :: c in s.info && s.info[c].deviceId != DELETE ==>
      s.info[c].deviceId in s.connections && s.connections[s.info[c].deviceId] == c
  }

  ghost predicate ListsDistinct<C>(s: State<C>) {
    forall c :: c in s.info ==> Distinct(s.info[c].subscribeIdList) && Distinct(s.info[c].sendToList)
  }

  ghost predicate DistinctHandles<C>(l: seq<Slot<C>>) {
    l == [] || ((forall n :: n in l[1..] ==> n.handle != l[0].handle) && DistinctHandles(l[1..]))
  }

  /** The stored iterator of `c` designates a node of the list, and that node is `c`'s own. */
  ghost predicate Placed<C>(s: State<C>, c: C)
    requires c in s.info
  {
    Slot(s.info[c].position, c) in s.connectionList
  }

  /** The idle list holds exactly the connections that are not down, once each. */
  ghost predicate IdleExact<C>(s: State<C>) {
    && DistinctHandles(s.connectionList)
    && (forall n :: n in s.connectionList ==>
          n.handle < s.nextHandle && Alive(s, n.conn) && s.info[n.conn].position == n.handle)
    && (forall c :: c in s.info && Alive(s, c) ==> Placed(s, c))
  }

  ghost predicate Core<C>(s: State<C>) {
    Owned(s) && ListsDistinct(s) && IdleExact(s)
  }

  ghost predicate Wf<C>(s: State<C>) {
    Closed(s) && Core(s)
  }

  // ----- List facts -----

  lemma {:induction false} AddDistinct<T>(l: seq<T>, x: T)
    requires Distinct(l)
    ensures Distinct(Add(l, x))
  {
    if l == [] {
      assert [x][1..] == [];
    } else if x !in l {
      AddDistinct(l[1..], x);
      assert (l + [x])[1..] == l[1..] + [x];
    }
  }

  lemma {:induction false} WithoutDistinct<T>(l: seq<T>, x: T)
    requires Distinct(l)
    ensures Distinct(Without(l, x))
  {
    if l != [] {
      WithoutDistinct(l[1..], x);
    }
  }

  lemma {:induction false} EraseFirstDistinct<T>(l: seq<T>, x: T)
    requires Distinct(l) && x in l
    ensures Distinct(EraseFirst(l, x))
    ensures x !in EraseFirst(l, x)
  {
    if l[0] != x {
      EraseFirstDistinct(l[1..], x);
    }
  }

  lemma {:induction false} OnlyConnectedDistinct<C>(l: seq<C>, phase: map<C, Phase>)
    requires Distinct(l)
    ensures Distinct(OnlyConnected(l, phase))
  {
    if l != [] {
      OnlyConnectedDistinct(l[1..], phase);
    }
  }

  lemma {:induction false} AppendHandles<C>(l: seq<Slot<C>>, n: Slot<C>)
    requires DistinctHandles(l) && forall m :: m in l ==> m.handle != n.handle
    ensures DistinctHandles(l + [n])
  {
    if l == [] {
      assert [n][1..] == [];
    } else {
      AppendHandles(l[1..], n);
      assert (l + [n])[1..] == l[1..] + [n];
    }
  }

  lemma {:induction false} SameHandle<C>(l: seq<Slot<C>>, m: Slot<C>, n: Slot<C>)
    requires DistinctHandles(l) && m in l && n in l && m.handle == n.handle
    ensures m == n
  {
    if m in l[1..] && n in l[1..] {
      SameHandle(l[1..], m, n);
    }
  }

  lemma {:induction false} EraseAtHandles<C>(l: seq<Slot<C>>, handle: nat)
    requires DistinctHandles(l)
    ensures DistinctHandles(EraseAt(l, handle))
    ensures forall n :: n in EraseAt(l, handle) ==> n.handle != handle
  {
    if l != [] && l[0].handle != handle {
      EraseAtHandles(l[1..], handle);
    }
  }

  lemma {:induction false} SpliceHandles<C>(l: seq<Slot<C>>, n: Slot<C>)
    requires DistinctHandles(l) && n in l
    ensures DistinctHandles(SpliceToEnd(l, n.handle))
    ensures SpliceToEnd(l, n.handle) == EraseAt(l, n.handle) + [n]
  {
    if l[0].handle == n.handle {
      AppendHandles(l[1..], n);
    } else {
      SpliceHandles(l[1..], n);
    }
  }

  // ----- One record at a time -----

  lemma SetInfoIdle<C>(s: State<C>, c: C, i: ConnInfo<C>)
    requires IdleExact(s) && c in s.info && i.position == s.info[c].position
    ensures IdleExact(SetInfo(s, c, i))
  {
    var r := SetInfo(s, c, i);
    assert forall x :: x in s.info ==> (Alive(r, x) <==> Alive(s, x));
    assert forall x :: x in s.info && Alive(s, x) ==> Placed(s, x) && Placed(r, x);
  }

  lemma ShutdownIdle<C>(s: State<C>, c: C)
    requires IdleExact(s)
    ensures IdleExact(Shutdown(s, c))
  {
    var r := Shutdown(s, c);
    assert forall x :: x in s.info ==> (Alive(r, x) <==> Alive(s, x));
    assert forall x :: x in s.info && Alive(s, x) ==> Placed(s, x) && Placed(r, x);
  }

  lemma SetInfoKeeps<C>(s: State<C>, c: C, i: ConnInfo<C>)
    requires Core(s) && c in s.info
    requires i.position == s.info[c].position && i.deviceId in {s.info[c].deviceId, DELETE}
    requires Distinct(i.subscribeIdList) && Distinct(i.sendToList)
    ensures Core(SetInfo(s, c, i))
  {
    SetInfoIdle(s, c, i);
  }

  // ----- The unsubscribe-all loop in closed form -----

  /** Some id in `l` is currently owned by `x`. */
  ghost predicate OwnsOneOf<C>(s: State<C>, x: C, l: seq<Id>) {
    exists i :: 0 <= i < |l| && l[i] in s.connections && s.connections[l[i]] == x
  }

  ghost function AfterUnsubscribe<C>(s: State<C>, c: C, d: Id, x: C): ConnInfo<C>
    requires c in s.info && x in s.info && d in s.info[c].subscribeIdList
  {
    var i := s.info[x];
    var i := if d in s.connections && s.connections[d] == x then i.(sendToList := Without(i.sendToList, c)) else i;
    if x == c then i.(subscribeIdList := EraseFirst(i.subscribeIdList, d)) else i
  }

  lemma UnsubscribeExact<C>(s: State<C>, c: C, d: Id, x: C)
    requires Closed(s) && c in s.info && x in s.info && d in s.info[c].subscribeIdList
    ensures var r := UnsubscribeDevice(s, c, d);
            r == s.(info := r.info) && r.info[x] == AfterUnsubscribe(s, c, d, x)
  {
    hide Closed, Without, EraseFirst;
  }

  ghost function AfterUnsubscribeAll<C>(s: State<C>, c: C, x: C): ConnInfo<C>
    requires c in s.info && x in s.info
  {
    var i := s.info[x];
    var l := s.info[c].subscribeIdList;
    var i := if OwnsOneOf(s, x, l) then i.(sendToList := Without(i.sendToList, c)) else i;
    if x == c then i.(subscribeIdList := []) else i
  }

  lemma MaskTwice<C>(l: seq<C>, c: C)
    ensures Without(Without(l, c), c) == Without(l, c)
  {
  }

  lemma OwnsOneOfCons<C>(s: State<C>, x: C, l: seq<Id>)
    requires l != []
    ensures OwnsOneOf(s, x, l) <==>
      (l[0] in s.connections && s.connections[l[0]] == x) || OwnsOneOf(s, x, l[1..])
  {
    if OwnsOneOf(s, x, l[1..]) {
      var i :| 0 <= i < |l[1..]| && l[1..][i] in s.connections && s.connections[l[1..][i]] == x;
      assert l[i + 1] == l[1..][i];
    }
    if OwnsOneOf(s, x, l) {
      var i :| 0 <= i < |l| && l[i] in s.connections && s.connections[l[i]] == x;
      assert i > 0 ==> l[1..][i - 1] == l[i];
    }
  }

  /** The loop removes `c` from the list of exactly the current owners of the ids it holds,
      and touches nothing else: the property unregister and disconnect rely on. */
  lemma {:induction false} UnsubscribeAllExact<C>(s: State<C>, c: C, x: C)
    requires Closed(s) && c in s.info && x in s.info
    ensures var r := UnsubscribeAll(s, c);
            r == s.(info := r.info) && r.info[x] == AfterUnsubscribeAll(s, c, x)
    decreases |s.info[c].subscribeIdList|
  {
    hide Closed, UnsubscribeDevice, Without;
    var l := s.info[c].subscribeIdList;
    if l != [] {
      var s1 := UnsubscribeDevice(s, c, l[0]);
      UnsubscribeExact(s, c, l[0], c);
      UnsubscribeExact(s, c, l[0], x);
      assert s1.info[c].subscribeIdList == l[1..];
      UnsubscribeAllExact(s1, c, x);
      OwnsOneOfCons(s, x, l);
      assert OwnsOneOf(s1, x, l[1..]) <==> OwnsOneOf(s, x, l[1..]);
      MaskTwice(s.info[x].sendToList, c);
    }
  }

  // ----- Preservation, handler by handler -----

  /** `Owned` for every connection but `c`, and nobody else holds `d`. */
  ghost predicate OwnedBut<C>(s: State<C>, c: C, d: Id) {
    forall x :: x in s.info && x != c && s.info[x].deviceId != DELETE ==>
      var e := s.info[x].deviceId;
      e != d && e in s.connections && s.connections[e] == x
  }

  lemma ClaimOwned<C>(s: State<C>, c: C, d: Id)
    requires c in s.info && s.info[c].deviceId == d && OwnedBut(s, c, d)
    ensures Owned(s.(connections := s.connections[d := c]))
  {
  }

  lemma DisplaceOwned<C>(s: State<C>, c: C, d: Id, i: ConnInfo<C>)
    requires Owned(s) && d in s.connections && s.connections[d] in s.info && s.connections[d] != c
    requires i.deviceId == DELETE
    ensures OwnedBut(SetInfo(s, s.connections[d], i), c, d)
  {
  }

  lemma SetInfoOwnedBut<C>(s: State<C>, c: C, d: Id, i: ConnInfo<C>)
    requires OwnedBut(s, c, d)
    ensures OwnedBut(SetInfo(s, c, i), c, d)
  {
  }

  lemma SetInfoCommute<C>(s: State<C>, c: C, i: ConnInfo<C>, o: C, j: ConnInfo<C>)
    requires c != o
    ensures SetInfo(SetInfo(s, c, i), o, j) == SetInfo(SetInfo(s, o, j), c, i)
  {
    assert s.info[c := i][o := j] == s.info[o := j][c := i];
  }

  lemma SetInfoListsIdle<C>(s: State<C>, c: C, i: ConnInfo<C>)
    requires ListsDistinct(s) && IdleExact(s) && c in s.info
    requires i.position == s.info[c].position
    requires Distinct(i.subscribeIdList) && Distinct(i.sendToList)
    ensures ListsDistinct(SetInfo(s, c, i)) && IdleExact(SetInfo(s, c, i))
  {
    SetInfoIdle(s, c, i);
  }

  lemma RegisterOwned<C>(s: State<C>, c: C, d: Id)
    requires Closed(s) && Owned(s) && c in s.info
    ensures Owned(RegisterDevice(s, c, d))
  {
    var i := s.info[c].(deviceId := d);
    if d in s.connections && s.connections[d] != c {
      var owner := s.connections[d];
      var j := s.info[owner].(deviceId := DELETE);
      DisplaceOwned(s, c, d, j);
      SetInfoOwnedBut(SetInfo(s, owner, j), c, d, i);
      SetInfoCommute(s, c, i, owner, j);
      ClaimOwned(SetInfo(SetInfo(s, c, i), owner, j), c, d);
    } else {
      assert s.connections[d := c] == s.connections || d !in s.connections;
      SetInfoOwnedBut(s, c, d, i);
      ClaimOwned(SetInfo(s, c, i), c, d);
    }
  }

  lemma RewireListsIdle<C>(s: State<C>, connections: map<Id, C>)
    requires ListsDistinct(s) && IdleExact(s)
    ensures ListsDistinct(s.(connections := connections)) && IdleExact(s.(connections := connections))
  {
    assert forall x :: x in s.info ==> Alive(s.(connections := connections), x) == Alive(s, x);
  }

  lemma RegisterListsIdle<C>(s: State<C>, c: C, d: Id)
    requires Closed(s) && ListsDistinct(s) && IdleExact(s) && c in s.info
    ensures ListsDistinct(RegisterDevice(s, c, d)) && IdleExact(RegisterDevice(s, c, d))
  {
    var i := s.info[c].(deviceId := d);
    var s1 := SetInfo(s, c, i);
    SetInfoListsIdle(s, c, i);
    if d in s.connections && s.connections[d] != c {
      var owner := s.connections[d];
      var j := s1.info[owner].(deviceId := DELETE);
      var s2 := SetInfo(s1, owner, j);
      SetInfoListsIdle(s1, owner, j);
      ShutdownIdle(s2, owner);
      assert ListsDistinct(Shutdown(s2, owner));
      RewireListsIdle(Shutdown(s2, owner), s.connections[d := c]);
      hide Closed, ListsDistinct, IdleExact;
    } else {
      RewireListsIdle(s1, s.connections[d := c]);
      hide Closed, ListsDistinct, IdleExact;
    }
  }

  lemma RegisterKeeps<C>(s: State<C>, c: C, d: Id)
    requires Wf(s) && c in s.info
    ensures Wf(RegisterDevice(s, c, d))
  {
    RegisterOwned(s, c, d);
    RegisterListsIdle(s, c, d);
    hide Closed, Owned, ListsDistinct, IdleExact, RegisterDevice;
  }

  lemma SubscribeKeeps<C>(s: State<C>, c: C, d: Id)
    requires Wf(s) && c in s.info
    ensures Wf(SubscribeDevice(s, c, d))
  {
    if Accepts(s, c, d) {
      var i := s.info[c].(subscribeIdList := Add(s.info[c].subscribeIdList, d));
      AddDistinct(s.info[c].subscribeIdList, d);
      SetInfoKeeps(s, c, i);
      var s1, p := SetInfo(s, c, i), s.connections[d];
      AddDistinct(s1.info[p].sendToList, c);
      SetInfoKeeps(s1, p, s1.info[p].(sendToList := Add(s1.info[p].sendToList, c)));
    }
  }

  lemma UnsubscribeKeeps<C>(s: State<C>, c: C, d: Id)
    requires Wf(s) && c in s.info
    ensures Wf(UnsubscribeDevice(s, c, d))
  {
    if d in s.info[c].subscribeIdList {
      var s1 := s;
      if d in s.connections {
        var p := s.connections[d];
        WithoutDistinct(s.info[p].sendToList, c);
        SetInfoKeeps(s, p, s.info[p].(sendToList := Without(s.info[p].sendToList, c)));
        s1 := SetInfo(s, p, s.info[p].(sendToList := Without(s.info[p].sendToList, c)));
      }
      EraseFirstDistinct(s.info[c].subscribeIdList, d);
      SetInfoKeeps(s1, c, s1.info[c].(subscribeIdList := EraseFirst(s1.info[c].subscribeIdList, d)));
    }
  }

  lemma {:induction false} UnsubscribeAllKeeps<C>(s: State<C>, c: C)
    requires Wf(s) && c in s.info
    ensures Wf(UnsubscribeAll(s, c))
    decreases |s.info[c].subscribeIdList|
  {
    var l := s.info[c].subscribeIdList;
    if l != [] {
      UnsubscribeKeeps(s, c, l[0]);
      UnsubscribeAllKeeps(UnsubscribeDevice(s, c, l[0]), c);
    }
  }

  lemma ReleaseKeeps<C>(s: State<C>, c: C)
    requires Core(s) && c in s.info && s.info[c].deviceId != DELETE
    ensures Core(SetInfo(s.(connections := s.connections - {s.info[c].deviceId}), c, s.info[c].(deviceId := DELETE)))
  {
    SetInfoKeeps(s, c, s.info[c].(deviceId := DELETE));
  }

  lemma UnregisterKeeps<C>(s: State<C>, c: C)
    requires Wf(s) && c in s.info
    ensures Wf(UnregisterDevice(s, c))
  {
    UnsubscribeAllKeeps(s, c);
    var s1 := UnsubscribeAll(s, c);
    SetInfoKeeps(s1, c, s1.info[c].(sendToList := []));
    var s2 := SetInfo(s1, c, s1.info[c].(sendToList := []));
    if s2.info[c].deviceId != DELETE {
      ReleaseKeeps(s2, c);
    }
  }

  lemma SendDataKeeps<C>(s: State<C>, c: C, m: Message)
    requires Wf(s) && c in s.info
    ensures Wf(SendData(s, c, m))
  {
    assert Distinct(s.info[c].subscribeIdList) && Distinct(s.info[c].sendToList);
    hide Closed, Core, OnlyConnected, Distinct;
    var targets := OnlyConnected(s.info[c].sendToList, s.phase);
    OnlyConnectedDistinct(s.info[c].sendToList, s.phase);
    var i := s.info[c].(sendToList := targets);
    SetInfoKeeps(s, c, i);
    OutputIsApart(SetInfo(s, c, i), SendData(s, c, m).sent);
  }

  lemma OutputIsApart<C>(s: State<C>, sent: map<C, seq<Message>>)
    requires Core(s)
    ensures Core(s.(sent := sent))
  {
    assert forall x :: x in s.info ==> Alive(s.(sent := sent), x) == Alive(s, x);
  }

  lemma OtherFieldsKeep<C>(s: State<C>, r: State<C>)
    requires Owned(s) && ListsDistinct(s) && r.info == s.info && r.connections == s.connections
    ensures Owned(r) && ListsDistinct(r)
  {
  }

  lemma SpliceIdle<C>(s: State<C>, c: C)
    requires IdleExact(s) && Alive(s, c)
    ensures var l := SpliceToEnd(s.connectionList, s.info[c].position);
            && IdleExact(s.(connectionList := l))
            && l != [] && l[|l| - 1] == Slot(s.info[c].position, c)
  {
    assert Placed(s, c);
    SpliceHandles(s.connectionList, Slot(s.info[c].position, c));
    var r := s.(connectionList := SpliceToEnd(s.connectionList, s.info[c].position));
    hide SpliceToEnd;
    assert forall x :: x in s.info ==> Alive(r, x) == Alive(s, x);
  }

  lemma HeartBeatKeeps<C>(s: State<C>, c: C, time: int)
    requires Wf(s) && Alive(s, c)
    ensures Wf(HeartBeat(s, c, time))
    // the source's own assertion: the node is now the last one
    ensures var l := HeartBeat(s, c, time).connectionList;
            l != [] && l[|l| - 1] == Slot(s.info[c].position, c)
    ensures HeartBeat(s, c, time).info[c].lastReceiveTime == time
  {
    hide Closed, Owned, IdleExact, SpliceToEnd;
    var s1 := SetInfo(s, c, s.info[c].(lastReceiveTime := time));
    assert Core(s1) by { SetInfoKeeps(s, c, s.info[c].(lastReceiveTime := time)); }
    SpliceIdle(s1, c);
    OtherFieldsKeep(s1, s1.(connectionList := SpliceToEnd(s.connectionList, s.info[c].position)));
  }

  lemma UpIdle<C>(s: State<C>, c: C, now: int)
    requires Closed(s) && IdleExact(s) && c !in s.info
    ensures IdleExact(ConnectionUp(s, c, now))
  {
    hide Closed, DistinctHandles;
    AppendHandles(s.connectionList, Slot(s.nextHandle, c));
    var r := ConnectionUp(s, c, now);
    assert forall n :: n in s.connectionList ==> n.conn != c;
    assert forall x :: x in s.info ==> Alive(r, x) == Alive(s, x);
    forall x | x in r.info && Alive(r, x)
      ensures Placed(r, x)
    {
      assert x != c ==> Placed(s, x);
    }
  }

  lemma UpKeeps<C>(s: State<C>, c: C, now: int)
    requires Wf(s) && c !in s.info
    ensures Wf(ConnectionUp(s, c, now))
    ensures var r := ConnectionUp(s, c, now);
            && r.phase[c].Connected? && r.sent[c] == [] && Placed(r, c)
            && r.info[c] == ConnInfo(DELETE, now, r.info[c].position, [], [])
  {
    UpIdle(s, c, now);
    hide IdleExact;
  }

  ghost function Erased<C>(s: State<C>, c: C): State<C>
    requires c in s.info
  {
    s.(phase := s.phase[c := Down],
       connectionList := EraseAt(s.connectionList, s.info[c].position))
  }

  lemma EraseIdle<C>(s: State<C>, c: C)
    requires IdleExact(s) && Alive(s, c)
    ensures IdleExact(Erased(s, c))
  {
    var r := Erased(s, c);
    EraseAtHandles(s.connectionList, s.info[c].position);
    assert forall x :: x in s.info && x != c ==> Alive(r, x) == Alive(s, x);
    assert forall n :: n in r.connectionList ==> n.conn != c;
    forall x | x in r.info && Alive(r, x)
      ensures Placed(r, x)
    {
      assert Placed(s, x) && Placed(s, c);
      if s.info[x].position == s.info[c].position {
        SameHandle(s.connectionList, Slot(s.info[x].position, x), Slot(s.info[c].position, c));
      }
    }
  }

  lemma EraseKeeps<C>(s: State<C>, c: C)
    requires Wf(s) && Alive(s, c)
    ensures Wf(Erased(s, c))
  {
    EraseIdle(s, c);
    hide IdleExact;
  }

  lemma DownKeeps<C>(s: State<C>, c: C)
    requires Wf(s) && Alive(s, c)
    ensures Wf(ConnectionDown(s, c))
  {
    EraseKeeps(s, c);
    UnregisterKeeps(Erased(s, c), c);
  }

  lemma ShutdownKeeps<C>(s: State<C>, c: C)
    requires Core(s)
    ensures Core(Shutdown(s, c))
  {
    ShutdownIdle(s, c);
    hide IdleExact;
  }

  lemma SweepStepKeeps<C>(s: State<C>, i: nat, now: int)
    requires Wf(s) && i < |s.connectionList|
    ensures Wf(SweepStep(s, i, now))
  {
    assert s.connectionList[i] in s.connectionList;
    hide Owned, Placed, Closed, Alive;
    var c := s.connectionList[i].conn;
    if Expired(s, c, now) {
      ShutdownKeeps(s, c);
    } else {
      SetInfoKeeps(s, c, s.info[c].(lastReceiveTime := now));
    }
  }

  lemma {:induction false} SweepKeeps<C>(s: State<C>, i: nat, now: int)
    requires Wf(s)
    ensures Wf(Sweep(s, i, now))
    decreases |s.connectionList| - i
  {
    hide Closed, Core, SweepStep;
    if i < |s.connectionList| {
      SweepStepKeeps(s, i, now);
      SweepKeeps(SweepStep(s, i, now), i + 1, now);
    }
  }

  lemma SendKeeps<C>(s: State<C>, c: C, m: Message)
    requires Wf(s)
    ensures Wf(Send(s, c, m))
  {
    OutputIsApart(s, Send(s, c, m).sent);
    hide Core;
  }

  lemma OnMessageKeeps<C>(s: State<C>, c: C, m: Message, time: int)
    requires Wf(s) && Alive(s, c)
    ensures Wf(OnMessage(s, c, m, time))
  {
    hide Core, Closed, Send;
    hide RegisterDevice, SubscribeDevice, SendData, UnregisterDevice, UnsubscribeDevice, HeartBeat;
    match Classify(m) {
      case Register(d) => RegisterKeeps(s, c, d);
      case Subscribe(d) => SubscribeKeeps(s, c, d);
      case Data => SendDataKeeps(s, c, m);
      case Unregister => UnregisterKeeps(s, c);
      case Unsubscribe(d) => UnsubscribeKeeps(s, c, d);
      case Check(_) =>
      case Beat => HeartBeatKeeps(s, c, time);
      case Unknown =>
    }
    if !Classify(m).Unknown? {
      KnownCommand(m);
      SendKeeps(Effect(s, c, m, time), c, CallBack(m, Result(s, c, m)));
    }
  }

  lemma StepKeeps<C>(s: State<C>, e: Event<C>)
    requires Wf(s) && Enabled(s, e)
    ensures Wf(Step(s, e))
  {
    match e
    case Up(c, t) => UpKeeps(s, c, t);
    case Gone(c) => DownKeeps(s, c);
    case Arrive(c, m, t) => OnMessageKeeps(s, c, m, t);
    case Refused(c) => ShutdownIdle(s, c);
    case Tick(t) => SweepKeeps(s, 0, t);
  }

  lemma {:induction false} RunKeeps<C>(s: State<C>, es: seq<Event<C>>)
    requires Wf(s) && CanRun(s, es)
    ensures Wf(Run(s, es))
    decreases |es|
  {
    if es != [] {
      StepKeeps(s, es[0]);
      RunKeeps(Step(s, es[0]), es[1..]);
    }
  }

  // ----- Main results -----

  /** In every run, whatever the clients send: a connection that holds an id is the one
      stored under it, so no id is held twice; and the idle list is exact. */
  lemma OwnershipInEveryRun<C>(idleSeconds: int, es: seq<Event<C>>)
    requires CanRun(Init(idleSeconds), es)
    ensures var s := Run(Init(idleSeconds), es);
            && Wf(s)
            && (forall c, x :: c in s.info && x in s.info && s.info[c].deviceId == s.info[x].deviceId != DELETE ==> c == x)
  {
    RunKeeps(Init<C>(idleSeconds), es);
  }

  /** The event makes its connection give up the id it holds. */
  ghost predicate Releases<C>(s: State<C>, e: Event<C>, d: Id) {
    && (e.Gone? || (e.Arrive? && Classify(e.message).Unregister?))
    && e.conn in s.info && s.info[e.conn].deviceId == d != DELETE
  }

  lemma UnregisterConnections<C>(s: State<C>, c: C)
    requires Closed(s) && c in s.info
    ensures var d := s.info[c].deviceId;
            UnregisterDevice(s, c).connections == if d == DELETE then s.connections else s.connections - {d}
  {
    UnsubscribeAllExact(s, c, c);
    hide Closed, OwnsOneOf, UnsubscribeAll, Without;
  }

  lemma EffectConnections<C>(s: State<C>, c: C, m: Message, time: int, d: Id)
    requires Wf(s) && c in s.info && d in s.connections
    ensures d !in Effect(s, c, m, time).connections <==>
      Classify(m).Unregister? && s.info[c].deviceId == d != DELETE
  {
    hide Closed, Core, UnregisterDevice, SubscribeDevice, UnsubscribeDevice, SendData, HeartBeat;
    UnregisterConnections(s, c);
  }

  /** An entry is removed exactly by an unregister or a disconnect of the connection that
      holds its id, and that connection is the one the entry stores. */
  lemma EntryRemovedOnlyByOwner<C>(s: State<C>, e: Event<C>, d: Id)
    requires Wf(s) && Enabled(s, e) && d in s.connections
    ensures d !in Step(s, e).connections <==> Releases(s, e, d)
    ensures Releases(s, e, d) ==> s.connections[d] == e.conn
  {
    hide Closed, ListsDistinct, IdleExact, UnregisterDevice, Effect, Sweep;
    match e {
      case Up(_, _) =>
      case Gone(c) => EraseKeeps(s, c); UnregisterConnections(Erased(s, c), c);
      case Arrive(c, m, t) => EffectConnections(s, c, m, t, d);
      case Refused(_) =>
      case Tick(t) =>
    }
  }
}
