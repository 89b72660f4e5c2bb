/**
  What the server does with the bytes of each command, and with connections coming and going,
  said on the bytes themselves (p2pServer/p2pServer.cc, onMessage and onConnection).
 */
module Commands {
  import opened Wire
  import opened Framing
  import opened Registry
  import opened Ownership
  import opened Relay

  /** A callback reaches a connection that is connected. */
  ghost function Told(phase: Phase, sent: seq<Message>, code: byte, result: byte): seq<Message> {
    if phase.Connected? then sent + [[code, result]] else sent
  }

  lemma FirstByte(code: byte, rest: Bytes)
    ensures var m := [code] + rest; m != [] && m[0] == code && m[1..] == rest
  {
    assert ([code] + rest)[1..] == rest;
  }

  /** The switch: which handler a first byte selects, and what is sent back. */
  lemma Handled<C>(s: State<C>, c: C, m: Message, t: int)
    requires Closed(s) && c in s.info && m != [] && 0x01 <= m[0] <= 0x07
    ensures var r, d := OnMessage(s, c, m, t), Id(m[1..]);
            && (m[0] == 0x01 ==> r == Send(RegisterDevice(s, c, d), c, [0x81, 0x01]))
            && (m[0] == 0x02 ==> r == Send(SubscribeDevice(s, c, d), c, [0x82, if Accepts(s, c, d) then 0x01 else 0x00]))
            && (m[0] == 0x03 ==> r == Send(SendData(s, c, m), c, [0x83, 0x01]))
            && (m[0] == 0x04 ==> r == Send(UnregisterDevice(s, c), c, [0x84, 0x01]))
            && (m[0] == 0x05 ==> r == Send(UnsubscribeDevice(s, c, d), c, [0x85, 0x01]))
            && (m[0] == 0x06 ==> r == Send(s, c, [0x86, if CheckDeviceAlive(s, d) then 0x01 else 0x00]))
            && (m[0] == 0x07 ==> r == Send(HeartBeat(s, c, t), c, [0x87, 0x01]))
  {
    hide Closed, RegisterDevice, SubscribeDevice, SendData, UnregisterDevice, UnsubscribeDevice, CheckDeviceAlive, HeartBeat;
    hide Accepts, Send;
  }

  lemma SendTold<C>(s: State<C>, c: C, m: Message)
    requires Closed(s) && c in s.info && |m| == 2
    ensures c in s.phase && c in s.sent && Send(s, c, m) == s.(sent := s.sent[c := Told(s.phase[c], s.sent[c], m[0], m[1])])
  {
    assert s.sent[c := s.sent[c]] == s.sent;
    assert m == [m[0], m[1]];
  }

  // ----- What the handlers do -----

  lemma Registered<C>(s: State<C>, c: C, d: Id)
    requires Closed(s) && c in s.info
    ensures var r := RegisterDevice(s, c, d);
            && r.connections == s.connections[d := c] && r.info[c] == s.info[c].(deviceId := d)
            && (forall o :: o in s.info && o != c ==>
                  if d in s.connections && s.connections[d] == o
                  then r.info[o] == s.info[o].(deviceId := Id([0x64, 0x65, 0x6c, 0x65, 0x74, 0x65])) && !r.phase[o].Connected?
                       && (r.phase[o].Down? <==> s.phase[o].Down?)
                  else r.info[o] == s.info[o] && r.phase[o] == s.phase[o])
            && r.phase[c] == s.phase[c] && r.connectionList == s.connectionList && r.sent == s.sent
  {
    assert d in s.connections && s.connections[d] == c ==> s.connections[d := c] == s.connections;
  }

  lemma Subscribed<C>(s: State<C>, c: C, d: Id)
    requires Closed(s) && c in s.info
    ensures var r := SubscribeDevice(s, c, d);
            var ok := d in s.connections && s.info[c].deviceId != d;
            && (Accepts(s, c, d) <==> ok) && r == s.(info := r.info)
            && (forall p, x :: p in s.info && x in s.info ==>
                  (x in r.info[p].sendToList <==> x in s.info[p].sendToList || (ok && x == c && p == s.connections[d])))
            && (forall x, e :: x in s.info ==>
                  (e in r.info[x].subscribeIdList <==> e in s.info[x].subscribeIdList || (ok && x == c && e == d)))
  {
  }

  lemma Forwarded<C>(s: State<C>, c: C, m: Message)
    requires Closed(s) && c in s.info
    ensures var r, l := SendData(s, c, m), s.info[c].sendToList;
            && r.connections == s.connections && r.phase == s.phase && r.connectionList == s.connectionList
            && (forall x :: x in s.info && x != c ==> r.info[x] == s.info[x])
            && (forall x :: x in r.info[c].sendToList <==> x in l && s.phase[x].Connected?)
            && (forall x :: x in s.info ==>
                  r.sent[x] == if x in l && s.phase[x].Connected? then s.sent[x] + [m] else s.sent[x])
  {
  }

  lemma Unregistered<C>(s: State<C>, c: C)
    requires Closed(s) && c in s.info
    ensures var r, d := UnregisterDevice(s, c), s.info[c].deviceId;
            && r.info[c] == s.info[c].(deviceId := Id([0x64, 0x65, 0x6c, 0x65, 0x74, 0x65]),
                                       subscribeIdList := [], sendToList := [])
            && r.connections == (if d == Id([0x64, 0x65, 0x6c, 0x65, 0x74, 0x65]) then s.connections else s.connections - {d})
            && r == s.(info := r.info, connections := r.connections)
    ensures forall p :: p in s.info && p != c ==>
      UnregisterDevice(s, c).info[p] ==
        if exists i :: 0 <= i < |s.info[c].subscribeIdList| && s.info[c].subscribeIdList[i] in s.connections
                       && s.connections[s.info[c].subscribeIdList[i]] == p
        then s.info[p].(sendToList := Without(s.info[p].sendToList, c)) else s.info[p]
  {
    hide Closed, UnsubscribeAll, Without;
    UnsubscribeAllExact(s, c, c);
    UnregisterConnections(s, c);
    forall p | p in s.info && p != c
      ensures UnregisterDevice(s, c).info[p] ==
        if OwnsOneOf(s, p, s.info[c].subscribeIdList)
        then s.info[p].(sendToList := Without(s.info[p].sendToList, c)) else s.info[p]
    {
      UnsubscribeAllExact(s, c, p);
    }
  }

  lemma Unsubscribed<C>(s: State<C>, c: C, d: Id)
    requires Wf(s) && c in s.info
    ensures var r := UnsubscribeDevice(s, c, d);
            var ok := d in s.info[c].subscribeIdList;
            && r == s.(info := r.info)
            && (forall p, x :: p in s.info && x in s.info ==>
                  (x in r.info[p].sendToList <==>
                     x in s.info[p].sendToList && !(ok && x == c && d in s.connections && p == s.connections[d])))
            && (forall x, e :: x in s.info ==>
                  (e in r.info[x].subscribeIdList <==> e in s.info[x].subscribeIdList && !(x == c && e == d)))
  {
    hide Core, Closed, UnsubscribeDevice, Without, EraseFirst;
    if d !in s.info[c].subscribeIdList {
      NotFollowed(s, c, d);
    } else {
      ForgottenOnce(s, c, d);
      forall p | p in s.info
        ensures UnsubscribeDevice(s, c, d).info[p] == AfterUnsubscribe(s, c, d, p)
      {
        UnsubscribeExact(s, c, d, p);
      }
      UnsubscribeExact(s, c, d, c);
    }
  }

  lemma NotFollowed<C>(s: State<C>, c: C, d: Id)
    requires Closed(s) && c in s.info && d !in s.info[c].subscribeIdList
    ensures UnsubscribeDevice(s, c, d) == s
  {
    hide Closed;
  }

  lemma ForgottenOnce<C>(s: State<C>, c: C, d: Id)
    requires Core(s) && c in s.info && d in s.info[c].subscribeIdList
    ensures forall e :: e in EraseFirst(s.info[c].subscribeIdList, d) <==> e in s.info[c].subscribeIdList && e != d
  {
    EraseFirstDistinct(s.info[c].subscribeIdList, d);
  }

  lemma Beaten<C>(s: State<C>, c: C, t: int)
    requires Wf(s) && Alive(s, c)
    ensures var r, n := HeartBeat(s, c, t), Slot(s.info[c].position, c);
            && r == s.(info := s.info[c := s.info[c].(lastReceiveTime := t)], connectionList := r.connectionList)
            && r.connectionList == EraseAt(s.connectionList, n.handle) + [n]
  {
    assert Placed(s, c);
    hide Closed, DistinctHandles, EraseAt, SpliceToEnd;
    SpliceHandles(s.connectionList, Slot(s.info[c].position, c));
  }

  // ----- What the commands do -----

  /** 0x01 and a name: the connection is stored under it and holds it; whoever was stored there
      holds nothing, and is shut down; everything else stays. */
  lemma RegisterCommand<C>(s: State<C>, c: C, name: Bytes, t: int)
    requires Wf(s) && Alive(s, c)
    ensures var r, d := OnMessage(s, c, [0x01] + name, t), Id(name);
            && r.connections == s.connections[d := c] && r.info[c] == s.info[c].(deviceId := d)
            && (forall o :: o in s.info && o != c ==>
                  if d in s.connections && s.connections[d] == o
                  then r.info[o] == s.info[o].(deviceId := Id([0x64, 0x65, 0x6c, 0x65, 0x74, 0x65])) && !r.phase[o].Connected?
                       && (r.phase[o].Down? <==> s.phase[o].Down?)
                  else r.info[o] == s.info[o] && r.phase[o] == s.phase[o])
            && r.phase[c] == s.phase[c] && r.connectionList == s.connectionList
            && r.sent == s.sent[c := Told(s.phase[c], s.sent[c], 0x81, 0x01)]
  {
    hide Closed, Core, OnMessage, RegisterDevice, Send, Told;
    FirstByte(0x01, name);
    Handled(s, c, [0x01] + name, t);
    Registered(s, c, Id(name));
    SendTold(RegisterDevice(s, c, Id(name)), c, [0x81, 0x01]);
  }

  /** 0x02 and a name: if another id's owner is stored there, the connection goes on its list. */
  lemma SubscribeCommand<C>(s: State<C>, c: C, name: Bytes, t: int)
    requires Wf(s) && Alive(s, c)
    ensures var r, d := OnMessage(s, c, [0x02] + name, t), Id(name);
            var ok := d in s.connections && s.info[c].deviceId != d;
            && r.connections == s.connections && r.phase == s.phase && r.connectionList == s.connectionList
            && (forall p, x :: p in s.info && x in s.info ==>
                  (x in r.info[p].sendToList <==> x in s.info[p].sendToList || (ok && x == c && p == s.connections[d])))
            && (forall x, e :: x in s.info ==>
                  (e in r.info[x].subscribeIdList <==> e in s.info[x].subscribeIdList || (ok && x == c && e == d)))
            && r.sent == s.sent[c := Told(s.phase[c], s.sent[c], 0x82, if ok then 0x01 else 0x00)]
  {
    hide Closed, Core, OnMessage, SubscribeDevice, Send, Told;
    FirstByte(0x02, name);
    Handled(s, c, [0x02] + name, t);
    Subscribed(s, c, Id(name));
    SendTold(SubscribeDevice(s, c, Id(name)), c, [0x82, if Accepts(s, c, Id(name)) then 0x01 else 0x00]);
  }

  /** 0x03 and data: the whole message goes to every connected connection on the list, and the
      others leave the list. */
  lemma DataCommand<C>(s: State<C>, c: C, data: Bytes, t: int)
    requires Wf(s) && Alive(s, c)
    ensures var m: Message := [0x03] + data;
            var r, l := OnMessage(s, c, m, t), s.info[c].sendToList;
            && r.connections == s.connections && r.phase == s.phase && r.connectionList == s.connectionList
            && (forall x :: x in s.info && x != c ==> r.info[x] == s.info[x])
            && (forall x :: x in r.info[c].sendToList <==> x in l && s.phase[x].Connected?)
            && (forall x :: x in s.info && x != c ==>
                  r.sent[x] == if x in l && s.phase[x].Connected? then s.sent[x] + [m] else s.sent[x])
            && r.sent[c] == (if c in l && s.phase[c].Connected? then s.sent[c] + [m] else s.sent[c])
                            + (if s.phase[c].Connected? then [[0x83, 0x01]] else [])
  {
    hide Closed, Core, OnMessage, SendData, Send;
    FirstByte(0x03, data);
    Handled(s, c, [0x03] + data, t);
    Forwarded(s, c, [0x03] + data);
    SendTold(SendData(s, c, [0x03] + data), c, [0x83, 0x01]);
  }

  /** 0x04: the connection gives up its id, its subscribers and its subscriptions. */
  lemma UnregisterCommand<C>(s: State<C>, c: C, m: Message, t: int)
    requires Wf(s) && Alive(s, c) && m != [] && m[0] == 0x04
    ensures var r, d := OnMessage(s, c, m, t), s.info[c].deviceId;
            && r.info[c].deviceId == Id([0x64, 0x65, 0x6c, 0x65, 0x74, 0x65])
            && r.info[c].subscribeIdList == [] && r.info[c].sendToList == []
            && r.info[c].lastReceiveTime == s.info[c].lastReceiveTime
            && r.connections == (if d == Id([0x64, 0x65, 0x6c, 0x65, 0x74, 0x65]) then s.connections else s.connections - {d})
            && r.phase == s.phase && r.connectionList == s.connectionList
            && r.sent == s.sent[c := Told(s.phase[c], s.sent[c], 0x84, 0x01)]
    ensures forall p :: p in s.info && p != c ==>
      OnMessage(s, c, m, t).info[p] ==
        if exists i :: 0 <= i < |s.info[c].subscribeIdList| && s.info[c].subscribeIdList[i] in s.connections
                       && s.connections[s.info[c].subscribeIdList[i]] == p
        then s.info[p].(sendToList := Without(s.info[p].sendToList, c)) else s.info[p]
  {
    hide Closed, Core, OnMessage, UnregisterDevice, Send, Told, Without;
    Handled(s, c, m, t);
    Unregistered(s, c);
    SendTold(UnregisterDevice(s, c), c, [0x84, 0x01]);
  }

  /** 0x05 and a name: an id that the connection follows leaves its list, and the connection
      leaves the list of whoever is stored under it; any other id changes nothing. */
  lemma UnsubscribeCommand<C>(s: State<C>, c: C, name: Bytes, t: int)
    requires Wf(s) && Alive(s, c)
    ensures var r, d := OnMessage(s, c, [0x05] + name, t), Id(name);
            var ok := d in s.info[c].subscribeIdList;
            && r.connections == s.connections && r.phase == s.phase && r.connectionList == s.connectionList
            && (forall p, x :: p in s.info && x in s.info ==>
                  (x in r.info[p].sendToList <==>
                     x in s.info[p].sendToList && !(ok && x == c && d in s.connections && p == s.connections[d])))
            && (forall x, e :: x in s.info ==>
                  (e in r.info[x].subscribeIdList <==> e in s.info[x].subscribeIdList && !(x == c && e == d)))
            && r.sent == s.sent[c := Told(s.phase[c], s.sent[c], 0x85, 0x01)]
  {
    hide Closed, Core, OnMessage, UnsubscribeDevice, Send, Told;
    FirstByte(0x05, name);
    Handled(s, c, [0x05] + name, t);
    Unsubscribed(s, c, Id(name));
    SendTold(UnsubscribeDevice(s, c, Id(name)), c, [0x85, 0x01]);
  }

  /** 0x06 and a name: nothing changes, and the callback says whether the name has a connected
      owner. */
  lemma CheckCommand<C>(s: State<C>, c: C, name: Bytes, t: int)
    requires Wf(s) && Alive(s, c)
    ensures var d := Id(name);
            var ok := d in s.connections && s.phase[s.connections[d]].Connected?;
            OnMessage(s, c, [0x06] + name, t) ==
              s.(sent := s.sent[c := Told(s.phase[c], s.sent[c], 0x86, if ok then 0x01 else 0x00)])
  {
    hide Closed, Core, OnMessage, Send, Told;
    FirstByte(0x06, name);
    Handled(s, c, [0x06] + name, t);
    SendTold(s, c, [0x86, if CheckDeviceAlive(s, Id(name)) then 0x01 else 0x00]);
  }

  /** 0x07: the time is stored, and the connection's own node goes to the end of the idle list,
      the others keeping their order. */
  lemma HeartBeatCommand<C>(s: State<C>, c: C, m: Message, t: int)
    requires Wf(s) && Alive(s, c) && m != [] && m[0] == 0x07
    ensures var r, n := OnMessage(s, c, m, t), Slot(s.info[c].position, c);
            && r.connections == s.connections && r.phase == s.phase
            && r.info == s.info[c := s.info[c].(lastReceiveTime := t)]
            && r.connectionList == EraseAt(s.connectionList, n.handle) + [n]
            && r.sent == s.sent[c := Told(s.phase[c], s.sent[c], 0x87, 0x01)]
  {
    hide Closed, Core, OnMessage, HeartBeat, Send, Told, EraseAt;
    Handled(s, c, m, t);
    Beaten(s, c, t);
    SendTold(HeartBeat(s, c, t), c, [0x87, 0x01]);
  }

  /** Anything else is ignored. */
  lemma OtherMessage<C>(s: State<C>, c: C, m: Message, t: int)
    requires Wf(s) && Alive(s, c) && (m == [] || m[0] == 0x00 || m[0] > 0x07)
    ensures OnMessage(s, c, m, t) == s
  {
    hide Closed, Core, Effect;
  }

  // ----- Connections -----

  /** A connection that opens is connected, holds nothing, and was heard from just now. */
  lemma OpenConnection<C>(s: State<C>, pending: map<C, Bytes>, c: C, t: int)
    requires Wf(s) && c !in s.info
    ensures var es := Events(pending, Open(c, t));
            && CanRun(s, es)
            && var r := Run(s, es);
            && c in r.info && r.phase[c].Connected? && r.info[c].lastReceiveTime == t && r.sent[c] == []
            && r.info[c].deviceId == Id([0x64, 0x65, 0x6c, 0x65, 0x74, 0x65])
            && r.info[c].subscribeIdList == [] && r.info[c].sendToList == []
            && r.connections == s.connections && (forall x :: x in s.info ==> r.info[x] == s.info[x] && r.phase[x] == s.phase[x])
  {
    hide Core;
    var es := Events(pending, Open(c, t));
    assert es[1..] == [];
  }

  /** A connection that closes is down, holds nothing, and its node is gone. */
  lemma CloseConnection<C>(s: State<C>, pending: map<C, Bytes>, c: C)
    requires Wf(s) && Alive(s, c)
    ensures var es := Events(pending, Close(c));
            && CanRun(s, es)
            && var r, d := Run(s, es), s.info[c].deviceId;
            && c in r.info && r.phase == s.phase[c := Down]
            && r.info[c].deviceId == Id([0x64, 0x65, 0x6c, 0x65, 0x74, 0x65])
            && r.info[c].subscribeIdList == [] && r.info[c].sendToList == []
            && r.connections == (if d == Id([0x64, 0x65, 0x6c, 0x65, 0x74, 0x65]) then s.connections else s.connections - {d})
            && (forall n :: n in r.connectionList <==> n in s.connectionList && n.conn != c)
  {
    hide Closed, Core, UnsubscribeAll, EraseAt;
    var es := Events(pending, Close(c));
    assert es[1..] == [];
    EraseKeeps(s, c);
    UnsubscribeAllExact(Erased(s, c), c, c);
    UnregisterConnections(Erased(s, c), c);
    NodeGone(s, c);
  }

  lemma NodeGone<C>(s: State<C>, c: C)
    requires Wf(s) && Alive(s, c)
    ensures forall n :: n in EraseAt(s.connectionList, s.info[c].position) <==> n in s.connectionList && n.conn != c
  {
    hide Closed, Owned, ListsDistinct;
    assert Placed(s, c);
    EraseAtHandles(s.connectionList, s.info[c].position);
    forall n | n in s.connectionList && n.conn != c
      ensures n.handle != s.info[c].position
    {
      if n.handle == s.info[c].position {
        SameHandle(s.connectionList, n, Slot(s.info[c].position, c));
      }
    }
  }
}
