/**
  The relay server as objects updated in place: connections with their records and output,
  the server with its map and idle list, and the codec that cuts frames out of a connection's
  input buffer.  Every method is proved to perform the corresponding step of `Registry`.
 */
module Server {
  import opened Wire
  import opened Framing
  import opened Protocol
  import opened Buffers
  import opened Registry
  import opened Ownership
  import opened Relay

  /** A TcpConnection with its input buffer, together with the ConnInfo in its context. */
  class Connection {
    const input: Buffer
    var deviceId: Id
    var lastReceiveTime: int
    var position: nat
    var subscribeIdList: seq<Id>
    var sendToList: seq<Connection>
    var phase: Phase
    var wire: Bytes // what was written to the socket
    ghost var sent: seq<Message>

    ghost function Info(): ConnInfo<Connection>
      reads this`deviceId, this`lastReceiveTime, this`position, this`subscribeIdList, this`sendToList
    {
      ConnInfo(deviceId, lastReceiveTime, position, subscribeIdList, sendToList)
    }

    /** The socket has carried exactly the frames of the messages sent. */
    ghost predicate WireValid()
      reads this`sent, this`wire
    {
      AllSmall(sent) && wire == EncodeAll(sent)
    }

    constructor ()
      ensures phase == Connected && sent == [] && WireValid()
      ensures fresh(input) && fresh(input.buffer) && input.Valid() && input.Contents() == []
    {
      input := new Buffer();
      deviceId, lastReceiveTime, position := DELETE, 0, 0;
      subscribeIdList, sendToList := [], [];
      phase, wire, sent := Connected, [], [];
    }

    /** A fresh record, as onConnection stores it in the context. */
    method Reset(now: int, handle: nat)
      modifies this`deviceId, this`lastReceiveTime, this`position, this`subscribeIdList, this`sendToList
      ensures Info() == ConnInfo(DELETE, now, handle, [], [])
      ensures old(WireValid()) ==> WireValid()
    {
      deviceId, lastReceiveTime, position := DELETE, now, handle;
      subscribeIdList, sendToList := [], [];
    }

    /** Of many input buffers only this one has changed. */
    twostate lemma InputChanged(f: Feeds)
      requires forall x :: x in f.conns && x != this ==> Image(x.input) == old(Image(x.input))
      requires this in f.conns && input.Valid()
      requires input.buffer == old(input.buffer) || fresh(input.buffer)
      ensures old(Buffered(f)) ==> Buffered(Feeds(f.conns, f.pending[this := input.Contents()]))
      ensures old(Separate(f.conns)) ==> Separate(f.conns)
      ensures fresh(Storage(f.conns) - old(Storage(f.conns)))
    {
    }

    method Shutdown()
      modifies this`phase
      ensures phase == if old(phase).Connected? then Disconnecting else old(phase)
    {
      if phase.Connected? {
        phase := Disconnecting;
      }
    }

    /** What reaches the socket: a frame is carried only while the connection is connected. */
    method Send(message: Message)
      requires WireValid() && Small(message)
      modifies this`wire, this`sent
      ensures WireValid()
      ensures sent == if phase.Connected? then old(sent) + [message] else old(sent)
    {
      var bytes := FrameOf(message);
      if phase.Connected? {
        EncodeAllSnoc(sent, message);
        wire := wire + bytes;
        sent := sent + [message];
      }
    }
  }

  /** codec.send: the message goes into a buffer, and its length into the space before it. */
  method FrameOf(message: Message) returns (bytes: Bytes)
    requires |message| < TWO_TO_THE_31
    ensures bytes == Encode(message)
  {
    hide HostToNetwork32, Buffer.Contents, Buffer.Valid;
    var buf := new Buffer();
    buf.Append(message);
    buf.Prepend(HostToNetwork32(|message|));
    bytes := buf.PeekBytes(buf.ReadableBytes());
  }

  lemma ChangedAt<C>(w: State<C>, m: State<C>, c: C)
    requires m.info.Keys == w.info.Keys && m.phase.Keys == w.phase.Keys && m.sent.Keys == w.sent.Keys
    requires c in w.info && c in w.phase && c in w.sent
    requires m == w.(info := m.info, phase := m.phase, sent := m.sent)
    requires forall x :: x in w.info && x != c ==> m.info[x] == w.info[x]
    requires forall x :: x in w.phase && x != c ==> m.phase[x] == w.phase[x]
    requires forall x :: x in w.sent && x != c ==> m.sent[x] == w.sent[x]
    ensures m == w.(info := w.info[c := m.info[c]], phase := w.phase[c := m.phase[c]], sent := w.sent[c := m.sent[c]])
  {
    assert m.info == w.info[c := m.info[c]];
    assert m.phase == w.phase[c := m.phase[c]];
    assert m.sent == w.sent[c := m.sent[c]];
  }

  lemma Unchanged<C>(w: State<C>, c: C)
    requires c in w.info && c in w.phase && c in w.sent
    ensures w.info[c := w.info[c]] == w.info && w.phase[c := w.phase[c]] == w.phase && w.sent[c := w.sent[c]] == w.sent
  {
  }

  lemma SameMaps<C>(w: State<C>, m: State<C>)
    requires m.info.Keys == w.info.Keys && m.phase.Keys == w.phase.Keys && m.sent.Keys == w.sent.Keys
    requires forall x :: x in w.info ==> m.info[x] == w.info[x]
    requires forall x :: x in w.phase ==> m.phase[x] == w.phase[x]
    requires forall x :: x in w.sent ==> m.sent[x] == w.sent[x]
    ensures m.info == w.info && m.phase == w.phase && m.sent == w.sent
  {
  }

  // ----- Facts about the forwarding loop -----

  /** The state when the entries `done` have been served and `list` is what the list has become. */
  ghost function Forwarded<C>(w: State<C>, c: C, m: Message, done: seq<C>, list: seq<C>): State<C>
    requires c in w.info
  {
    SetInfo(w, c, w.info[c].(sendToList := list))
      .(sent := map x | x in w.sent :: if x in done then w.sent[x] + [m] else w.sent[x])
  }

  lemma ForwardedNone<C>(w: State<C>, c: C, m: Message)
    requires c in w.info
    ensures Forwarded(w, c, m, [], w.info[c].sendToList) == w
  {
    assert w.info[c := w.info[c]] == w.info;
    assert Forwarded(w, c, m, [], w.info[c].sendToList).sent == w.sent;
  }

  lemma ForwardedOne<C>(w: State<C>, c: C, m: Message, done: seq<C>, list: seq<C>, x: C)
    requires c in w.info && x in w.phase && x in w.sent && w.phase[x].Connected? && x !in done
    ensures Send(Forwarded(w, c, m, done, list), x, m) == Forwarded(w, c, m, done + [x], list)
  {
    var s := Forwarded(w, c, m, done, list);
    assert Send(s, x, m).sent == Forwarded(w, c, m, done + [x], list).sent;
  }

  lemma ForwardedDrop<C>(w: State<C>, c: C, m: Message, done: seq<C>, list: seq<C>, next: seq<C>)
    requires c in w.info
    ensures var s := Forwarded(w, c, m, done, list);
            SetInfo(s, c, s.info[c].(sendToList := next)) == Forwarded(w, c, m, done, next)
  {
    var s := Forwarded(w, c, m, done, list);
    assert s.info[c := s.info[c].(sendToList := next)] == w.info[c := w.info[c].(sendToList := next)];
  }

  lemma {:induction false} OnlyConnectedSnoc<C>(l: seq<C>, k: nat, phase: map<C, Phase>)
    requires k < |l|
    ensures OnlyConnected(l[..k + 1], phase) ==
      OnlyConnected(l[..k], phase) + (if l[k] in phase && phase[l[k]].Connected? then [l[k]] else [])
    decreases k
  {
    if k == 0 {
      assert l[..1] == [l[0]] && l[..1][1..] == [];
    } else {
      OnlyConnectedSnoc(l[1..], k - 1, phase);
      assert l[..k + 1][1..] == l[1..][..k];
      assert l[..k][1..] == l[1..][..k - 1];
      assert l[1..][k - 1] == l[k];
    }
  }

  lemma {:induction false} DistinctPrefix<C>(l: seq<C>, k: nat)
    requires Distinct(l) && k < |l|
    ensures l[k] !in l[..k]
  {
    if k > 0 {
      DistinctPrefix(l[1..], k - 1);
      assert l[..k] == [l[0]] + l[1..][..k - 1];
      assert l[k] in l[1..];
    }
  }

  /** `k` entries of the list have been looked at, and the `i` connected ones served. */
  ghost predicate Serving<C>(w: State<C>, s: State<C>, c: C, m: Message, k: nat, i: nat)
    requires c in w.info
  {
    var l := w.info[c].sendToList;
    && k <= |l|
    && var done := OnlyConnected(l[..k], w.phase);
    i == |done| && s == Forwarded(w, c, m, done, done + l[k..])
  }

  lemma ServingStart<C>(w: State<C>, c: C, m: Message)
    requires c in w.info
    ensures Serving(w, w, c, m, 0, 0)
  {
    var l := w.info[c].sendToList;
    assert l[..0] == [] && [] + l[0..] == l;
    ForwardedNone(w, c, m);
  }

  lemma ServingView<C>(w: State<C>, s: State<C>, c: C, m: Message, k: nat, i: nat)
    requires c in w.info && Serving(w, s, c, m, k, i)
    ensures var l := w.info[c].sendToList;
            && c in s.info && s.phase == w.phase && k <= |l|
            && s.info[c].sendToList == OnlyConnected(l[..k], w.phase) + l[k..]
            && i <= |s.info[c].sendToList| && (i < |s.info[c].sendToList| <==> k < |l|)
            && (k < |l| ==> s.info[c].sendToList[i] == l[k])
  {
  }

  lemma ServingSend<C>(w: State<C>, s: State<C>, c: C, m: Message, k: nat, i: nat)
    requires c in w.info && Serving(w, s, c, m, k, i) && k < |w.info[c].sendToList| && Distinct(w.info[c].sendToList)
    requires var x := w.info[c].sendToList[k]; x in w.phase && x in w.sent && w.phase[x].Connected?
    ensures Serving(w, Send(s, w.info[c].sendToList[k], m), c, m, k + 1, i + 1)
  {
    hide Forwarded, OnlyConnected, Registry.Send;
    var l := w.info[c].sendToList;
    var done := OnlyConnected(l[..k], w.phase);
    OnlyConnectedSnoc(l, k, w.phase);
    DistinctPrefix(l, k);
    ForwardedOne(w, c, m, done, done + l[k..], l[k]);
    assert done + l[k..] == (done + [l[k]]) + l[k + 1..];
  }

  lemma ServingDrop<C>(w: State<C>, s: State<C>, c: C, m: Message, k: nat, i: nat)
    requires c in w.info && Serving(w, s, c, m, k, i) && k < |w.info[c].sendToList|
    requires var x := w.info[c].sendToList[k]; x in w.phase && !w.phase[x].Connected?
    ensures c in s.info && i < |s.info[c].sendToList|
    ensures var t := s.info[c].sendToList;
            Serving(w, SetInfo(s, c, s.info[c].(sendToList := t[..i] + t[i + 1..])), c, m, k + 1, i)
  {
    hide Forwarded, OnlyConnected, SetInfo;
    ServingView(w, s, c, m, k, i);
    var l := w.info[c].sendToList;
    var done := OnlyConnected(l[..k], w.phase);
    OnlyConnectedSnoc(l, k, w.phase);
    assert done + [] == done;
    var t := done + l[k..];
    ForwardedDrop(w, c, m, done, t, t[..i] + t[i + 1..]);
    assert t[..i] + t[i + 1..] == done + l[k + 1..];
  }

  lemma ServingEnd<C>(w: State<C>, s: State<C>, c: C, m: Message, k: nat, i: nat)
    requires Closed(w) && c in w.info && Serving(w, s, c, m, k, i) && k == |w.info[c].sendToList|
    ensures s == SendData(w, c, m)
  {
    var l := w.info[c].sendToList;
    assert l[..k] == l && OnlyConnected(l, w.phase) + l[k..] == OnlyConnected(l, w.phase);
  }

  lemma ListedUp<C>(w: State<C>, c: C, k: nat)
    requires Closed(w) && c in w.info && k < |w.info[c].sendToList|
    ensures w.info[c].sendToList[k] in w.info
  {
  }

  class P2pServer {
    var connections: map<Id, Connection>
    var connectionList: seq<Slot<Connection>>
    var nextHandle: nat
    const idleSeconds: int
    ghost var all: set<Connection> // every connection that has come up

    ghost function Model(): (m: State<Connection>)
      reads this, all
      ensures m.connections == connections && m.connectionList == connectionList
      ensures m.nextHandle == nextHandle && m.idleSeconds == idleSeconds
      ensures m.info.Keys == all && m.phase.Keys == all && m.sent.Keys == all
    {
      State(connections, connectionList, nextHandle,
            map c | c in all :: c.Info(), map c | c in all :: c.phase, map c | c in all :: c.sent,
            idleSeconds)
    }

    lemma At(c: Connection)
      requires c in all
      ensures var m := Model(); m.info[c] == c.Info() && m.phase[c] == c.phase && m.sent[c] == c.sent
    {
    }

    twostate lemma WasAt(c: Connection)
      requires c in old(all)
      ensures var w := old(Model()); w.info[c] == old(c.Info()) && w.phase[c] == old(c.phase) && w.sent[c] == old(c.sent)
    {
    }

    ghost predicate Valid()
      reads this, all
    {
      Wf(Model()) && Wires()
    }

    ghost predicate Wires()
      reads this, all
    {
      forall c :: c in all ==> c.WireValid()
    }

    constructor (idleSeconds: int)
      ensures Valid() && Model() == Init(idleSeconds) && all == {}
    {
      this.idleSeconds := idleSeconds;
      connections, connectionList, nextHandle, all := map[], [], 0, {};
    }

    /** Only the record of `c` has changed, so the model changes there only. */
    twostate lemma InfoChanged(c: Connection)
      requires c in all && all == old(all)
      requires unchanged(`connections) && unchanged(`connectionList) && unchanged(`nextHandle)
      requires forall x :: x in all ==> x.phase == old(x.phase) && x.sent == old(x.sent)
      requires forall x :: x in all && x != c ==> x.Info() == old(x.Info())
      ensures Model() == SetInfo(old(Model()), c, c.Info())
    {
      hide Model, Connection.Info;
      forall x | x in all
        ensures Model().info[x] == x.Info() && Model().phase[x] == x.phase && Model().sent[x] == x.sent
        ensures x in old(all) ==>
          && old(Model()).info[x] == old(x.Info()) && old(Model()).phase[x] == old(x.phase)
          && old(Model()).sent[x] == old(x.sent)
      {
        At(x);
        WasAt(x);
      }
      ChangedAt(old(Model()), Model(), c);
      Unchanged(old(Model()), c);
    }

    /** Only the phase or the output of `c` has changed. */
    twostate lemma LinkChanged(c: Connection)
      requires c in all && all == old(all)
      requires unchanged(`connections) && unchanged(`connectionList) && unchanged(`nextHandle)
      requires forall x :: x in all ==> x.Info() == old(x.Info())
      requires forall x :: x in all && x != c ==> x.phase == old(x.phase) && x.sent == old(x.sent)
      ensures var w := old(Model());
              Model() == w.(phase := w.phase[c := c.phase], sent := w.sent[c := c.sent])
    {
      hide Model, Connection.Info;
      forall x | x in all
        ensures Model().info[x] == x.Info() && Model().phase[x] == x.phase && Model().sent[x] == x.sent
        ensures x in old(all) ==>
          && old(Model()).info[x] == old(x.Info()) && old(Model()).phase[x] == old(x.phase)
          && old(Model()).sent[x] == old(x.sent)
      {
        At(x);
        WasAt(x);
      }
      ChangedAt(old(Model()), Model(), c);
      Unchanged(old(Model()), c);
    }

    twostate lemma NoRecordChanged()
      requires all == old(all)
      requires forall x :: x in all ==> x.Info() == old(x.Info()) && x.phase == old(x.phase) && x.sent == old(x.sent)
      ensures var m, w := Model(), old(Model());
              m.info == w.info && m.phase == w.phase && m.sent == w.sent
    {
      hide Model, Connection.Info;
      forall x | x in all
        ensures Model().info[x] == x.Info() && Model().phase[x] == x.phase && Model().sent[x] == x.sent
        ensures x in old(all) ==>
          && old(Model()).info[x] == old(x.Info()) && old(Model()).phase[x] == old(x.phase)
          && old(Model()).sent[x] == old(x.sent)
      {
        At(x);
        WasAt(x);
      }
      SameMaps(old(Model()), Model());
    }

    // ----- Assignments to one record -----

    method SetDeviceId(c: Connection, id: Id)
      requires c in all && Wires()
      modifies c`deviceId
      ensures Wires() && Model() == SetInfo(old(Model()), c, old(Model()).info[c].(deviceId := id))
    {
      hide Model;
      At(c);
      c.deviceId := id;
      InfoChanged(c);
    }

    method SetLastReceiveTime(c: Connection, time: int)
      requires c in all && Wires()
      modifies c`lastReceiveTime
      ensures Wires() && Model() == SetInfo(old(Model()), c, old(Model()).info[c].(lastReceiveTime := time))
    {
      hide Model;
      At(c);
      c.lastReceiveTime := time;
      InfoChanged(c);
    }

    method SetSubscribeIdList(c: Connection, l: seq<Id>)
      requires c in all && Wires()
      modifies c`subscribeIdList
      ensures Wires() && Model() == SetInfo(old(Model()), c, old(Model()).info[c].(subscribeIdList := l))
    {
      hide Model;
      At(c);
      c.subscribeIdList := l;
      InfoChanged(c);
    }

    method SetSendToList(c: Connection, l: seq<Connection>)
      requires c in all && Wires()
      modifies c`sendToList
      ensures Wires() && Model() == SetInfo(old(Model()), c, old(Model()).info[c].(sendToList := l))
    {
      hide Model;
      At(c);
      c.sendToList := l;
      InfoChanged(c);
    }

    method Shutdown(c: Connection)
      requires c in all && Wires()
      modifies c`phase
      ensures Wires() && Model() == Registry.Shutdown(old(Model()), c)
    {
      hide Model, Connection.Info, Connection.WireValid;
      ghost var w := Model();
      At(c);
      c.Shutdown();
      LinkChanged(c);
      assert w.sent[c := c.sent] == w.sent;
      assert c.phase == w.phase[c] ==> w.phase[c := c.phase] == w.phase;
    }

    method SendTo(c: Connection, message: Message)
      requires c in all && Wires() && Small(message)
      modifies c`wire, c`sent
      ensures Wires() && Model() == Registry.Send(old(Model()), c, message)
    {
      hide Model, Connection.Info, Connection.WireValid;
      ghost var w := Model();
      At(c);
      c.Send(message);
      LinkChanged(c);
      assert w.phase[c := c.phase] == w.phase;
      assert c.sent == w.sent[c] ==> w.sent[c := c.sent] == w.sent;
    }

    // ----- Handlers -----

    method RegisterDevice(conn: Connection, id: Id)
      requires Valid() && conn in all
      modifies this`connections, all
      ensures Valid() && Model() == Registry.RegisterDevice(old(Model()), conn, id)
    {
      hide Model, Core, Closed;
      RegisterKeeps(Model(), conn, id);
      OwnerUp(id);
      SetDeviceId(conn, id);
      if id in connections {
        var owner := connections[id];
        if owner == conn {
          return;
        }
        SetDeviceId(owner, DELETE);
        Shutdown(owner);
      }
      SetConnections(connections[id := conn]);
    }

    method SetConnections(m: map<Id, Connection>)
      requires Wires()
      modifies this`connections
      ensures Wires() && Model() == old(Model()).(connections := m)
    {
      hide Model;
      connections := m;
      NoRecordChanged();
    }

    lemma OwnerUp(id: Id)
      requires Closed(Model())
      ensures id in connections ==> connections[id] in all
    {
    }

    method SubscribeDevice(conn: Connection, id: Id) returns (result: byte)
      requires Valid() && conn in all
      modifies all
      ensures Valid() && Model() == Registry.SubscribeDevice(old(Model()), conn, id)
      ensures result == if Accepts(old(Model()), conn, id) then EXEC_SUCCESS else EXEC_FAIL
    {
      hide Model, Core, Closed, Add;
      SubscribeKeeps(Model(), conn, id);
      OwnerUp(id);
      At(conn);
      if id !in connections {
        return EXEC_FAIL;
      }
      var publisher := connections[id];
      if id == conn.deviceId {
        return EXEC_FAIL;
      }
      SetSubscribeIdList(conn, Add(conn.subscribeIdList, id));
      At(publisher);
      SetSendToList(publisher, Add(publisher.sendToList, conn));
      return EXEC_SUCCESS;
    }

    method UnsubscribeDevice(conn: Connection, id: Id)
      requires Valid() && conn in all
      modifies all
      ensures Valid() && Model() == Registry.UnsubscribeDevice(old(Model()), conn, id)
    {
      hide Model, Core, Closed, Without, EraseFirst;
      UnsubscribeKeeps(Model(), conn, id);
      OwnerUp(id);
      At(conn);
      if id in conn.subscribeIdList {
        if id in connections {
          var publisher := connections[id];
          At(publisher);
          SetSendToList(publisher, Without(publisher.sendToList, conn));
        }
        At(conn);
        SetSubscribeIdList(conn, EraseFirst(conn.subscribeIdList, id));
      }
    }

    /** The loop takes the front id each time; it ends because each call removes that id. */
    method UnregisterDevice(conn: Connection)
      requires Valid() && conn in all
      modifies this`connections, all
      ensures Valid() && Model() == Registry.UnregisterDevice(old(Model()), conn)
    {
      hide Model, Core, Closed, Registry.UnsubscribeDevice;
      UnregisterKeeps(Model(), conn);
      ghost var w := Model();
      while conn.subscribeIdList != []
        invariant Valid() && conn in all
        invariant UnsubscribeAll(Model(), conn) == UnsubscribeAll(w, conn)
        invariant connections == old(connections)
        decreases |conn.subscribeIdList|
      {
        At(conn);
        UnsubscribeDevice(conn, conn.subscribeIdList[0]);
        At(conn);
      }
      At(conn);
      SetSendToList(conn, []);
      At(conn);
      if conn.deviceId == DELETE {
        return;
      }
      SetConnections(connections - {conn.deviceId});
      SetDeviceId(conn, DELETE);
    }

    method CheckDeviceAlive(id: Id) returns (result: byte)
      requires Valid()
      ensures result == if Registry.CheckDeviceAlive(Model(), id) then EXEC_SUCCESS else EXEC_FAIL
    {
      hide Model, Core;
      if id in connections {
        OwnerUp(id);
        At(connections[id]);
      }
      if id in connections && connections[id].phase.Connected? {
        return EXEC_SUCCESS;
      }
      return EXEC_FAIL;
    }

    method HeartBeat(conn: Connection, time: int)
      requires Valid() && Alive(Model(), conn)
      modifies this`connectionList, all
      ensures Valid() && Model() == Registry.HeartBeat(old(Model()), conn, time)
    {
      hide Model, Core, Closed, SpliceToEnd;
      HeartBeatKeeps(Model(), conn, time);
      SetLastReceiveTime(conn, time);
      At(conn);
      SetConnectionList(SpliceToEnd(connectionList, conn.position));
      assert connectionList != [] && connectionList[|connectionList| - 1] == Slot(conn.position, conn); // the source's own
    }

    method SetConnectionList(l: seq<Slot<Connection>>)
      requires Wires()
      modifies this`connectionList
      ensures Wires() && Model() == old(Model()).(connectionList := l)
    {
      hide Model;
      connectionList := l;
      NoRecordChanged();
    }

    lemma ListsUp(conn: Connection)
      requires Valid() && conn in all
      ensures Distinct(conn.sendToList) && forall x :: x in conn.sendToList ==> x in all
      ensures Model().info[conn].sendToList == conn.sendToList
    {
    }

    /** One entry of the send list: send and go on, or erase and go on with the next one. */
    method ServeEntry(conn: Connection, message: Message, i: nat, ghost w: State<Connection>, ghost k: nat)
      returns (next: nat)
      requires Wires() && Small(message) && conn in all && i < |conn.sendToList|
      requires Closed(w) && w.info.Keys == all && w.phase.Keys == all && w.sent.Keys == all
      requires Distinct(w.info[conn].sendToList)
      requires Serving(w, Model(), conn, message, k, i)
      modifies all
      ensures Wires() && k + 1 <= |w.info[conn].sendToList|
      ensures Serving(w, Model(), conn, message, k + 1, next)
    {
      hide Model, Closed, Serving, SetInfo, Registry.Send, Connection.WireValid, Distinct, Wires, OnlyConnected, Small;
      ServingView(w, Model(), conn, message, k, i);
      At(conn);
      var target := conn.sendToList[i];
      ListedUp(w, conn, k);
      At(target);
      if target.phase.Connected? {
        ServingSend(w, Model(), conn, message, k, i);
        SendTo(target, message);
        next := i + 1;
      } else {
        ServingDrop(w, Model(), conn, message, k, i);
        SetSendToList(conn, conn.sendToList[..i] + conn.sendToList[i + 1..]);
        next := i;
      }
      ServingView(w, Model(), conn, message, k + 1, next);
    }

    /** The forwarding loop over the sender's list. */
    method SendData(conn: Connection, message: Message)
      requires Valid() && conn in all && Small(message)
      modifies all
      ensures Valid() && Model() == Registry.SendData(old(Model()), conn, message)
    {
      hide Model, Core, Closed, Serving, Registry.SendData, Wires, Distinct;
      SendDataKeeps(Model(), conn, message);
      ListsUp(conn);
      ghost var w, k := Model(), 0;
      ServingStart(w, conn, message);
      var i: nat := 0;
      while i < |conn.sendToList|
        invariant Wires() && k <= |w.info[conn].sendToList| && Serving(w, Model(), conn, message, k, i)
        decreases |w.info[conn].sendToList| - k
      {
        i := ServeEntry(conn, message, i, w, k);
        k := k + 1;
      }
      At(conn);
      ServingView(w, Model(), conn, message, k, i);
      ServingEnd(w, Model(), conn, message, k, i);
    }

    method CallBackTo(conn: Connection, command: byte, result: byte)
      requires conn in all && Wires() && command < CALL_BACK_MASK
      modifies conn`wire, conn`sent
      ensures Wires() && Model() == Registry.Send(old(Model()), conn, [command + CALL_BACK_MASK, result])
    {
      SendTo(conn, [command + CALL_BACK_MASK, result]);
    }

    /** The switch of onMessage, up to the callback. */
    method Perform(conn: Connection, message: Message, time: int) returns (result: byte)
      requires Valid() && Alive(Model(), conn) && Small(message) && !Classify(message).Unknown?
      modifies this`connections, this`connectionList, all
      ensures Valid() && Model() == Effect(old(Model()), conn, message, time)
      ensures result == Result(old(Model()), conn, message)
    {
      hide Model, Core, Closed, Wires;
      hide Registry.RegisterDevice, Registry.SubscribeDevice, Registry.SendData, Registry.UnregisterDevice;
      hide Registry.UnsubscribeDevice, Registry.CheckDeviceAlive, Registry.HeartBeat, Accepts;
      var command, id := message[0], Id(message[1..]);
      result := EXEC_SUCCESS;
      if command == REGISTER_DEVICE {
        RegisterDevice(conn, id);
      } else if command == SUBSCRIBE_DEVICE {
        result := SubscribeDevice(conn, id);
      } else if command == SEND_DATA {
        SendData(conn, message);
      } else if command == UNREGISTER_DEVICE {
        UnregisterDevice(conn);
      } else if command == UNSUBSCRIBE_DEVICE {
        UnsubscribeDevice(conn, id);
      } else if command == CHECK_DEVICE_ALIVE {
        result := CheckDeviceAlive(id);
      } else {
        HeartBeat(conn, time);
      }
    }

    method OnMessage(conn: Connection, message: Message, time: int)
      requires Valid() && Alive(Model(), conn) && Small(message)
      modifies this`connections, this`connectionList, all
      ensures Valid() && Model() == Registry.OnMessage(old(Model()), conn, message, time)
    {
      hide Model, Core, Closed, Wires, Registry.Send, Effect, Result, Registry.OnMessage;
      OnMessageKeeps(Model(), conn, message, time);
      OnMessageParts(Model(), conn, message, time);
      if Classify(message).Unknown? {
        return;
      }
      var result := Perform(conn, message, time);
      CallBackTo(conn, message[0], result);
    }

    /** onConnection for a connection that has just come up. */
    method ConnectionUp(conn: Connection, now: int)
      requires Valid() && conn !in all && conn.phase.Connected? && conn.sent == [] && conn.WireValid()
      modifies this, conn
      ensures Valid() && all == old(all) + {conn}
      ensures Model() == Registry.ConnectionUp(old(Model()), conn, now)
    {
      hide *;
      ValidIs();
      UpKeeps(Model(), conn, now);
      conn.Reset(now, nextHandle);
      connectionList := connectionList + [Slot(nextHandle, conn)];
      nextHandle := nextHandle + 1;
      all := all + {conn};
      JoinedAt(conn);
      IsUp(old(Model()), Model(), conn, now);
      WiresJoined(conn);
      ValidIs();
    }

    lemma ValidIs()
      ensures Valid() <==> Wf(Model()) && Wires()
      ensures Wf(Model()) ==> Closed(Model())
    {
    }

    twostate lemma WiresJoined(c: Connection)
      requires old(Wires()) && all == old(all) + {c} && c.WireValid()
      requires forall x :: x in old(all) ==> (x.sent, x.wire) == old((x.sent, x.wire))
      ensures Wires()
    {
    }

    twostate lemma JoinedAt(c: Connection)
      requires c !in old(all) && all == old(all) + {c}
      requires forall x :: x in old(all) ==> x.Info() == old(x.Info()) && x.phase == old(x.phase) && x.sent == old(x.sent)
      ensures var m, w := Model(), old(Model());
              && m.info == w.info[c := c.Info()] && m.phase == w.phase[c := c.phase] && m.sent == w.sent[c := c.sent]
    {
      hide Model, Connection.Info;
      forall x | x in all
        ensures Model().info[x] == x.Info() && Model().phase[x] == x.phase && Model().sent[x] == x.sent
        ensures x in old(all) ==>
          && old(Model()).info[x] == old(x.Info()) && old(Model()).phase[x] == old(x.phase)
          && old(Model()).sent[x] == old(x.sent)
      {
        At(x);
        if x in old(all) {
          WasAt(x);
        }
      }
      Joined(old(Model()), Model(), c);
    }

    /** onConnection for a connection that has gone down. */
    method ConnectionDown(conn: Connection)
      requires Valid() && Alive(Model(), conn)
      modifies this`connections, this`connectionList, all
      ensures Valid() && Model() == Registry.ConnectionDown(old(Model()), conn)
    {
      hide Model, Core, Closed, EraseAt, Registry.UnregisterDevice;
      EraseKeeps(Model(), conn);
      SetDown(conn);
      At(conn);
      SetConnectionList(EraseAt(connectionList, conn.position));
      UnregisterDevice(conn);
    }

    method SetDown(c: Connection)
      requires c in all && Wires()
      modifies c`phase
      ensures Wires() && Model() == old(Model()).(phase := old(Model()).phase[c := Down])
    {
      hide Model, Connection.Info, Connection.WireValid;
      ghost var w := Model();
      At(c);
      c.phase := Down;
      LinkChanged(c);
      assert w.sent[c := c.sent] == w.sent;
    }

    /** One node of the idle list; `more` is false where the loop breaks. */
    method VisitNode(i: nat, now: int) returns (more: bool)
      requires Valid() && i < |connectionList|
      modifies all
      ensures Valid() && Sweep(old(Model()), i, now) == if more then Sweep(Model(), i + 1, now) else Model()
    {
      hide Model, Core, Closed, SweepStep, Wires;
      SlotUp(i);
      var conn := connectionList[i].conn;
      At(conn);
      SweepStepIs(Model(), i, now);
      SweepStepKeeps(Model(), i, now);
      var age := now - conn.lastReceiveTime;
      more := true;
      if age > idleSeconds * MICROSECONDS {
        Shutdown(conn);
      } else if age < 0 {
        SetLastReceiveTime(conn, now);
      } else {
        more := false;
      }
    }

    /** onTimer, with its early break. */
    method OnTimer(now: int)
      requires Valid()
      modifies all
      ensures Valid() && Model() == Sweep(old(Model()), 0, now)
    {
      hide Model, Core, Closed, SweepStep, Wires, Breaks;
      ghost var w := Model();
      var i, more := 0, true;
      while i < |connectionList| && more
        invariant Valid() && i <= |connectionList|
        invariant Sweep(w, 0, now) == if more then Sweep(Model(), i, now) else Model()
        decreases |connectionList| - i, more
      {
        more := VisitNode(i, now);
        if more {
          i := i + 1;
        }
      }
    }

    lemma SlotUp(i: nat)
      requires Closed(Model()) && i < |connectionList|
      ensures connectionList[i].conn in all
    {
    }

    /** The codec on a connection's input buffer: it hands over the frames `Decode` finds in the
        buffer, in order, leaves there what `Decode` leaves, and shuts a stuck connection down. */
    method CodecOnMessage(conn: Connection, buf: Buffer, time: int)
      requires Valid() && Alive(Model(), conn) && buf.Valid()
      modifies this`connections, this`connectionList, all, buf
      ensures Valid() && buf.Valid() && buf.buffer == old(buf.buffer)
      ensures var d := Decode(old(buf.Contents()));
              && buf.Contents() == d.rest
              && CanRun(old(Model()), Received(conn, d, time))
              && Model() == Run(old(Model()), Received(conn, d, time))
    {
      hide Model, Core, Closed, Wires, Registry.OnMessage, Buffer.Valid, Buffer.Contents, Midway, Run, CanRun, Received;
      ghost var w, start := Model(), buf.Contents();
      MidwayStart(w, conn, start, time);
      while buf.ReadableBytes() >= HEADER
        invariant Valid() && Alive(Model(), conn) && buf.Valid() && buf.buffer == old(buf.buffer)
        invariant Midway(w, Model(), conn, start, buf.Contents(), time)
        decreases buf.ReadableBytes()
      {
        ghost var b := buf.Contents();
        var len := buf.PeekInt32();
        if len > MAX_BODY || len < 0 {
          MidwayStuck(w, Model(), conn, start, b, time);
          ShutdownWf(Model(), conn);
          Shutdown(conn);
          return;
        } else if buf.ReadableBytes() >= len + HEADER {
          MidwayReady(w, Model(), conn, start, b, time);
          TakeFrame(conn, buf, len, time);
        } else {
          break;
        }
      }
      MidwayWaiting(w, Model(), conn, start, buf.Contents(), time);
    }

    /** Bytes arrive: they are appended to the connection's input buffer and the codec runs. */
    method OnBytes(conn: Connection, chunk: Bytes, time: int)
      requires Valid() && Alive(Model(), conn) && conn.input.Valid()
      modifies this`connections, this`connectionList, all, conn.input, conn.input.buffer
      ensures Valid() && conn.input.Valid() && (conn.input.buffer == old(conn.input.buffer) || fresh(conn.input.buffer))
      ensures var d := Decode(old(conn.input.Contents()) + chunk);
              && conn.input.Contents() == d.rest
              && CanRun(old(Model()), Received(conn, d, time))
              && Model() == Run(old(Model()), Received(conn, d, time))
    {
      hide Model, Wf, Wires, Run, CanRun, Received, Buffer.Valid, Buffer.Contents, Decode;
      conn.input.Append(chunk);
      CodecOnMessage(conn, conn.input, time);
    }

    /** The connections the server has or will have: those that have not come up are new. */
    ghost predicate Awaits(conns: set<Connection>)
      reads this, conns
    {
      && all <= conns
      && forall c :: c in conns && c !in all ==> c.phase.Connected? && c.sent == [] && c.WireValid()
    }

    lemma NewAt(conns: set<Connection>, c: Connection)
      requires Awaits(conns) && c in conns && c !in all
      ensures c.phase.Connected? && c.sent == [] && c.WireValid()
    {
    }

    twostate lemma AwaitsKept(conns: set<Connection>)
      requires old(all) <= all
      requires forall c :: c in conns && c !in all ==> (c.phase, c.sent, c.wire) == old((c.phase, c.sent, c.wire))
      ensures old(Awaits(conns)) && all <= conns ==> Awaits(conns)
    {
    }

    /** Bytes on one of many connections: of the input buffers only its own changes. */
    method OnInput(conn: Connection, chunk: Bytes, time: int, ghost f: Feeds)
      requires Valid() && Awaits(f.conns) && Alive(Model(), conn) && conn in f.conns && Buffered(f) && Separate(f.conns)
      modifies this`connections, this`connectionList, all, conn.input, conn.input.buffer
      ensures Valid() && Awaits(f.conns) && Separate(f.conns)
      ensures Buffered(Feeds(f.conns, Next(f.pending, Input(conn, chunk, time))))
      ensures fresh(Storage(f.conns) - old(Storage(f.conns)))
      ensures var es := Events(f.pending, Input(conn, chunk, time));
              CanRun(old(Model()), es) && Model() == Run(old(Model()), es)
    {
      hide *;
      AllAwaited(f.conns);
      InputAt(f, conn);
      OthersApart(f, conn);
      InputEvents(f.pending, conn, chunk, time);
      OnBytes(conn, chunk, time);
      conn.InputChanged(f);
      AwaitsKept(f.conns);
    }

    /** The callbacks of one connection, among many: the input buffers stay as they are. */
    method OnOpen(conn: Connection, time: int, ghost f: Feeds)
      requires Valid() && Awaits(f.conns) && Buffered(f) && Separate(f.conns) && conn in f.conns && conn !in all
      modifies this, conn
      ensures Valid() && Awaits(f.conns) && Buffered(f) && Separate(f.conns) && Storage(f.conns) == old(Storage(f.conns))
      ensures Model() == Registry.ConnectionUp(old(Model()), conn, time)
    {
      hide *;
      NewAt(f.conns, conn);
      AllAwaited(f.conns);
      ConnectionUp(conn, time);
      InputsKept(f);
      AwaitsKept(f.conns);
    }

    method OnClose(conn: Connection, ghost f: Feeds)
      requires Valid() && Awaits(f.conns) && Buffered(f) && Separate(f.conns) && Alive(Model(), conn)
      modifies this`connections, this`connectionList, all
      ensures Valid() && Awaits(f.conns) && Buffered(f) && Separate(f.conns) && Storage(f.conns) == old(Storage(f.conns))
      ensures Model() == Registry.ConnectionDown(old(Model()), conn)
    {
      hide *;
      AllAwaited(f.conns);
      ConnectionDown(conn);
      InputsKept(f);
      AwaitsKept(f.conns);
    }

    method OnTick(time: int, ghost f: Feeds)
      requires Valid() && Awaits(f.conns) && Buffered(f) && Separate(f.conns)
      modifies all
      ensures Valid() && Awaits(f.conns) && Buffered(f) && Separate(f.conns) && Storage(f.conns) == old(Storage(f.conns))
      ensures Model() == Sweep(old(Model()), 0, time)
    {
      hide *;
      AllAwaited(f.conns);
      OnTimer(time);
      InputsKept(f);
      AwaitsKept(f.conns);
    }

    /** What the network does next, handed to the callback for it. */
    method OnNet(n: Net<Connection>, ghost f: Feeds)
      requires Valid() && Awaits(f.conns) && Buffered(f) && Separate(f.conns)
      requires Possible(Model(), n) && (!n.Timer? ==> n.conn in f.conns)
      modifies this, f.conns, Inputs(f.conns), Storage(f.conns)
      ensures Valid() && Awaits(f.conns) && Buffered(Feeds(f.conns, Next(f.pending, n))) && Separate(f.conns)
      ensures fresh(Storage(f.conns) - old(Storage(f.conns)))
      ensures CanRun(old(Model()), Events(f.pending, n)) && Model() == Run(old(Model()), Events(f.pending, n))
    {
      hide Model, Core, Closed, Wires, Run, CanRun, Received, Buffer.Valid, Buffer.Contents, Decode, Sweep;
      hide Registry.ConnectionUp, Registry.ConnectionDown, Connection.WireValid, Buffered, Separate, Awaits;
      PossibleRuns(Model(), f.pending, n);
      AllAwaited(f.conns);
      if n.Input? {
        InputAt(f, n.conn);
        OnInput(n.conn, n.chunk, n.time, f);
      } else if n.Open? {
        OnOpen(n.conn, n.time, f);
      } else if n.Close? {
        OnClose(n.conn, f);
      } else {
        OnTick(n.time, f);
      }
    }

    lemma AllAwaited(conns: set<Connection>)
      requires Awaits(conns)
      ensures all <= conns
    {
    }

    /** The server over a whole history of the network, chunks of many connections interleaved in
        any way: it performs the run of the history's events, each connection's input buffer
        holds what is left of its stream, and its socket has carried the frames written to it. */
    method Serve(ns: seq<Net<Connection>>, ghost f: Feeds)
      requires Valid() && Awaits(f.conns) && Buffered(f) && Separate(f.conns)
      requires CanServe(Model(), f.pending, ns) && forall i :: 0 <= i < |ns| && !ns[i].Timer? ==> ns[i].conn in f.conns
      modifies this, f.conns, Inputs(f.conns), Storage(f.conns)
      ensures Valid() && Buffered(Feeds(f.conns, Pending(f.pending, ns))) && all <= f.conns
      ensures CanRun(old(Model()), Flatten(f.pending, ns)) && Model() == Run(old(Model()), Flatten(f.pending, ns))
      ensures forall c :: c in all ==> AllSmall(Model().sent[c]) && c.wire == EncodeAll(Model().sent[c])
    {
      hide Model, Core, Closed, Wires, Run, CanRun, Events, Flatten, Next, Pending, Possible, CanServe;
      hide Buffered, Separate, Awaits, AllSmall, EncodeAll;
      ghost var left := f.pending;
      ServedRuns(Model(), left, ns);
      assert ns[0..] == ns;
      for i := 0 to |ns|
        invariant Valid() && Awaits(f.conns) && Buffered(Feeds(f.conns, left)) && Separate(f.conns)
        invariant fresh(Storage(f.conns) - old(Storage(f.conns)))
        invariant CanServe(Model(), left, ns[i..]) && Pending(left, ns[i..]) == Pending(f.pending, ns)
        invariant CanRun(old(Model()), Flatten(f.pending, ns)) && CanRun(Model(), Flatten(left, ns[i..]))
        invariant Run(Model(), Flatten(left, ns[i..])) == Run(old(Model()), Flatten(f.pending, ns))
      {
        ServeStep(Model(), left, ns, i);
        OnNet(ns[i], Feeds(f.conns, left));
        left := Next(left, ns[i]);
      }
      ServeEnd(Model(), left, ns);
      AllAwaited(f.conns);
      forall c | c in all
        ensures AllSmall(Model().sent[c]) && c.wire == EncodeAll(Model().sent[c])
      {
        At(c);
        WireAt(c);
      }
    }

    lemma WireAt(c: Connection)
      requires Wires() && c in all
      ensures AllSmall(c.sent) && c.wire == EncodeAll(c.sent)
    {
    }

    /** One complete frame: skip the header, hand the body over, skip the body. */
    method TakeFrame(conn: Connection, buf: Buffer, len: int, time: int)
      requires Valid() && Alive(Model(), conn) && buf.Valid()
      requires Ready(buf.Contents()) && len == NetworkToHost32(buf.Contents())
      modifies this`connections, this`connectionList, all, buf
      ensures Valid() && buf.Valid() && buf.buffer == old(buf.buffer)
      ensures buf.Contents() == Tail(old(buf.Contents()))
      ensures Model() == Registry.OnMessage(old(Model()), conn, Body(old(buf.Contents())), time)
    {
      hide Model, Core, Closed, Wires, Registry.OnMessage, Buffer.Valid, Buffer.Contents, Valid, NetworkToHost32;
      ghost var b := buf.Contents();
      buf.Retrieve(HEADER);
      var message := buf.PeekBytes(len);
      assert message == Body(b);
      OnMessage(conn, message, time);
      buf.Retrieve(len);
      assert b[HEADER..][len..] == Tail(b);
    }
  }

  // ----- Input buffers -----

  ghost function Inputs(conns: set<Connection>): set<Buffer> {
    set c | c in conns :: c.input
  }

  ghost function Storage(conns: set<Connection>): set<array<byte>>
    reads Inputs(conns)
  {
    set c | c in conns :: c.input.buffer
  }

  /** The connections of a history, and what each has left over. */
  datatype Feeds = Feeds(conns: set<Connection>, pending: map<Connection, Bytes>)

  ghost predicate Buffered(f: Feeds)
    reads Inputs(f.conns), Storage(f.conns)
  {
    forall c :: c in f.conns ==> c.input.Valid() && c.input.Contents() == Left(f.pending, c)
  }

  /** No two connections share a buffer or its storage. */
  ghost predicate Separate(conns: set<Connection>)
    reads Inputs(conns)
  {
    forall c, d :: c in conns && d in conns && c != d ==> c.input != d.input && c.input.buffer != d.input.buffer
  }

  ghost function Image(b: Buffer): (array<byte>, nat, nat, Bytes)
    reads b, b.buffer
  {
    (b.buffer, b.readerIndex, b.writerIndex, b.buffer[..])
  }

  lemma InputAt(f: Feeds, c: Connection)
    requires c in f.conns && Buffered(f)
    ensures c.input.Valid() && c.input.Contents() == Left(f.pending, c)
    ensures c.input in Inputs(f.conns) && c.input.buffer in Storage(f.conns)
  {
  }

  lemma InputEvents<C>(pending: map<C, Bytes>, c: C, chunk: Bytes, time: int)
    ensures var n, d := Input(c, chunk, time), Decode(Left(pending, c) + chunk);
            Events(pending, n) == Received(c, d, time) && Next(pending, n) == pending[c := d.rest]
  {
  }

  lemma OthersApart(f: Feeds, c: Connection)
    requires c in f.conns && Separate(f.conns)
    ensures forall x :: x in f.conns && x != c ==> x.input != c.input && x.input.buffer != c.input.buffer
  {
  }

  twostate lemma InputsKept(f: Feeds)
    requires forall c :: c in f.conns ==> Image(c.input) == old(Image(c.input))
    ensures old(Buffered(f)) ==> Buffered(f)
    ensures old(Separate(f.conns)) ==> Separate(f.conns)
    ensures Storage(f.conns) == old(Storage(f.conns))
  {
  }

  lemma ServeStep<C>(s: State<C>, pending: map<C, Bytes>, ns: seq<Net<C>>, i: nat)
    requires Closed(s) && i < |ns| && CanServe(s, pending, ns[i..])
    ensures Possible(s, ns[i]) && CanRun(s, Events(pending, ns[i])) && CanRun(s, Flatten(pending, ns[i..]))
    ensures var s1, p1 := Run(s, Events(pending, ns[i])), Next(pending, ns[i]);
            && CanServe(s1, p1, ns[i + 1..]) && CanRun(s1, Flatten(p1, ns[i + 1..]))
            && Run(s, Flatten(pending, ns[i..])) == Run(s1, Flatten(p1, ns[i + 1..]))
            && Pending(pending, ns[i..]) == Pending(p1, ns[i + 1..])
  {
    hide Closed, Run, CanRun, Events, Flatten, Next, Possible;
    assert ns[i..][1..] == ns[i + 1..];
    ServedRuns(s, pending, ns[i..]);
  }

  lemma ServeEnd<C>(s: State<C>, pending: map<C, Bytes>, ns: seq<Net<C>>)
    requires Closed(s)
    ensures var none := ns[|ns|..];
            Pending(pending, none) == pending && CanRun(s, Flatten(pending, none)) && Run(s, Flatten(pending, none)) == s
  {
    hide Closed;
  }

  /** From `s` the rest `b` of the stream leads where `w` leads with all of `start`. */
  ghost predicate Midway<C>(w: State<C>, s: State<C>, c: C, start: Bytes, b: Bytes, time: int) {
    && Closed(w) && Closed(s)
    && Decode(b).rest == Decode(start).rest
    && CanRun(w, Received(c, Decode(start), time))
    && CanRun(s, Received(c, Decode(b), time))
    && Run(s, Received(c, Decode(b), time)) == Run(w, Received(c, Decode(start), time))
  }

  lemma MidwayStart<C>(w: State<C>, c: C, start: Bytes, time: int)
    requires Closed(w) && Alive(w, c)
    ensures Midway(w, w, c, start, start, time)
  {
    hide Closed, Run, CanRun, Received;
    ReceivedRuns(w, c, Decode(start), time);
  }

  lemma MidwayStuck<C>(w: State<C>, s: State<C>, c: C, start: Bytes, b: Bytes, time: int)
    requires Midway(w, s, c, start, b, time) && Alive(s, c) && Stuck(b)
    ensures Closed(w) && CanRun(w, Received(c, Decode(start), time))
    ensures Run(w, Received(c, Decode(start), time)) == Registry.Shutdown(s, c) && Decode(start).rest == b
  {
    hide Closed, Run, CanRun, Received;
    StuckRuns(s, c, b, time);
  }

  lemma MidwayWaiting<C>(w: State<C>, s: State<C>, c: C, start: Bytes, b: Bytes, time: int)
    requires Midway(w, s, c, start, b, time) && !Ready(b) && !Stuck(b)
    ensures Closed(w) && CanRun(w, Received(c, Decode(start), time))
    ensures Run(w, Received(c, Decode(start), time)) == s && Decode(start).rest == b
  {
    hide Closed, Run, CanRun, Received;
    WaitingRuns(s, c, b, time);
  }

  lemma MidwayReady<C>(w: State<C>, s: State<C>, c: C, start: Bytes, b: Bytes, time: int)
    requires Midway(w, s, c, start, b, time) && Alive(s, c) && Ready(b)
    ensures Closed(s) && Midway(w, Registry.OnMessage(s, c, Body(b), time), c, start, Tail(b), time)
    ensures Alive(Registry.OnMessage(s, c, Body(b), time), c)
  {
    hide Closed, Run, CanRun, Received, Registry.OnMessage;
    ReadyRuns(s, c, b, time);
  }

  lemma ShutdownWf<C>(s: State<C>, c: C)
    requires Wf(s) && c in s.info
    ensures Wf(Registry.Shutdown(s, c))
  {
    ShutdownKeeps(s, c);
    hide Core;
  }

  lemma OnMessageParts<C>(s: State<C>, c: C, m: Message, time: int)
    requires Closed(s) && c in s.info
    ensures Classify(m).Unknown? ==> Registry.OnMessage(s, c, m, time) == s
    ensures !Classify(m).Unknown? ==>
      && m != [] && 1 <= m[0] <= 7
      && Registry.OnMessage(s, c, m, time) == Send(Effect(s, c, m, time), c, [m[0] + CALL_BACK_MASK, Result(s, c, m)])
  {
    hide Closed, Effect, Result;
  }

  lemma IsUp<C>(w: State<C>, m: State<C>, c: C, now: int)
    requires Closed(w) && c !in w.info && m.connections == w.connections && m.idleSeconds == w.idleSeconds
    requires m.connectionList == w.connectionList + [Slot(w.nextHandle, c)] && m.nextHandle == w.nextHandle + 1
    requires m.info == w.info[c := ConnInfo(DELETE, now, w.nextHandle, [], [])]
    requires m.phase == w.phase[c := Connected] && m.sent == w.sent[c := []]
    ensures m == Registry.ConnectionUp(w, c, now)
  {
    hide Closed;
  }

  lemma Joined<C>(w: State<C>, m: State<C>, c: C)
    requires c !in w.info && c !in w.phase && c !in w.sent
    requires m.info.Keys == w.info.Keys + {c} && m.phase.Keys == w.phase.Keys + {c} && m.sent.Keys == w.sent.Keys + {c}
    requires forall x :: x in w.info ==> m.info[x] == w.info[x]
    requires forall x :: x in w.phase ==> m.phase[x] == w.phase[x]
    requires forall x :: x in w.sent ==> m.sent[x] == w.sent[x]
    ensures m.info == w.info[c := m.info[c]] && m.phase == w.phase[c := m.phase[c]] && m.sent == w.sent[c := m.sent[c]]
  {
    assert m.info.Keys == w.info[c := m.info[c]].Keys;
  }

  lemma SweepStepIs<C>(s: State<C>, i: nat, now: int)
    requires Closed(s) && i < |s.connectionList|
    ensures var c := s.connectionList[i].conn;
            && c in s.info
            && (Expired(s, c, now) ==> SweepStep(s, i, now) == Registry.Shutdown(s, c))
            && (!Expired(s, c, now) ==> SweepStep(s, i, now) == SetInfo(s, c, s.info[c].(lastReceiveTime := now)))
  {
  }

  lemma ReceivedRuns<C>(s: State<C>, c: C, d: Decoded, time: int)
    requires Closed(s) && Alive(s, c)
    ensures CanRun(s, Received(c, d, time))
  {
    ReceivedCanRun(s, c, d.msgs, if Stuck(d.rest) then [Refused(c)] else [], time);
  }

  lemma StuckRuns<C>(s: State<C>, c: C, b: Bytes, time: int)
    requires Closed(s) && Alive(s, c) && Stuck(b)
    ensures Decode(b) == Decoded([], b)
    ensures var es := Received(c, Decode(b), time); CanRun(s, es) && Run(s, es) == Registry.Shutdown(s, c)
  {
    hide Closed;
    assert Received(c, Decode(b), time) == [Refused(c)];
  }

  lemma WaitingRuns<C>(s: State<C>, c: C, b: Bytes, time: int)
    requires Closed(s) && !Ready(b) && !Stuck(b)
    ensures Decode(b) == Decoded([], b)
    ensures var es := Received(c, Decode(b), time); CanRun(s, es) && Run(s, es) == s
  {
    assert Received(c, Decode(b), time) == [];
  }

  lemma ReadyRuns<C>(s: State<C>, c: C, b: Bytes, time: int)
    requires Closed(s) && Alive(s, c) && Ready(b)
    ensures Decode(Tail(b)).rest == Decode(b).rest
    ensures var r := Registry.OnMessage(s, c, Body(b), time);
            && Closed(r) && Alive(r, c)
            && CanRun(r, Received(c, Decode(Tail(b)), time))
            && CanRun(s, Received(c, Decode(b), time))
            && Run(r, Received(c, Decode(Tail(b)), time)) == Run(s, Received(c, Decode(b), time))
  {
    hide Closed, Registry.OnMessage;
    var r, d := Registry.OnMessage(s, c, Body(b), time), Decode(Tail(b));
    MessageKeepsAlive(s, c, Body(b), time, c);
    ReceivedRuns(r, c, d, time);
    var es, fs := Received(c, Decode(b), time), Received(c, d, time);
    assert ([Body(b)] + d.msgs)[1..] == d.msgs;
    assert es == [Arrive(c, Body(b), time)] + fs;
    assert es[1..] == fs;
  }
}
