/**
  The relay server as a state machine over values: the connection map, the per-connection
  records, the idle list and the output of every connection (p2pServer/p2pServer.cc and
  p2pServer/p2pServer.h).  `C` is the identity of a connection.  Each handler is one atomic
  step; `P2pServer` in Server.dfy is the object that performs these steps in place.
 */
module Registry {
  import opened Wire
  import opened Framing
  import opened Protocol

  datatype Id = Id(name: Bytes)

  /** The sentinel device id of a connection that holds none: the bytes of "delete". */
  const DELETE: Id := Id([0x64, 0x65, 0x6c, 0x65, 0x74, 0x65])

  const MICROSECONDS: int := 1_000_000

  /** `Disconnecting` is a connection that was shut down but still delivers input;
      `Down` one whose DOWN callback has run. */
  datatype Phase = Connected | Disconnecting | Down

  datatype ConnInfo<C> = ConnInfo(
    deviceId: Id,
    lastReceiveTime: int,
    position: nat,
    subscribeIdList: seq<Id>,
    sendToList: seq<C>)

  /** A node of the idle list; `handle` is what a `std::list` iterator designates. */
  datatype Slot<C> = Slot(handle: nat, conn: C)

  datatype State<!C(==)> = State(
    connections: map<Id, C>,
    connectionList: seq<Slot<C>>,
    nextHandle: nat,
    info: map<C, ConnInfo<C>>,
    phase: map<C, Phase>,
    sent: map<C, seq<Message>>,
    idleSeconds: int)

  function Init<C(==)>(idleSeconds: int): State<C> {
    State(map[], [], 0, map[], map[], map[], idleSeconds)
  }

  /** Every connection mentioned anywhere has a record. */
  ghost predicate Closed<C>(s: State<C>) {
    && s.phase.Keys == s.info.Keys
    && s.sent.Keys == s.info.Keys
    && (forall d :: d in s.connections ==> s.connections[d] in s.info)
    && (forall c, x :: c in s.info && x in s.info[c].sendToList ==> x in s.info)
    && (forall n :: n in s.connectionList ==> n.conn in s.info)
  }

  ghost predicate Alive<C>(s: State<C>, c: C) {
    c in s.info && c in s.phase && !s.phase[c].Down?
  }

  // ----- List operations of ConnInfo -----

  function Add<T(==)>(l: seq<T>, x: T): (r: seq<T>)
    ensures forall y :: y in r ==> y in l || y == x
    ensures forall y :: y in l ==> y in r
    ensures x in r
  {
    if x in l then l else l + [x]
  }

  /** `std::list::remove`: drop every occurrence. */
  function Without<T(==)>(l: seq<T>, x: T): (r: seq<T>)
    ensures forall y :: y in r ==> y in l && y != x
    ensures forall y :: y in l && y != x ==> y in r
    ensures |r| <= |l|
    ensures x !in l ==> r == l
  {
    if l == [] then [] else
    var r := Without(l[1..], x);
    if l[0] == x then r else [l[0]] + r
  }

  /** `erase(find(...))`: drop the first occurrence. */
  function EraseFirst<T(==)>(l: seq<T>, x: T): (r: seq<T>)
    requires x in l
    ensures |r| == |l| - 1
    ensures forall y :: y in r ==> y in l
    ensures forall y :: y in l && y != x ==> y in r
  {
    if l[0] == x then l[1..] else [l[0]] + EraseFirst(l[1..], x)
  }

  function OnlyConnected<C(==)>(l: seq<C>, phase: map<C, Phase>): (r: seq<C>)
    ensures forall y :: y in r ==> y in l && y in phase && phase[y].Connected?
    ensures forall y :: y in l && y in phase && phase[y].Connected? ==> y in r
  {
    if l == [] then [] else
    var r := OnlyConnected(l[1..], phase);
    if l[0] in phase && phase[l[0]].Connected? then [l[0]] + r else r
  }

  /** `erase(position)`: drop the node the iterator designates. */
  function EraseAt<C>(l: seq<Slot<C>>, handle: nat): (r: seq<Slot<C>>)
    ensures forall n :: n in r ==> n in l
    ensures forall n :: n in l && n.handle != handle ==> n in r
  {
    if l == [] then []
    else if l[0].handle == handle then l[1..]
    else [l[0]] + EraseAt(l[1..], handle)
  }

  /** `splice(end(), list, position)`: move the node the iterator designates to the end. */
  function SpliceToEnd<C>(l: seq<Slot<C>>, handle: nat): (r: seq<Slot<C>>)
    ensures forall n :: n in r ==> n in l
    ensures forall n :: n in l ==> n in r
  {
    if l == [] then []
    else if l[0].handle == handle then l[1..] + [l[0]]
    else [l[0]] + SpliceToEnd(l[1..], handle)
  }

  // ----- TcpConnection -----

  /** `shutdown()` closes the sending half of a connected connection and nothing else. */
  function Shutdown<C(==)>(s: State<C>, c: C): State<C> {
    if c in s.phase && s.phase[c].Connected? then s.(phase := s.phase[c := Disconnecting]) else s
  }

  /** A frame reaches the output of a connection only while it is connected. */
  function Send<C(==)>(s: State<C>, c: C, m: Message): State<C> {
    if c in s.phase && s.phase[c].Connected? && c in s.sent
    then s.(sent := s.sent[c := s.sent[c] + [m]])
    else s
  }

  // ----- Handlers -----

  function SetInfo<C(==)>(s: State<C>, c: C, i: ConnInfo<C>): State<C> {
    s.(info := s.info[c := i])
  }

  function RegisterDevice<C(==)>(s: State<C>, c: C, d: Id): (r: State<C>)
    requires Closed(s) && c in s.info
    ensures Closed(r) && r.info.Keys == s.info.Keys
    ensures r == s.(info := r.info, connections := r.connections, phase := r.phase)
  {
    var s1 := SetInfo(s, c, s.info[c].(deviceId := d));
    if d in s1.connections then
      var owner := s1.connections[d];
      if owner == c then s1
      else
        var s2 := Shutdown(SetInfo(s1, owner, s1.info[owner].(deviceId := DELETE)), owner);
        s2.(connections := s2.connections[d := c])
    else s1.(connections := s1.connections[d := c])
  }

  predicate Accepts<C(==)>(s: State<C>, c: C, d: Id)
    requires c in s.info
  {
    d in s.connections && d != s.info[c].deviceId
  }

  function SubscribeDevice<C(==)>(s: State<C>, c: C, d: Id): (r: State<C>)
    requires Closed(s) && c in s.info
    ensures Closed(r) && r.info.Keys == s.info.Keys
    ensures r == s.(info := r.info)
  {
    if Accepts(s, c, d) then
      var s1 := SetInfo(s, c, s.info[c].(subscribeIdList := Add(s.info[c].subscribeIdList, d)));
      var p := s1.connections[d];
      SetInfo(s1, p, s1.info[p].(sendToList := Add(s1.info[p].sendToList, c)))
    else s
  }

  function UnsubscribeDevice<C(==)>(s: State<C>, c: C, d: Id): (r: State<C>)
    requires Closed(s) && c in s.info
    ensures Closed(r) && r.info.Keys == s.info.Keys
    ensures r == s.(info := r.info)
    ensures d in s.info[c].subscribeIdList ==> |r.info[c].subscribeIdList| == |s.info[c].subscribeIdList| - 1
  {
    if d in s.info[c].subscribeIdList then
      var s1 :=
        if d in s.connections then
          var p := s.connections[d];
          SetInfo(s, p, s.info[p].(sendToList := Without(s.info[p].sendToList, c)))
        else s;
      SetInfo(s1, c, s1.info[c].(subscribeIdList := EraseFirst(s1.info[c].subscribeIdList, d)))
    else s
  }

  /** The loop of unregisterDeviceFunc: unsubscribe from the front id until none is left. */
  function UnsubscribeAll<C(==)>(s: State<C>, c: C): (r: State<C>)
    requires Closed(s) && c in s.info
    ensures Closed(r) && r.info.Keys == s.info.Keys
    ensures r == s.(info := r.info)
    ensures r.info[c].subscribeIdList == []
    decreases |s.info[c].subscribeIdList|
  {
    var l := s.info[c].subscribeIdList;
    if l == [] then s else UnsubscribeAll(UnsubscribeDevice(s, c, l[0]), c)
  }

  function UnregisterDevice<C(==)>(s: State<C>, c: C): (r: State<C>)
    requires Closed(s) && c in s.info
    ensures Closed(r) && r.info.Keys == s.info.Keys
    ensures r == s.(info := r.info, connections := r.connections)
  {
    var s1 := UnsubscribeAll(s, c);
    var s2 := SetInfo(s1, c, s1.info[c].(sendToList := []));
    var d := s2.info[c].deviceId;
    if d == DELETE then s2
    else SetInfo(s2.(connections := s2.connections - {d}), c, s2.info[c].(deviceId := DELETE))
  }

  predicate CheckDeviceAlive<C(==)>(s: State<C>, d: Id)
    requires Closed(s)
  {
    d in s.connections && s.phase[s.connections[d]].Connected?
  }

  /** Forward to every connected entry of the sender's list, once each, and drop the others. */
  function SendData<C(==)>(s: State<C>, c: C, m: Message): (r: State<C>)
    requires Closed(s) && c in s.info
    ensures Closed(r) && r.info.Keys == s.info.Keys
    ensures r == s.(info := r.info, sent := r.sent)
  {
    var targets := OnlyConnected(s.info[c].sendToList, s.phase);
    SetInfo(s, c, s.info[c].(sendToList := targets))
      .(sent := map x | x in s.sent :: if x in targets then s.sent[x] + [m] else s.sent[x])
  }

  function HeartBeat<C(==)>(s: State<C>, c: C, time: int): (r: State<C>)
    requires Closed(s) && c in s.info
    ensures Closed(r) && r.info.Keys == s.info.Keys
    ensures r == s.(info := r.info, connectionList := r.connectionList)
  {
    SetInfo(s, c, s.info[c].(lastReceiveTime := time))
      .(connectionList := SpliceToEnd(s.connectionList, s.info[c].position))
  }

  // ----- onMessage -----

  datatype Command =
    | Register(id: Id)
    | Subscribe(id: Id)
    | Data
    | Unregister
    | Unsubscribe(id: Id)
    | Check(id: Id)
    | Beat
    | Unknown

  /** The switch on the first byte; an empty message reads as a terminating zero. */
  function Classify(m: Message): Command {
    if m == [] then Unknown
    else if m[0] == REGISTER_DEVICE then Register(Id(m[1..]))
    else if m[0] == SUBSCRIBE_DEVICE then Subscribe(Id(m[1..]))
    else if m[0] == SEND_DATA then Data
    else if m[0] == UNREGISTER_DEVICE then Unregister
    else if m[0] == UNSUBSCRIBE_DEVICE then Unsubscribe(Id(m[1..]))
    else if m[0] == CHECK_DEVICE_ALIVE then Check(Id(m[1..]))
    else if m[0] == HEART_BEAT then Beat
    else Unknown
  }

  /** What a command does before its callback is sent. */
  function Effect<C(==)>(s: State<C>, c: C, m: Message, time: int): (r: State<C>)
    requires Closed(s) && c in s.info
    ensures Closed(r) && r.info.Keys == s.info.Keys
    ensures r.idleSeconds == s.idleSeconds
  {
    match Classify(m)
    case Register(d) => RegisterDevice(s, c, d)
    case Subscribe(d) => SubscribeDevice(s, c, d)
    case Data => SendData(s, c, m)
    case Unregister => UnregisterDevice(s, c)
    case Unsubscribe(d) => UnsubscribeDevice(s, c, d)
    case Check(_) => s
    case Beat => HeartBeat(s, c, time)
    case Unknown => s
  }

  /** The result byte of a command, decided by the state it arrives in. */
  function Result<C(==)>(s: State<C>, c: C, m: Message): (r: byte)
    requires Closed(s) && c in s.info
  {
    match Classify(m)
    case Subscribe(d) => if Accepts(s, c, d) then EXEC_SUCCESS else EXEC_FAIL
    case Check(d) => if CheckDeviceAlive(s, d) then EXEC_SUCCESS else EXEC_FAIL
    case _ => EXEC_SUCCESS
  }

  /** callbackFunc: the command byte with the callback bit set, then the result. */
  function CallBack(m: Message, result: byte): Message
    requires m != [] && m[0] < CALL_BACK_MASK
  {
    [m[0] + CALL_BACK_MASK, result]
  }

  lemma KnownCommand(m: Message)
    requires !Classify(m).Unknown?
    ensures m != [] && 1 <= m[0] <= 7
  {
  }

  function OnMessage<C(==)>(s: State<C>, c: C, m: Message, time: int): (r: State<C>)
    requires Closed(s) && c in s.info
    ensures Closed(r) && r.info.Keys == s.info.Keys
    ensures r.idleSeconds == s.idleSeconds
  {
    if Classify(m).Unknown? then s
    else
      KnownCommand(m);
      Send(Effect(s, c, m, time), c, CallBack(m, Result(s, c, m)))
  }

  // ----- onConnection -----

  function ConnectionUp<C(==)>(s: State<C>, c: C, now: int): (r: State<C>)
    requires Closed(s) && c !in s.info
    ensures Closed(r) && r.info.Keys == s.info.Keys + {c}
    ensures r.idleSeconds == s.idleSeconds
  {
    s.(connectionList := s.connectionList + [Slot(s.nextHandle, c)],
       nextHandle := s.nextHandle + 1,
       info := s.info[c := ConnInfo(DELETE, now, s.nextHandle, [], [])],
       phase := s.phase[c := Connected],
       sent := s.sent[c := []])
  }

  function ConnectionDown<C(==)>(s: State<C>, c: C): (r: State<C>)
    requires Closed(s) && c in s.info
    ensures Closed(r) && r.info.Keys == s.info.Keys
    ensures r.idleSeconds == s.idleSeconds
  {
    UnregisterDevice(
      s.(phase := s.phase[c := Down],
         connectionList := EraseAt(s.connectionList, s.info[c].position)), c)
  }

  // ----- onTimer -----

  function Age<C(==)>(s: State<C>, c: C, now: int): int
    requires c in s.info
  {
    now - s.info[c].lastReceiveTime
  }

  predicate Expired<C(==)>(s: State<C>, c: C, now: int)
    requires c in s.info
  {
    Age(s, c, now) > s.idleSeconds * MICROSECONDS
  }

  /** The timer's loop breaks at the first node that is neither too old nor in the future. */
  predicate Breaks<C(==)>(s: State<C>, i: nat, now: int)
    requires Closed(s) && i < |s.connectionList|
  {
    var c := s.connectionList[i].conn;
    !Expired(s, c, now) && Age(s, c, now) >= 0
  }

  /** One iteration at node `i` that does not break. */
  function SweepStep<C(==)>(s: State<C>, i: nat, now: int): (r: State<C>)
    requires Closed(s) && i < |s.connectionList|
    ensures Closed(r) && r.info.Keys == s.info.Keys
    ensures r == s.(info := r.info, phase := r.phase)
  {
    var c := s.connectionList[i].conn;
    if Expired(s, c, now) then Shutdown(s, c)
    else SetInfo(s, c, s.info[c].(lastReceiveTime := now))
  }

  /** The loop of onTimer from node `i` on. */
  function Sweep<C(==)>(s: State<C>, i: nat, now: int): (r: State<C>)
    requires Closed(s)
    ensures Closed(r) && r.info.Keys == s.info.Keys
    ensures r == s.(info := r.info, phase := r.phase)
    decreases |s.connectionList| - i
  {
    if i >= |s.connectionList| || Breaks(s, i, now) then s
    else Sweep(SweepStep(s, i, now), i + 1, now)
  }

  // ----- Runs -----

  /** `Refused` is the codec's shutdown on a length it will not accept. */
  datatype Event<C> =
    | Up(conn: C, time: int)
    | Gone(conn: C)
    | Arrive(conn: C, message: Message, time: int)
    | Refused(conn: C)
    | Tick(time: int)

  /** The connection lifecycle: UP once, then messages, then DOWN once. */
  ghost predicate Enabled<C>(s: State<C>, e: Event<C>) {
    match e
    case Up(c, _) => c !in s.info
    case Gone(c) => Alive(s, c)
    case Arrive(c, _, _) => Alive(s, c)
    case Refused(c) => Alive(s, c)
    case Tick(_) => true
  }

  ghost function Step<C>(s: State<C>, e: Event<C>): (r: State<C>)
    requires Closed(s) && Enabled(s, e)
    ensures Closed(r) && s.info.Keys <= r.info.Keys
    ensures r.idleSeconds == s.idleSeconds
  {
    match e
    case Up(c, t) => ConnectionUp(s, c, t)
    case Gone(c) => ConnectionDown(s, c)
    case Arrive(c, m, t) => OnMessage(s, c, m, t)
    case Refused(c) => Shutdown(s, c)
    case Tick(t) => Sweep(s, 0, t)
  }

  ghost predicate CanRun<C>(s: State<C>, es: seq<Event<C>>)
    requires Closed(s)
    decreases |es|
  {
    es == [] || (Enabled(s, es[0]) && CanRun(Step(s, es[0]), es[1..]))
  }

  ghost function Run<C>(s: State<C>, es: seq<Event<C>>): (r: State<C>)
    requires Closed(s) && CanRun(s, es)
    ensures Closed(r) && s.info.Keys <= r.info.Keys
    decreases |es|
  {
    if es == [] then s else Run(Step(s, es[0]), es[1..])
  }
}
