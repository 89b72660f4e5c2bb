/**
  The C client's receive path (API/C/netWork.c, API/C/stupidP2P.c): bytes go into the ring,
  `parse_recv_net_command` takes complete frames out of it and either queues a payload in the
  inbox or sets a status flag.  And its send path: the length guard and the length header.
 */
module CClient {
  import opened Wire
  import opened Framing
  import opened Protocol
  import opened ClientSpec
  import opened Ring
  import opened Inbox

  const RECV_SIZE: nat := 4096   // the buffer `recv` fills
  const MAX_COMMAND: nat := 2048 // the parser's command array
  const SEND_BUFFER: nat := 2048 // the buffer of the send thread

  datatype Status = Status(
    registerFlag: byte, subscribeFlag: byte, sendDataFlag: byte, unregisterFlag: byte,
    unsubscribeFlag: byte, checkAliveFlag: byte, heartBeatFlag: byte)
  {
    /** The flag of a kind of command. */
    function Flag(command: byte): byte
      requires IsCommand(command)
    {
      match command
      case 1 => registerFlag
      case 2 => subscribeFlag
      case 3 => sendDataFlag
      case 4 => unregisterFlag
      case 5 => unsubscribeFlag
      case 6 => checkAliveFlag
      case _ => heartBeatFlag
    }

    function With(command: byte, flag: byte): (s: Status)
      requires IsCommand(command)
      ensures forall c: byte :: IsCommand(c) ==> s.Flag(c) == if c == command then flag else Flag(c)
    {
      match command
      case 1 => this.(registerFlag := flag)
      case 2 => this.(subscribeFlag := flag)
      case 3 => this.(sendDataFlag := flag)
      case 4 => this.(unregisterFlag := flag)
      case 5 => this.(unsubscribeFlag := flag)
      case 6 => this.(checkAliveFlag := flag)
      case _ => this.(heartBeatFlag := flag)
    }
  }

  /** What the application can see of the client. */
  datatype View = View(inbox: seq<Bytes>, status: Status)

  function Outcome(b: byte): byte {
    if b == EXEC_SUCCESS then EXEC_SUCCESS else EXEC_FAIL
  }

  /** The switch on the first byte of a frame. */
  function Dispatch(v: View, m: Message): View
    requires Formed(m)
  {
    if m[0] == SEND_DATA then v.(inbox := v.inbox + [m[1..]])
    else if IsReply(m[0]) then v.(status := v.status.With(m[0] - CALL_BACK_MASK, Outcome(m[1])))
    else v
  }

  ghost function DispatchAll(v: View, ms: seq<Message>): View
    requires AllFormed(ms)
  {
    if ms == [] then v else Dispatch(DispatchAll(v, ms[..|ms| - 1]), ms[|ms| - 1])
  }

  /** Queueing a command resets its flag. */
  ghost function Apply(v: View, h: Happening): View
    requires Proper(h)
  {
    match h
    case Asked(command) => v.(status := v.status.With(command, NOT_RECEIVED))
    case Came(message) => Dispatch(v, message)
  }

  ghost function ApplyAll(v: View, hs: seq<Happening>): View
    requires AllProper(hs)
  {
    if hs == [] then v else Apply(ApplyAll(v, hs[..|hs| - 1]), hs[|hs| - 1])
  }

  /** What the client is for, over any history of commands and frames: the inbox gains the
      payloads of the data frames in order, and each flag shows what the last callback of its kind
      said, or that none has come since the last command of its kind. */
  lemma {:induction false} ApplyMeaning(v: View, hs: seq<Happening>, command: byte)
    requires AllProper(hs) && IsCommand(command)
    ensures ApplyAll(v, hs).inbox == v.inbox + Payloads(Frames(hs))
    ensures ApplyAll(v, hs).status.Flag(command) ==
      match Stands(hs, command)
      case Untouched => v.status.Flag(command)
      case Waiting => 0xff
      case Answer(result) => if result == 0x01 then 0x01 else 0x00
    decreases |hs|
  {
    if hs != [] {
      var n := |hs| - 1;
      var last: seq<Happening> := [hs[n]];
      ApplyMeaning(v, hs[..n], command);
      ApplyOne(ApplyAll(v, hs[..n]), hs[n], command);
      hide Apply, Status.Flag;
      assert hs == hs[..n] + last && last[1..] == [];
      FramesConcat(hs[..n], last);
      PayloadsConcat(Frames(hs[..n]), Frames(last));
    }
  }

  lemma ApplyOne(v: View, h: Happening, command: byte)
    requires Proper(h) && IsCommand(command)
    ensures Apply(v, h).inbox == v.inbox + Payloads(Frames([h]))
    ensures Apply(v, h).status.Flag(command) ==
      if !Concerns(h, command) then v.status.Flag(command)
      else if h.Asked? then 0xff
      else if h.message[1] == 0x01 then 0x01 else 0x00
  {
    var one: seq<Happening> := [h];
    assert one[1..] == [];
    if h.Came? {
      var frames: seq<Message> := [h.message];
      assert Frames(one) == frames && frames[1..] == [];
      assert Payloads(frames) == if IsData(h.message) then [h.message[1..]] else [];
    }
  }

  /** A callback that comes now is what its flag shows: 0x01 for success, 0x00 for anything else;
      no other flag changes, and nothing goes into the inbox. */
  lemma FlagAfterCallBack(v: View, hs: seq<Happening>, command: byte, answer: Message, other: byte)
    requires AllProper(hs) && 1 <= command <= 7 && 1 <= other <= 7 && |answer| >= 2 && answer[0] == 0x80 + command
    ensures AllProper(hs + [Came(answer)])
    ensures var w, u := ApplyAll(v, hs), ApplyAll(v, hs + [Came(answer)]);
            && u.inbox == w.inbox && u.status.Flag(command) == (if answer[1] == 0x01 then 0x01 else 0x00)
            && (other != command ==> u.status.Flag(other) == w.status.Flag(other))
  {
    hide Apply, Status.Flag;
    assert (hs + [Came(answer)])[..|hs|] == hs;
    ApplyOne(ApplyAll(v, hs), Came(answer), command);
    ApplyOne(ApplyAll(v, hs), Came(answer), other);
    OneHappening(Came(answer), command);
    assert Frames([Came(answer)]) == [answer] by { FramesArrived([answer]); assert Arrived([answer]) == [Came(answer)]; }
    NoPayload(answer);
  }

  lemma NoPayload(m: Message)
    requires m != [] && m[0] >= 0x80
    ensures Payloads([m]) == []
  {
    var one: seq<Message> := [m];
    assert one[1..] == [];
  }

  /** A message the client can have queued. */
  predicate Composed(m: Message) {
    1 <= |m| <= MAX_SEND_LENGTH + 1 && IsCommand(m[0])
  }

  ghost predicate AllComposed(ms: seq<Message>) {
    forall i :: 0 <= i < |ms| ==> Composed(ms[i])
  }

  lemma ComposedIsSmall(ms: seq<Message>)
    requires AllComposed(ms)
    ensures AllSmall(ms)
  {
  }

  lemma {:induction false} ScriptIsComposed(acts: seq<Act>)
    ensures AllComposed(Script(CApi, acts)) && AllSmall(Script(CApi, acts))
  {
    if acts != [] {
      ScriptIsComposed(acts[1..]);
    }
    ComposedIsSmall(Script(CApi, acts));
  }

  /** The frames of the commands a client accepts over some acts. */
  ghost function Outgoing(acts: seq<Act>): Bytes {
    ScriptIsComposed(acts);
    EncodeAll(Script(CApi, acts))
  }

  /** What a client that had nothing queued and nothing written has written since. */
  lemma WroteOutgoing(acts: seq<Act>, socket: Bytes, queue: seq<Message>)
    requires AllSmall(queue) && AllSmall([] + Script(CApi, acts))
    requires socket + EncodeAll(queue) == [] + EncodeAll([] + Script(CApi, acts))
    ensures socket <= Outgoing(acts)
  {
    hide EncodeAll, Script;
    assert [] + Script(CApi, acts) == Script(CApi, acts);
    assert [] + Outgoing(acts) == Outgoing(acts);
  }

  class Client {
    const fifo: RecvFifo
    const list: RecvDataList
    var status: Status
    var sendFifo: seq<Message>
    var socket: Bytes // what was written to it

    ghost predicate Valid()
      reads this, fifo, list, list.nodes
    {
      fifo.Valid() && list.Valid() && AllComposed(sendFifo)
    }

    ghost function Visible(): View
      reads this, fifo, list, list.nodes
      requires Valid()
    {
      View(list.Contents(), status)
    }

    constructor ()
      ensures Valid() && fresh(fifo) && fresh(fifo.data) && fresh(list) && fresh(list.nodes)
      ensures fifo.Contents() == [] && Visible() == View([], Status(0, 0, 0, 0, 0, 0, 0))
      ensures sendFifo == [] && socket == []
    {
      fifo := new RecvFifo();
      list := new RecvDataList();
      status := Status(0, 0, 0, 0, 0, 0, 0);
      sendFifo, socket := [], [];
    }

    /** Move one frame's body from the ring into the command array, byte by byte. */
    method ReadCommand(command: array<byte>, n: nat)
      requires fifo.Valid() && n <= |fifo.Contents()| && n <= command.Length && command != fifo.data
      modifies command, fifo
      ensures fifo.Valid() && fifo.Contents() == old(fifo.Contents())[n..]
      ensures command[..n] == old(fifo.Contents())[..n]
    {
      ghost var was := fifo.Contents();
      for i := 0 to n
        invariant fifo.Valid() && fifo.Contents() == was[i..]
        invariant command[..i] == was[..i]
      {
        command[i] := fifo.Top();
        fifo.Pop(1);
        assert was[i..][1..] == was[i + 1..];
        assert command[..i + 1] == command[..i] + [command[i]];
      }
    }

    method Handle(command: array<byte>, n: nat)
      requires Valid() && n <= command.Length && Formed(command[..n])
      modifies this`status, list, list.nodes
      ensures Valid() && Visible() == Dispatch(old(Visible()), command[..n])
      // the same on the bytes
      ensures command[0] == 0x03 ==> list.Contents() == old(list.Contents()) + [command[1..n]] && status == old(status)
      ensures command[0] != 0x03 ==> list.Contents() == old(list.Contents())
      ensures 0x81 <= command[0] <= 0x87 ==>
        var flag: byte := if command[1] == 0x01 then 0x01 else 0x00;
        && (command[0] == 0x81 ==> status == old(status).(registerFlag := flag))
        && (command[0] == 0x82 ==> status == old(status).(subscribeFlag := flag))
        && (command[0] == 0x83 ==> status == old(status).(sendDataFlag := flag))
        && (command[0] == 0x84 ==> status == old(status).(unregisterFlag := flag))
        && (command[0] == 0x85 ==> status == old(status).(unsubscribeFlag := flag))
        && (command[0] == 0x86 ==> status == old(status).(checkAliveFlag := flag))
        && (command[0] == 0x87 ==> status == old(status).(heartBeatFlag := flag))
      ensures !(0x81 <= command[0] <= 0x87) ==> status == old(status)
      ensures command[..] == old(command[..])
      ensures fresh(list.nodes - old(list.nodes))
    {
      if command[0] == SEND_DATA {
        var node := new Node(command[1..n]);
        list.Add(node);
      } else if command[0] == CALL_BACK_MASK + REGISTER_DEVICE {
        status := status.(registerFlag := Outcome(command[1]));
      } else if command[0] == CALL_BACK_MASK + SUBSCRIBE_DEVICE {
        status := status.(subscribeFlag := Outcome(command[1]));
      } else if command[0] == CALL_BACK_MASK + SEND_DATA {
        status := status.(sendDataFlag := Outcome(command[1]));
      } else if command[0] == CALL_BACK_MASK + UNREGISTER_DEVICE {
        status := status.(unregisterFlag := Outcome(command[1]));
      } else if command[0] == CALL_BACK_MASK + UNSUBSCRIBE_DEVICE {
        status := status.(unsubscribeFlag := Outcome(command[1]));
      } else if command[0] == CALL_BACK_MASK + CHECK_DEVICE_ALIVE {
        status := status.(checkAliveFlag := Outcome(command[1]));
      } else if command[0] == CALL_BACK_MASK + HEART_BEAT {
        status := status.(heartBeatFlag := Outcome(command[1]));
      }
    }

    /** Take the complete frame at the front of the ring and act on it. */
    method TakeFrame(command: array<byte>, n: nat)
      requires Valid() && Ready(fifo.Contents()) && n == NetworkToHost32(fifo.Contents()) <= MAX_COMMAND
      requires Formed(Body(fifo.Contents()))
      requires command.Length == MAX_COMMAND && command != fifo.data
      modifies this`status, fifo, list, list.nodes, command
      ensures Valid() && fresh(list.nodes - old(list.nodes))
      ensures fifo.Contents() == Tail(old(fifo.Contents()))
      ensures Visible() == Dispatch(old(Visible()), Body(old(fifo.Contents())))
    {
      hide RecvFifo.Valid, RecvDataList.Valid, RecvFifo.Contents, RecvDataList.Contents, Dispatch, NetworkToHost32;
      ghost var b := fifo.Contents();
      fifo.Pop(HEADER);
      ReadCommand(command, n);
      assert b[HEADER..][..n] == Body(b) && b[HEADER..][n..] == Tail(b);
      Handle(command, n);
    }

    /** The stream decoder: on any sane ring contents, wrapped anywhere, it consumes exactly the
        frames `Decode` finds, leaves exactly what `Decode` leaves, and dispatches in order. */
    method Parse()
      requires Valid() && Sane(fifo.Contents(), MAX_COMMAND)
      modifies this`status, fifo, list, list.nodes
      ensures Valid()
      ensures var d := Decode(old(fifo.Contents()));
              && AllFormed(d.msgs)
              && fifo.Contents() == d.rest
              && Visible() == DispatchAll(old(Visible()), d.msgs)
      ensures fresh(list.nodes - old(list.nodes))
    {
      hide Outcome, RecvFifo.Valid, RecvDataList.Valid, RecvFifo.Contents, RecvDataList.Contents, Dispatch;
      hide Sane, Ready, Decode, AllFormed, AllComposed, DispatchAll, NetworkToHost32, Unsigned32;
      EmptyStart(Visible());
      var command := new byte[MAX_COMMAND](_ => 0);
      ghost var start, done: seq<Message> := fifo.Contents(), [];
      SaneDecodes(start, MAX_COMMAND);
      NothingDone(start);
      while fifo.length >= HEADER
        invariant Valid() && Sane(fifo.Contents(), MAX_COMMAND) && AllFormed(done)
        invariant Decode(start) == Decoded(done + Decode(fifo.Contents()).msgs, Decode(fifo.Contents()).rest)
        invariant Visible() == DispatchAll(old(Visible()), done)
        invariant fresh(list.nodes - old(list.nodes))
        decreases fifo.length
      {
        ghost var b := fifo.Contents();
        SmallHeader(b, MAX_COMMAND);
        var n := fifo.TopInt();
        if fifo.length >= n + HEADER {
          OneMore(start, done, b, MAX_COMMAND);
          DispatchSnoc(old(Visible()), done, Body(b));
          TakeFrame(command, n);
          done := done + [Body(b)];
        } else {
          break;
        }
      }
      TooShort(fifo.Contents());
      NothingLeft(start, done, fifo.Contents());
    }

    /** One round of the receive thread.  `dropped` is the "fifo is full" branch. */
    method Receive(chunk: Bytes) returns (dropped: bool)
      requires Valid() && |chunk| <= RECV_SIZE && Sane(fifo.Contents() + chunk, MAX_COMMAND)
      modifies this`status, fifo, fifo.data, list, list.nodes
      ensures Valid()
      ensures dropped <==> |chunk| + |old(fifo.Contents())| > 8192
      ensures var d := Decode(if dropped then old(fifo.Contents()) else old(fifo.Contents()) + chunk);
              && AllFormed(d.msgs)
              && fifo.Contents() == d.rest
              && Visible() == DispatchAll(old(Visible()), d.msgs)
      ensures fresh(list.nodes - old(list.nodes))
    {
      SaneSplit(fifo.Contents(), chunk, MAX_COMMAND);
      dropped := |chunk| + fifo.length > NET_READ_DATA_LENGTH;
      if !dropped {
        fifo.Push(chunk);
      }
      Parse();
    }

    /** need_to_send, up to the wait: the flag of the command is reset and the command queued. */
    method NeedToSend(command: byte, data: Bytes) returns (r: SendResult)
      requires Valid()
      modifies this`status, this`sendFifo
      ensures Valid() && r == Compose(command, data)
      ensures sendFifo == old(sendFifo) + if r.Queued? then [r.message] else []
      ensures Visible() == if r.Queued? then Apply(old(Visible()), Asked(command)) else old(Visible())
      // the same on the bytes
      ensures 1 <= command <= 7 && |data| <= 256 ==>
        r.Queued? && sendFifo == old(sendFifo) + [[command] + data] && status.Flag(command) == 0xff
      ensures !(1 <= command <= 7 && |data| <= 256) ==> r.BadParam? && sendFifo == old(sendFifo) && status == old(status)
    {
      r := Compose(command, data);
      if r.Queued? {
        status := status.With(command, NOT_RECEIVED);
        sendFifo := sendFifo + [r.message];
      }
    }

    /** The send thread, until its queue is empty: every command leaves as one whole frame. */
    method SendAll()
      requires Valid()
      modifies this`sendFifo, this`socket
      ensures Valid() && sendFifo == [] && AllSmall(old(sendFifo)) && socket == old(socket) + EncodeAll(old(sendFifo))
      ensures Visible() == old(Visible())
    {
      hide RecvFifo.Valid, RecvDataList.Valid, RecvFifo.Contents, RecvDataList.Contents;
      ComposedIsSmall(sendFifo);
      while sendFifo != []
        invariant Valid() && Visible() == old(Visible()) && AllSmall(sendFifo)
        invariant socket + EncodeAll(sendFifo) == old(socket) + EncodeAll(old(sendFifo))
        decreases |sendFifo|
      {
        var bytes := Transmit(sendFifo[0]);
        assert socket + (bytes + EncodeAll(sendFifo[1..])) == (socket + bytes) + EncodeAll(sendFifo[1..]);
        socket := socket + bytes;
        sendFifo := sendFifo[1..];
      }
    }

    /** One act of the threads of a client. */
    method Step(act: Act)
      requires Valid() && (act.Recv? ==> |act.chunk| <= RECV_SIZE && |fifo.Contents()| < HEADER + MAX_COMMAND)
      requires act.Recv? ==> Sane(fifo.Contents() + act.chunk, MAX_COMMAND)
      requires AllProper(Happened(CApi, fifo.Contents(), act)) && AllSmall(sendFifo)
      modifies this, fifo, fifo.data, list, list.nodes
      ensures Valid() && fresh(list.nodes - old(list.nodes))
      ensures fifo.Contents() == After(old(fifo.Contents()), act)
      ensures Visible() == ApplyAll(old(Visible()), Happened(CApi, old(fifo.Contents()), act))
      ensures AllSmall(sendFifo) && AllSmall(old(sendFifo) + Said(CApi, act))
      ensures old(socket) <= socket && socket + EncodeAll(sendFifo) == old(socket) + EncodeAll(old(sendFifo) + Said(CApi, act))
    {
      hide RecvFifo.Valid, RecvDataList.Valid, RecvFifo.Contents, RecvDataList.Contents;
      hide Sane, Decode, Compose, Apply, ApplyAll, DispatchAll, AllFormed, AllProper, AllSmall, AllComposed, EncodeAll, Accepts;
      ghost var v := Visible();
      match act {
        case Ask(command, data) =>
          ComposeAccepts(command, data);
          var r := NeedToSend(command, data);
          ComposedIsSmall(sendFifo);
          ApplyFew(v, command);
        case Recv(chunk) =>
          ghost var b := fifo.Contents() + chunk;
          var dropped := Receive(chunk);
          ApplyArrived(v, Decode(b).msgs);
        case Flush =>
          SendAll();
          ApplyFew(v, HEART_BEAT);
          NothingQueued();
          assert socket + [] == socket;
      }
      assert old(sendFifo) + [] == old(sendFifo);
    }

    /** A client over a whole connection, its three threads interleaved in any way and whatever
        the reads return: nothing received is ever dropped; the application sees exactly what
        the commands accepted and the frames of the stream amount to; and what has gone to the
        socket is a prefix of the frames of the commands accepted, only those still queued
        missing. */
    method Live(acts: seq<Act>)
      requires Valid() && !Ready(fifo.Contents())
      requires forall i :: 0 <= i < |acts| && acts[i].Recv? ==> |acts[i].chunk| <= RECV_SIZE
      requires Sane(fifo.Contents() + Incoming(acts), MAX_COMMAND)
      modifies this, fifo, fifo.data, list, list.nodes
      ensures Valid()
      ensures fifo.Contents() == Decode(old(fifo.Contents()) + Incoming(acts)).rest
      ensures var hs := Happenings(CApi, old(fifo.Contents()), acts);
              AllProper(hs) && Visible() == ApplyAll(old(Visible()), hs)
      ensures AllSmall(sendFifo) && AllSmall(old(sendFifo) + Script(CApi, acts))
      ensures old(socket) <= socket && socket + EncodeAll(sendFifo) == old(socket) + EncodeAll(old(sendFifo) + Script(CApi, acts))
    {
      hide RecvFifo.Valid, RecvDataList.Valid, RecvFifo.Contents, RecvDataList.Contents;
      hide Sane, Ready, Decode, ApplyAll, AllProper, AllSmall, AllComposed, EncodeAll;
      hide Incoming, Script, Happenings, Happened, After, Said;
      ghost var done: seq<Happening> := [];
      ghost var said: seq<Message> := [];
      ghost var start := fifo.Contents();
      assert acts[0..] == acts;
      assert sendFifo + [] == sendFifo;
      ComposedIsSmall(sendFifo);
      ApplyFew(old(Visible()), HEART_BEAT);
      for i := 0 to |acts|
        invariant Valid() && !Ready(fifo.Contents()) && Sane(fifo.Contents() + Incoming(acts[i..]), MAX_COMMAND)
        invariant AllProper(done) && Visible() == ApplyAll(old(Visible()), done)
        invariant Decode(fifo.Contents() + Incoming(acts[i..])).rest == Decode(start + Incoming(acts)).rest
        invariant Happenings(CApi, start, acts) == done + Happenings(CApi, fifo.Contents(), acts[i..])
        invariant Script(CApi, acts) == said + Script(CApi, acts[i..])
        invariant AllSmall(sendFifo) && AllSmall(old(sendFifo) + said) && old(socket) <= socket
        invariant socket + EncodeAll(sendFifo) == old(socket) + EncodeAll(old(sendFifo) + said)
        invariant fresh(list.nodes - old(list.nodes))
      {
        ghost var b := fifo.Contents();
        ghost var hs, q := Happened(CApi, b, acts[i]), Said(CApi, acts[i]);
        ActStep(CApi, b, acts, i, MAX_COMMAND);
        ApplyConcat(old(Visible()), done, hs);
        SaidMore(old(socket), old(sendFifo), said, socket, sendFifo, q);
        Step(acts[i]);
        ghost var laterHs, laterQ := Happenings(CApi, fifo.Contents(), acts[i + 1..]), Script(CApi, acts[i + 1..]);
        assert (done + hs) + laterHs == done + (hs + laterHs) && (said + q) + laterQ == said + (q + laterQ);
        done, said := done + hs, said + q;
      }
      NothingMore(fifo.Contents(), acts);
      assert done + [] == done && said + [] == said;
    }
  }

  lemma EmptyStart(v: View)
    ensures AllFormed([]) && DispatchAll(v, []) == v
  {
  }

  lemma DispatchSnoc(v: View, ms: seq<Message>, m: Message)
    requires AllFormed(ms) && Formed(m)
    ensures AllFormed(ms + [m]) && DispatchAll(v, ms + [m]) == Dispatch(DispatchAll(v, ms), m)
  {
    hide Dispatch;
    assert (ms + [m])[..|ms|] == ms;
  }

  lemma {:induction false} ApplyArrived(v: View, ms: seq<Message>)
    requires AllFormed(ms)
    ensures AllProper(Arrived(ms)) && ApplyAll(v, Arrived(ms)) == DispatchAll(v, ms)
    decreases |ms|
  {
    if ms != [] {
      var n := |ms| - 1;
      ApplyArrived(v, ms[..n]);
      assert Arrived(ms)[..n] == Arrived(ms[..n]);
      hide Dispatch;
    }
  }

  lemma ApplyFew(v: View, command: byte)
    ensures AllProper([]) && ApplyAll(v, []) == v
    ensures IsCommand(command) ==> AllProper([Asked(command)]) && ApplyAll(v, [Asked(command)]) == Apply(v, Asked(command))
  {
    if IsCommand(command) {
      var one: seq<Happening> := [Asked(command)];
      assert one[..0] == [];
    }
  }

  lemma {:induction false} ApplyConcat(v: View, hs: seq<Happening>, ks: seq<Happening>)
    requires AllProper(hs) && AllProper(ks)
    ensures AllProper(hs + ks) && ApplyAll(v, hs + ks) == ApplyAll(ApplyAll(v, hs), ks)
    decreases |ks|
  {
    hide Apply;
    if ks == [] {
      assert hs + ks == hs;
    } else {
      var n := |ks| - 1;
      ApplyConcat(v, hs, ks[..n]);
      assert (hs + ks)[..|hs + ks| - 1] == hs + ks[..n];
    }
  }

  lemma NothingMore(b: Bytes, acts: seq<Act>)
    requires !Ready(b)
    ensures var none := acts[|acts|..];
            && Decode(b + Incoming(none)).rest == b && Happenings(CApi, b, none) == [] && Script(CApi, none) == []
  {
    assert acts[|acts|..] == [] && b + [] == b;
  }

  lemma NothingQueued()
    ensures AllSmall([]) && EncodeAll([]) == []
  {
  }

  /** What is said later goes behind what has been said. */
  lemma SaidMore(s0: Bytes, q0: seq<Message>, said: seq<Message>, s: Bytes, q: seq<Message>, more: seq<Message>)
    requires AllSmall(q) && AllSmall(q0 + said) && s + EncodeAll(q) == s0 + EncodeAll(q0 + said)
    ensures AllSmall(q + more) ==> AllSmall(q0 + (said + more)) && s + EncodeAll(q + more) == s0 + EncodeAll(q0 + (said + more))
  {
    hide EncodeAll;
    if AllSmall(q + more) {
      assert more == (q + more)[|q|..];
      assert AllSmall(more);
      EncodeAllConcat(q, more);
      EncodeAllConcat(q0 + said, more);
      assert q0 + (said + more) == (q0 + said) + more;
      assert s + (EncodeAll(q) + EncodeAll(more)) == (s + EncodeAll(q)) + EncodeAll(more);
      assert s0 + (EncodeAll(q0 + said) + EncodeAll(more)) == (s0 + EncodeAll(q0 + said)) + EncodeAll(more);
    }
  }

  // ----- The send path -----

  datatype SendResult = Queued(message: Message) | BadParam

  /** need_to_send: the length guard, then the command byte in front of the data. */
  function Compose(command: byte, data: Bytes): (r: SendResult)
    ensures r.Queued? <==> 1 <= command <= 7 && |data| <= 256
    ensures r.Queued? ==> Composed(r.message) && Formed(r.message)
  {
    if |data| > MAX_SEND_LENGTH then BadParam
    else if IsCommand(command) then Queued([command] + data)
    else BadParam
  }

  lemma ComposeAccepts(command: byte, data: Bytes)
    ensures Compose(command, data) ==
      if Accepts(CApi, command, data) then Queued([command] + data) else BadParam
  {
  }

  /** The four length bytes, the most significant first. */
  method PutLength(dst: array<byte>, n: nat)
    requires HEADER <= dst.Length && n < TWO_TO_THE_31
    modifies dst
    ensures dst[..HEADER] == HostToNetwork32(n) && dst[HEADER..] == old(dst[HEADER..])
  {
    ghost var h := HostToNetwork32(n);
    var shift := 0x100_0000;
    for i := 0 to HEADER
      invariant shift == [0x100_0000, 0x1_0000, 0x100, 1, 0][i]
      invariant dst[..i] == h[..i]
      invariant dst[HEADER..] == old(dst[HEADER..])
    {
      dst[i] := n / shift % 0x100;
      shift := shift / 0x100;
      assert dst[i] == h[i];
      assert dst[..i + 1] == dst[..i] + [dst[i]];
    }
  }

  /** prepend_length_to_buf_s: the length, clipped to what fits, and that much of the source. */
  method PrependLength(dst: array<byte>, src: Bytes)
    requires HEADER <= dst.Length && |src| < TWO_TO_THE_31 && dst.Length < TWO_TO_THE_31
    modifies dst
    ensures var n := if |src| > dst.Length - HEADER then dst.Length - HEADER else |src|;
            dst[..n + HEADER] == Encode(src[..n]) && dst[n + HEADER..] == old(dst[n + HEADER..])
  {
    var n := if |src| > dst.Length - HEADER then dst.Length - HEADER else |src|;
    ghost var h := HostToNetwork32(n);
    PutLength(dst, n);
    assert dst[n + HEADER..] == dst[HEADER..][n..];
    for i := 0 to n
      invariant dst[..HEADER] == h
      invariant dst[HEADER..HEADER + i] == src[..i]
      invariant dst[n + HEADER..] == old(dst[n + HEADER..])
    {
      dst[HEADER + i] := src[i];
      assert dst[HEADER..HEADER + i + 1] == dst[HEADER..HEADER + i] + [src[i]];
    }
    assert dst[..n + HEADER] == dst[..HEADER] + dst[HEADER..HEADER + n];
  }

  /** The send thread's step: a queued command leaves as one whole frame, never clipped. */
  method Transmit(message: Message) returns (bytes: Bytes)
    requires Composed(message)
    ensures bytes == Encode(message)
  {
    var buf := new byte[SEND_BUFFER](_ => 0);
    PrependLength(buf, message);
    assert message[..|message|] == message;
    bytes := buf[..|message| + HEADER];
  }
}
