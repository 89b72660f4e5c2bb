/**
  The Python client (API/Python/stupidP2P.py): the stream is kept in a deque with its oldest
  byte at the right end, and the header of an incomplete frame, popped to read the length, is
  put back in little-endian order.  Sending a command resets its response.
 */
module PyClient {
  import opened Wire
  import opened Framing
  import opened Protocol
  import opened ClientSpec

  const RESPONSES: nat := 8     // __backIndexMax
  const QUEUE_SIZE: nat := 4096 // maxsize of recvDataQueue

  function Reversed(l: Bytes): (r: Bytes)
    ensures |r| == |l|
  {
    if l == [] then [] else Reversed(l[1..]) + [l[0]]
  }

  lemma {:induction false} ReversedConcat(a: Bytes, b: Bytes)
    ensures Reversed(a + b) == Reversed(b) + Reversed(a)
  {
    if a == [] {
      assert a + b == b;
    } else {
      assert (a + b)[1..] == a[1..] + b;
      ReversedConcat(a[1..], b);
    }
  }

  lemma {:induction false} ReversedTwice(a: Bytes)
    ensures Reversed(Reversed(a)) == a
  {
    if a != [] {
      ReversedTwice(a[1..]);
      ReversedConcat(Reversed(a[1..]), [a[0]]);
      assert Reversed([a[0]]) == [a[0]];
    }
  }

  /** `to_bytes(4, 'little')`. */
  function LittleEndian32(n: int): Bytes
    requires 0 <= n < TWO_TO_THE_32
  {
    [n % 0x100, n / 0x100 % 0x100, n / 0x1_0000 % 0x100, n / 0x100_0000]
  }

  /** Pushing the little-endian length on the right end puts the popped header back. */
  lemma PushBackRestores(h: Bytes)
    requires |h| == 4
    ensures Reversed(LittleEndian32(Unsigned32(h))) == h
  {
    EndianInverse(0, h);
    var l := LittleEndian32(Unsigned32(h));
    assert l == [h[3], h[2], h[1], h[0]];
    assert l == [h[3]] + ([h[2]] + ([h[1]] + [h[0]]));
    ReversedConcat([h[3]], [h[2]] + ([h[1]] + [h[0]]));
    ReversedConcat([h[2]], [h[1]] + [h[0]]);
    ReversedConcat([h[1]], [h[0]]);
    assert forall x: byte :: Reversed([x]) == [x];
    assert h == (([h[0]] + [h[1]]) + [h[2]]) + [h[3]];
  }

  // ----- What one message does -----

  datatype View = View(responses: Bytes, queue: seq<Bytes>)

  function Offer(q: seq<Bytes>, data: Bytes): seq<Bytes> {
    if |q| < QUEUE_SIZE then q + [data] else q
  }

  function Dispatch(v: View, m: Message): (w: View)
    requires Formed(m) && |v.responses| == RESPONSES
    ensures |w.responses| == RESPONSES
  {
    if IsReply(m[0]) then v.(responses := v.responses[m[0] - CALL_BACK_MASK := m[1]])
    else if m[0] == SEND_DATA then v.(queue := Offer(v.queue, m[1..]))
    else v
  }

  ghost function DispatchAll(v: View, ms: seq<Message>): (w: View)
    requires AllFormed(ms) && |v.responses| == RESPONSES
    ensures |w.responses| == RESPONSES
  {
    if ms == [] then v else Dispatch(DispatchAll(v, ms[..|ms| - 1]), ms[|ms| - 1])
  }

  /** Sending a command resets its response. */
  ghost function Apply(v: View, h: Happening): (w: View)
    requires Proper(h) && |v.responses| == RESPONSES
    ensures |w.responses| == RESPONSES
  {
    match h
    case Asked(command) => v.(responses := v.responses[command := NOT_RECEIVED])
    case Came(message) => Dispatch(v, message)
  }

  ghost function ApplyAll(v: View, hs: seq<Happening>): (w: View)
    requires AllProper(hs) && |v.responses| == RESPONSES
    ensures |w.responses| == RESPONSES
  {
    if hs == [] then v else Apply(ApplyAll(v, hs[..|hs| - 1]), hs[|hs| - 1])
  }

  function Clipped(q: seq<Bytes>): seq<Bytes> {
    if |q| <= QUEUE_SIZE then q else q[..QUEUE_SIZE]
  }

  /** Over any history of commands and frames, the queue gains the payloads in order until it is
      full, and each response shows what the last callback of its kind said, or that none has come
      since the last command of its kind. */
  lemma {:induction false} ApplyMeaning(v: View, hs: seq<Happening>, command: byte)
    requires AllProper(hs) && IsCommand(command) && |v.responses| == RESPONSES && |v.queue| <= QUEUE_SIZE
    ensures var all := v.queue + Payloads(Frames(hs));
            ApplyAll(v, hs).queue == if |all| <= 4096 then all else all[..4096]
    ensures ApplyAll(v, hs).responses[command] ==
      match Stands(hs, command)
      case Untouched => v.responses[command]
      case Waiting => 0xff
      case Answer(result) => result
    decreases |hs|
  {
    if hs == [] {
      assert v.queue + Payloads(Frames(hs)) == v.queue;
    } else {
      var n := |hs| - 1;
      var last: seq<Happening> := [hs[n]];
      ApplyMeaning(v, hs[..n], command);
      ApplyOne(ApplyAll(v, hs[..n]), hs[n], command);
      hide Apply;
      assert hs == hs[..n] + last && last[1..] == [];
      FramesConcat(hs[..n], last);
      PayloadsConcat(Frames(hs[..n]), Frames(last));
      ClippedTwice(v.queue + Payloads(Frames(hs[..n])), Payloads(Frames(last)));
      assert v.queue + Payloads(Frames(hs)) == (v.queue + Payloads(Frames(hs[..n]))) + Payloads(Frames(last));
    }
  }

  lemma ClippedTwice(q: seq<Bytes>, more: seq<Bytes>)
    ensures Clipped(Clipped(q) + more) == Clipped(q + more)
  {
  }

  lemma ApplyOne(v: View, h: Happening, command: byte)
    requires Proper(h) && IsCommand(command) && |v.responses| == RESPONSES && |v.queue| <= QUEUE_SIZE
    ensures Apply(v, h).queue == Clipped(v.queue + Payloads(Frames([h])))
    ensures Apply(v, h).responses[command] ==
      if !Concerns(h, command) then v.responses[command]
      else if h.Asked? then 0xff
      else h.message[1]
  {
    var one: seq<Happening> := [h];
    assert one[1..] == [];
    assert v.queue + [] == v.queue;
    if h.Came? {
      var frames: seq<Message> := [h.message];
      assert Frames(one) == frames && frames[1..] == [];
      assert Payloads(frames) == if IsData(h.message) then [h.message[1..]] else [];
    }
  }

  lemma EmptyStart(v: View)
    requires |v.responses| == RESPONSES
    ensures AllFormed([]) && DispatchAll(v, []) == v && AllProper([]) && ApplyAll(v, []) == v
  {
  }

  lemma DispatchSnoc(v: View, ms: seq<Message>, m: Message)
    requires AllFormed(ms) && Formed(m) && |v.responses| == RESPONSES
    ensures AllFormed(ms + [m]) && DispatchAll(v, ms + [m]) == Dispatch(DispatchAll(v, ms), m)
  {
    hide Dispatch;
    assert (ms + [m])[..|ms|] == ms;
  }

  lemma {:induction false} ApplyArrived(v: View, ms: seq<Message>)
    requires AllFormed(ms) && |v.responses| == RESPONSES
    ensures AllProper(Arrived(ms)) && ApplyAll(v, Arrived(ms)) == DispatchAll(v, ms)
    decreases |ms|
  {
    if ms != [] {
      var n := |ms| - 1;
      ApplyArrived(v, ms[..n]);
      assert Arrived(ms)[..n] == Arrived(ms[..n]);
      hide Dispatch;
    }
  }

  lemma ApplyAsked(v: View, command: byte)
    requires |v.responses| == RESPONSES && IsCommand(command)
    ensures AllProper([Asked(command)]) && ApplyAll(v, [Asked(command)]) == Apply(v, Asked(command))
  {
    var one: seq<Happening> := [Asked(command)];
    assert one[..0] == [];
  }

  lemma {:induction false} ApplyConcat(v: View, hs: seq<Happening>, ks: seq<Happening>)
    requires AllProper(hs) && AllProper(ks) && |v.responses| == RESPONSES
    ensures AllProper(hs + ks) && ApplyAll(v, hs + ks) == ApplyAll(ApplyAll(v, hs), ks)
    decreases |ks|
  {
    hide Apply;
    if ks == [] {
      assert hs + ks == hs;
    } else {
      var n := |ks| - 1;
      ApplyConcat(v, hs, ks[..n]);
      assert (hs + ks)[..|hs + ks| - 1] == hs + ks[..n];
    }
  }

  lemma NothingMore(b: Bytes, acts: seq<Act>)
    requires !Ready(b)
    ensures var none := acts[|acts|..];
            && Decode(b + Incoming(none)).rest == b && Happenings(PyApi, b, none) == [] && Script(PyApi, none) == []
  {
    assert acts[|acts|..] == [] && b + [] == b;
  }

  class Receiver {
    var deque: Bytes // right end last; the oldest byte is the last one
    var commandResponse: Bytes
    var recvDataQueue: seq<Bytes>
    var sent: Bytes // what was written to the socket

    ghost predicate Valid()
      reads this
    {
      |commandResponse| == RESPONSES
    }

    /** The bytes received and not yet consumed, oldest first. */
    ghost function Contents(): (c: Bytes)
      reads this`deque
      ensures |c| == |deque|
    {
      Reversed(deque)
    }

    ghost function Visible(): View
      reads this
    {
      View(commandResponse, recvDataQueue)
    }

    constructor ()
      ensures Valid() && Contents() == []
      ensures Visible() == View([0xff, 0xff, 0xff, 0xff, 0xff, 0xff, 0xff, 0xff], []) && sent == []
    {
      deque := [];
      commandResponse := seq(RESPONSES, _ => NOT_RECEIVED);
      recvDataQueue, sent := [], [];
    }

    /** `extendleft`: each byte in turn goes to the left end. */
    method ExtendLeft(bytes: Bytes)
      modifies this`deque
      ensures Contents() == old(Contents()) + bytes
    {
      for i := 0 to |bytes|
        invariant deque == Reversed(bytes[..i]) + old(deque)
      {
        ReversedConcat(bytes[..i], [bytes[i]]);
        assert bytes[..i + 1] == bytes[..i] + [bytes[i]];
        assert Reversed([bytes[i]]) == [bytes[i]];
        deque := [bytes[i]] + deque;
      }
      assert bytes[..|bytes|] == bytes;
      ReversedConcat(Reversed(bytes), old(deque));
      ReversedTwice(bytes);
    }

    /** `pop`: the right end, which is the oldest byte. */
    method Pop() returns (b: byte)
      requires Contents() != []
      modifies this`deque
      ensures b == old(Contents())[0] && Contents() == old(Contents())[1..]
    {
      var n := |deque| - 1;
      b := deque[n];
      ReversedConcat(deque[..n], [deque[n]]);
      assert deque == deque[..n] + [deque[n]];
      assert Reversed([b]) == [b];
      deque := deque[..n];
    }

    method PopMany(n: nat) returns (bytes: Bytes)
      requires n <= |Contents()|
      modifies this`deque
      ensures bytes == old(Contents())[..n] && Contents() == old(Contents())[n..]
    {
      bytes := [];
      ghost var c := Contents();
      for i := 0 to n
        invariant bytes == c[..i] && Contents() == c[i..]
      {
        var b := Pop();
        bytes := bytes + [b];
      }
    }

    /** Act on a complete frame whose header has been popped. */
    method TakeBody(n: nat)
      requires Valid() && n <= |Contents()| && Formed(Contents()[..n])
      modifies this`deque, this`commandResponse, this`recvDataQueue
      ensures Valid() && Contents() == old(Contents())[n..]
      ensures Visible() == Dispatch(old(Visible()), old(Contents())[..n])
      // the same on the bytes
      ensures var body := old(Contents())[..n];
              && commandResponse == (if 0x81 <= body[0] <= 0x87
                                     then old(commandResponse)[body[0] - 0x80 := body[1]] else old(commandResponse))
              && recvDataQueue == old(recvDataQueue) + if body[0] == 0x03 && |old(recvDataQueue)| < 4096 then [body[1..]] else []
    {
      ghost var c := Contents();
      var command := Pop();
      var popLength := 1;
      if IsReply(command) {
        var result := Pop();
        popLength := popLength + 1;
        commandResponse := commandResponse[command - CALL_BACK_MASK := result];
      } else if command == SEND_DATA {
        var data := PopMany(n - popLength);
        popLength := n;
        assert data == c[..n][1..];
        if |recvDataQueue| < QUEUE_SIZE {
          recvDataQueue := recvDataQueue + [data];
        }
      }
      var _ := PopMany(n - popLength);
    }

    /** The decoder loop: on any sane deque it consumes exactly the frames `Decode` finds and
        leaves exactly the bytes `Decode` leaves, the put-back header included. */
    method Parse()
      requires Valid() && Sane(Contents(), MAX_BODY)
      modifies this`deque, this`commandResponse, this`recvDataQueue
      ensures Valid()
      ensures var d := Decode(old(Contents()));
              && AllFormed(d.msgs)
              && Contents() == d.rest
              && Visible() == DispatchAll(old(Visible()), d.msgs)
    {
      hide Dispatch, Contents;
      hide Sane, Ready, Decode, AllFormed, DispatchAll, NetworkToHost32;
      EmptyStart(Visible());
      ghost var start, done: seq<Message> := Contents(), [];
      SaneDecodes(start, MAX_BODY);
      NothingDone(start);
      while |deque| > HEADER
        invariant Valid() && Sane(Contents(), MAX_BODY) && AllFormed(done)
        invariant Decode(start) == Decoded(done + Decode(Contents()).msgs, Decode(Contents()).rest)
        invariant Visible() == DispatchAll(old(Visible()), done)
        decreases |deque|
      {
        ghost var b := Contents();
        SmallHeader(b, MAX_BODY);
        var header := PopMany(HEADER);
        var n := Unsigned32(header);
        if |deque| >= n {
          OneMore(start, done, b, MAX_BODY);
          DispatchSnoc(old(Visible()), done, Body(b));
          assert b[HEADER..][..n] == Body(b) && b[HEADER..][n..] == Tail(b);
          TakeBody(n);
          done := done + [Body(b)];
        } else {
          PushBack(header, b);
          break;
        }
      }
      ShortIsNotReady(Contents());
      NothingLeft(start, done, Contents());
    }

    /** `extend` with the little-endian length undoes the four pops. */
    method PushBack(header: Bytes, ghost b: Bytes)
      requires |header| == HEADER && b == header + Contents()
      modifies this`deque
      ensures Contents() == b
    {
      var l := LittleEndian32(Unsigned32(header));
      PushBackRestores(header);
      ReversedConcat(deque, l);
      deque := deque + l;
    }

    /** __sendCommand, up to the wait: the response is reset and the frame goes out.  A command
        too long for a four-byte length fails after the reset. */
    method SendCommand(command: byte, data: Bytes) returns (accepted: bool)
      requires Valid()
      modifies this`commandResponse, this`sent
      ensures Valid() && accepted == Accepts(PyApi, command, data)
      ensures Visible() == if accepted then Apply(old(Visible()), Asked(command)) else old(Visible())
      ensures sent == old(sent) + if accepted && |data| + 1 < TWO_TO_THE_32
                                  then HostToNetwork32(|data| + 1) + ([command] + data) else []
      // the same on the bytes
      ensures accepted <==> 1 <= command <= 7 && (command == 3 ==> data != [])
      ensures 1 <= command <= 7 && (command == 3 ==> data != []) && |data| + 1 < TWO_TO_THE_32 ==>
        && sent == old(sent) + HostToNetwork32(|data| + 1) + [command] + data
        && commandResponse == old(commandResponse)[command := 0xff]
      ensures !(1 <= command <= 7 && (command == 3 ==> data != [])) ==>
        sent == old(sent) && commandResponse == old(commandResponse)
      ensures recvDataQueue == old(recvDataQueue)
    {
      accepted := Accepts(PyApi, command, data);
      if accepted {
        commandResponse := commandResponse[command := NOT_RECEIVED];
        var message := [command] + data;
        if |message| < TWO_TO_THE_32 {
          sent := sent + (HostToNetwork32(|message|) + message);
        }
      }
    }

    method Step(act: Act)
      requires Valid() && (act.Recv? ==> Sane(Contents() + act.chunk, MAX_BODY))
      requires AllProper(Happened(PyApi, Contents(), act))
      modifies this
      ensures Valid() && Contents() == After(old(Contents()), act)
      ensures Visible() == ApplyAll(old(Visible()), Happened(PyApi, old(Contents()), act))
      ensures AllSmall(Said(PyApi, act)) ==> sent == old(sent) + EncodeAll(Said(PyApi, act))
    {
      hide Dispatch, Contents, Apply, ApplyAll, Decode, Sane, DispatchAll, Accepts, AllProper, AllFormed;
      ghost var v := Visible();
      assert sent + [] == sent;
      EmptyStart(v);
      match act {
        case Ask(command, data) =>
          var accepted := SendCommand(command, data);
          if accepted {
            AcceptedIsCommand(command, data);
            ApplyAsked(v, command);
            SaidOne([command] + data);
          }
        case Recv(chunk) =>
          ghost var b := Contents() + chunk;
          if chunk != [] {
            ExtendLeft(chunk);
          }
          assert Contents() == b;
          Parse();
          ApplyArrived(v, Decode(b).msgs);
        case Flush =>
      }
    }

    /** The client over a whole connection, for any cutting of a sane stream and any commands
        sent meanwhile. */
    method Live(acts: seq<Act>)
      requires Valid() && !Ready(Contents()) && Sane(Contents() + Incoming(acts), MAX_BODY)
      modifies this
      ensures Valid()
      ensures Contents() == Decode(old(Contents()) + Incoming(acts)).rest
      ensures var hs := Happenings(PyApi, old(Contents()), acts);
              AllProper(hs) && Visible() == ApplyAll(old(Visible()), hs)
      ensures AllSmall(Script(PyApi, acts)) ==> sent == old(sent) + EncodeAll(Script(PyApi, acts))
    {
      hide Contents, Sane, Ready, Decode, ApplyAll, AllProper, Incoming, Script, Happenings, Happened, After, Said;
      ghost var done: seq<Happening> := [];
      ghost var said: seq<Message> := [];
      ghost var start := Contents();
      assert sent + [] == sent;
      assert acts[0..] == acts;
      EmptyStart(old(Visible()));
      for i := 0 to |acts|
        invariant Valid() && !Ready(Contents()) && Sane(Contents() + Incoming(acts[i..]), MAX_BODY)
        invariant AllProper(done) && Visible() == ApplyAll(old(Visible()), done)
        invariant Decode(Contents() + Incoming(acts[i..])).rest == Decode(start + Incoming(acts)).rest
        invariant Happenings(PyApi, start, acts) == done + Happenings(PyApi, Contents(), acts[i..])
        invariant Script(PyApi, acts) == said + Script(PyApi, acts[i..])
        invariant AllSmall(said) ==> sent == old(sent) + EncodeAll(said)
      {
        ghost var b := Contents();
        ghost var hs, more := Happened(PyApi, b, acts[i]), Said(PyApi, acts[i]);
        ActStep(PyApi, b, acts, i, MAX_BODY);
        ApplyConcat(old(Visible()), done, hs);
        Step(acts[i]);
        SaidMore(old(sent), said, more);
        ghost var laterHs, later := Happenings(PyApi, Contents(), acts[i + 1..]), Script(PyApi, acts[i + 1..]);
        assert (done + hs) + laterHs == done + (hs + laterHs) && (said + more) + later == said + (more + later);
        done, said := done + hs, said + more;
      }
      NothingMore(Contents(), acts);
      assert done + [] == done && said + [] == said;
    }
  }

  lemma SaidOne(m: Message)
    ensures AllSmall([m]) ==> Small(m) && EncodeAll([m]) == Encode(m)
  {
    var one: seq<Message> := [m];
    assert one[0] == m && one[1..] == [];
    assert Small(m) ==> Encode(m) + [] == Encode(m);
  }

  lemma SaidMore(s: Bytes, said: seq<Message>, more: seq<Message>)
    ensures AllSmall(said + more) ==>
      AllSmall(said) && AllSmall(more) && (s + EncodeAll(said)) + EncodeAll(more) == s + EncodeAll(said + more)
  {
    hide EncodeAll;
    if AllSmall(said + more) {
      assert said == (said + more)[..|said|] && more == (said + more)[|said|..];
      assert AllSmall(said) && AllSmall(more);
      EncodeAllConcat(said, more);
    }
  }

  lemma AcceptedIsCommand(command: byte, data: Bytes)
    requires Accepts(PyApi, command, data)
    ensures IsCommand(command)
  {
  }

  lemma ShortIsNotReady(b: Bytes)
    requires Sane(b, MAX_BODY) && (|b| > HEADER ==> |b| < HEADER + Unsigned32(b))
    ensures !Ready(b)
  {
    if |b| >= HEADER {
      SmallHeader(b, MAX_BODY);
    }
  }
}
