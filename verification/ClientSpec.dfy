/**
  What a client makes of the commands it sends and the bytes it receives, as functions of the
  decoded messages: the reference for the C client's ring parser and for the Python client's
  deque parser.
 */
module ClientSpec {
  import opened Wire
  import opened Framing
  import opened Protocol

  const NOT_RECEIVED: byte := 0xff  // CALL_BACK_NOT_RECEIVE, __notReceiveResponse
  const MAX_SEND_LENGTH: nat := 256 // the guard of the C client's need_to_send

  predicate IsReply(code: byte) {
    CALL_BACK_MASK < code <= CALL_BACK_MASK + HEART_BEAT
  }

  /** A message with the bytes a client reads of it: a code, and in a callback a result. */
  predicate Formed(m: Message) {
    1 <= |m| && (IsReply(m[0]) ==> 2 <= |m|)
  }

  predicate Good(m: Message, max: int) {
    Formed(m) && |m| <= max
  }

  ghost predicate AllFormed(ms: seq<Message>) {
    forall i :: 0 <= i < |ms| ==> Formed(ms[i])
  }

  ghost predicate AllGood(ms: seq<Message>, max: int) {
    forall i :: 0 <= i < |ms| ==> Good(ms[i], max)
  }

  /** A stream, possibly cut in mid-frame, of such messages of at most `max` bytes. */
  ghost predicate Sane(b: Bytes, max: int)
    decreases |b|
  {
    |b| >= HEADER ==>
      && 1 <= NetworkToHost32(b) <= max
      && (Ready(b) ==> Formed(Body(b)) && Sane(Tail(b), max))
  }

  // ----- Streams -----

  lemma {:induction false} SaneDecodes(b: Bytes, max: int)
    requires Sane(b, max) && 0 <= max <= MAX_BODY
    ensures AllFormed(Decode(b).msgs) && AllGood(Decode(b).msgs, max)
    ensures |Decode(b).rest| < HEADER + max
    decreases |b|
  {
    if Ready(b) {
      SaneDecodes(Tail(b), max);
    }
  }

  /** A sane stream may be cut anywhere, and resumed from what a decoder left over. */
  lemma {:induction false} SaneSplit(a: Bytes, b: Bytes, max: int)
    requires Sane(a + b, max)
    ensures Sane(a, max) && Sane(Decode(a).rest + b, max)
    decreases |a|
  {
    if |a| >= HEADER {
      assert NetworkToHost32(a + b) == NetworkToHost32(a);
      if Ready(a) {
        ReadyExtends(a, b);
        SaneSplit(Tail(a), b, max);
      }
    }
  }

  lemma {:induction false} SaneEncode(ms: seq<Message>, max: int)
    requires AllGood(ms, max) && max <= MAX_BODY
    ensures AllSmall(ms) && Sane(EncodeAll(ms), max)
    decreases |ms|
  {
    if ms != [] {
      SaneEncode(ms[1..], max);
      EncodeReady(ms[0], EncodeAll(ms[1..]));
      var e := Encode(ms[0]) + EncodeAll(ms[1..]);
      assert NetworkToHost32(e) == |Body(e)|;
    }
  }

  // ----- Payloads -----

  function Payloads(ms: seq<Message>): seq<Bytes> {
    if ms == [] then [] else (if IsData(ms[0]) then [ms[0][1..]] else []) + Payloads(ms[1..])
  }

  /** The payloads are those of the data frames, in order: no other frame contributes. */
  lemma {:induction false} PayloadsOfDatas(ms: seq<Message>)
    ensures Payloads(ms) == Payloads(Datas(ms))
  {
    if ms != [] {
      PayloadsOfDatas(ms[1..]);
      var l := if IsData(ms[0]) then [ms[0]] else [];
      PayloadsConcat(l, Datas(ms[1..]));
      assert IsData(ms[0]) ==> l[1..] == [];
    }
  }

  lemma {:induction false} PayloadsConcat(ms: seq<Message>, ns: seq<Message>)
    ensures Payloads(ms + ns) == Payloads(ms) + Payloads(ns)
  {
    if ms == [] {
      assert ms + ns == ns;
    } else {
      assert (ms + ns)[1..] == ms[1..] + ns;
      PayloadsConcat(ms[1..], ns);
    }
  }

  lemma {:induction false} PayloadPerData(ms: seq<Message>)
    ensures |Payloads(ms)| == |Datas(ms)|
  {
    if ms != [] {
      PayloadPerData(ms[1..]);
    }
  }

  // ----- Commands and answers -----

  /** What happens to the state of a client: a command is queued, or a frame is taken out of
      the stream. */
  datatype Happening = Asked(command: byte) | Came(message: Message)

  ghost predicate Proper(h: Happening) {
    match h
    case Asked(command) => IsCommand(command)
    case Came(message) => Formed(message)
  }

  ghost predicate AllProper(hs: seq<Happening>) {
    forall i :: 0 <= i < |hs| ==> Proper(hs[i])
  }

  ghost function Frames(hs: seq<Happening>): seq<Message> {
    if hs == [] then [] else (if hs[0].Came? then [hs[0].message] else []) + Frames(hs[1..])
  }

  ghost function Arrived(ms: seq<Message>): (hs: seq<Happening>)
    ensures |hs| == |ms| && forall i :: 0 <= i < |ms| ==> hs[i] == Came(ms[i])
  {
    seq(|ms|, i requires 0 <= i < |ms| => Came(ms[i]))
  }

  /** How a kind of command stands: nothing has happened to it, no callback of the kind has come
      since its last command, or this is what its last callback said. */
  datatype Verdict = Untouched | Waiting | Answer(result: byte)

  ghost predicate Concerns(h: Happening, command: byte)
    requires Proper(h) && IsCommand(command)
  {
    h == Asked(command) || (h.Came? && h.message[0] == CALL_BACK_MASK + command)
  }

  /** The last happening of a kind decides. */
  ghost function Stands(hs: seq<Happening>, command: byte): Verdict
    requires AllProper(hs) && IsCommand(command)
  {
    if hs == [] then Untouched
    else
      var h := hs[|hs| - 1];
      if !Concerns(h, command) then Stands(hs[..|hs| - 1], command)
      else if h.Asked? then Waiting
      else Answer(h.message[1])
  }

  /** Read off a history: a command of a kind queued after its last callback is waiting, and
      otherwise its last callback is the answer; data frames, whatever they carry, never count. */
  lemma {:induction false} StandsIsLast(hs: seq<Happening>, command: byte, k: nat)
    requires AllProper(hs) && IsCommand(command) && k < |hs| && Concerns(hs[k], command)
    requires forall i :: k < i < |hs| ==> !Concerns(hs[i], command)
    ensures Stands(hs, command) == if hs[k].Asked? then Waiting else Answer(hs[k].message[1])
    ensures hs[k].Came? ==> hs[k].message[0] == 0x80 + command
    decreases |hs|
  {
    var n := |hs| - 1;
    if k < n {
      StandsIsLast(hs[..n], command, k);
    }
  }

  lemma {:induction false} StandsUntouched(hs: seq<Happening>, command: byte)
    requires AllProper(hs) && IsCommand(command)
    ensures Stands(hs, command).Untouched? <==> forall i :: 0 <= i < |hs| ==> !Concerns(hs[i], command)
    decreases |hs|
  {
    if hs != [] {
      var n := |hs| - 1;
      StandsUntouched(hs[..n], command);
      assert forall i :: 0 <= i < n ==> hs[..n][i] == hs[i];
    }
  }

  // ----- Which command the answer is for -----

  /** How many commands of a kind were queued. */
  ghost function Asks(hs: seq<Happening>, command: byte): nat {
    if hs == [] then 0 else (if hs[0] == Asked(command) then 1 else 0) + Asks(hs[1..], command)
  }

  /** The callbacks of a kind that have come. */
  ghost function Returned(hs: seq<Happening>, command: byte): seq<Message>
    requires IsCommand(command)
  {
    OfKind(Frames(hs), CALL_BACK_MASK + command)
  }

  /** Callbacks carry no number: the client takes them in order.  This is the number, among the
      commands of its kind, of the one whose answer is shown; 0 if none is. */
  ghost function Shows(hs: seq<Happening>, command: byte): nat
    requires AllProper(hs) && IsCommand(command)
  {
    if Stands(hs, command).Answer? then |Returned(hs, command)| else 0
  }

  /** No callback of a kind ever comes before its command. */
  ghost predicate Prompted(hs: seq<Happening>, command: byte)
    requires IsCommand(command)
  {
    forall i :: 0 <= i <= |hs| ==> |Returned(hs[..i], command)| <= Asks(hs[..i], command)
  }

  lemma {:induction false} AsksConcat(hs: seq<Happening>, ks: seq<Happening>, command: byte)
    ensures Asks(hs + ks, command) == Asks(hs, command) + Asks(ks, command)
  {
    if hs == [] {
      assert hs + ks == ks;
    } else {
      assert (hs + ks)[1..] == hs[1..] + ks;
      AsksConcat(hs[1..], ks, command);
    }
  }

  lemma ReturnedConcat(hs: seq<Happening>, ks: seq<Happening>, command: byte)
    requires IsCommand(command)
    ensures Returned(hs + ks, command) == Returned(hs, command) + Returned(ks, command)
  {
    FramesConcat(hs, ks);
    OfKindConcat(Frames(hs), Frames(ks), CALL_BACK_MASK + command);
  }

  lemma OneHappening(h: Happening, command: byte)
    requires Proper(h) && IsCommand(command)
    ensures Asks([h], command) == if h == Asked(command) then 1 else 0
    ensures Returned([h], command) == if h.Came? && Concerns(h, command) then [h.message] else []
  {
    var one: seq<Happening> := [h];
    assert one[1..] == [];
    if h.Came? {
      OneMessage(h.message, CALL_BACK_MASK + command);
      assert Frames(one) == [h.message];
    } else {
      assert Frames(one) == [];
    }
  }

  lemma OneMessage(m: Message, code: byte)
    ensures OfKind([m], code) == if m != [] && m[0] == code then [m] else []
  {
    var one: seq<Message> := [m];
    assert one[0] == m && one[1..] == [];
  }

  /** What is shown is what the last callback of the kind said. */
  lemma {:induction false} ShownIsLastReturned(hs: seq<Happening>, command: byte)
    requires AllProper(hs) && IsCommand(command) && Stands(hs, command).Answer?
    ensures Returned(hs, command) != []
    ensures var last := Returned(hs, command)[|Returned(hs, command)| - 1];
            |last| >= 2 && Stands(hs, command) == Answer(last[1])
    decreases |hs|
  {
    hide Returned;
    var n := |hs| - 1;
    var h, last: seq<Happening> := hs[n], [hs[n]];
    assert hs == hs[..n] + last;
    ReturnedConcat(hs[..n], last, command);
    OneHappening(h, command);
    if !Concerns(h, command) {
      ShownIsLastReturned(hs[..n], command);
    }
  }

  /** The answer shown is that to the last command of its kind if and only if as many callbacks
      of the kind have come as commands were queued. */
  lemma {:induction false} LastAnswerShown(hs: seq<Happening>, command: byte)
    requires AllProper(hs) && IsCommand(command) && Prompted(hs, command) && Asks(hs, command) > 0
    ensures Shows(hs, command) == Asks(hs, command) <==> |Returned(hs, command)| == Asks(hs, command)
    decreases |hs|
  {
    hide Returned;
    var n := |hs| - 1;
    var h, last: seq<Happening> := hs[n], [hs[n]];
    assert hs == hs[..n] + last;
    ReturnedConcat(hs[..n], last, command);
    AsksConcat(hs[..n], last, command);
    OneHappening(h, command);
    assert |Returned(hs[..n], command)| <= Asks(hs[..n], command);
    if !Concerns(h, command) {
      assert forall i :: 0 <= i <= n ==> hs[..n][..i] == hs[..i];
      LastAnswerShown(hs[..n], command);
    }
  }

  /** A call queues a command and waits for the flag to change.  The first callback of the kind
      to come is what it returns; that is the answer to this very command if and only if, before
      the call, every earlier command of the kind had been answered. */
  lemma CallGetsOwnAnswer(hs: seq<Happening>, command: byte, meanwhile: seq<Happening>, answer: Message)
    requires AllProper(hs) && IsCommand(command) && AllProper(meanwhile) && Formed(answer)
    requires forall i :: 0 <= i < |meanwhile| ==> !Concerns(meanwhile[i], command)
    requires answer[0] == CALL_BACK_MASK + command
    ensures var before := hs + [Asked(command)] + meanwhile;
            var done := before + [Came(answer)];
            && AllProper(before) && AllProper(done)
            && Stands(before, command) == Waiting && Stands(done, command) == Answer(answer[1])
            && (Shows(done, command) == Asks(done, command) <==> |Returned(hs, command)| == Asks(hs, command))
  {
    hide Returned, Stands, Asks;
    CallStands(hs, command, meanwhile, answer);
    CallCounts(hs, command, meanwhile, answer);
  }

  lemma CallStands(hs: seq<Happening>, command: byte, meanwhile: seq<Happening>, answer: Message)
    requires AllProper(hs) && IsCommand(command) && AllProper(meanwhile) && Formed(answer)
    requires forall i :: 0 <= i < |meanwhile| ==> !Concerns(meanwhile[i], command)
    requires answer[0] == CALL_BACK_MASK + command
    ensures var before := hs + [Asked(command)] + meanwhile;
            var done := before + [Came(answer)];
            && AllProper(before) && AllProper(done)
            && Stands(before, command) == Waiting && Stands(done, command) == Answer(answer[1])
  {
    hide Stands;
    var before := hs + [Asked(command)] + meanwhile;
    assert forall i :: |hs| < i < |before| ==> before[i] == meanwhile[i - |hs| - 1];
    StandsIsLast(before, command, |hs|);
    StandsIsLast(before + [Came(answer)], command, |before|);
  }

  lemma CallCounts(hs: seq<Happening>, command: byte, meanwhile: seq<Happening>, answer: Message)
    requires IsCommand(command) && AllProper(meanwhile) && Formed(answer)
    requires forall i :: 0 <= i < |meanwhile| ==> !Concerns(meanwhile[i], command)
    requires answer[0] == CALL_BACK_MASK + command
    ensures var done := hs + [Asked(command)] + meanwhile + [Came(answer)];
            && Asks(done, command) == Asks(hs, command) + 1
            && |Returned(done, command)| == |Returned(hs, command)| + 1
  {
    hide Returned, Asks;
    var ask, came: seq<Happening> := [Asked(command)], [Came(answer)];
    var before := hs + ask + meanwhile;
    QuietCounts(meanwhile, command);
    OneHappening(Asked(command), command);
    OneHappening(Came(answer), command);
    AsksConcat(hs, ask, command);
    AsksConcat(hs + ask, meanwhile, command);
    AsksConcat(before, came, command);
    ReturnedConcat(hs, ask, command);
    ReturnedConcat(hs + ask, meanwhile, command);
    ReturnedConcat(before, came, command);
  }

  lemma {:induction false} QuietCounts(hs: seq<Happening>, command: byte)
    requires AllProper(hs) && IsCommand(command)
    requires forall i :: 0 <= i < |hs| ==> !Concerns(hs[i], command)
    ensures Asks(hs, command) == 0 && Returned(hs, command) == []
  {
    if hs != [] {
      var one: seq<Happening> := [hs[0]];
      assert hs == one + hs[1..];
      QuietCounts(hs[1..], command);
      OneHappening(hs[0], command);
      ReturnedConcat(one, hs[1..], command);
    }
  }

  lemma {:induction false} FramesConcat(hs: seq<Happening>, ks: seq<Happening>)
    ensures Frames(hs + ks) == Frames(hs) + Frames(ks)
  {
    if hs == [] {
      assert hs + ks == ks;
    } else {
      assert (hs + ks)[1..] == hs[1..] + ks;
      FramesConcat(hs[1..], ks);
    }
  }

  lemma {:induction false} FramesArrived(ms: seq<Message>)
    ensures Frames(Arrived(ms)) == ms
  {
    if ms != [] {
      FramesArrived(ms[1..]);
      assert Arrived(ms)[1..] == Arrived(ms[1..]);
    }
  }

  // ----- What a client does -----

  datatype Api = CApi | PyApi

  /** The commands an interface accepts.  The C client bounds their length; the Python client
      refuses to send nothing. */
  predicate Accepts(api: Api, command: byte, data: Bytes) {
    && IsCommand(command)
    && (api.CApi? ==> |data| <= MAX_SEND_LENGTH)
    && (api.PyApi? ==> command == SEND_DATA ==> data != [])
  }

  /** A call of the application, a read from the socket, or a round of the sender. */
  datatype Act = Ask(command: byte, data: Bytes) | Recv(chunk: Bytes) | Flush

  /** The bytes read, as one stream. */
  ghost function Incoming(acts: seq<Act>): Bytes {
    if acts == [] then [] else (if acts[0].Recv? then acts[0].chunk else []) + Incoming(acts[1..])
  }

  /** The commands accepted, in order. */
  ghost function Script(api: Api, acts: seq<Act>): seq<Message> {
    if acts == [] then [] else Said(api, acts[0]) + Script(api, acts[1..])
  }

  /** The data an application passes to the calls that send it, where the call is accepted. */
  ghost function Given(api: Api, acts: seq<Act>): seq<Bytes> {
    if acts == [] then []
    else
      (if acts[0].Ask? && acts[0].command == 0x03 && (if api.CApi? then |acts[0].data| <= 256 else acts[0].data != [])
       then [acts[0].data] else [])
      + Given(api, acts[1..])
  }

  /** Round trip between applications: the payloads in the messages of a client are, byte for byte
      and in order, the data its application passed. */
  lemma {:induction false} PayloadsAreGiven(api: Api, acts: seq<Act>)
    ensures Payloads(Script(api, acts)) == Given(api, acts)
  {
    if acts != [] {
      PayloadsAreGiven(api, acts[1..]);
      PayloadsConcat(Said(api, acts[0]), Script(api, acts[1..]));
      SaidPayload(api, acts[0]);
    }
  }

  lemma SaidPayload(api: Api, act: Act)
    ensures Payloads(Said(api, act)) ==
      if act.Ask? && act.command == 0x03 && (if api.CApi? then |act.data| <= 256 else act.data != []) then [act.data] else []
  {
    if act.Ask? && Accepts(api, act.command, act.data) {
      var m: Message := [act.command] + act.data;
      var one: seq<Message> := [m];
      assert m[1..] == act.data && one[1..] == [];
    }
  }

  ghost function Said(api: Api, act: Act): seq<Message> {
    if act.Ask? && Accepts(api, act.command, act.data) then [[act.command] + act.data] else []
  }

  ghost function Happened(api: Api, pending: Bytes, act: Act): seq<Happening> {
    match act
    case Ask(command, data) => if Accepts(api, command, data) then [Asked(command)] else []
    case Recv(chunk) => Arrived(Decode(pending + chunk).msgs)
    case Flush => []
  }

  ghost function After(pending: Bytes, act: Act): Bytes {
    if act.Recv? then Decode(pending + act.chunk).rest else pending
  }

  /** Everything that happens to a client that starts with `pending` bytes not yet consumed. */
  ghost function Happenings(api: Api, pending: Bytes, acts: seq<Act>): seq<Happening>
    decreases |acts|
  {
    if acts == [] then [] else Happened(api, pending, acts[0]) + Happenings(api, After(pending, acts[0]), acts[1..])
  }

  /** However the stream is read, and whatever is sent meanwhile, the frames taken out of it are
      those the stream decodes to. */
  lemma {:induction false} FramesAreDecoded(api: Api, pending: Bytes, acts: seq<Act>)
    requires !Ready(pending)
    ensures Frames(Happenings(api, pending, acts)) == Decode(pending + Incoming(acts)).msgs
    decreases |acts|
  {
    hide Ready, Decode;
    if acts == [] {
      IdleStream(pending);
      assert pending + [] == pending;
    } else {
      var act, rest := acts[0], Incoming(acts[1..]);
      FramesConcat(Happened(api, pending, act), Happenings(api, After(pending, act), acts[1..]));
      if act.Recv? {
        var b := pending + act.chunk;
        FramesArrived(Decode(b).msgs);
        DecodeRestIdle(b);
        FramesAreDecoded(api, Decode(b).rest, acts[1..]);
        DecodeSplit(b, rest);
        assert pending + (act.chunk + rest) == b + rest;
      } else {
        FramesAreDecoded(api, pending, acts[1..]);
        NoFrames(api, pending, act);
        assert [] + rest == rest;
      }
    }
  }

  /** What is left of the stream after some acts. */
  ghost function AfterAll(pending: Bytes, acts: seq<Act>): Bytes
    decreases |acts|
  {
    if acts == [] then pending else AfterAll(After(pending, acts[0]), acts[1..])
  }

  lemma {:induction false} HappeningsConcat(api: Api, pending: Bytes, acts: seq<Act>, more: seq<Act>)
    ensures Happenings(api, pending, acts + more) ==
      Happenings(api, pending, acts) + Happenings(api, AfterAll(pending, acts), more)
    decreases |acts|
  {
    hide Happened, After;
    if acts == [] {
      assert acts + more == more;
    } else {
      assert (acts + more)[0] == acts[0] && (acts + more)[1..] == acts[1..] + more;
      HappeningsConcat(api, After(pending, acts[0]), acts[1..], more);
    }
  }

  lemma {:induction false} ArrivedAsksNothing(ms: seq<Message>, command: byte)
    ensures Asks(Arrived(ms), command) == 0
  {
    if ms != [] {
      ArrivedAsksNothing(ms[1..], command);
      assert Arrived(ms)[1..] == Arrived(ms[1..]);
    }
  }

  /** The commands queued are those of the script. */
  lemma {:induction false} AsksAreScript(api: Api, pending: Bytes, acts: seq<Act>, command: byte)
    ensures Asks(Happenings(api, pending, acts), command) == |OfKind(Script(api, acts), command)|
    decreases |acts|
  {
    hide Decode, Happenings, Accepts;
    if acts == [] {
      assert Happenings(api, pending, acts) == [] by { NothingHappens(api, pending); }
    } else {
      var act := acts[0];
      HappeningsStart(api, pending, acts);
      AsksConcat(Happened(api, pending, act), Happenings(api, After(pending, act), acts[1..]), command);
      OfKindConcat(Said(api, act), Script(api, acts[1..]), command);
      AsksAreScript(api, After(pending, act), acts[1..], command);
      if act.Recv? {
        ArrivedAsksNothing(Decode(pending + act.chunk).msgs, command);
      }
      assert Asks(Happened(api, pending, act), command) == |OfKind(Said(api, act), command)|;
    }
  }

  lemma NothingHappens(api: Api, pending: Bytes)
    ensures Happenings(api, pending, []) == []
  {
  }

  lemma HappeningsStart(api: Api, pending: Bytes, acts: seq<Act>)
    requires acts != []
    ensures Happenings(api, pending, acts) ==
      Happened(api, pending, acts[0]) + Happenings(api, After(pending, acts[0]), acts[1..])
  {
  }

  /** If after no number of acts more callbacks of a kind have come than commands were queued,
      no callback ever came before its command. */
  lemma {:induction false} PromptedByActs(api: Api, acts: seq<Act>, command: byte)
    requires IsCommand(command)
    requires forall j :: 0 <= j <= |acts| ==>
      |Returned(Happenings(api, [], acts[..j]), command)| <= Asks(Happenings(api, [], acts[..j]), command)
    ensures Prompted(Happenings(api, [], acts), command)
    decreases |acts|
  {
    hide Returned, Happened, Happenings, After, AfterAll;
    if acts == [] {
      NothingHappens(api, []);
      assert acts[..0] == acts;
    } else {
      var n := |acts| - 1;
      var act, last: seq<Act> := acts[n], [acts[n]];
      assert forall j :: 0 <= j <= n ==> acts[..n][..j] == acts[..j];
      PromptedByActs(api, acts[..n], command);
      assert acts == acts[..n] + last && acts[..|acts|] == acts && last[1..] == [];
      HappeningsConcat(api, [], acts[..n], last);
      var pending := AfterAll([], acts[..n]);
      HappeningsStart(api, pending, last);
      NothingHappens(api, After(pending, act));
      var hs, more := Happenings(api, [], acts[..n]), Happened(api, pending, act);
      assert Happenings(api, [], acts) == hs + more by { assert more + [] == more; }
      PromptedByAct(hs, api, pending, act, command);
    }
  }

  lemma PromptedByAct(hs: seq<Happening>, api: Api, pending: Bytes, act: Act, command: byte)
    requires IsCommand(command) && Prompted(hs, command)
    requires var all := hs + Happened(api, pending, act); |Returned(all, command)| <= Asks(all, command)
    ensures Prompted(hs + Happened(api, pending, act), command)
  {
    hide Returned, Decode, Accepts;
    var more := Happened(api, pending, act);
    var all := hs + more;
    forall i | 0 <= i <= |all|
      ensures |Returned(all[..i], command)| <= Asks(all[..i], command)
    {
      if i <= |hs| {
        assert all[..i] == hs[..i];
      } else if i == |all| {
        assert all[..i] == all;
      } else {
        var k := i - |hs|;
        assert act.Recv? && all[..i] == hs + more[..k];
        PromptedMidway(hs, Decode(pending + act.chunk).msgs, k, command);
      }
    }
  }

  lemma PromptedMidway(hs: seq<Happening>, ms: seq<Message>, k: nat, command: byte)
    requires IsCommand(command) && k <= |ms|
    requires var all := hs + Arrived(ms); |Returned(all, command)| <= Asks(all, command)
    ensures var some := hs + Arrived(ms)[..k]; |Returned(some, command)| <= Asks(some, command)
  {
    hide Returned, Asks, Arrived;
    var some, rest := hs + Arrived(ms)[..k], Arrived(ms)[k..];
    ArrivedAsksNothing(ms, command);
    assert Arrived(ms) == Arrived(ms)[..k] + rest;
    AsksConcat(hs, Arrived(ms), command);
    AsksConcat(hs, Arrived(ms)[..k], command);
    AsksConcat(Arrived(ms)[..k], rest, command);
    assert hs + Arrived(ms) == some + rest;
    ReturnedConcat(some, rest, command);
  }

  lemma NoFrames(api: Api, pending: Bytes, act: Act)
    requires !act.Recv?
    ensures Frames(Happened(api, pending, act)) == []
  {
  }

  /** One act on a sane stream. */
  lemma ActStep(api: Api, pending: Bytes, acts: seq<Act>, i: nat, max: int)
    requires i < |acts| && !Ready(pending) && 0 <= max <= MAX_BODY && Sane(pending + Incoming(acts[i..]), max)
    ensures AllProper(Happened(api, pending, acts[i]))
    ensures var next, rest := After(pending, acts[i]), Incoming(acts[i + 1..]);
            && !Ready(next) && Sane(next + rest, max)
            && Decode(next + rest).rest == Decode(pending + Incoming(acts[i..])).rest
    ensures acts[i].Recv? ==> Sane(pending + acts[i].chunk, max)
    ensures |pending| < HEADER + max
    ensures Happenings(api, pending, acts[i..])
            == Happened(api, pending, acts[i]) + Happenings(api, After(pending, acts[i]), acts[i + 1..])
    ensures Script(api, acts[i..]) == Said(api, acts[i]) + Script(api, acts[i + 1..])
  {
    hide Sane, Ready, Decode, Accepts;
    var act, rest := acts[i], Incoming(acts[i + 1..]);
    assert acts[i..][1..] == acts[i + 1..];
    SaneSplit(pending, Incoming(acts[i..]), max);
    SaneDecodes(pending, max);
    IdleStream(pending);
    if act.Recv? {
      assert pending + Incoming(acts[i..]) == (pending + act.chunk) + rest;
      SaneSplit(pending + act.chunk, rest, max);
      SaneDecodes(pending + act.chunk, max);
      DecodeRestIdle(pending + act.chunk);
      DecodeSplit(pending + act.chunk, rest);
    } else {
      assert [] + rest == rest;
      AskIsProper(api, pending, act);
    }
  }

  lemma {:induction false} SaneIsProper(api: Api, pending: Bytes, acts: seq<Act>, max: int)
    requires !Ready(pending) && 0 <= max <= MAX_BODY && Sane(pending + Incoming(acts), max)
    ensures AllProper(Happenings(api, pending, acts))
    decreases |acts|
  {
    hide Sane, Ready, Happened, After, Incoming;
    if acts != [] {
      assert acts[0..] == acts;
      ActStep(api, pending, acts, 0, max);
      SaneIsProper(api, After(pending, acts[0]), acts[1..], max);
    }
  }

  lemma AskIsProper(api: Api, pending: Bytes, act: Act)
    requires !act.Recv?
    ensures AllProper(Happened(api, pending, act))
  {
  }

  // ----- Decoding in steps -----

  lemma NothingDone(b: Bytes)
    ensures Decode(b) == Decoded([] + Decode(b).msgs, Decode(b).rest)
  {
  }

  lemma SmallHeader(b: Bytes, max: int)
    requires Sane(b, max) && |b| >= HEADER && max <= MAX_BODY
    ensures Unsigned32(b) < TWO_TO_THE_31 && NetworkToHost32(b) == Unsigned32(b) && 1 <= Unsigned32(b) <= max
    ensures Ready(b) <==> |b| >= Unsigned32(b) + HEADER
  {
  }

  lemma TooShort(b: Bytes)
    ensures |b| < HEADER ==> !Ready(b)
  {
  }

  lemma OneMore(start: Bytes, done: seq<Message>, b: Bytes, max: int)
    requires Sane(b, max) && Ready(b) && AllFormed(done)
    requires Decode(start) == Decoded(done + Decode(b).msgs, Decode(b).rest)
    ensures Formed(Body(b)) && Sane(Tail(b), max) && AllFormed(done + [Body(b)]) && |Body(b)| == NetworkToHost32(b) <= max
    ensures Decode(start) == Decoded(done + [Body(b)] + Decode(Tail(b)).msgs, Decode(Tail(b)).rest)
  {
    var t := Decode(Tail(b)).msgs;
    assert done + ([Body(b)] + t) == done + [Body(b)] + t;
  }

  lemma NothingLeft(start: Bytes, done: seq<Message>, b: Bytes)
    requires !Ready(b)
    requires Decode(start) == Decoded(done + Decode(b).msgs, Decode(b).rest)
    ensures Decode(start) == Decoded(done, b)
  {
    assert done + [] == done;
  }
}
