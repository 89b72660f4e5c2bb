/**
  The command and callback codes shared by the server and its clients
  (p2pServer/p2pServer.h, API/C/netWork.h, API/Python/stupidP2P.py).
 */
module Protocol {
  import opened Wire
  import opened Framing

  const REGISTER_DEVICE: byte := 0x01
  const SUBSCRIBE_DEVICE: byte := 0x02
  const SEND_DATA: byte := 0x03
  const UNREGISTER_DEVICE: byte := 0x04
  const UNSUBSCRIBE_DEVICE: byte := 0x05
  const CHECK_DEVICE_ALIVE: byte := 0x06
  const HEART_BEAT: byte := 0x07
  const CALL_BACK_MASK: byte := 0x80

  const EXEC_FAIL: byte := 0
  const EXEC_SUCCESS: byte := 1

  predicate IsCommand(code: byte) {
    REGISTER_DEVICE <= code <= HEART_BEAT
  }

  predicate IsCallBack(m: Message) {
    m != [] && m[0] >= CALL_BACK_MASK
  }

  predicate IsData(m: Message) {
    m != [] && m[0] == SEND_DATA
  }

  function CallBacks(ms: seq<Message>): seq<Message> {
    if ms == [] then [] else (if IsCallBack(ms[0]) then [ms[0]] else []) + CallBacks(ms[1..])
  }

  function Datas(ms: seq<Message>): seq<Message> {
    if ms == [] then [] else (if IsData(ms[0]) then [ms[0]] else []) + Datas(ms[1..])
  }

  lemma {:induction false} CallBacksConcat(ms: seq<Message>, ns: seq<Message>)
    ensures CallBacks(ms + ns) == CallBacks(ms) + CallBacks(ns)
  {
    if ms == [] {
      assert ms + ns == ns;
    } else {
      assert (ms + ns)[1..] == ms[1..] + ns;
      CallBacksConcat(ms[1..], ns);
    }
  }

  lemma {:induction false} DatasConcat(ms: seq<Message>, ns: seq<Message>)
    ensures Datas(ms + ns) == Datas(ms) + Datas(ns)
  {
    if ms == [] {
      assert ms + ns == ns;
    } else {
      assert (ms + ns)[1..] == ms[1..] + ns;
      DatasConcat(ms[1..], ns);
    }
  }

  lemma FiltersConcat(ms: seq<Message>, ns: seq<Message>)
    ensures CallBacks(ms + ns) == CallBacks(ms) + CallBacks(ns)
    ensures Datas(ms + ns) == Datas(ms) + Datas(ns)
  {
    CallBacksConcat(ms, ns);
    DatasConcat(ms, ns);
  }

  /** The messages that start with a code, in order. */
  function OfKind(ms: seq<Message>, code: byte): seq<Message> {
    if ms == [] then [] else (if ms[0] != [] && ms[0][0] == code then [ms[0]] else []) + OfKind(ms[1..], code)
  }

  lemma {:induction false} OfKindConcat(ms: seq<Message>, ns: seq<Message>, code: byte)
    ensures OfKind(ms + ns, code) == OfKind(ms, code) + OfKind(ns, code)
  {
    if ms == [] {
      assert ms + ns == ns;
    } else {
      assert (ms + ns)[1..] == ms[1..] + ns;
      OfKindConcat(ms[1..], ns, code);
    }
  }

  lemma OfKindPrefix(ms: seq<Message>, ns: seq<Message>, code: byte)
    requires ms <= ns
    ensures OfKind(ms, code) <= OfKind(ns, code)
  {
    assert ns == ms + ns[|ms|..];
    OfKindConcat(ms, ns[|ms|..], code);
  }

  lemma {:induction false} OfKindCallBacks(ms: seq<Message>, code: byte)
    requires code >= CALL_BACK_MASK
    ensures OfKind(CallBacks(ms), code) == OfKind(ms, code)
  {
    if ms != [] {
      OfKindCallBacks(ms[1..], code);
      var l: seq<Message> := [ms[0]];
      assert l[1..] == [];
      OfKindConcat(if IsCallBack(ms[0]) then l else [], CallBacks(ms[1..]), code);
    }
  }

  /** A frame the server may write: a two-byte callback of a known command, or a data frame. */
  ghost predicate Frame(m: Message) {
    (IsCallBack(m) && |m| == 2 && m[0] <= CALL_BACK_MASK + HEART_BEAT && m[1] <= EXEC_SUCCESS) || IsData(m)
  }

  ghost predicate AllFrames(ms: seq<Message>) {
    forall i :: 0 <= i < |ms| ==> Frame(ms[i])
  }
}
