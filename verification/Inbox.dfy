/**
  The C client's inbox (API/C/netWork.h): a circular doubly linked list around a sentinel,
  filled by the receive thread and drained by `stupid_p2p_recv_data` (API/C/stupidP2P.c).
 */
module Inbox {
  import opened Wire

  class Node {
    var recvData: Bytes
    var next: Node
    var prev: Node

    constructor (data: Bytes)
      ensures recvData == data && next == this && prev == this
    {
      recvData, next, prev := data, this, this;
    }
  }

  class RecvDataList {
    const head: Node
    ghost var ring: seq<Node> // the sentinel, then the nodes from oldest to newest
    ghost var nodes: set<Node> // every node that was ever in the ring

    /** Following `next` from the sentinel visits `ring` in order and comes back; `prev` is
        its inverse. */
    ghost predicate Valid()
      reads this, nodes
    {
      && |ring| > 0 && ring[0] == head
      && (forall i :: 0 <= i < |ring| ==> ring[i] in nodes)
      && (forall i, j :: 0 <= i < j < |ring| ==> ring[i] != ring[j])
      && (forall i {:trigger ring[i].next} :: 0 <= i < |ring| - 1 ==> ring[i].next == ring[i + 1])
      && (forall i {:trigger ring[i].prev} :: 1 <= i < |ring| ==> ring[i].prev == ring[i - 1])
      && ring[|ring| - 1].next == head && head.prev == ring[|ring| - 1]
    }

    /** The queue of received payloads. */
    ghost function Contents(): (c: seq<Bytes>)
      reads this, nodes
      requires Valid()
      ensures |c| == |ring| - 1
    {
      seq(|ring| - 1, i requires 0 <= i < |ring| - 1 && ring[i + 1] in nodes reads this, nodes => ring[i + 1].recvData)
    }

    constructor ()
      ensures Valid() && fresh(nodes) && Contents() == []
    {
      head := new Node([]);
      ring, nodes := [head], {head};
    }

    method Add(node: Node)
      requires Valid() && node !in nodes
      modifies this, nodes, node
      ensures Valid() && ring == old(ring) + [node] && nodes == old(nodes) + {node}
      ensures Contents() == old(Contents()) + [node.recvData] && node.recvData == old(node.recvData)
    {
      var prev := head.prev;
      var next := head;
      next.prev := node;
      node.next := next;
      node.prev := prev;
      prev.next := node;
      ring, nodes := ring + [node], nodes + {node};
    }

    /** Unlink the oldest node; an empty list answers with nothing. */
    method ReturnData() returns (found: bool, data: Bytes)
      requires Valid()
      modifies this, nodes
      ensures Valid() && nodes == old(nodes)
      ensures found == (old(Contents()) != [])
      ensures !found ==> ring == old(ring) && Contents() == []
      ensures found ==> data == old(Contents())[0] && Contents() == old(Contents())[1..] && ring == [head] + old(ring)[2..]
    {
      var node := head.next;
      if node == head {
        assert |ring| == 1;
        return false, [];
      }
      assert node == ring[1];
      found, data := true, node.recvData;
      node.prev.next := node.next;
      node.next.prev := node.prev;
      ring := [head] + ring[2..];
    }
  }

  const MAX_NUM: nat := 1024 // the slots of `data_buf`

  /** The drain loop on a queue, `num` payloads being stored already: it takes a payload off
      the queue first and only then looks whether there is room for it. */
  ghost function DrainFrom(q: seq<Bytes>, num: nat): (r: (seq<Bytes>, seq<Bytes>))
    decreases |q|
  {
    if q == [] then ([], [])
    else if num > MAX_NUM then ([], q[1..])
    else
      var r := DrainFrom(q[1..], num + 1);
      ([q[0]] + r.0, r.1)
  }

  /** What the loop stores and what it leaves, for every queue. */
  lemma {:induction false} DrainShape(q: seq<Bytes>, num: nat)
    requires num <= MAX_NUM + 1
    ensures var room := MAX_NUM + 1 - num;
            DrainFrom(q, num) == if |q| <= room then (q, []) else (q[..room], q[room + 1..])
    decreases |q|
  {
    if q != [] {
      if num <= MAX_NUM {
        var room := MAX_NUM + 1 - num;
        DrainShape(q[1..], num + 1);
        assert |q| <= room ==> [q[0]] + q[1..] == q;
        assert |q| > room ==> [q[0]] + q[1..][..room - 1] == q[..room];
        assert |q| > room ==> q[1..][room..] == q[room + 1..];
      } else {
        assert q[..0] == [];
      }
    }
  }

  /** The drain hands over everything, in order, within the slots of its array, and leaves the
      queue empty, if and only if at most 1024 payloads are queued. */
  lemma DrainExact(q: seq<Bytes>)
    ensures (DrainFrom(q, 0) == (q, []) && |DrainFrom(q, 0).0| <= 1024) <==> |q| <= 1024
  {
    DrainShape(q, 0);
  }

  method Drain(list: RecvDataList) returns (stored: seq<Bytes>)
    requires list.Valid()
    modifies list, list.nodes
    ensures list.Valid() && list.nodes == old(list.nodes)
    ensures (stored, list.Contents()) == DrainFrom(old(list.Contents()), 0)
  {
    hide RecvDataList.Valid, RecvDataList.Contents;
    stored := [];
    ghost var q := list.Contents();
    assert [] + DrainFrom(q, 0).0 == DrainFrom(q, 0).0;
    while true
      invariant list.Valid() && list.nodes == old(list.nodes) && |stored| <= MAX_NUM + 1
      invariant var r := DrainFrom(list.Contents(), |stored|); (stored + r.0, r.1) == DrainFrom(q, 0)
      decreases |list.Contents()|
    {
      ghost var c := list.Contents();
      var found, data := list.ReturnData();
      if |stored| > MAX_NUM || !found {
        assert stored + [] == stored;
        break;
      }
      assert stored + ([c[0]] + DrainFrom(c[1..], |stored| + 1).0) == (stored + [c[0]]) + DrainFrom(c[1..], |stored| + 1).0;
      stored := stored + [data];
    }
  }

  /** The same loop on the array itself, up to its first write past the end, if there is one:
      that happens exactly when more than 1024 payloads are queued. */
  method DrainToArray(list: RecvDataList) returns (dataBuf: array<Bytes>, num: nat, overran: bool)
    requires list.Valid()
    modifies list, list.nodes
    ensures list.Valid() && list.nodes == old(list.nodes)
    ensures fresh(dataBuf) && dataBuf.Length == 1024 && num <= 1024
    ensures overran <==> |old(list.Contents())| > 1024
    ensures !overran ==> dataBuf[..num] == old(list.Contents()) && list.Contents() == []
    ensures overran ==> num == MAX_NUM && dataBuf[..] == old(list.Contents())[..num]
    ensures overran ==> list.Contents() == old(list.Contents())[num + 1..]
  {
    hide RecvDataList.Valid, RecvDataList.Contents;
    dataBuf := new Bytes[MAX_NUM](_ => []);
    num, overran := 0, false;
    ghost var q := list.Contents();
    while true
      invariant list.Valid() && list.nodes == old(list.nodes) && num <= MAX_NUM && num <= |q|
      invariant dataBuf[..num] == q[..num] && list.Contents() == q[num..]
      decreases |list.Contents()|
    {
      var found, data := list.ReturnData();
      if num > MAX_NUM || !found {
        break;
      }
      if num == dataBuf.Length {
        overran := true;
        break;
      }
      dataBuf[num] := data;
      num := num + 1;
      assert dataBuf[..num] == dataBuf[..num - 1] + [data];
    }
  }
}
