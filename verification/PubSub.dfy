/**
  What the registry is for: a publish/subscribe relation.  `Topics` is that relation with
  no lists and no iterators; a run of the server agrees with it exactly when its registers are
  safe, although unregister and disconnect clean up by following `subscribeIdList` only.
 */
module PubSub {
  import opened Framing
  import opened Registry
  import opened Ownership

  /** `(x, p) in pairs`: what connection `p` sends goes to connection `x`. */
  datatype Topics<!C(==)> = Topics(owner: map<Id, C>, pairs: set<(C, C)>)

  ghost predicate Registered<C>(a: Topics<C>, p: C) {
    p in a.owner.Values
  }

  // ----- Abstract steps -----

  ghost function Claim<C>(a: Topics<C>, c: C, d: Id): Topics<C> {
    a.(owner := a.owner[d := c])
  }

  ghost function Follow<C>(a: Topics<C>, c: C, d: Id): Topics<C> {
    if d in a.owner && a.owner[d] != c then a.(pairs := a.pairs + {(c, a.owner[d])}) else a
  }

  ghost function Unfollow<C>(a: Topics<C>, c: C, d: Id): Topics<C> {
    if d in a.owner then a.(pairs := a.pairs - {(c, a.owner[d])}) else a
  }

  /** `c` gives up its id, its subscribers, and its subscriptions to registered publishers. */
  ghost function Leave<C>(a: Topics<C>, c: C): Topics<C> {
    Topics(
      map d | d in a.owner && a.owner[d] != c :: a.owner[d],
      set q | q in a.pairs && q.1 != c && !(q.0 == c && Registered(a, q.1)))
  }

  ghost function Abstract<C>(a: Topics<C>, e: Event<C>): Topics<C> {
    match e
    case Gone(c) => Leave(a, c)
    case Arrive(c, m, _) =>
      (match Classify(m)
       case Register(d) => Claim(a, c, d)
       case Subscribe(d) => Follow(a, c, d)
       case Unsubscribe(d) => Unfollow(a, c, d)
       case Unregister => Leave(a, c)
       case _ => a)
    case _ => a
  }

  /** The register discipline: never the sentinel; repeat the own id, or claim one while
      holding none and while nobody is still listed from an id lost to another connection. */
  ghost predicate MayRegister<C>(a: Topics<C>, c: C, d: Id) {
    && d != DELETE
    && ((d in a.owner && a.owner[d] == c)
        || (!Registered(a, c) && forall q :: q in a.pairs ==> q.1 != c))
  }

  ghost predicate Disciplined<C>(a: Topics<C>, e: Event<C>) {
    e.Arrive? && Classify(e.message).Register? ==> MayRegister(a, e.conn, Classify(e.message).id)
  }

  ghost predicate AllDisciplined<C>(a: Topics<C>, es: seq<Event<C>>)
    decreases |es|
  {
    es == [] || (Disciplined(a, es[0]) && AllDisciplined(Abstract(a, es[0]), es[1..]))
  }

  ghost function AbstractRun<C>(a: Topics<C>, es: seq<Event<C>>): Topics<C>
    decreases |es|
  {
    if es == [] then a else AbstractRun(Abstract(a, es[0]), es[1..])
  }

  // ----- The refinement relation -----

  ghost predicate IsConnected<C>(s: State<C>, c: C) {
    c in s.phase && s.phase[c].Connected?
  }

  /** `connections` and `deviceId` are inverse of each other, and owners are not down. */
  ghost predicate Inverse<C>(s: State<C>) {
    forall d :: d in s.connections ==>
      && d != DELETE
      && Alive(s, s.connections[d])
      && s.info[s.connections[d]].deviceId == d
  }

  ghost predicate Listed<C>(s: State<C>, pairs: set<(C, C)>) {
    forall p, x :: p in s.info && x in s.info[p].sendToList ==> (x, p) in pairs
  }

  ghost predicate Backed<C>(s: State<C>, pairs: set<(C, C)>) {
    forall q :: q in pairs ==>
      && q.0 in s.info && q.0 != q.1 && Alive(s, q.1)
      && (IsConnected(s, q.0) ==> q.0 in s.info[q.1].sendToList)
  }

  /** Whoever is up and listed by the owner of an id has that id on its own list. */
  ghost predicate Mirrored<C>(s: State<C>) {
    forall d, x :: d in s.connections && s.connections[d] in s.info && x in s.info[s.connections[d]].sendToList ==>
      Alive(s, x) ==> d in s.info[x].subscribeIdList
  }

  /** What can be seen of the relation: the owners are the same; a send list holds only abstract
      subscribers, and every connected one. */
  ghost predicate Agrees<C>(s: State<C>, a: Topics<C>) {
    a.owner == s.connections && Listed(s, a.pairs) && Backed(s, a.pairs)
  }

  /** Agreement, and what the handlers need to keep it. */
  ghost predicate Refines<C>(s: State<C>, a: Topics<C>) {
    Agrees(s, a) && Inverse(s) && Mirrored(s)
  }

  // ----- Refinement, handler by handler -----

  lemma OwnerId<C>(s: State<C>, a: Topics<C>, c: C)
    requires Wf(s) && Refines(s, a) && c in s.info
    ensures Registered(a, c) <==> s.info[c].deviceId != DELETE
    ensures s.info[c].deviceId != DELETE ==>
      s.info[c].deviceId in a.owner && a.owner[s.info[c].deviceId] == c
    ensures forall d :: d in a.owner && a.owner[d] == c ==> d == s.info[c].deviceId
  {
  }

  /** One record changes, keeping its id, and some pairs with that publisher go. */
  lemma UpdateRefines<C>(s: State<C>, a: Topics<C>, c: C, i: ConnInfo<C>, pairs: set<(C, C)>)
    requires Refines(s, a) && c in s.info && i.deviceId == s.info[c].deviceId
    requires pairs <= a.pairs
    requires forall q :: q in a.pairs && q !in pairs ==> q.1 == c && q.0 !in i.sendToList
    requires forall x :: x in i.sendToList ==> x in s.info[c].sendToList
    requires forall x :: x in s.info[c].sendToList && (x, c) in pairs && IsConnected(s, x) ==> x in i.sendToList
    requires forall d :: d in s.info[c].subscribeIdList && d !in i.subscribeIdList && d in s.connections ==>
      s.connections[d] in s.info && c !in s.info[s.connections[d]].sendToList
    ensures Refines(SetInfo(s, c, i), a.(pairs := pairs))
  {
    var r := SetInfo(s, c, i);
    assert forall x :: x in s.info ==> Alive(r, x) == Alive(s, x);
    assert Inverse(r);
    assert Listed(r, pairs);
    assert Backed(r, pairs) by {
      forall q | q in pairs
        ensures q.0 in r.info && q.0 != q.1 && Alive(r, q.1) && (IsConnected(r, q.0) ==> q.0 in r.info[q.1].sendToList)
      {
        assert q in a.pairs;
      }
    }
    assert Mirrored(r);
  }

  lemma AddTargetRefines<C>(s: State<C>, a: Topics<C>, c: C, p: C, i: ConnInfo<C>)
    requires Refines(s, a) && Alive(s, c) && Alive(s, p) && c != p
    requires forall d :: d in s.connections && s.connections[d] == p ==> d in s.info[c].subscribeIdList
    requires i == s.info[p].(sendToList := Add(s.info[p].sendToList, c))
    ensures Refines(SetInfo(s, p, i), a.(pairs := a.pairs + {(c, p)}))
  {
    var r := SetInfo(s, p, i);
    assert forall x :: x in s.info ==> Alive(r, x) == Alive(s, x);
    assert Inverse(r);
    assert Listed(r, a.pairs + {(c, p)});
    assert Backed(r, a.pairs + {(c, p)});
    assert Mirrored(r);
  }

  lemma ForgetRefines<C>(s: State<C>, a: Topics<C>, pairs: set<(C, C)>)
    requires Refines(s, a) && pairs <= a.pairs
    requires forall q :: q in a.pairs && q !in pairs && q.1 in s.info ==> q.0 !in s.info[q.1].sendToList
    ensures Refines(s, a.(pairs := pairs))
  {
  }

  lemma OtherFieldsRefine<C>(s: State<C>, a: Topics<C>, r: State<C>)
    requires Refines(s, a)
    requires r.info == s.info && r.phase == s.phase && r.connections == s.connections
    ensures Refines(r, a)
  {
    assert forall x :: x in s.info ==> Alive(r, x) == Alive(s, x);
  }

  lemma ShutdownRefines<C>(s: State<C>, a: Topics<C>, c: C)
    requires Refines(s, a)
    ensures Refines(Shutdown(s, c), a)
  {
    var r := Shutdown(s, c);
    assert forall x :: x in s.info ==> Alive(r, x) == Alive(s, x);
    assert forall x :: x in s.info && IsConnected(r, x) ==> IsConnected(s, x);
  }

  lemma DownRefines<C>(s: State<C>, a: Topics<C>, c: C)
    requires Refines(s, a) && c in s.phase
    requires forall d :: d in s.connections ==> s.connections[d] != c
    requires forall q :: q in a.pairs ==> q.1 != c
    ensures Refines(s.(phase := s.phase[c := Down]), a)
  {
    var r := s.(phase := s.phase[c := Down]);
    assert forall x :: x in s.info && x != c ==> Alive(r, x) == Alive(s, x);
    assert forall x :: x in s.info && IsConnected(r, x) ==> IsConnected(s, x);
  }

  lemma ReleaseRefines<C>(s: State<C>, a: Topics<C>, c: C, d: Id)
    requires Refines(s, a) && c in s.info && d in s.connections && s.connections[d] == c
    ensures Refines(SetInfo(s.(connections := s.connections - {d}), c, s.info[c].(deviceId := DELETE)),
                    a.(owner := a.owner - {d}))
  {
    var r := SetInfo(s.(connections := s.connections - {d}), c, s.info[c].(deviceId := DELETE));
    assert forall x :: x in s.info ==> Alive(r, x) == Alive(s, x);
    assert Inverse(r);
    assert Mirrored(r);
  }

  lemma ClaimRefines<C>(s: State<C>, a: Topics<C>, c: C, d: Id)
    requires Refines(s, a) && Alive(s, c) && d != DELETE && d !in s.connections
    requires forall e :: e in s.connections ==> s.connections[e] != c
    requires forall x :: x in s.info[c].sendToList && Alive(s, x) ==> d in s.info[x].subscribeIdList
    ensures Refines(SetInfo(s, c, s.info[c].(deviceId := d)).(connections := s.connections[d := c]), Claim(a, c, d))
  {
    var r := SetInfo(s, c, s.info[c].(deviceId := d)).(connections := s.connections[d := c]);
    assert forall x :: x in s.info ==> Alive(r, x) == Alive(s, x);
    assert Inverse(r);
    assert Listed(r, a.pairs);
    assert Backed(r, a.pairs);
    assert Mirrored(r);
  }

  lemma SubscribeRefines<C>(s: State<C>, a: Topics<C>, c: C, d: Id)
    requires Wf(s) && Refines(s, a) && Alive(s, c)
    ensures Refines(SubscribeDevice(s, c, d), Follow(a, c, d))
    ensures Accepts(s, c, d) <==> d in a.owner && a.owner[d] != c
  {
    OwnerId(s, a, c);
    assert Accepts(s, c, d) <==> d in a.owner && a.owner[d] != c;
    hide Closed, Core, Listed, Backed, Mirrored;
    if Accepts(s, c, d) {
      var p := s.connections[d];
      var i := s.info[c].(subscribeIdList := Add(s.info[c].subscribeIdList, d));
      var s1 := SetInfo(s, c, i);
      UpdateRefines(s, a, c, i, a.pairs);
      AddTargetRefines(s1, a, c, p, s1.info[p].(sendToList := Add(s1.info[p].sendToList, c)));
    }
  }

  lemma UnsubscribeRefines<C>(s: State<C>, a: Topics<C>, c: C, d: Id)
    requires Wf(s) && Refines(s, a) && Alive(s, c)
    ensures Refines(UnsubscribeDevice(s, c, d), Unfollow(a, c, d))
  {
    if d in s.info[c].subscribeIdList {
      EraseFirstDistinct(s.info[c].subscribeIdList, d);
      hide Closed, Core;
      var b := Unfollow(a, c, d);
      var s1 := s;
      if d in s.connections {
        var p := s.connections[d];
        var i := s.info[p].(sendToList := Without(s.info[p].sendToList, c));
        UpdateRefines(s, a, p, i, b.pairs);
        s1 := SetInfo(s, p, i);
        assert c !in s1.info[p].sendToList;
      }
      assert Refines(s1, b);
      var j := s1.info[c].(subscribeIdList := EraseFirst(s1.info[c].subscribeIdList, d));
      UpdateRefines(s1, b, c, j, b.pairs);
      hide Refines;
    } else {
      ForgetRefines(s, a, Unfollow(a, c, d).pairs);
    }
  }

  // ----- Unregister and disconnect -----

  ghost function UnfollowAll<C>(a: Topics<C>, c: C, l: seq<Id>): Topics<C>
    decreases |l|
  {
    if l == [] then a else UnfollowAll(Unfollow(a, c, l[0]), c, l[1..])
  }

  lemma {:induction false} UnfollowAllBounds<C>(a: Topics<C>, c: C, l: seq<Id>)
    ensures var b := UnfollowAll(a, c, l);
            && b.owner == a.owner && b.pairs <= a.pairs
            && (forall q :: q in a.pairs && q !in b.pairs ==> q.0 == c && Registered(a, q.1))
    decreases |l|
  {
    if l != [] {
      UnfollowAllBounds(Unfollow(a, c, l[0]), c, l[1..]);
    }
  }

  lemma {:induction false} UnsubscribeAllRefines<C>(s: State<C>, a: Topics<C>, c: C)
    requires Wf(s) && Refines(s, a) && Alive(s, c)
    ensures Refines(UnsubscribeAll(s, c), UnfollowAll(a, c, s.info[c].subscribeIdList))
    decreases |s.info[c].subscribeIdList|
  {
    hide Core, Closed, Refines;
    var l := s.info[c].subscribeIdList;
    if l != [] {
      UnsubscribeRefines(s, a, c, l[0]);
      UnsubscribeKeeps(s, c, l[0]);
      UnsubscribeExact(s, c, l[0], c);
      var s1 := UnsubscribeDevice(s, c, l[0]);
      hide UnsubscribeDevice, Without;
      assert s1.info[c].subscribeIdList == l[1..];
      UnsubscribeAllRefines(s1, Unfollow(a, c, l[0]), c);
    }
  }

  /** A connection with no ids left on its own list is on no registered publisher's list. */
  lemma Unlisted<C>(s: State<C>, a: Topics<C>, c: C)
    requires Refines(s, a) && Alive(s, c) && s.info[c].subscribeIdList == []
    ensures forall q :: q in a.pairs && q.0 == c && Registered(a, q.1) && q.1 in s.info ==>
      c !in s.info[q.1].sendToList
    ensures forall d :: d in s.connections && s.connections[d] in s.info ==>
      c !in s.info[s.connections[d]].sendToList
  {
  }

  ghost function DropFollower<C>(a: Topics<C>, c: C): Topics<C> {
    a.(pairs := set q | q in a.pairs && !(q.0 == c && Registered(a, q.1)))
  }

  ghost function DropPublisher<C>(a: Topics<C>, c: C): Topics<C> {
    a.(pairs := set q | q in a.pairs && q.1 != c)
  }

  lemma LeavePairs<C>(a: Topics<C>, c: C, b: Topics<C>)
    requires b.owner == a.owner && b.pairs <= a.pairs
    requires forall q :: q in a.pairs && q !in b.pairs ==> q.0 == c && Registered(a, q.1)
    ensures DropPublisher(DropFollower(b, c), c) == a.(pairs := Leave(a, c).pairs)
  {
  }

  lemma DropFollowerRefines<C>(s: State<C>, a: Topics<C>, c: C)
    requires Refines(s, a) && Alive(s, c) && s.info[c].subscribeIdList == []
    ensures Refines(s, DropFollower(a, c))
  {
    Unlisted(s, a, c);
    hide Refines;
    ForgetRefines(s, a, DropFollower(a, c).pairs);
  }

  lemma DropPublisherRefines<C>(s: State<C>, a: Topics<C>, c: C)
    requires Refines(s, a) && c in s.info
    ensures Refines(SetInfo(s, c, s.info[c].(sendToList := [])), DropPublisher(a, c))
  {
    hide Refines;
    UpdateRefines(s, a, c, s.info[c].(sendToList := []), DropPublisher(a, c).pairs);
  }

  /** After the loop and the clearing of its own list, `c` is in no pair that counts. */
  lemma CutRefines<C>(s: State<C>, a: Topics<C>, c: C)
    requires Wf(s) && Refines(s, a) && Alive(s, c)
    ensures var s1 := UnsubscribeAll(s, c);
            Refines(SetInfo(s1, c, s1.info[c].(sendToList := [])), a.(pairs := Leave(a, c).pairs))
  {
    hide Closed, Core, UnsubscribeAll, UnfollowAll, Refines, DropFollower, DropPublisher, Leave;
    var s1 := UnsubscribeAll(s, c);
    var b := UnfollowAll(a, c, s.info[c].subscribeIdList);
    UnsubscribeAllRefines(s, a, c);
    UnfollowAllBounds(a, c, s.info[c].subscribeIdList);
    DropFollowerRefines(s1, b, c);
    DropPublisherRefines(s1, DropFollower(b, c), c);
    LeavePairs(a, c, b);
  }

  lemma UnregisterRefines<C>(s: State<C>, a: Topics<C>, c: C)
    requires Wf(s) && Refines(s, a) && Alive(s, c)
    ensures Refines(UnregisterDevice(s, c), Leave(a, c))
  {
    hide Closed, Core, Refines, UnsubscribeAll, OwnsOneOf;
    CutRefines(s, a, c);
    OwnerId(s, a, c);
    UnsubscribeAllExact(s, c, c);
    var s1 := UnsubscribeAll(s, c);
    var s2 := SetInfo(s1, c, s1.info[c].(sendToList := []));
    var d := s.info[c].deviceId;
    if d == DELETE {
      assert Leave(a, c).owner == a.owner;
    } else {
      assert Leave(a, c).owner == a.owner - {d};
      assert s2.connections == a.owner by { OwnerAgrees(s2, a.(pairs := Leave(a, c).pairs)); }
      ReleaseRefines(s2, a.(pairs := Leave(a, c).pairs), c, d);
    }
  }

  lemma OwnerAgrees<C>(s: State<C>, a: Topics<C>)
    requires Refines(s, a)
    ensures s.connections == a.owner
  {
  }

  lemma UnsubscribeAllSame<C>(s: State<C>, r: State<C>, c: C)
    requires Closed(s) && Closed(r) && c in s.info
    requires r.info == s.info && r.connections == s.connections
    ensures UnsubscribeAll(r, c).info == UnsubscribeAll(s, c).info
  {
    hide Closed, UnsubscribeAll;
    forall x | x in s.info
      ensures UnsubscribeAll(r, c).info[x] == UnsubscribeAll(s, c).info[x]
    {
      UnsubscribeAllExact(s, c, x);
      UnsubscribeAllExact(r, c, x);
    }
  }

  lemma DownAfterUnregister<C>(s: State<C>, c: C)
    requires Wf(s) && Alive(s, c)
    ensures ConnectionDown(s, c) == Erased(UnregisterDevice(s, c), c)
  {
    EraseKeeps(s, c);
    UnsubscribeAllSame(s, Erased(s, c), c);
    UnsubscribeAllExact(s, c, c);
    UnsubscribeAllExact(Erased(s, c), c, c);
    hide Closed, Core, UnsubscribeAll, OwnsOneOf, EraseAt;
  }

  lemma GoneRefines<C>(s: State<C>, a: Topics<C>, c: C)
    requires Wf(s) && Refines(s, a) && Alive(s, c)
    ensures Refines(ConnectionDown(s, c), Leave(a, c))
  {
    DownAfterUnregister(s, c);
    UnregisterRefines(s, a, c);
    var r := UnregisterDevice(s, c);
    assert r.info[c].subscribeIdList == [];
    hide Closed, Core, UnregisterDevice, ConnectionDown;
    DownRefines(r, Leave(a, c), c);
    OtherFieldsRefine(r.(phase := r.phase[c := Down]), Leave(a, c), Erased(r, c));
  }

  // ----- Register, and exactly when it is safe -----

  /** What a caller can check before registering `d`: the connection holds `d` already, or
      holds nothing and everyone on its list who is up follows `d`. */
  ghost predicate RegisterSafe<C>(s: State<C>, c: C, d: Id)
    requires c in s.info
  {
    && d != DELETE
    && (|| s.info[c].deviceId == d
        || (&& s.info[c].deviceId == DELETE
            && forall x :: x in s.info[c].sendToList && Alive(s, x) ==> d in s.info[x].subscribeIdList))
  }

  lemma DisciplineIsSafe<C>(s: State<C>, a: Topics<C>, c: C, d: Id)
    requires Wf(s) && Refines(s, a) && c in s.info && MayRegister(a, c, d)
    ensures RegisterSafe(s, c, d)
  {
    OwnerId(s, a, c);
    hide Closed, Core;
    assert d in a.owner && a.owner[d] == c ==> s.info[c].deviceId == d;
  }

  lemma TakeOverState<C>(s: State<C>, c: C, d: Id)
    requires Closed(s) && c in s.info && d in s.connections && s.connections[d] != c
    ensures var o := s.connections[d];
            var s1 := SetInfo(s.(connections := s.connections - {d}), o, s.info[o].(deviceId := DELETE));
            var s2 := SetInfo(s1, c, s1.info[c].(deviceId := d)).(connections := s1.connections[d := c]);
            RegisterDevice(s, c, d) == Shutdown(s2, o)
  {
    var o := s.connections[d];
    var i, j := s.info[c].(deviceId := d), s.info[o].(deviceId := DELETE);
    hide Closed;
    assert s.info[c := i][o := j] == s.info[o := j][c := i];
    assert (s.connections - {d})[d := c] == s.connections[d := c];
  }

  lemma ClaimerHoldsNothing<C>(s: State<C>, a: Topics<C>, c: C, d: Id)
    requires Wf(s) && Refines(s, a) && c in s.info && RegisterSafe(s, c, d)
    requires d in s.connections && s.connections[d] != c
    ensures s.info[c].deviceId == DELETE && s.connections[d] in s.info
    ensures forall e :: e in s.connections ==> s.connections[e] != c
  {
    OwnerId(s, a, c);
    hide Core, Listed, Backed, Mirrored;
  }

  lemma TakeOverRefines<C>(s: State<C>, a: Topics<C>, c: C, d: Id)
    requires Wf(s) && Refines(s, a) && Alive(s, c) && RegisterSafe(s, c, d)
    requires d in s.connections && s.connections[d] != c
    ensures Refines(RegisterDevice(s, c, d), Claim(a, c, d))
  {
    hide Closed, Core, Refines, RegisterDevice;
    ClaimerHoldsNothing(s, a, c, d);
    TakeOverState(s, c, d);
    OwnerAgrees(s, a);
    var o := s.connections[d];
    var s1 := SetInfo(s.(connections := s.connections - {d}), o, s.info[o].(deviceId := DELETE));
    var a1 := a.(owner := a.owner - {d});
    assert a1.owner[d := c] == a.owner[d := c];
    ReleaseRefines(s, a, o, d);
    assert forall x :: x in s.info ==> Alive(s1, x) == Alive(s, x);
    ClaimRefines(s1, a1, c, d);
    ShutdownRefines(SetInfo(s1, c, s1.info[c].(deviceId := d)).(connections := s1.connections[d := c]), Claim(a1, c, d), o);
  }

  lemma RegisterRefines<C>(s: State<C>, a: Topics<C>, c: C, d: Id)
    requires Wf(s) && Refines(s, a) && Alive(s, c) && RegisterSafe(s, c, d)
    ensures Refines(RegisterDevice(s, c, d), Claim(a, c, d))
  {
    OwnerId(s, a, c);
    OwnerAgrees(s, a);
    if d in s.connections && s.connections[d] != c {
      TakeOverRefines(s, a, c, d);
    } else if d in s.connections {
      hide Closed, Core, Refines;
      assert s.info[c := s.info[c]] == s.info;
      assert a.owner[d := c] == a.owner;
    } else {
      hide Closed, Core, Refines;
      ClaimRefines(s, a, c, d);
    }
  }

  /** What register leaves of every record. */
  lemma RegisterAt<C>(s: State<C>, c: C, d: Id, x: C)
    requires Closed(s) && c in s.info && x in s.info
    ensures var r := RegisterDevice(s, c, d);
            && r.info[x] == s.info[x].(deviceId := r.info[x].deviceId)
            && Alive(r, x) == Alive(s, x)
            && (!(d in s.connections && s.connections[d] == x) && x != c ==> r.info[x] == s.info[x])
    ensures RegisterDevice(s, c, d).info[c].deviceId == d
    ensures RegisterDevice(s, c, d).connections == s.connections[d := c]
  {
    hide Closed;
    assert d in s.connections && s.connections[d] == c ==> s.connections[d := c] == s.connections;
  }

  /** Agreement now, and whoever unregisters next. */
  ghost predicate AgreesNext<C>(s: State<C>, a: Topics<C>)
    requires Closed(s)
  {
    Agrees(s, a) && forall y :: y in s.info && Alive(s, y) ==> Agrees(UnregisterDevice(s, y), Leave(a, y))
  }

  lemma RefinesAgrees<C>(s: State<C>, a: Topics<C>)
    requires Wf(s) && Refines(s, a)
    ensures AgreesNext(s, a)
  {
    forall y | y in s.info && Alive(s, y)
      ensures Agrees(UnregisterDevice(s, y), Leave(a, y))
    {
      UnregisterRefines(s, a, y);
    }
  }

  /** A connection that has registered the sentinel or a second id: when it unregisters, an entry
      stays under which the relation has no owner. */
  lemma EntryStays<C>(s: State<C>, a: Topics<C>, c: C, d: Id)
    requires Wf(s) && Refines(s, a) && Alive(s, c) && (d == DELETE || s.info[c].deviceId !in {DELETE, d})
    ensures !Agrees(UnregisterDevice(RegisterDevice(s, c, d), c), Leave(Claim(a, c, d), c))
  {
    hide Closed, Core, Refines, RegisterDevice, UnregisterDevice, Listed, Backed;
    RegisterAt(s, c, d, c);
    OwnerId(s, a, c);
    OwnerAgrees(s, a);
    var r, b := RegisterDevice(s, c, d), Claim(a, c, d);
    UnregisterConnections(r, c);
    var e := if d == DELETE then d else s.info[c].deviceId;
    assert e in b.owner && b.owner[e] == c;
    assert e in UnregisterDevice(r, c).connections && e !in Leave(b, c).owner;
  }

  /** A connection that holds nothing and registers an id which `x`, on its list, does not
      follow: when `x` unregisters, it stays on that list, and the relation has no such pair. */
  lemma SubscriberStays<C>(s: State<C>, a: Topics<C>, c: C, d: Id, x: C)
    requires Wf(s) && Refines(s, a) && Alive(s, c) && d != DELETE && s.info[c].deviceId == DELETE
    requires x in s.info[c].sendToList && Alive(s, x) && d !in s.info[x].subscribeIdList
    ensures var r := RegisterDevice(s, c, d);
            && x in r.info && Alive(r, x) && c in r.info
            && x in UnregisterDevice(r, x).info[c].sendToList && (x, c) !in Leave(Claim(a, c, d), x).pairs
  {
    hide Closed, Core, Refines, RegisterDevice, UnsubscribeAll;
    ListedIsUp(s, c, x);
    RegisterAt(s, c, d, c);
    RegisterAt(s, c, d, x);
    OwnerId(s, a, c);
    OwnerAgrees(s, a);
    NotOnOwnList(s, a, c, x);
    var r, b := RegisterDevice(s, c, d), Claim(a, c, d);
    UnsubscribeAllExact(r, x, c);
    assert !OwnsOneOf(r, c, r.info[x].subscribeIdList);
    assert d in b.owner.Keys && b.owner[d] == c;
    assert Registered(b, c);
  }

  lemma ListedIsUp<C>(s: State<C>, c: C, x: C)
    requires Closed(s) && c in s.info && x in s.info[c].sendToList
    ensures x in s.info
  {
  }

  lemma NotOnOwnList<C>(s: State<C>, a: Topics<C>, c: C, x: C)
    requires Refines(s, a) && c in s.info && x in s.info[c].sendToList
    ensures x != c
  {
    assert (x, c) in a.pairs;
  }

  /** The register condition is exact for what can be seen: registering keeps agreement, also
      when somebody unregisters next, if and only if `RegisterSafe` held before the call. */
  lemma RegisterExact<C>(s: State<C>, a: Topics<C>, c: C, d: Id)
    requires Wf(s) && Refines(s, a) && Alive(s, c)
    ensures AgreesNext(RegisterDevice(s, c, d), Claim(a, c, d)) <==> RegisterSafe(s, c, d)
  {
    hide Closed, Core, Refines, RegisterDevice, UnregisterDevice, Listed, Backed, Leave, Claim;
    RegisterKeeps(s, c, d);
    RegisterAt(s, c, d, c);
    var r := RegisterDevice(s, c, d);
    if RegisterSafe(s, c, d) {
      RegisterRefines(s, a, c, d);
      RefinesAgrees(r, Claim(a, c, d));
    } else if d == DELETE || s.info[c].deviceId !in {DELETE, d} {
      EntryStays(s, a, c, d);
    } else {
      var x :| x in s.info[c].sendToList && Alive(s, x) && d !in s.info[x].subscribeIdList;
      SubscriberStays(s, a, c, d, x);
      NotListed(UnregisterDevice(r, x), Leave(Claim(a, c, d), x), c, x);
    }
  }

  lemma NotListed<C>(s: State<C>, a: Topics<C>, c: C, x: C)
    requires c in s.info && x in s.info[c].sendToList && (x, c) !in a.pairs
    ensures !Agrees(s, a)
  {
  }

  /** The same for a whole event: only a register can be unsafe. */
  ghost predicate Safe<C>(s: State<C>, e: Event<C>)
    requires Enabled(s, e)
  {
    e.Arrive? && Classify(e.message).Register? ==> RegisterSafe(s, e.conn, Classify(e.message).id)
  }

  ghost predicate AllSafe<C>(s: State<C>, es: seq<Event<C>>)
    requires Closed(s) && CanRun(s, es)
    decreases |es|
  {
    es == [] || (Safe(s, es[0]) && AllSafe(Step(s, es[0]), es[1..]))
  }

  // ----- The other steps -----

  lemma SendDataRefines<C>(s: State<C>, a: Topics<C>, c: C, m: Message)
    requires Wf(s) && Refines(s, a) && c in s.info
    ensures Refines(SendData(s, c, m), a)
  {
    hide Closed, Core, Refines;
    var i := s.info[c].(sendToList := OnlyConnected(s.info[c].sendToList, s.phase));
    UpdateRefines(s, a, c, i, a.pairs);
    OtherFieldsRefine(SetInfo(s, c, i), a, SendData(s, c, m));
  }

  lemma TouchRefines<C>(s: State<C>, a: Topics<C>, c: C, time: int)
    requires Refines(s, a) && c in s.info
    ensures Refines(SetInfo(s, c, s.info[c].(lastReceiveTime := time)), a)
  {
    hide Refines;
    UpdateRefines(s, a, c, s.info[c].(lastReceiveTime := time), a.pairs);
  }

  lemma EffectRefines<C>(s: State<C>, a: Topics<C>, c: C, m: Message, time: int)
    requires Wf(s) && Refines(s, a) && Alive(s, c) && Safe(s, Arrive(c, m, time))
    ensures Refines(Effect(s, c, m, time), Abstract(a, Arrive(c, m, time)))
  {
    hide Closed, Core, Refines, RegisterDevice, SubscribeDevice, UnsubscribeDevice, UnregisterDevice, SendData;
    hide Claim, Follow, Unfollow, Leave;
    match Classify(m)
    case Register(d) => RegisterRefines(s, a, c, d);
    case Subscribe(d) => SubscribeRefines(s, a, c, d);
    case Data => SendDataRefines(s, a, c, m);
    case Unregister => UnregisterRefines(s, a, c);
    case Unsubscribe(d) => UnsubscribeRefines(s, a, c, d);
    case Check(_) =>
    case Beat =>
      TouchRefines(s, a, c, time);
      OtherFieldsRefine(SetInfo(s, c, s.info[c].(lastReceiveTime := time)), a, HeartBeat(s, c, time));
    case Unknown =>
  }

  lemma OnMessageRefines<C>(s: State<C>, a: Topics<C>, c: C, m: Message, time: int)
    requires Wf(s) && Refines(s, a) && Alive(s, c) && Safe(s, Arrive(c, m, time))
    ensures Refines(OnMessage(s, c, m, time), Abstract(a, Arrive(c, m, time)))
  {
    hide Closed, Core, Refines, Effect;
    if !Classify(m).Unknown? {
      KnownCommand(m);
      EffectRefines(s, a, c, m, time);
      OtherFieldsRefine(Effect(s, c, m, time), Abstract(a, Arrive(c, m, time)), OnMessage(s, c, m, time));
    }
  }

  lemma NewcomerRefines<C>(s: State<C>, a: Topics<C>, c: C, i: ConnInfo<C>, r: State<C>)
    requires Refines(s, a) && c !in s.info && i.sendToList == []
    requires r.info == s.info[c := i] && r.phase == s.phase[c := Connected] && r.connections == s.connections
    ensures Refines(r, a)
  {
    assert forall x :: x in s.info ==> Alive(r, x) == Alive(s, x);
    assert forall d :: d in s.connections ==> s.connections[d] in s.info;
    assert Inverse(r);
    assert Listed(r, a.pairs);
    assert Backed(r, a.pairs);
    assert Mirrored(r);
  }

  lemma UpRefines<C>(s: State<C>, a: Topics<C>, c: C, now: int)
    requires Wf(s) && Refines(s, a) && c !in s.info
    ensures Refines(ConnectionUp(s, c, now), a)
  {
    hide Closed, Core, Refines;
    NewcomerRefines(s, a, c, ConnInfo(DELETE, now, s.nextHandle, [], []), ConnectionUp(s, c, now));
  }

  lemma SweepStepRefines<C>(s: State<C>, a: Topics<C>, i: nat, now: int)
    requires Closed(s) && Refines(s, a) && i < |s.connectionList|
    ensures Refines(SweepStep(s, i, now), a)
  {
    var c := s.connectionList[i].conn;
    assert c in s.info;
    hide Closed, Refines;
    if Expired(s, c, now) {
      ShutdownRefines(s, a, c);
    } else {
      TouchRefines(s, a, c, now);
    }
  }

  lemma {:induction false} SweepRefines<C>(s: State<C>, a: Topics<C>, i: nat, now: int)
    requires Wf(s) && Refines(s, a)
    ensures Refines(Sweep(s, i, now), a)
    decreases |s.connectionList| - i
  {
    hide Closed, Core, Refines, SweepStep;
    if i < |s.connectionList| && !Breaks(s, i, now) {
      SweepStepKeeps(s, i, now);
      SweepStepRefines(s, a, i, now);
      SweepRefines(SweepStep(s, i, now), a, i + 1, now);
    }
  }

  lemma StepRefines<C>(s: State<C>, a: Topics<C>, e: Event<C>)
    requires Wf(s) && Refines(s, a) && Enabled(s, e) && Safe(s, e)
    ensures Refines(Step(s, e), Abstract(a, e))
  {
    hide Closed, Core, Refines, ConnectionUp, ConnectionDown, OnMessage, Shutdown, Sweep;
    match e
    case Up(c, t) => UpRefines(s, a, c, t);
    case Gone(c) => GoneRefines(s, a, c);
    case Arrive(c, m, t) => OnMessageRefines(s, a, c, m, t);
    case Refused(c) => ShutdownRefines(s, a, c);
    case Tick(t) => SweepRefines(s, a, 0, t);
  }

  // ----- Main results -----

  /** Every run whose registers are safe refines the relation. */
  lemma {:induction false} RunRefines<C>(s: State<C>, a: Topics<C>, es: seq<Event<C>>)
    requires Wf(s) && Refines(s, a) && CanRun(s, es) && AllSafe(s, es)
    ensures Wf(Run(s, es)) && Refines(Run(s, es), AbstractRun(a, es))
    decreases |es|
  {
    hide Closed, Core, Refines, Step, Abstract, Safe;
    if es != [] {
      StepKeeps(s, es[0]);
      StepRefines(s, a, es[0]);
      RunRefines(Step(s, es[0]), Abstract(a, es[0]), es[1..]);
    }
  }

  /** After every prefix of the run, the empty one included, the registry agrees with the
      relation, and would do so after anybody's unregister. */
  ghost predicate AgreesThroughout<C>(s: State<C>, a: Topics<C>, es: seq<Event<C>>)
    requires Closed(s) && CanRun(s, es)
    decreases |es|
  {
    AgreesNext(s, a) && (es == [] || AgreesThroughout(Step(s, es[0]), Abstract(a, es[0]), es[1..]))
  }

  lemma {:induction false} PrefixesCanRun<C>(s: State<C>, es: seq<Event<C>>, k: nat)
    requires Closed(s) && CanRun(s, es) && k <= |es|
    ensures CanRun(s, es[..k])
    decreases k
  {
    hide Closed, Step, Enabled;
    if k > 0 {
      assert es[..k][1..] == es[1..][..k - 1];
      PrefixesCanRun(Step(s, es[0]), es[1..], k - 1);
    }
  }

  /** What `AgreesThroughout` says of each prefix. */
  lemma {:induction false} ThroughoutAt<C>(s: State<C>, a: Topics<C>, es: seq<Event<C>>, k: nat)
    requires Closed(s) && CanRun(s, es) && AgreesThroughout(s, a, es) && k <= |es|
    ensures CanRun(s, es[..k]) && AgreesNext(Run(s, es[..k]), AbstractRun(a, es[..k]))
    decreases k
  {
    hide Closed, Step, Enabled, AgreesNext, Abstract;
    PrefixesCanRun(s, es, k);
    if k > 0 {
      assert es[..k][1..] == es[1..][..k - 1];
      ThroughoutAt(Step(s, es[0]), Abstract(a, es[0]), es[1..], k - 1);
    }
  }

  /** The callback of an unsafe register changes nothing that agreement is about. */
  lemma OutputIrrelevant<C>(s: State<C>, r: State<C>, a: Topics<C>)
    requires Closed(s) && Closed(r) && r == s.(sent := r.sent) && AgreesNext(s, a)
    ensures AgreesNext(r, a)
  {
    hide Closed, UnregisterDevice, Leave, Listed, Backed;
    assert Agrees(r, a) by { SameAgrees(s, r, a); }
    forall y | y in r.info && Alive(r, y)
      ensures Agrees(UnregisterDevice(r, y), Leave(a, y))
    {
      assert Alive(s, y);
      UnregisterSame(s, r, y);
      SameAgrees(UnregisterDevice(s, y), UnregisterDevice(r, y), Leave(a, y));
    }
  }

  lemma SameAgrees<C>(s: State<C>, r: State<C>, a: Topics<C>)
    requires Agrees(s, a) && r.info == s.info && r.phase == s.phase && r.connections == s.connections
    ensures Agrees(r, a)
  {
    assert forall x :: x in s.info ==> Alive(r, x) == Alive(s, x);
  }

  lemma UnregisterSame<C>(s: State<C>, r: State<C>, c: C)
    requires Closed(s) && Closed(r) && c in s.info && r == s.(sent := r.sent)
    ensures var u, v := UnregisterDevice(s, c), UnregisterDevice(r, c);
            u.info == v.info && u.phase == v.phase && u.connections == v.connections
  {
    hide Closed, UnsubscribeAll;
    UnsubscribeAllSame(s, r, c);
    UnsubscribeAllExact(s, c, c);
    UnsubscribeAllExact(r, c, c);
  }

  lemma StepAgreesOnlyIfSafe<C>(s: State<C>, a: Topics<C>, e: Event<C>)
    requires Wf(s) && Refines(s, a) && Enabled(s, e)
    ensures AgreesNext(Step(s, e), Abstract(a, e)) <==> Safe(s, e)
  {
    hide Closed, Core, Refines, RegisterSafe, RegisterDevice, Claim, AgreesNext;
    StepKeeps(s, e);
    if Safe(s, e) {
      StepRefines(s, a, e);
      RefinesAgrees(Step(s, e), Abstract(a, e));
    } else if AgreesNext(Step(s, e), Abstract(a, e)) {
      var c, m, d := e.conn, e.message, Classify(e.message).id;
      KnownCommand(m);
      OutputIrrelevant(Step(s, e), RegisterDevice(s, c, d), Claim(a, c, d));
      RegisterExact(s, a, c, d);
    }
  }

  /** The register condition is exact for whole runs: the registry agrees with the relation
      throughout, whoever unregisters next, if and only if every register was safe when it
      arrived. */
  lemma {:induction false} RunExact<C>(s: State<C>, a: Topics<C>, es: seq<Event<C>>)
    requires Wf(s) && Refines(s, a) && CanRun(s, es)
    ensures AgreesThroughout(s, a, es) <==> AllSafe(s, es)
    decreases |es|
  {
    hide Closed, Core, Refines, Step, Abstract, Safe, Enabled, AgreesNext;
    RefinesAgrees(s, a);
    if es != [] {
      StepKeeps(s, es[0]);
      StepAgreesOnlyIfSafe(s, a, es[0]);
      if Safe(s, es[0]) {
        StepRefines(s, a, es[0]);
        RunExact(Step(s, es[0]), Abstract(a, es[0]), es[1..]);
      } else if AgreesThroughout(s, a, es) {
        ThroughoutStarts(Step(s, es[0]), Abstract(a, es[0]), es[1..]);
      }
    }
  }

  lemma ThroughoutStarts<C>(s: State<C>, a: Topics<C>, es: seq<Event<C>>)
    requires Closed(s) && CanRun(s, es) && AgreesThroughout(s, a, es)
    ensures AgreesNext(s, a)
  {
    hide Closed, AgreesNext;
  }

  /** The discipline, which speaks of the relation only, makes every register safe. */
  lemma {:induction false} DisciplineSuffices<C>(s: State<C>, a: Topics<C>, es: seq<Event<C>>)
    requires Wf(s) && Refines(s, a) && CanRun(s, es) && AllDisciplined(a, es)
    ensures AllSafe(s, es)
    decreases |es|
  {
    hide Closed, Core, Refines, Step, Abstract, MayRegister, RegisterSafe;
    if es != [] {
      var e := es[0];
      if e.Arrive? && Classify(e.message).Register? {
        DisciplineIsSafe(s, a, e.conn, Classify(e.message).id);
      }
      StepKeeps(s, e);
      StepRefines(s, a, e);
      DisciplineSuffices(Step(s, e), Abstract(a, e), es[1..]);
    }
  }

  ghost function NoTopics<C>(): Topics<C> {
    Topics(map[], {})
  }

  /** From the start, where nothing but the run itself is in question. */
  lemma RegistryExact<C>(idleSeconds: int, es: seq<Event<C>>)
    requires CanRun(Init(idleSeconds), es)
    ensures AgreesThroughout(Init(idleSeconds), NoTopics(), es) <==> AllSafe(Init(idleSeconds), es)
  {
    hide CanRun, AllSafe, AgreesThroughout;
    RunExact(Init<C>(idleSeconds), NoTopics(), es);
  }

  /** In every run with safe registers: a publisher's list has no duplicates, holds only its abstract
      subscribers, and holds every connected one. */
  lemma RegistryIsPubSub<C>(idleSeconds: int, es: seq<Event<C>>)
    requires CanRun(Init(idleSeconds), es) && AllSafe(Init(idleSeconds), es)
    ensures var s, a := Run(Init(idleSeconds), es), AbstractRun(NoTopics(), es);
            && Wf(s) && Refines(s, a)
            && (forall p :: p in s.info ==> Distinct(s.info[p].sendToList))
            && (forall p, x :: p in s.info && x in s.info[p].sendToList ==> (x, p) in a.pairs)
            && (forall q :: q in a.pairs && IsConnected(s, q.0) ==> q.1 in s.info && q.0 in s.info[q.1].sendToList)
  {
    RunRefines(Init<C>(idleSeconds), NoTopics(), es);
  }

  /** In every run with safe registers the map and the device ids are inverse of each other, nobody is
      on its own list, and the alive check is exact. */
  lemma OwnersAndIdsAreInverse<C>(idleSeconds: int, es: seq<Event<C>>, d: Id)
    requires CanRun(Init(idleSeconds), es) && AllSafe(Init(idleSeconds), es)
    ensures var s := Run(Init(idleSeconds), es);
            && (forall c :: c in s.info ==>
                  (d in s.connections && s.connections[d] == c <==> s.info[c].deviceId == d != DELETE))
            && (forall c :: c in s.info ==> c !in s.info[c].sendToList)
            && (CheckDeviceAlive(s, d) <==>
                  exists c :: c in s.info && IsConnected(s, c) && s.info[c].deviceId == d != DELETE)
  {
    RegistryIsPubSub<C>(idleSeconds, es);
    var s := Run(Init<C>(idleSeconds), es);
    hide Mirrored, ListsDistinct, IdleExact, Run, CanRun, AllSafe, AbstractRun;
    if CheckDeviceAlive(s, d) {
      var c := s.connections[d];
      assert c in s.info && IsConnected(s, c) && s.info[c].deviceId == d != DELETE;
    }
  }

  // ----- Unsubscribing from an id that has changed hands -----

  /** Unsubscribing from `d` ends what `p` sends to a connected `x` if and only if `p` owns `d`
      at that moment; a publisher that lost `d` to another connection keeps `x` on its list. */
  lemma UnsubscribeStopsOwnerOnly<C>(s: State<C>, a: Topics<C>, x: C, p: C, d: Id)
    requires Wf(s) && Refines(s, a) && IsConnected(s, x) && (x, p) in a.pairs
    ensures x in s.info && p in s.info && x in s.info[p].sendToList
    ensures x !in UnsubscribeDevice(s, x, d).info[p].sendToList <==> d in s.connections && s.connections[d] == p
  {
    assert (x, p).0 in s.info && (x, p).1 in s.info;
    UnsubscribeRefines(s, a, x, d);
    hide Core, Closed, UnsubscribeDevice;
    assert (x, p) in Unfollow(a, x, d).pairs <==> !(d in s.connections && s.connections[d] == p);
  }

  // ----- Without the discipline -----

  /** The inverse property and complete teardown need the discipline: whenever a connection
      that holds `d` registers another id, its entry under `d` stays, the connection can then
      become its own subscriber, and the entry outlives the connection. */
  lemma SecondIdIsNotSafe<C>(s: State<C>, c: C, d: Id, e: Id)
    requires Wf(s) && Alive(s, c) && s.info[c].deviceId == d != DELETE && e != d
    ensures var r := RegisterDevice(s, c, e);
            && d in r.connections && r.connections[d] == c && r.info[c].deviceId == e
            && c in SubscribeDevice(r, c, d).info[c].sendToList
            && d in ConnectionDown(r, c).connections && ConnectionDown(r, c).connections[d] == c
            && ConnectionDown(r, c).phase[c].Down?
  {
    hide Core, Closed, RegisterDevice, UnregisterDevice, SubscribeDevice, ConnectionDown;
    HolderIsOwner(s, c);
    var r := RegisterDevice(s, c, e);
    RegisterAt(s, c, e, c);
    RegisterKeeps(s, c, e);
    SelfSubscribed(r, c, d);
    EntryOutlives(r, c, d);
  }

  lemma HolderIsOwner<C>(s: State<C>, c: C)
    requires Core(s) && c in s.info && s.info[c].deviceId != DELETE
    ensures s.info[c].deviceId in s.connections && s.connections[s.info[c].deviceId] == c
  {
  }

  lemma SelfSubscribed<C>(s: State<C>, c: C, d: Id)
    requires Closed(s) && c in s.info && d in s.connections && s.connections[d] == c && s.info[c].deviceId != d
    ensures c in SubscribeDevice(s, c, d).info[c].sendToList
  {
    hide Closed;
  }

  lemma EntryOutlives<C>(s: State<C>, c: C, d: Id)
    requires Wf(s) && Alive(s, c) && d in s.connections && s.connections[d] == c && s.info[c].deviceId != d
    ensures var r := ConnectionDown(s, c); d in r.connections && r.connections[d] == c && c in r.phase && r.phase[c].Down?
  {
    hide Core, Closed, UnregisterDevice, EraseAt;
    EraseKeeps(s, c);
    UnregisterConnections(Erased(s, c), c);
  }

  /** An entry left behind under `d` goes when another connection registers `d`; but that
      register also takes from its owner the id `e` it holds, and leaves its entry under `e`. */
  lemma LeftoverIsReplaced<C>(s: State<C>, c: C, d: Id, q: C)
    requires Wf(s) && c in s.info && d in s.connections && s.connections[d] == c && q in s.info && q != c
    requires s.info[c].deviceId != d && s.info[c].deviceId != DELETE
    ensures var r, e := RegisterDevice(s, q, d), s.info[c].deviceId;
            && d in r.connections && r.connections[d] == q && r.info[c].deviceId == DELETE
            && e in r.connections && r.connections[e] == c
  {
    hide Closed;
    assert s.info[c].deviceId in s.connections;
  }
}
