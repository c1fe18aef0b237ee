/** Requests entering and leaving CFQ's queues, the active queue, and the forced drain. */
module CfqRuns {
  import opened CfqChoose
  import opened CfqQueues
  import opened Lists
  import opened Options

  // ----------------------------------------------------------------- requests of a queue

  function Index(list: seq<nat>, r: nat): (k: nat)
    requires r in list
    ensures k < |list| && list[k] == r
  {
    if list[0] == r then 0 else 1 + Index(list[1..], r)
  }

  function NextAfter(d: Cfqd, x: Cfqq, r: nat): Option<nat>
    requires r in x.sortList && Sorted(d.rqs, x.sortList)
  {
    FindNext(d.tun, d.rqs, x.sortList, Index(x.sortList, r))
  }

  function Unlisted(x: Cfqq, r: nat, sync: bool, next: Option<nat>): Cfqq {
    x.(next := next, fifo := Without(x.fifo, r), queued := x.queued.Take(sync), sortList := Without(x.sortList, r))
  }

  ghost predicate Holds(d: Cfqd, q: nat, r: nat) {
    q < |d.queues| && r in d.queues[q].sortList
  }

  /** cfq_remove_request. */
  function RemoveRq(d: Cfqd, q: nat, r: nat): Cfqd
    requires Holds(d, q, r) && Sorted(d.rqs, d.queues[q].sortList)
  {
    var x := d.queues[q];
    SetQueue(d, q, Unlisted(x, r, d.rqs[r].sync, if x.next == Some(r) then NextAfter(d, x, r) else x.next))
      .(rqQueued := d.rqQueued - 1)
  }

  /** cfq_dispatch_insert. */
  function DispatchInsert(d: Cfqd, q: nat, r: nat): Cfqd
    requires AllLists(d) && Holds(d, q, r)
  {
    var x := d.queues[q];
    assert ListsOk(d.rqs, q, x);
    SetQueue(d, q, Unlisted(x, r, d.rqs[r].sync, NextAfter(d, x, r))).(rqQueued := d.rqQueued - 1, out := d.out + [r])
  }

  lemma {:induction false} SortedWithout(rqs: seq<Rq>, list: seq<nat>, r: nat)
    requires Sorted(rqs, list)
    ensures Sorted(rqs, Without(list, r))
  {
    if list != [] {
      SortedWithout(rqs, list[1..], r);
      if list[0] != r {
        SortedCons(rqs, list, Without(list[1..], r));
      }
    }
  }

  lemma SortedCons(rqs: seq<Rq>, list: seq<nat>, w: seq<nat>)
    requires Sorted(rqs, list) && list != [] && Sorted(rqs, w) && forall x :: x in w ==> x in list[1..]
    ensures Sorted(rqs, [list[0]] + w)
  {
    forall i | 0 <= i < |w| ensures rqs[list[0]].sector <= rqs[w[i]].sector {
      assert w[i] in list[1..];
    }
  }

  /** The request after r is another one of the list, if there is another. */
  lemma NextAfterOk(d: Cfqd, x: Cfqq, r: nat)
    requires r in x.sortList && Sorted(d.rqs, x.sortList) && NoDup(x.sortList)
    ensures var n := NextAfter(d, x, r);
      && (n.None? <==> Without(x.sortList, r) == [])
      && (n.Some? ==> n.value in Without(x.sortList, r))
  {
    WithoutCount(x.sortList, r);
    var k := Index(x.sortList, r);
    var n := NextAfter(d, x, r);
    if n.Some? {
      var i :| 0 <= i < |x.sortList| && i != k && x.sortList[i] == n.value;
    }
  }

  lemma UnlistedOk(d: Cfqd, q: nat, r: nat, next: Option<nat>)
    requires AllLists(d) && Holds(d, q, r)
    requires next == NextAfter(d, d.queues[q], r) || (next == d.queues[q].next != Some(r))
    ensures ListsOk(d.rqs, q, Unlisted(d.queues[q], r, d.rqs[r].sync, next))
    ensures |Without(d.queues[q].sortList, r)| == |d.queues[q].sortList| - 1
    ensures d.queues[q].queued.Of(d.rqs[r].sync) > 0
  {
    var x := d.queues[q];
    assert ListsOk(d.rqs, q, x);
    NextAfterOk(d, x, r);
    SortedWithout(d.rqs, x.sortList, r);
    WithoutNoDup(x.sortList, r);
    WithoutNoDup(x.fifo, r);
    WithoutCount(x.sortList, r);
    TakeCounted(d.rqs, x.sortList, r);
  }

  /** Two queues alike but for their requests. */
  ghost predicate ListsApart(x: Cfqq, y: Cfqq) {
    y == x.(sortList := y.sortList, fifo := y.fifo, next := y.next, queued := y.queued)
  }

  /** Only the request lists of queue q differ, and the number queued with them. */
  ghost predicate OnlyLists(d: Cfqd, e: Cfqd, q: nat) {
    && |e.queues| == |d.queues| && q < |d.queues| && e.groups == d.groups && e.order == d.order
    && (forall k :: 0 <= k < |d.queues| && k != q ==> e.queues[k] == d.queues[k])
    && ListsApart(d.queues[q], e.queues[q])
    && e.busy == d.busy && e.busySync == d.busySync && e.active == d.active && e.tun == d.tun
    && e.rqQueued == d.rqQueued - |d.queues[q].sortList| + |e.queues[q].sortList|
  }

  /** Every request of another queue is as it was. */
  ghost predicate OthersSame(d: Cfqd, e: Cfqd, q: nat) {
    forall r :: 0 <= r < |d.rqs| && d.rqs[r].owner != q ==> r < |e.rqs| && e.rqs[r] == d.rqs[r]
  }

  lemma ListsSame(d: Cfqd, e: Cfqd, q: nat, k: nat)
    requires OthersSame(d, e, q) && k < |d.queues| && k != q && ListsOk(d.rqs, k, d.queues[k])
    ensures ListsOk(e.rqs, k, d.queues[k])
  {
    hide Counted;
    CountedSame(d.rqs, e.rqs, d.queues[k].sortList);
  }

  lemma ListsChangeOk(d: Cfqd, e: Cfqd, q: nat)
    requires Core(d) && OnlyLists(d, e, q) && OthersSame(d, e, q) && ListsOk(e.rqs, q, e.queues[q])
    ensures Core(e)
  {
    hide GroupOk, Total;
    forall k | 0 <= k < |e.queues| ensures ListsOk(e.rqs, k, e.queues[k]) && Linked(e, e.queues[k]) {
      assert ListsOk(d.rqs, k, d.queues[k]) && Linked(d, d.queues[k]);
      if k != q { ListsSame(d, e, q, k); }
    }
    GroupsFrame(d, e, 0, 0);
    OrderFrame(d, e);
    assert e.queues == d.queues[q := e.queues[q]];
    TotalSet(d.queues, IsBusy, q, e.queues[q]);
    TotalSet(d.queues, IsBusySync, q, e.queues[q]);
    TotalSet(d.queues, QueuedOn, q, e.queues[q]);
  }

  lemma RemoveRqOk(d: Cfqd, q: nat, r: nat)
    requires Core(d) && Holds(d, q, r)
    ensures Sorted(d.rqs, d.queues[q].sortList)
    ensures Core(RemoveRq(d, q, r)) && OnlyLists(d, RemoveRq(d, q, r), q)
    ensures d.queues[q].queued.Of(d.rqs[r].sync) > 0
  {
    hide ListsOk, Core, NextAfter;
    CoreLists(d);
    assert ListsOk(d.rqs, q, d.queues[q]);
    ListsSorted(d, q);
    var x := d.queues[q];
    UnlistedOk(d, q, r, if x.next == Some(r) then NextAfter(d, x, r) else x.next);
    ListsChangeOk(d, RemoveRq(d, q, r), q);
  }

  lemma CoreLists(d: Cfqd)
    requires Core(d)
    ensures AllLists(d) && Links(d) && Groups(d, 0, 0)
  {
  }

  lemma CoreLinked(d: Cfqd, q: nat)
    requires Core(d) && q < |d.queues|
    ensures Linked(d, d.queues[q])
  {
  }

  lemma ListsSorted(d: Cfqd, q: nat)
    requires AllLists(d) && q < |d.queues|
    ensures Sorted(d.rqs, d.queues[q].sortList)
  {
    assert ListsOk(d.rqs, q, d.queues[q]);
  }

  lemma DispatchInsertOk(d: Cfqd, q: nat, r: nat)
    requires Core(d) && Holds(d, q, r)
    ensures Core(DispatchInsert(d, q, r)) && OnlyLists(d, DispatchInsert(d, q, r), q)
    ensures r < |d.rqs| && d.queues[q].queued.Of(d.rqs[r].sync) > 0
  {
    hide ListsOk, Core, NextAfter;
    CoreLists(d);
    ListsSorted(d, q);
    UnlistedOk(d, q, r, NextAfter(d, d.queues[q], r));
    ListsChangeOk(d, DispatchInsert(d, q, r), q);
  }

  // -------------------------------------------------------------------- active queue

  /** cfq_group_served puts the group elsewhere on the group service tree. */
  function GroupServed(d: Cfqd, g: nat, at: nat): Cfqd {
    var rest := Without(d.order, g);
    d.(order := InsertAt(rest, Clip(at, |rest|), g))
  }

  lemma GroupServedOk(d: Cfqd, q: nat, at: nat)
    requires Core(d) && q < |d.queues| && d.queues[q].onRr
    ensures Core(GroupServed(d, d.queues[q].group, at))
  {
    var g := d.queues[q].group;
    BusyGroup(d, q);
    var rest := Without(d.order, g);
    var e := GroupServed(d, g, at);
    WithoutNoDup(d.order, g);
    InsertAtIn(rest, Clip(at, |rest|), g);
    InsertAtNoDup(rest, Clip(at, |rest|), g);
    GroupsFrame(d, e, 0, 0);
    forall k | 0 <= k < |e.queues| ensures ListsOk(e.rqs, k, e.queues[k]) && Linked(e, e.queues[k]) {
      assert ListsOk(d.rqs, k, d.queues[k]) && Linked(d, d.queues[k]);
    }
  }

  /** The group of a queue on the round-robin has it counted. */
  lemma BusyGroup(d: Cfqd, q: nat)
    requires Core(d) && q < |d.queues| && d.queues[q].onRr
    ensures d.queues[q].group < |d.groups| && d.groups[d.queues[q].group].nr > 0 && d.queues[q].group in d.order
  {
    var g, t := d.queues[q].group, d.queues[q].tree.value;
    assert Linked(d, d.queues[q]);
    var x := d.groups[g];
    assert GroupOk(d.queues, g, x, 0);
    assert TreeOk(d.queues, g, t, x.trees[t]) && OnTree(d.queues, g, t, q);
    forall k | 0 <= k < |x.trees| ensures CountOf(x.trees[k]) >= 0 {
      assert TreeOk(d.queues, g, k, x.trees[k]);
    }
    if Total(x.trees, CountOf) <= 0 { TotalZero(x.trees, CountOf, t); }
  }

  /** __cfq_slice_expired of the active queue. */
  function SliceExpired(d: Cfqd, q: nat, spot: Spot): Cfqd
    requires Core(d) && q < |d.queues| && d.queues[q].onRr && spot.tree < TREES
  {
    GroupServedOk(d, q, spot.groupAt);
    var e := GroupServed(d, d.queues[q].group, spot.groupAt);
    (if d.queues[q].sortList == [] then DelRr(e, q) else ServiceTreeAdd(e, q, spot, false)).(active := None)
  }

  lemma SliceExpiredOk(d: Cfqd, q: nat, spot: Spot)
    requires Inv(d) && d.active == Some(q) && spot.tree < TREES
    ensures var e := SliceExpired(d, q, spot);
      && Inv(e) && e.active.None? && |e.queues| == |d.queues| && e.rqQueued == d.rqQueued
      && e.out == d.out && e.rqs == d.rqs
      && (forall k :: 0 <= k < |d.queues| ==> e.queues[k].sortList == d.queues[k].sortList)
      && (e.queues[q].onRr <==> d.queues[q].sortList != [])
      && (forall k :: 0 <= k < |d.queues| && k != q ==> e.queues[k].onRr == d.queues[k].onRr)
      && (d.queues[q].sortList == [] ==> e.busy == d.busy - 1)
  {
    hide Core, AllLists, Links, Groups, Order, Totals, DelRr, ServiceTreeAdd;
    GroupServedOk(d, q, spot.groupAt);
    var e := GroupServed(d, d.queues[q].group, spot.groupAt);
    CoreLists(e);
    if d.queues[q].sortList == [] {
      DelRrOk(e, q);
      DelRrBusy(e, q);
      SetIdle(DelRr(e, q));
    } else {
      CoreLinked(e, q);
      ResortOk(e, q, spot, false);
      SetIdle(ServiceTreeAdd(e, q, spot, false));
    }
    var r := SliceExpired(d, q, spot);
    forall k | 0 <= k < |r.queues| ensures Needed(r, k) {
      assert Needed(d, k);
    }
  }

  lemma DelRrBusy(d: Cfqd, q: nat)
    requires q < |d.queues| && Linked(d, d.queues[q]) && d.queues[q].onRr && Groups(d, 0, 0)
    ensures DelRr(d, q).busy == d.busy - 1
  {
  }

  lemma SetIdle(d: Cfqd)
    requires Core(d)
    ensures Core(d.(active := None))
  {
    var e := d.(active := None);
    GroupsFrame(d, e, 0, 0);
    forall k | 0 <= k < |e.queues| ensures ListsOk(e.rqs, k, e.queues[k]) && Linked(e, e.queues[k]) {
      assert ListsOk(d.rqs, k, d.queues[k]) && Linked(d, d.queues[k]);
    }
  }

  // ---------------------------------------------------------------- entering requests

  /** cfq_insert_request, up to preemption; last is the position of the head. */
  function InsertRequest(d: Cfqd, q: nat, rq: Rq, last: nat, spot: Spot): Cfqd
    requires Core(d) && q < |d.queues| && spot.tree < TREES
  {
    EnteredOk(d, q, rq, last);
    if d.queues[q].onRr then Entered(d, q, rq, last) else AddRr(Entered(d, q, rq, last), q, spot)
  }

  /** The new request is listed in its queue. */
  function Entered(d: Cfqd, q: nat, rq: Rq, last: nat): Cfqd
    requires AllLists(d) && q < |d.queues|
  {
    d.(rqs := d.rqs + [rq.(owner := q)], rqQueued := d.rqQueued + 1, queues := d.queues[q := Listed(d, q, rq, last)])
  }

  function Listed(d: Cfqd, q: nat, rq: Rq, last: nat): Cfqq
    requires AllLists(d) && q < |d.queues|
  {
    var x, n, rqs := d.queues[q], |d.rqs|, d.rqs + [rq.(owner := q)];
    assert ListsOk(d.rqs, q, x);
    assert forall i :: 0 <= i < |x.sortList| ==> x.sortList[i] < |d.rqs|;
    x.(fifo := x.fifo + [n], queued := x.queued.Plus(rq.sync, 1), sortList := InsertSorted(rqs, x.sortList, n),
       next := ChooseReq(d.tun, rqs, x.next, Some(n), last))
  }

  lemma InsertListOk(d: Cfqd, q: nat, rq: Rq, last: nat)
    requires AllLists(d) && q < |d.queues|
    ensures ListsOk(d.rqs + [rq.(owner := q)], q, Listed(d, q, rq, last))
    ensures |Listed(d, q, rq, last).sortList| == |d.queues[q].sortList| + 1
  {
    hide InsertSorted, Sorted;
    var x, n, rqs := d.queues[q], |d.rqs|, d.rqs + [rq.(owner := q)];
    assert ListsOk(d.rqs, q, x);
    SortedExtended(d.rqs, rqs, x.sortList);
    assert n !in x.sortList && n !in x.fifo;
    SortInsertOk(rqs, x.sortList, n);
    CountedSame(d.rqs, rqs, x.sortList);
    NoDupSnoc(x.fifo, n);
  }

  lemma EnteredOk(d: Cfqd, q: nat, rq: Rq, last: nat)
    requires Core(d) && q < |d.queues|
    ensures var e := Entered(d, q, rq, last);
      Core(e) && OnlyLists(d, e, q) && Linked(e, e.queues[q]) && Groups(e, 0, 0) && e.queues[q].sortList != []
  {
    hide Core, Listed, ListsOk;
    CoreLists(d);
    InsertListOk(d, q, rq, last);
    ListedStanding(d, q, rq, last);
    var e := Entered(d, q, rq, last);
    ListsChangeOk(d, e, q);
    CoreLists(e);
    CoreLinked(e, q);
  }

  lemma SortedExtended(rqs: seq<Rq>, rqs': seq<Rq>, list: seq<nat>)
    requires Sorted(rqs, list)
    requires forall r :: r in list ==> r < |rqs| && r < |rqs'| && rqs'[r] == rqs[r]
    ensures Sorted(rqs', list)
  {
  }

  lemma SortInsertOk(rqs: seq<Rq>, list: seq<nat>, n: nat)
    requires n < |rqs| && Sorted(rqs, list) && NoDup(list) && n !in list
    ensures var r := InsertSorted(rqs, list, n);
      && Sorted(rqs, r) && NoDup(r) && |r| == |list| + 1 && (forall y :: y in r <==> y == n || y in list)
      && Counted(rqs, r) == Counted(rqs, list).Plus(rqs[n].sync, 1)
  {
    hide InsertAt, Counted;
    InsertCounted(rqs, list, Place(rqs, list, n, 0), n);
    InsertSortedOk(rqs, list, n);
    InsertAtIn(list, Place(rqs, list, n, 0), n);
    InsertAtNoDup(list, Place(rqs, list, n, 0), n);
  }

  lemma InsertRequestInv(d: Cfqd, q: nat, rq: Rq, last: nat, spot: Spot)
    requires Inv(d) && q < |d.queues| && spot.tree < TREES
    ensures Inv(InsertRequest(d, q, rq, last, spot))
  {
    hide Core, Entered, AddRr;
    CoreLists(d);
    EnteredOk(d, q, rq, last);
    if !d.queues[q].onRr {
      AddRrOk(Entered(d, q, rq, last), q, spot);
    }
    var r := InsertRequest(d, q, rq, last, spot);
    forall k | 0 <= k < |r.queues| ensures Needed(r, k) {
      assert Needed(d, k);
    }
  }

  /** The new request waits in its queue, and every other request where it was. */
  lemma InsertRequestAdds(d: Cfqd, q: nat, rq: Rq, last: nat, spot: Spot, k: nat, r: nat)
    requires Inv(d) && q < |d.queues| && spot.tree < TREES
    ensures var e := InsertRequest(d, q, rq, last, spot);
      && e.rqs == d.rqs + [rq.(owner := q)] && e.out == d.out
      && e.queues[q].fifo == d.queues[q].fifo + [|d.rqs|] && e.rqQueued == d.rqQueued + 1
      && (Holds(e, k, r) <==> Holds(d, k, r) || (k == q && r == |d.rqs|))
  {
    hide Core, Listed, AddRr;
    CoreLists(d);
    ListedMembers(d, q, rq, last);
    ListedFifo(d, q, rq, last);
    EnteredOk(d, q, rq, last);
    if !d.queues[q].onRr {
      AddRrOk(Entered(d, q, rq, last), q, spot);
    }
  }

  lemma ListedFifo(d: Cfqd, q: nat, rq: Rq, last: nat)
    requires AllLists(d) && q < |d.queues|
    ensures Listed(d, q, rq, last).fifo == d.queues[q].fifo + [|d.rqs|]
  {
  }

  lemma ListedMembers(d: Cfqd, q: nat, rq: Rq, last: nat)
    requires AllLists(d) && q < |d.queues|
    ensures forall r :: r in Listed(d, q, rq, last).sortList <==> r == |d.rqs| || r in d.queues[q].sortList
  {
    hide InsertSorted, Sorted;
    var x, n, rqs := d.queues[q], |d.rqs|, d.rqs + [rq.(owner := q)];
    assert ListsOk(d.rqs, q, x);
    SortedExtended(d.rqs, rqs, x.sortList);
    assert n !in x.sortList;
    SortInsertOk(rqs, x.sortList, n);
  }

  lemma ListedStanding(d: Cfqd, q: nat, rq: Rq, last: nat)
    requires AllLists(d) && q < |d.queues|
    ensures var x, y := d.queues[q], Listed(d, q, rq, last);
      ListsApart(x, y)
  {
  }

  /** __cfq_set_active_queue with a queue taken from a tree, no other being active. */
  function SetActive(d: Cfqd, q: nat): Cfqd {
    d.(active := Some(q))
  }

  lemma SetActiveInv(d: Cfqd, q: nat)
    requires Inv(d) && d.active.None? && q < |d.queues| && d.queues[q].onRr
    ensures Inv(SetActive(d, q)) && d.queues[q].sortList != []
  {
    var e := SetActive(d, q);
    assert Needed(d, q);
    GroupsFrame(d, e, 0, 0);
    forall k | 0 <= k < |e.queues| ensures ListsOk(e.rqs, k, e.queues[k]) && Linked(e, e.queues[k]) && Needed(e, k) {
      assert ListsOk(d.rqs, k, d.queues[k]) && Linked(d, d.queues[k]) && Needed(d, k);
    }
  }

  /** cfq_merged_request after a front merge has moved the start of request r. */
  function Reposition(d: Cfqd, r: nat, sector: nat, last: nat): Cfqd
    requires Core(d) && r < |d.rqs| && Holds(d, d.rqs[r].owner, r)
  {
    var q := d.rqs[r].owner;
    var rqs := d.rqs[r := d.rqs[r].(sector := sector)];
    d.(rqs := rqs, queues := d.queues[q := Relisted(d, q, r, rqs, last)])
  }

  function Relisted(d: Cfqd, q: nat, r: nat, rqs: seq<Rq>, last: nat): Cfqq
    requires AllLists(d) && Holds(d, q, r) && |rqs| == |d.rqs|
  {
    var x := d.queues[q];
    assert ListsOk(d.rqs, q, x);
    var rest := Without(x.sortList, r);
    assert forall i :: 0 <= i < |rest| ==> rest[i] in x.sortList;
    x.(queued := x.queued.Plus(d.rqs[r].sync, -1).Plus(rqs[r].sync, 1), sortList := InsertSorted(rqs, rest, r),
       next := ChooseReq(d.tun, rqs, x.next, Some(r), last))
  }

  lemma RelistedOk(d: Cfqd, q: nat, r: nat, sector: nat, last: nat)
    requires AllLists(d) && Holds(d, q, r) && r < |d.rqs|
    ensures var rqs := d.rqs[r := d.rqs[r].(sector := sector)];
      var y := Relisted(d, q, r, rqs, last);
      && ListsOk(rqs, q, y) && |y.sortList| == |d.queues[q].sortList|
      && ListsApart(d.queues[q], y) && y.sortList != []
  {
    hide InsertSorted, Sorted, Counted;
    var x, rqs := d.queues[q], d.rqs[r := d.rqs[r].(sector := sector)];
    assert ListsOk(d.rqs, q, x);
    var rest := Without(x.sortList, r);
    SortedWithout(d.rqs, x.sortList, r);
    WithoutNoDup(x.sortList, r);
    WithoutCount(x.sortList, r);
    SortedExtended(d.rqs, rqs, rest);
    SortInsertOk(rqs, rest, r);
    CountedSame(d.rqs, rqs, rest);
    TakeCounted(d.rqs, x.sortList, r);
  }

  /** Moving the start of a request takes it out of no queue and into none. */
  lemma RepositionKeeps(d: Cfqd, i: nat, sector: nat, last: nat, k: nat, r: nat)
    requires Inv(d) && i < |d.rqs| && Holds(d, d.rqs[i].owner, i)
    ensures var e := Reposition(d, i, sector, last);
      e.out == d.out && e.rqs == d.rqs[i := d.rqs[i].(sector := sector)] && (Holds(e, k, r) <==> Holds(d, k, r))
  {
    hide InsertSorted, Sorted;
    var q, rqs := d.rqs[i].owner, d.rqs[i := d.rqs[i].(sector := sector)];
    var x := d.queues[q];
    assert ListsOk(d.rqs, q, x);
    var rest := Without(x.sortList, i);
    SortedWithout(d.rqs, x.sortList, i);
    WithoutNoDup(x.sortList, i);
    SortedExtended(d.rqs, rqs, rest);
    SortInsertOk(rqs, rest, i);
  }

  lemma RepositionInv(d: Cfqd, r: nat, sector: nat, last: nat)
    requires Inv(d) && r < |d.rqs| && Holds(d, d.rqs[r].owner, r)
    ensures Inv(Reposition(d, r, sector, last))
  {
    hide Core, Relisted;
    CoreLists(d);
    var q := d.rqs[r].owner;
    RelistedOk(d, q, r, sector, last);
    var e := Reposition(d, r, sector, last);
    ListsChangeOk(d, e, q);
    forall k | 0 <= k < |e.queues| ensures Needed(e, k) {
      assert Needed(d, k);
    }
  }

  /** list_move: i leaves its place and goes right behind j. */
  function MovedBehind(fifo: seq<nat>, i: nat, j: nat): seq<nat>
    requires j in fifo && i != j
  {
    var rest := Without(fifo, i);
    InsertAt(rest, Index(rest, j) + 1, i)
  }

  lemma MovedBehindOk(fifo: seq<nat>, i: nat, j: nat)
    requires NoDup(fifo) && i in fifo && j in fifo && i != j
    ensures NoDup(MovedBehind(fifo, i, j)) && forall y :: y in MovedBehind(fifo, i, j) <==> y in fifo
    ensures exists k :: 0 <= k < |Without(fifo, i)| && Without(fifo, i)[k] == j
              && MovedBehind(fifo, i, j) == Without(fifo, i)[..k + 1] + [i] + Without(fifo, i)[k + 1..]
  {
    var rest := Without(fifo, i);
    WithoutNoDup(fifo, i);
    InsertAtIn(rest, Index(rest, j) + 1, i);
    InsertAtNoDup(rest, Index(rest, j) + 1, i);
  }

  /** The absorbed request j gives up its place in the fifo and as the next to serve. */
  function Inherits(x: Cfqq, i: nat, j: nat, older: bool): Cfqq
    requires i in x.sortList && (older ==> j in x.fifo && i != j)
  {
    x.(fifo := if older then MovedBehind(x.fifo, i, j) else x.fifo,
       next := if x.next == Some(j) then Some(i) else x.next)
  }

  lemma InheritsOk(d: Cfqd, a: nat, i: nat, j: nat, older: bool)
    requires AllLists(d) && Holds(d, a, i) && i != j && (older ==> Holds(d, a, j))
    ensures (older ==> j in d.queues[a].fifo) && ListsOk(d.rqs, a, Inherits(d.queues[a], i, j, older))
  {
    hide Sorted, Counted, MovedBehind;
    var x := d.queues[a];
    assert ListsOk(d.rqs, a, x);
    if older { MovedBehindOk(x.fifo, i, j); }
  }

  /** Request i absorbs j, in that order of position. */
  ghost predicate Absorbs(d: Cfqd, i: nat, j: nat, older: bool) {
    && i < |d.rqs| && j < |d.rqs| && i != j && (older ==> d.rqs[i].owner == d.rqs[j].owner)
    && Holds(d, d.rqs[i].owner, i) && Holds(d, d.rqs[j].owner, j)
  }

  function Inherited(d: Cfqd, i: nat, j: nat, older: bool): Cfqd
    requires AllLists(d) && Absorbs(d, i, j, older)
  {
    var a := d.rqs[i].owner;
    InheritsOk(d, a, i, j, older);
    SetQueue(d, a, Inherits(d.queues[a], i, j, older))
  }

  lemma InheritedOk(d: Cfqd, i: nat, j: nat, older: bool)
    requires Core(d) && Absorbs(d, i, j, older)
    ensures var e := Inherited(d, i, j, older);
      Core(e) && OnlyLists(d, e, d.rqs[i].owner) && Holds(e, d.rqs[j].owner, j)
      && (forall k :: 0 <= k < |d.queues| ==> e.queues[k].sortList == d.queues[k].sortList)
  {
    hide ListsOk, Core;
    CoreLists(d);
    InheritsOk(d, d.rqs[i].owner, i, j, older);
    ListsChangeOk(d, Inherited(d, i, j, older), d.rqs[i].owner);
  }

  /** A queue emptied by a merge leaves the round-robin, unless it is being served. */
  function Retire(d: Cfqd, q: nat): Cfqd
    requires Core(d) && q < |d.queues|
  {
    if d.queues[q].onRr && d.queues[q].sortList == [] && d.active != Some(q) then DelRr(d, q) else d
  }

  /** cfq_merged_requests: older if both are of one queue and j was queued earlier. */
  function MergedRequests(d: Cfqd, i: nat, j: nat, older: bool): Cfqd
    requires Core(d) && Absorbs(d, i, j, older)
  {
    InheritedOk(d, i, j, older);
    RemoveRqOk(Inherited(d, i, j, older), d.rqs[j].owner, j);
    Retire(RemoveRq(Inherited(d, i, j, older), d.rqs[j].owner, j), d.rqs[j].owner)
  }

  lemma MergedRequestsInv(d: Cfqd, i: nat, j: nat, older: bool)
    requires Inv(d) && Absorbs(d, i, j, older)
    ensures Inv(MergedRequests(d, i, j, older))
  {
    hide Core, RemoveRq, DelRr, ListsOk, Inherited;
    CoreLists(d);
    var b := d.rqs[j].owner;
    InheritedOk(d, i, j, older);
    var e := Inherited(d, i, j, older);
    CoreLists(e);
    RemoveRqOk(e, b, j);
    var f := RemoveRq(e, b, j);
    CoreLists(f);
    CoreLinked(f, b);
    if f.queues[b].onRr && f.queues[b].sortList == [] && f.active != Some(b) {
      DelRrOk(f, b);
    }
    var r := Retire(f, b);
    assert Needed(d, b);
    forall k | 0 <= k < |r.queues| ensures Needed(r, k) {
      assert Needed(d, k);
    }
  }

  /** The absorbed request is gone from its queue; no other request moves, and none goes out. */
  lemma MergedRequestsTakes(d: Cfqd, i: nat, j: nat, older: bool, k: nat, r: nat)
    requires Inv(d) && Absorbs(d, i, j, older)
    ensures var e := MergedRequests(d, i, j, older);
      && e.out == d.out && e.rqs == d.rqs
      && (Holds(e, k, r) <==> Holds(d, k, r) && !(k == d.rqs[j].owner && r == j))
  {
    hide Core, DelRr, ListsOk, Inherited;
    CoreLists(d);
    var b := d.rqs[j].owner;
    InheritedOk(d, i, j, older);
    InheritedSame(d, i, j, older);
    var e := Inherited(d, i, j, older);
    CoreLists(e);
    RemoveRqOk(e, b, j);
    var f := RemoveRq(e, b, j);
    CoreLists(f);
    CoreLinked(f, b);
    if f.queues[b].onRr && f.queues[b].sortList == [] && f.active != Some(b) {
      DelRrOk(f, b);
    }
  }

  lemma InheritedSame(d: Cfqd, i: nat, j: nat, older: bool)
    requires AllLists(d) && Absorbs(d, i, j, older)
    ensures Inherited(d, i, j, older).out == d.out && Inherited(d, i, j, older).rqs == d.rqs
  {
  }

  // ------------------------------------------------------------------- what is served next

  lemma {:induction false} IndexIs(list: seq<nat>, k: nat)
    requires NoDup(list) && k < |list|
    ensures Index(list, list[k]) == k
  {
    if k > 0 { IndexIs(list[1..], k - 1); }
  }

  /** After a request is served the next one is the cheapest seek from it among all others of
      the queue, exactly when the flags of its two neighbours do not stand against it. */
  lemma ServedNext(d: Cfqd, q: nat, k: nat)
    requires Core(d) && q < |d.queues| && k < |d.queues[q].sortList|
    ensures var list := d.queues[q].sortList;
      Sorted(d.rqs, list) && (LeastOfOthers(d.tun, d.rqs, list, k, DispatchInsert(d, q, list[k]).queues[q].next)
                              <==> NeighboursAgree(d.tun, d.rqs, list, k))
  {
    hide Core, FindNext, LeastOfOthers, NeighboursAgree, Sorted;
    CoreLists(d);
    assert ListsOk(d.rqs, q, d.queues[q]);
    IndexIs(d.queues[q].sortList, k);
    FindNextLeast(d.tun, d.rqs, d.queues[q].sortList, k);
  }

  /** A new request is served next exactly when there was none to serve or it is chosen over the
      one that was, by its flags and then by the seek from the last position. */
  lemma EnteredNext(d: Cfqd, q: nat, rq: Rq, last: nat, spot: Spot)
    requires Inv(d) && q < |d.queues| && spot.tree < TREES
    ensures var e, was, n := InsertRequest(d, q, rq, last, spot), d.queues[q].next, |d.rqs|;
      && (was.Some? ==> was.value < n)
      && e.queues[q].next ==
           if was.None? then Some(n)
           else
             var w := d.rqs[was.value];
             var kept := if SameFlags(w, rq) then Nearer(d.tun, w.sector, rq.sector, last) else Favoured(w, rq);
             if kept then was else Some(n)
  {
    hide Core, AddRr, Nearer;
    CoreLists(d);
    assert ListsOk(d.rqs, q, d.queues[q]);
    EnteredOk(d, q, rq, last);
    if !d.queues[q].onRr { AddRrOk(Entered(d, q, rq, last), q, spot); }
    var was, rqs := d.queues[q].next, d.rqs + [rq.(owner := q)];
    if was.Some? { ChooseExactly(d.tun, rqs, was.value, |d.rqs|, last); }
  }
}
