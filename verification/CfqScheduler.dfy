/** The scheduler's data updated in place: counters, trees and lists change step by step. */
module CfqScheduler {
  import opened CfqChoose
  import opened CfqDrain
  import opened CfqQueues
  import opened CfqRuns
  import opened Lists
  import opened Options

  class Scheduler {
    const tun: Tunables
    var rqs: seq<Rq>
    var queues: seq<Cfqq>
    var groups: seq<Cfqg>
    var order: seq<nat>
    var busy: int
    var busySync: int
    var rqQueued: int
    var active: Option<nat>
    var out: seq<nat>

    ghost function View(): Cfqd
      reads this
    {
      Cfqd(tun, rqs, queues, groups, order, busy, busySync, rqQueued, active, out)
    }

    constructor (tun: Tunables)
      ensures View() == Idle(tun)
    {
      this.tun := tun;
      rqs, queues, groups, order, busy, busySync, rqQueued, active, out := [], [], [], [], 0, 0, 0, None, [];
    }

    method RbErase(q: nat)
      requires q < |queues| && Linked(View(), queues[q]) && queues[q].onRr && Groups(View(), 0, 0)
      modifies this`groups, this`queues
      ensures View() == Erase(old(View()), q)
    {
      var g, t := queues[q].group, queues[q].tree.value;
      assert GroupOk(queues, g, groups[g], 0);
      var tree := groups[g].trees[t];
      groups := groups[g := SetTree(groups[g], t, Tree(Without(tree.list, q), tree.count - 1))];
      queues := queues[q := queues[q].(tree := None)];
    }

    method ServiceTreeAdd(q: nat, spot: Spot, addFront: bool)
      requires q < |queues| && Linked(View(), queues[q].(onRr := queues[q].tree.Some?)) && queues[q].onRr
      requires Groups(View(), 0, 0) && spot.tree < TREES
      modifies this`groups, this`queues, this`order
      ensures View() == CfqQueues.ServiceTreeAdd(old(View()), q, spot, addFront)
    {
      hide GroupOk;
      GroupTrees(View(), queues[q].group);
      var isNew := true;
      if queues[q].tree.Some? {
        isNew := false;
        if spot.same && queues[q].tree == Some(spot.tree) { return; }
        RbErase(q);
      }
      var g, t := queues[q].group, spot.tree;
      queues := queues[q := queues[q].(tree := Some(t))];
      var list := groups[g].trees[t].list;
      groups := groups[g := SetTree(groups[g], t,
                                    Tree(InsertAt(list, Clip(spot.at, |list|), q), groups[g].trees[t].count + 1))];
      if addFront || !isNew { return; }
      NotifyQueueAdd(g, spot.groupAt);
    }

    method NotifyQueueAdd(g: nat, at: nat)
      requires g < |groups|
      modifies this`groups, this`order
      ensures View() == NotifyAdd(old(View()), g, at)
    {
      groups := groups[g := groups[g].(nr := groups[g].nr + 1)];
      if g in order { return; }
      order := InsertAt(order, Clip(at, |order|), g);
    }

    method NotifyQueueDel(g: nat)
      requires g < |groups|
      modifies this`groups, this`order
      ensures View() == NotifyDel(old(View()), g)
    {
      groups := groups[g := groups[g].(nr := groups[g].nr - 1)];
      if groups[g].nr != 0 { return; }
      order := Without(order, g);
    }

    method AddCfqqRr(q: nat, spot: Spot)
      requires q < |queues| && Linked(View(), queues[q]) && !queues[q].onRr && Groups(View(), 0, 0) && spot.tree < TREES
      modifies this`groups, this`queues, this`order, this`busy, this`busySync
      ensures View() == AddRr(old(View()), q, spot)
    {
      ghost var d := View();
      queues := queues[q := queues[q].(onRr := true)];
      busy := busy + 1;
      if queues[q].sync { busySync := busySync + 1; }
      GroupsFrame(d, View(), 0, 0);
      ServiceTreeAdd(q, spot, false);
    }

    method DelCfqqRr(q: nat)
      requires Core(View()) && q < |queues| && queues[q].onRr
      modifies this`groups, this`queues, this`order, this`busy, this`busySync
      ensures View() == DelRr(old(View()), q) && Core(View())
    {
      hide GroupOk, ListsOk, Order, Totals;
      ghost var d := View();
      DelRrOk(d, q);
      BusyGroup(d, q);
      RbErase(q);
      queues := queues[q := queues[q].(onRr := false)];
      NotifyQueueDel(queues[q].group);
      busy := busy - 1;
      if queues[q].sync { busySync := busySync - 1; }
    }

    method FindNextRq(q: nat, r: nat) returns (next: Option<nat>)
      requires Holds(View(), q, r) && Sorted(rqs, queues[q].sortList)
      ensures next == NextAfter(View(), queues[q], r)
    {
      next := FindNext(tun, rqs, queues[q].sortList, Index(queues[q].sortList, r));
    }

    method RemoveRequest(q: nat, r: nat)
      requires Holds(View(), q, r) && Sorted(rqs, queues[q].sortList)
      modifies this`queues, this`rqQueued
      ensures View() == RemoveRq(old(View()), q, r)
    {
      hide Sorted, NextAfter;
      var x := queues[q];
      SortedKnown(rqs, x.sortList, r);
      if x.next == Some(r) {
        var next := FindNextRq(q, r);
        x := x.(next := next);
      }
      queues := queues[q := x.(fifo := Without(x.fifo, r))];
      DelRqRb(q, r);
      rqQueued := rqQueued - 1;
    }

    /** cfq_del_rq_rb, with its check of the count. */
    method DelRqRb(q: nat, r: nat)
      requires q < |queues| && r < |rqs|
      modifies this`queues
      ensures queues == old(queues)[q := old(queues[q]).(queued := old(queues[q]).queued.Take(rqs[r].sync),
                                                         sortList := Without(old(queues[q]).sortList, r))]
    {
      var counts := queues[q].queued;
      if counts.Of(rqs[r].sync) == 0 { counts := counts.(tripped := true); }
      queues := queues[q := queues[q].(queued := counts.Plus(rqs[r].sync, -1))];
      queues := queues[q := queues[q].(sortList := Without(queues[q].sortList, r))];
    }

    method DispatchInsert(q: nat, r: nat)
      requires Core(View()) && Holds(View(), q, r)
      modifies this`queues, this`rqQueued, this`out
      ensures View() == CfqRuns.DispatchInsert(old(View()), q, r) && Core(View())
    {
      hide ListsOk, NextAfter;
      ghost var d := View();
      DispatchInsertOk(d, q, r);
      ListsSorted(d, q);
      var next := FindNextRq(q, r);
      NextIsAnother(d, q, r);
      queues := queues[q := queues[q].(next := next)];
      RemoveRequest(q, r);
      out := out + [r];
    }

    /** cfq_insert_request up to preemption; the queue joins the round-robin before its next
        request is chosen. */
    method InsertRequest(q: nat, rq: Rq, last: nat, spot: Spot)
      requires Inv(View()) && q < |queues| && spot.tree < TREES
      modifies this
      ensures View() == CfqRuns.InsertRequest(old(View()), q, rq, last, spot) && Inv(View())
    {
      hide ListsOk, GroupOk, Order, Totals, AddRr, InsertSorted, ChooseReq;
      ghost var d := View();
      InsertRequestInv(d, q, rq, last, spot);
      InsertListOk(d, q, rq, last);
      KnownList(d, q);
      var n := |rqs|;
      rqs := rqs + [rq.(owner := q)];
      queues := queues[q := queues[q].(fifo := queues[q].fifo + [n])];
      queues := queues[q := queues[q].(queued := queues[q].queued.Plus(rq.sync, 1))];
      queues := queues[q := queues[q].(sortList := InsertSorted(rqs, queues[q].sortList, n))];
      rqQueued := rqQueued + 1;
      ghost var e := View();
      GroupsFrame(d, e, 0, 0);
      ghost var chosen := ChooseReq(tun, rqs, queues[q].next, Some(n), last);
      assert SetQueue(e, q, e.queues[q].(next := chosen)) ==
             Entered(d, q, rq, last);
      if !queues[q].onRr {
        AddRrNext(e, q, spot, chosen);
        AddCfqqRr(q, spot);
      }
      var next := ChooseReq(tun, rqs, queues[q].next, Some(n), last);
      queues := queues[q := queues[q].(next := next)];
    }

    /** The first half of cfq_merged_requests: i takes over what j had. */
    method Inherit(i: nat, j: nat, older: bool)
      requires Core(View()) && Absorbs(View(), i, j, older)
      modifies this`queues
      ensures View() == Inherited(old(View()), i, j, older) && Core(View())
    {
      hide ListsOk, Core, MovedBehind;
      ghost var d := View();
      CoreLists(d);
      InheritedOk(d, i, j, older);
      var a := rqs[i].owner;
      InheritsOk(d, a, i, j, older);
      if older {
        queues := queues[a := queues[a].(fifo := MovedBehind(queues[a].fifo, i, j))];
      }
      if queues[a].next == Some(j) {
        queues := queues[a := queues[a].(next := Some(i))];
      }
      assert queues == d.queues[a := Inherits(d.queues[a], i, j, older)];
    }

    /** cfq_merged_requests. */
    method MergedRequests(i: nat, j: nat, older: bool)
      requires Inv(View()) && Absorbs(View(), i, j, older)
      modifies this
      ensures View() == CfqRuns.MergedRequests(old(View()), i, j, older) && Inv(View())
    {
      hide ListsOk, Core, DelRr, RemoveRq, Inherited;
      MergedRequestsInv(View(), i, j, older);
      InheritedOk(View(), i, j, older);
      var b := rqs[j].owner;
      Inherit(i, j, older);
      RemoveRqOk(View(), b, j);
      RemoveRequest(b, j);
      if queues[b].onRr && queues[b].sortList == [] && active != Some(b) {
        DelCfqqRr(b);
      }
    }

    method GroupServedNow(g: nat, at: nat)
      modifies this`order
      ensures View() == GroupServed(old(View()), g, at)
    {
      order := Without(order, g);
      order := InsertAt(order, Clip(at, |order|), g);
    }

    method SliceExpired(q: nat, spot: Spot)
      requires Inv(View()) && active == Some(q) && spot.tree < TREES
      modifies this
      ensures View() == CfqRuns.SliceExpired(old(View()), q, spot) && Inv(View())
      ensures active.None? && rqQueued == old(rqQueued)
    {
      hide ListsOk, GroupOk, Order, Totals, DelRr, CfqQueues.ServiceTreeAdd;
      ghost var d := View();
      SliceExpiredOk(d, q, spot);
      GroupServedOk(d, q, spot.groupAt);
      GroupServedNow(queues[q].group, spot.groupAt);
      CoreLinked(View(), q);
      if queues[q].onRr && queues[q].sortList == [] {
        DelRrOk(View(), q);
        DelCfqqRr(q);
      }
      if queues[q].onRr {
        ServiceTreeAdd(q, spot, false);
      }
      if active == Some(q) { active := None; }
    }

    /** __cfq_forced_dispatch_cfqq. */
    method ForcedDispatchCfqq(q: nat, spot: Spot) returns (dispatched: nat)
      requires Inv(View()) && active == Some(q) && spot.tree < TREES
      modifies this
      ensures var e := DrainQueue(old(View()), q);
        Inv(e) && e.active == Some(q) && View() == CfqRuns.SliceExpired(e, q, spot)
      ensures Inv(View()) && active.None? && dispatched == |old(queues[q].sortList)|
      ensures rqQueued + dispatched == old(rqQueued)
    {
      hide AllLists, Core, CfqRuns.DispatchInsert, CfqRuns.SliceExpired;
      ghost var d := View();
      dispatched := 0;
      while queues[q].next.Some?
        invariant Inv(View()) && active == Some(q) && q < |queues|
        invariant DrainQueue(View(), q) == DrainQueue(d, q)
        invariant dispatched + |queues[q].sortList| == |d.queues[q].sortList| && rqQueued + dispatched == d.rqQueued
        decreases |queues[q].sortList|
      {
        CoreLists(View());
        NextHeld(View(), q);
        DispatchInv(View(), q, queues[q].next.value);
        DispatchShrinks(View(), q, queues[q].next.value);
        DispatchInsert(q, queues[q].next.value);
        dispatched := dispatched + 1;
      }
      CoreLists(View());
      NextHeld(View(), q);
      assert queues[q].fifo == [];
      SliceExpired(q, spot);
    }

    method GetNextQueueForced() returns (next: Option<nat>)
      requires Inv(View())
      ensures next == NextForced(View())
    {
      hide ListsOk, Totals;
      if rqQueued == 0 || order == [] { return None; }
      assert order[0] in order;
      var g := groups[order[0]];
      assert GroupOk(queues, order[0], g, 0);
      var t := 0;
      while t < |g.trees|
        invariant t <= |g.trees| && FirstTree(g, t) == FirstTree(g, 0)
      {
        if g.trees[t].count != 0 {
          assert TreeOk(queues, order[0], t, g.trees[t]);
          return Some(g.trees[t].list[0]);
        }
        t := t + 1;
      }
      return None;
    }

    method ForcedDispatch(spots: Cfqd -> Spot) returns (dispatched: nat)
      requires Inv(View()) && SpotsOk(spots)
      modifies this
      ensures View() == Drain(old(View()), spots) && Inv(View()) && busy == 0
      ensures dispatched == old(rqQueued)
    {
      hide Core, NeededBut, ActiveOk, NextForced, DrainTurn, CfqRuns.SliceExpired;
      ghost var d := View();
      DrainsEverythingOnce(d, spots, 0);
      if active.Some? {
        SliceExpiredOk(d, active.value, spots(d));
        var at := CurrentSpot(spots);
        SliceExpired(active.value, at);
      }
      ghost var e := View();
      dispatched := 0;
      while true
        invariant Inv(View()) && active.None? && DrainLoop(View(), spots) == DrainLoop(e, spots)
        invariant dispatched + rqQueued == e.rqQueued == d.rqQueued
        decreases rqQueued
      {
        ghost var f := View();
        NextForcedOk(f);
        QueuedNonNegative(f);
        var q := GetNextQueueForced();
        if q.None? { break; }
        DrainTurnOk(f, q.value, spots, 0);
        var n := ServeAndExpire(q.value, spots);
        dispatched := dispatched + n;
      }
      DrainLoopOk(e, spots, 0);
    }

    /** The body of the loop of cfq_forced_dispatch. */
    method ServeAndExpire(q: nat, spots: Cfqd -> Spot) returns (n: nat)
      requires Inv(View()) && active.None? && q < |queues| && queues[q].onRr && SpotsOk(spots)
      modifies this
      ensures View() == DrainTurn(old(View()), q, spots) && Inv(View()) && active.None?
      ensures rqQueued + n == old(rqQueued)
    {
      hide Core, NeededBut, ActiveOk, DrainQueue, CfqRuns.SliceExpired;
      SetActiveInv(View(), q);
      active := Some(q);
      var at := CurrentSpot(spots);
      n := ForcedDispatchCfqq(q, at);
    }

    method CurrentSpot(spots: Cfqd -> Spot) returns (s: Spot)
      requires SpotsOk(spots)
      ensures s == spots(View()) && s.tree < TREES
    {
      s := spots(Cfqd(tun, rqs, queues, groups, order, busy, busySync, rqQueued, active, out));
    }
  }

  lemma GroupTrees(d: Cfqd, g: nat)
    requires Groups(d, 0, 0) && g < |d.groups|
    ensures |d.groups[g].trees| == TREES
  {
    assert GroupOk(d.queues, g, d.groups[g], 0);
  }

  lemma SortedKnown(rqs: seq<Rq>, list: seq<nat>, r: nat)
    requires Sorted(rqs, list) && r in list
    ensures r < |rqs|
  {
  }

  lemma KnownList(d: Cfqd, q: nat)
    requires AllLists(d) && q < |d.queues|
    ensures forall i :: 0 <= i < |d.queues[q].sortList| ==> d.queues[q].sortList[i] < |d.rqs|
    ensures d.queues[q].next.Some? ==> d.queues[q].next.value < |d.rqs|
  {
    assert ListsOk(d.rqs, q, d.queues[q]);
  }

  /** Joining the round-robin does not look at the next request. */
  lemma AddRrNext(d: Cfqd, q: nat, spot: Spot, next: Option<nat>)
    requires q < |d.queues| && Linked(d, d.queues[q]) && !d.queues[q].onRr && Groups(d, 0, 0) && spot.tree < TREES
    ensures var e := SetQueue(d, q, d.queues[q].(next := next));
      && Groups(e, 0, 0) && q < |AddRr(d, q, spot).queues|
      && AddRr(e, q, spot) == SetQueue(AddRr(d, q, spot), q, AddRr(d, q, spot).queues[q].(next := next))
      && AddRr(d, q, spot).queues[q].next == d.queues[q].next && AddRr(d, q, spot).rqs == d.rqs
  {
    hide GroupOk;
    var e := SetQueue(d, q, d.queues[q].(next := next));
    GroupsFrame(d, e, 0, 0);
    GroupTrees(d, d.queues[q].group);
    var a, b := AddRr(d, q, spot), AddRr(e, q, spot);
    assert b.queues == a.queues[q := a.queues[q].(next := next)];
    assert b.groups == a.groups;
  }

  lemma NextIsAnother(d: Cfqd, q: nat, r: nat)
    requires AllLists(d) && Holds(d, q, r)
    ensures Sorted(d.rqs, d.queues[q].sortList) && NextAfter(d, d.queues[q], r) != Some(r)
  {
    assert ListsOk(d.rqs, q, d.queues[q]);
    NextAfterOk(d, d.queues[q], r);
  }
}
