/**
 CFQ's queues of requests, the service trees they wait on and the counters beside them.

 Times and keys are left out: where a queue or a group lands on its tree is a choice (Spot)
 that comes with the operation.  A tree is its queues in order with the count kept next to it.
 */
module CfqQueues {
  import opened CfqChoose
  import opened Lists
  import opened Options

  /** Three workloads for each of two classes, and the idle tree. */
  const TREES: nat := 7

  datatype Tree = Tree(list: seq<nat>, count: int)

  datatype Cfqg = Cfqg(nr: int, trees: seq<Tree>)

  /** queued[2] of a queue; tripped once a request is taken from a count that is zero. */
  datatype Counts = Counts(async: int, sync: int, tripped: bool) {
    function Of(direction: bool): int {
      if direction then sync else async
    }

    function Plus(direction: bool, n: int): Counts {
      if direction then this.(sync := sync + n) else this.(async := async + n)
    }

    function Take(direction: bool): Counts {
      Plus(direction, -1).(tripped := tripped || Of(direction) == 0)
    }
  }

  datatype Cfqq = Cfqq(
    group: nat, tree: Option<nat>, onRr: bool, sync: bool,
    sortList: seq<nat>, fifo: seq<nat>, next: Option<nat>, queued: Counts)

  /** order: the groups on the group service tree; out: requests dispatched, in order. */
  datatype Cfqd = Cfqd(
    tun: Tunables, rqs: seq<Rq>, queues: seq<Cfqq>, groups: seq<Cfqg>, order: seq<nat>,
    busy: int, busySync: int, rqQueued: int, active: Option<nat>, out: seq<nat>)

  /** The tree a queue belongs on now, where on it, and where its group goes; same: its key
      is unchanged. */
  datatype Spot = Spot(tree: nat, at: nat, groupAt: nat, same: bool)

  function Total<T>(s: seq<T>, f: T -> int): int {
    if s == [] then 0 else f(s[0]) + Total(s[1..], f)
  }

  lemma {:induction false} TotalSet<T>(s: seq<T>, f: T -> int, i: nat, x: T)
    requires i < |s|
    ensures Total(s[i := x], f) == Total(s, f) - f(s[i]) + f(x)
  {
    if i == 0 {
      assert s[0 := x][1..] == s[1..];
    } else {
      assert s[i := x][1..] == s[1..][i - 1 := x];
      TotalSet(s[1..], f, i - 1, x);
    }
  }

  lemma {:induction false} TotalSnoc<T>(s: seq<T>, f: T -> int, x: T)
    ensures Total(s + [x], f) == Total(s, f) + f(x)
  {
    if s == [] {
      assert [x][1..] == [];
    } else {
      assert (s + [x])[1..] == s[1..] + [x];
      TotalSnoc(s[1..], f, x);
    }
  }

  /** A positive total has a positive term. */
  lemma {:induction false} TotalPositive<T>(s: seq<T>, f: T -> int) returns (i: nat)
    requires Total(s, f) > 0
    ensures i < |s| && f(s[i]) > 0
  {
    if f(s[0]) > 0 {
      i := 0;
    } else {
      i := TotalPositive(s[1..], f);
      i := i + 1;
    }
  }

  lemma {:induction false} TotalZero<T>(s: seq<T>, f: T -> int, i: nat)
    requires Total(s, f) <= 0 && i < |s| && forall k :: 0 <= k < |s| ==> f(s[k]) >= 0
    ensures f(s[i]) == 0
  {
    TotalNonNegative(s[1..], f);
    if i > 0 { TotalZero(s[1..], f, i - 1); }
  }

  lemma {:induction false} TotalNonNegative<T>(s: seq<T>, f: T -> int)
    requires forall k :: 0 <= k < |s| ==> f(s[k]) >= 0
    ensures Total(s, f) >= 0
  {
    if s != [] { TotalNonNegative(s[1..], f); }
  }

  function IsBusy(q: Cfqq): int { if q.onRr then 1 else 0 }
  function IsBusySync(q: Cfqq): int { if q.onRr && q.sync then 1 else 0 }
  function QueuedOn(q: Cfqq): int { |q.sortList| }
  function NrOf(g: Cfqg): int { g.nr }
  function CountOf(t: Tree): int { t.count }

  // ------------------------------------------------------------------- well-formedness

  function Goes(rqs: seq<Rq>, r: nat, direction: bool): nat {
    if r < |rqs| && rqs[r].sync == direction then 1 else 0
  }

  /** How many requests of the list go in that direction. */
  function InDirection(rqs: seq<Rq>, list: seq<nat>, direction: bool): nat {
    if list == [] then 0 else Goes(rqs, list[0], direction) + InDirection(rqs, list[1..], direction)
  }

  function Counted(rqs: seq<Rq>, list: seq<nat>): Counts {
    Counts(InDirection(rqs, list, false), InDirection(rqs, list, true), false)
  }

  lemma {:induction false} DirectionWithout(rqs: seq<Rq>, list: seq<nat>, r: nat, direction: bool)
    requires NoDup(list) && r in list
    ensures InDirection(rqs, list, direction) ==
              InDirection(rqs, Without(list, r), direction) + Goes(rqs, r, direction)
  {
    hide Goes;
    if list[0] == r {
      WithoutNoDup(list, r);
    } else {
      DirectionWithout(rqs, list[1..], r, direction);
      assert Without(list, r)[1..] == Without(list[1..], r);
    }
  }

  lemma {:induction false} DirectionInsert(rqs: seq<Rq>, list: seq<nat>, n: nat, r: nat, direction: bool)
    requires n <= |list|
    ensures InDirection(rqs, InsertAt(list, n, r), direction) ==
              InDirection(rqs, list, direction) + Goes(rqs, r, direction)
  {
    hide Goes;
    var l := InsertAt(list, n, r);
    if n == 0 {
      assert l[1..] == list;
    } else {
      assert l[1..] == InsertAt(list[1..], n - 1, r);
      DirectionInsert(rqs, list[1..], n - 1, r, direction);
    }
  }

  lemma {:induction false} CountedSame(rqs: seq<Rq>, rqs': seq<Rq>, list: seq<nat>)
    requires forall r :: r in list ==> r < |rqs| && r < |rqs'| && rqs'[r].sync == rqs[r].sync
    ensures Counted(rqs', list) == Counted(rqs, list)
  {
    if list != [] {
      assert list[0] in list && forall r: nat :: r in list[1..] ==> r in list;
      CountedSame(rqs, rqs', list[1..]);
    }
  }

  /** Taking a listed request keeps the counts right, and finds its count above zero. */
  lemma TakeCounted(rqs: seq<Rq>, list: seq<nat>, r: nat)
    requires NoDup(list) && r in list && r < |rqs|
    ensures Counted(rqs, list).Of(rqs[r].sync) > 0
    ensures Counted(rqs, Without(list, r)) == Counted(rqs, list).Take(rqs[r].sync)
  {
    hide InDirection;
    DirectionWithout(rqs, list, r, false);
    DirectionWithout(rqs, list, r, true);
  }

  lemma InsertCounted(rqs: seq<Rq>, list: seq<nat>, n: nat, r: nat)
    requires n <= |list| && r < |rqs|
    ensures Counted(rqs, InsertAt(list, n, r)) == Counted(rqs, list).Plus(rqs[r].sync, 1)
  {
    hide InDirection, InsertAt;
    DirectionInsert(rqs, list, n, r, false);
    DirectionInsert(rqs, list, n, r, true);
  }

  ghost predicate ListsOk(rqs: seq<Rq>, q: nat, x: Cfqq) {
    && Sorted(rqs, x.sortList) && NoDup(x.sortList) && NoDup(x.fifo)
    && (forall r :: r in x.fifo <==> r in x.sortList)
    && (forall r :: r in x.sortList ==> r < |rqs| && rqs[r].owner == q)
    && (x.next.None? <==> x.sortList == []) && (x.next.Some? ==> x.next.value in x.sortList)
    && x.queued == Counted(rqs, x.sortList)
  }

  ghost predicate AllLists(d: Cfqd) {
    forall q :: 0 <= q < |d.queues| ==> ListsOk(d.rqs, q, d.queues[q])
  }

  ghost predicate Linked(d: Cfqd, x: Cfqq) {
    x.group < |d.groups| && (x.tree.Some? ==> x.tree.value < TREES) && (x.onRr <==> x.tree.Some?)
  }

  /** A queue with requests is on the round-robin; an empty one only while it is active. */
  ghost predicate Needed(d: Cfqd, q: nat)
    requires q < |d.queues|
  {
    (d.queues[q].sortList != [] ==> d.queues[q].onRr)
    && (d.queues[q].onRr && d.queues[q].sortList == [] ==> d.active == Some(q))
  }

  ghost predicate Links(d: Cfqd) {
    forall q :: 0 <= q < |d.queues| ==> Linked(d, d.queues[q])
  }

  ghost predicate NeededBut(d: Cfqd, e: nat) {
    forall q :: 0 <= q < |d.queues| && q != e ==> Needed(d, q)
  }

  ghost predicate OnTree(queues: seq<Cfqq>, g: nat, t: nat, q: nat) {
    q < |queues| && queues[q].group == g && queues[q].tree == Some(t)
  }

  ghost predicate TreeOk(queues: seq<Cfqq>, g: nat, t: nat, x: Tree) {
    && NoDup(x.list) && x.count == |x.list|
    && (forall q: nat :: q in x.list <==> OnTree(queues, g, t, q))
  }

  ghost predicate GroupOk(queues: seq<Cfqq>, g: nat, x: Cfqg, dn: int) {
    && |x.trees| == TREES
    && (forall t :: 0 <= t < TREES ==> TreeOk(queues, g, t, x.trees[t]))
    && x.nr + dn == Total(x.trees, CountOf)
  }

  /** nr_cfqq of every group is the number of queues on its trees, short by dn for g0. */
  ghost predicate Groups(d: Cfqd, g0: nat, dn: int) {
    forall g :: 0 <= g < |d.groups| ==> GroupOk(d.queues, g, d.groups[g], if g == g0 then dn else 0)
  }

  ghost predicate Order(d: Cfqd) {
    NoDup(d.order) && forall g: nat :: g in d.order <==> g < |d.groups| && d.groups[g].nr > 0
  }

  ghost predicate Totals(d: Cfqd) {
    && d.busy == Total(d.queues, IsBusy) == Total(d.groups, NrOf)
    && d.busySync == Total(d.queues, IsBusySync)
    && d.rqQueued == Total(d.queues, QueuedOn)
  }

  ghost predicate ActiveOk(d: Cfqd) {
    d.active.Some? ==> d.active.value < |d.queues| && d.queues[d.active.value].onRr
  }

  ghost predicate Core(d: Cfqd) {
    AllLists(d) && Links(d) && Groups(d, 0, 0) && Order(d) && Totals(d)
  }

  ghost predicate Inv(d: Cfqd) {
    Core(d) && NeededBut(d, |d.queues|) && ActiveOk(d)
  }

  // ----------------------------------------------------------------------- tree links

  function SetQueue(d: Cfqd, q: nat, x: Cfqq): Cfqd
    requires q < |d.queues|
  {
    d.(queues := d.queues[q := x])
  }

  function SetTree(g: Cfqg, t: nat, x: Tree): Cfqg
    requires t < |g.trees|
  {
    g.(trees := g.trees[t := x])
  }

  /** cfq_rb_erase of a queue. */
  function Erase(d: Cfqd, q: nat): Cfqd
    requires q < |d.queues| && Linked(d, d.queues[q]) && d.queues[q].onRr && Groups(d, 0, 0)
  {
    var x := d.queues[q];
    var g, t := d.groups[x.group], x.tree.value;
    SetQueue(d, q, x.(tree := None))
      .(groups := d.groups[x.group := SetTree(g, t, Tree(Without(g.trees[t].list, q), g.trees[t].count - 1))])
  }

  function Clip(n: nat, max: nat): nat {
    if n < max then n else max
  }

  /** Link a queue into the tree it belongs on. */
  function Link(d: Cfqd, q: nat, spot: Spot): Cfqd
    requires q < |d.queues| && d.queues[q].group < |d.groups| && spot.tree < |d.groups[d.queues[q].group].trees|
  {
    var x := d.queues[q];
    var g, t := d.groups[x.group], spot.tree;
    var list := g.trees[t].list;
    SetQueue(d, q, x.(tree := Some(t)))
      .(groups := d.groups[x.group :=
          SetTree(g, t, Tree(InsertAt(list, Clip(spot.at, |list|), q), g.trees[t].count + 1))])
  }

  function GroupEnters(order: seq<nat>, g: nat, at: nat): seq<nat> {
    if g in order then order else InsertAt(order, Clip(at, |order|), g)
  }

  /** cfq_group_notify_queue_add. */
  function NotifyAdd(d: Cfqd, g: nat, at: nat): Cfqd
    requires g < |d.groups|
  {
    d.(groups := d.groups[g := d.groups[g].(nr := d.groups[g].nr + 1)], order := GroupEnters(d.order, g, at))
  }

  /** cfq_group_notify_queue_del. */
  function NotifyDel(d: Cfqd, g: nat): Cfqd
    requires g < |d.groups|
  {
    var nr := d.groups[g].nr - 1;
    d.(groups := d.groups[g := d.groups[g].(nr := nr)], order := if nr == 0 then Without(d.order, g) else d.order)
  }

  lemma GroupsFrame(d: Cfqd, e: Cfqd, g0: nat, dn: int)
    requires Groups(d, g0, dn) && e.groups == d.groups && |e.queues| == |d.queues|
    requires forall q :: 0 <= q < |d.queues| ==>
      e.queues[q].group == d.queues[q].group && e.queues[q].tree == d.queues[q].tree
    ensures Groups(e, g0, dn)
  {
    forall g | 0 <= g < |d.groups| ensures GroupOk(e.queues, g, e.groups[g], if g == g0 then dn else 0) {
      assert GroupOk(d.queues, g, d.groups[g], if g == g0 then dn else 0);
      forall t | 0 <= t < TREES ensures TreeOk(e.queues, g, t, e.groups[g].trees[t]) {
        assert TreeOk(d.queues, g, t, d.groups[g].trees[t]);
        forall x: nat ensures x in e.groups[g].trees[t].list <==> OnTree(e.queues, g, t, x) {
          assert x in d.groups[g].trees[t].list <==> OnTree(d.queues, g, t, x);
        }
      }
    }
  }

  lemma LinkGroups(d: Cfqd, q: nat, spot: Spot, dn: int)
    requires q < |d.queues| && d.queues[q].group < |d.groups| && spot.tree < TREES && d.queues[q].tree.None?
    requires Groups(d, d.queues[q].group, dn)
    ensures GroupOk(d.queues, d.queues[q].group, d.groups[d.queues[q].group], dn)
    ensures Groups(Link(d, q, spot), d.queues[q].group, dn + 1)
  {
    var gi := d.queues[q].group;
    assert GroupOk(d.queues, gi, d.groups[gi], dn);
    var e, was := Link(d, q, spot), d.groups[gi].trees[spot.tree];
    assert TreeOk(d.queues, gi, spot.tree, was);
    InsertAtIn(was.list, Clip(spot.at, |was.list|), q);
    InsertAtNoDup(was.list, Clip(spot.at, |was.list|), q);
    TotalSet(d.groups[gi].trees, CountOf, spot.tree, e.groups[gi].trees[spot.tree]);
    forall g | 0 <= g < |d.groups| ensures GroupOk(e.queues, g, e.groups[g], if g == gi then dn + 1 else 0) {
      assert GroupOk(d.queues, g, d.groups[g], if g == gi then dn else 0);
      forall t | 0 <= t < TREES ensures TreeOk(e.queues, g, t, e.groups[g].trees[t]) {
        assert TreeOk(d.queues, g, t, d.groups[g].trees[t]);
        forall x: nat ensures x in e.groups[g].trees[t].list <==> OnTree(e.queues, g, t, x) {
          assert x in d.groups[g].trees[t].list <==> OnTree(d.queues, g, t, x);
        }
      }
    }
  }

  lemma EraseGroups(d: Cfqd, q: nat)
    requires q < |d.queues| && Linked(d, d.queues[q]) && d.queues[q].onRr && Groups(d, 0, 0)
    ensures Groups(Erase(d, q), d.queues[q].group, -1)
  {
    var gi, ti := d.queues[q].group, d.queues[q].tree.value;
    assert GroupOk(d.queues, gi, d.groups[gi], 0);
    var e, was := Erase(d, q), d.groups[gi].trees[ti];
    assert TreeOk(d.queues, gi, ti, was);
    WithoutNoDup(was.list, q);
    WithoutCount(was.list, q);
    TotalSet(d.groups[gi].trees, CountOf, ti, e.groups[gi].trees[ti]);
    forall g | 0 <= g < |d.groups| ensures GroupOk(e.queues, g, e.groups[g], if g == gi then -1 else 0) {
      assert GroupOk(d.queues, g, d.groups[g], 0);
      forall t | 0 <= t < TREES ensures TreeOk(e.queues, g, t, e.groups[g].trees[t]) {
        assert TreeOk(d.queues, g, t, d.groups[g].trees[t]);
        forall x: nat ensures x in e.groups[g].trees[t].list <==> OnTree(e.queues, g, t, x) {
          assert x in d.groups[g].trees[t].list <==> OnTree(d.queues, g, t, x);
        }
      }
    }
  }

  lemma NotifyAddOk(d: Cfqd, g: nat, at: nat)
    requires g < |d.groups| && Groups(d, g, 1) && Order(d) && d.groups[g].nr >= 0
    ensures var e := NotifyAdd(d, g, at);
      Groups(e, 0, 0) && Order(e) && Total(e.groups, NrOf) == Total(d.groups, NrOf) + 1
  {
    var e := NotifyAdd(d, g, at);
    TotalSet(d.groups, NrOf, g, e.groups[g]);
    forall k | 0 <= k < |d.groups| ensures GroupOk(e.queues, k, e.groups[k], 0) {
      assert GroupOk(d.queues, k, d.groups[k], if k == g then 1 else 0);
    }
    if g !in d.order {
      InsertAtIn(d.order, Clip(at, |d.order|), g);
      InsertAtNoDup(d.order, Clip(at, |d.order|), g);
    }
  }

  lemma NotifyDelOk(d: Cfqd, g: nat)
    requires g < |d.groups| && Groups(d, g, -1) && Order(d)
    ensures var e := NotifyDel(d, g);
      Groups(e, 0, 0) && Order(e) && Total(e.groups, NrOf) == Total(d.groups, NrOf) - 1
  {
    var e := NotifyDel(d, g);
    TotalSet(d.groups, NrOf, g, e.groups[g]);
    assert GroupOk(d.queues, g, d.groups[g], -1);
    TreesNonNegative(d.queues, g, d.groups[g], -1);
    forall k | 0 <= k < |d.groups| ensures GroupOk(e.queues, k, e.groups[k], 0) {
      assert GroupOk(d.queues, k, d.groups[k], if k == g then -1 else 0);
    }
    WithoutNoDup(d.order, g);
  }

  lemma TreesNonNegative(queues: seq<Cfqq>, g: nat, x: Cfqg, dn: int)
    requires GroupOk(queues, g, x, dn)
    ensures x.nr + dn >= 0
  {
    forall k | 0 <= k < |x.trees| ensures CountOf(x.trees[k]) >= 0 {
      assert TreeOk(queues, g, k, x.trees[k]);
    }
    TotalNonNegative(x.trees, CountOf);
  }

  // -------------------------------------------------------------------- round-robin

  /** cfq_service_tree_add. */
  function ServiceTreeAdd(d: Cfqd, q: nat, spot: Spot, front: bool): Cfqd
    requires q < |d.queues| && Linked(d, d.queues[q].(onRr := d.queues[q].tree.Some?)) && d.queues[q].onRr
    requires Groups(d, 0, 0) && spot.tree < TREES
  {
    var x := d.queues[q];
    assert GroupOk(d.queues, x.group, d.groups[x.group], 0);
    if x.tree.Some? && spot.same && x.tree == Some(spot.tree) then d
    else if x.tree.Some? then Link(Erase(d, q), q, spot)
    else if front then Link(d, q, spot)
    else NotifyAdd(Link(d, q, spot), x.group, spot.groupAt)
  }

  /** cfq_add_cfqq_rr. */
  function AddRr(d: Cfqd, q: nat, spot: Spot): Cfqd
    requires q < |d.queues| && Linked(d, d.queues[q]) && !d.queues[q].onRr && Groups(d, 0, 0) && spot.tree < TREES
  {
    var e := SetQueue(d, q, d.queues[q].(onRr := true))
               .(busy := d.busy + 1, busySync := d.busySync + if d.queues[q].sync then 1 else 0);
    GroupsFrame(d, e, 0, 0);
    ServiceTreeAdd(e, q, spot, false)
  }

  /** cfq_del_cfqq_rr. */
  function DelRr(d: Cfqd, q: nat): Cfqd
    requires q < |d.queues| && Linked(d, d.queues[q]) && d.queues[q].onRr && Groups(d, 0, 0)
  {
    var e := Erase(d, q);
    NotifyDel(SetQueue(e, q, e.queues[q].(onRr := false)), d.queues[q].group)
      .(busy := d.busy - 1, busySync := d.busySync - if d.queues[q].sync then 1 else 0)
  }

  /** Only the standing of queue q, its group and the counters of busy queues differ. */
  ghost predicate OnlyStanding(d: Cfqd, e: Cfqd, q: nat) {
    && |e.queues| == |d.queues| && |e.groups| == |d.groups| && q < |d.queues|
    && (forall k :: 0 <= k < |d.queues| && k != q ==> e.queues[k] == d.queues[k])
    && e.queues[q] == d.queues[q].(tree := e.queues[q].tree, onRr := e.queues[q].onRr)
    && e.rqs == d.rqs && e.tun == d.tun && e.rqQueued == d.rqQueued && e.active == d.active && e.out == d.out
  }

  lemma StandingTotals(d: Cfqd, e: Cfqd, q: nat)
    requires OnlyStanding(d, e, q) && Totals(d)
    ensures Total(e.queues, IsBusy) == d.busy - IsBusy(d.queues[q]) + IsBusy(e.queues[q])
    ensures Total(e.queues, IsBusySync) == d.busySync - IsBusySync(d.queues[q]) + IsBusySync(e.queues[q])
    ensures Total(e.queues, QueuedOn) == d.rqQueued
  {
    assert e.queues == d.queues[q := e.queues[q]];
    TotalSet(d.queues, IsBusy, q, e.queues[q]);
    TotalSet(d.queues, IsBusySync, q, e.queues[q]);
    TotalSet(d.queues, QueuedOn, q, e.queues[q]);
  }

  lemma StandingLists(d: Cfqd, e: Cfqd, q: nat)
    requires OnlyStanding(d, e, q) && AllLists(d) && Links(d) && Linked(e, e.queues[q])
    ensures AllLists(e) && Links(e)
  {
    forall k | 0 <= k < |e.queues| ensures ListsOk(e.rqs, k, e.queues[k]) && Linked(e, e.queues[k]) {
      assert ListsOk(d.rqs, k, d.queues[k]) && Linked(d, d.queues[k]);
    }
  }

  lemma AddRrOk(d: Cfqd, q: nat, spot: Spot)
    requires Core(d) && q < |d.queues| && !d.queues[q].onRr && spot.tree < TREES
    ensures var e := AddRr(d, q, spot);
      Core(e) && OnlyStanding(d, e, q) && e.queues[q].onRr
  {
    hide ListsOk, GroupOk, Total, Order;
    var e := SetQueue(d, q, d.queues[q].(onRr := true))
               .(busy := d.busy + 1, busySync := d.busySync + if d.queues[q].sync then 1 else 0);
    GroupsFrame(d, e, 0, 0);
    OrderFrame(d, e);
    var g := d.queues[q].group;
    assert GroupOk(d.queues, g, d.groups[g], 0);
    TreesNonNegative(d.queues, g, d.groups[g], 0);
    LinkOk(e, q, spot);
    var f := Link(e, q, spot);
    NotifyAddOk(f, g, spot.groupAt);
    var r := AddRr(d, q, spot);
    StandingTotals(d, r, q);
    StandingLists(d, r, q);
  }

  lemma OrderFrame(d: Cfqd, e: Cfqd)
    requires Order(d) && e.order == d.order && |e.groups| == |d.groups|
    requires forall g :: 0 <= g < |d.groups| ==> e.groups[g].nr == d.groups[g].nr
    ensures Order(e)
  {
  }

  lemma LinkOk(d: Cfqd, q: nat, spot: Spot)
    requires q < |d.queues| && d.queues[q].group < |d.groups| && spot.tree < TREES && d.queues[q].tree.None?
    requires Groups(d, 0, 0) && Order(d)
    ensures GroupOk(d.queues, d.queues[q].group, d.groups[d.queues[q].group], 0)
    ensures var e := Link(d, q, spot);
      && Groups(e, d.queues[q].group, 1) && Order(e) && Total(e.groups, NrOf) == Total(d.groups, NrOf)
  {
    var g := d.queues[q].group;
    LinkGroups(d, q, spot, 0);
    var e := Link(d, q, spot);
    TotalSet(d.groups, NrOf, g, e.groups[g]);
    OrderFrame(d, e);
  }

  lemma DelRrOk(d: Cfqd, q: nat)
    requires Core(d) && q < |d.queues| && d.queues[q].onRr
    ensures var e := DelRr(d, q);
      Core(e) && OnlyStanding(d, e, q) && !e.queues[q].onRr
  {
    hide ListsOk, GroupOk, Total, Order;
    EraseGroups(d, q);
    var e, g := Erase(d, q), d.queues[q].group;
    EraseFrame(d, q);
    var f := SetQueue(e, q, e.queues[q].(onRr := false));
    GroupsFrame(e, f, g, -1);
    OrderFrame(e, f);
    NotifyDelOk(f, g);
    var r := DelRr(d, q);
    StandingTotals(d, r, q);
    StandingLists(d, r, q);
    GroupsFrame(NotifyDel(f, g), r, 0, 0);
    OrderFrame(NotifyDel(f, g), r);
  }

  lemma EraseFrame(d: Cfqd, q: nat)
    requires q < |d.queues| && Linked(d, d.queues[q]) && d.queues[q].onRr && Groups(d, 0, 0) && Order(d)
    ensures Order(Erase(d, q)) && Total(Erase(d, q).groups, NrOf) == Total(d.groups, NrOf)
  {
    var e, g := Erase(d, q), d.queues[q].group;
    TotalSet(d.groups, NrOf, g, e.groups[g]);
    OrderFrame(d, e);
  }

  /** Moving a queue that is on a tree already leaves every counter alone. */
  lemma ResortOk(d: Cfqd, q: nat, spot: Spot, front: bool)
    requires Core(d) && q < |d.queues| && d.queues[q].onRr && spot.tree < TREES
    ensures var e := ServiceTreeAdd(d, q, spot, front);
      Core(e) && OnlyStanding(d, e, q) && e.queues[q].onRr
  {
    hide ListsOk, GroupOk, Total, Order;
    var x := d.queues[q];
    var r := ServiceTreeAdd(d, q, spot, front);
    if !(spot.same && x.tree == Some(spot.tree)) {
      EraseGroups(d, q);
      EraseFrame(d, q);
      var e := Erase(d, q);
      LinkGroups(e, q, spot, -1);
      LinkFrame(e, q, spot);
      StandingTotals(d, r, q);
      StandingLists(d, r, q);
      GroupsAny(r, x.group);
    }
  }

  lemma GroupsAny(d: Cfqd, g: nat)
    requires Groups(d, g, 0)
    ensures Groups(d, 0, 0)
  {
    forall k | 0 <= k < |d.groups| ensures GroupOk(d.queues, k, d.groups[k], 0) {
      assert GroupOk(d.queues, k, d.groups[k], if k == g then 0 else 0);
    }
  }

  lemma LinkFrame(d: Cfqd, q: nat, spot: Spot)
    requires q < |d.queues| && d.queues[q].group < |d.groups| && spot.tree < |d.groups[d.queues[q].group].trees|
    requires Order(d)
    ensures Order(Link(d, q, spot)) && Total(Link(d, q, spot).groups, NrOf) == Total(d.groups, NrOf)
  {
    var e, g := Link(d, q, spot), d.queues[q].group;
    TotalSet(d.groups, NrOf, g, e.groups[g]);
    OrderFrame(d, e);
  }
}
