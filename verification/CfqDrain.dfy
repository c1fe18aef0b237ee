/** The forced drain of every queue, and runs of the scheduler. */
module CfqDrain {
  import opened CfqChoose
  import opened CfqQueues
  import opened CfqRuns
  import opened Lists
  import opened Options

  // ------------------------------------------------------------------ draining a queue

  /** The loop of __cfq_forced_dispatch_cfqq. */
  function DrainQueue(d: Cfqd, q: nat): Cfqd
    requires Core(d) && q < |d.queues|
    decreases |d.queues[q].sortList|
  {
    NextHeld(d, q);
    if d.queues[q].next.None? then d
    else
      DispatchInsertOk(d, q, d.queues[q].next.value);
      DispatchShrinks(d, q, d.queues[q].next.value);
      DrainQueue(DispatchInsert(d, q, d.queues[q].next.value), q)
  }

  lemma NextHeld(d: Cfqd, q: nat)
    requires AllLists(d) && q < |d.queues|
    ensures d.queues[q].next.Some? ==> Holds(d, q, d.queues[q].next.value)
    ensures d.queues[q].next.None? <==> d.queues[q].sortList == []
    ensures d.queues[q].next.None? ==> d.queues[q].fifo == [] && d.queues[q].queued == Counts(0, 0, false)
  {
    assert ListsOk(d.rqs, q, d.queues[q]);
    if d.queues[q].fifo != [] { assert d.queues[q].fifo[0] in d.queues[q].fifo; }
  }

  lemma DispatchShrinks(d: Cfqd, q: nat, r: nat)
    requires AllLists(d) && Holds(d, q, r)
    ensures var e := DispatchInsert(d, q, r);
      && |e.queues[q].sortList| == |d.queues[q].sortList| - 1
      && (forall x :: x in e.queues[q].sortList <==> x in d.queues[q].sortList && x != r)
      && e.rqs == d.rqs && e.out == d.out + [r] && e.rqQueued == d.rqQueued - 1
  {
    assert ListsOk(d.rqs, q, d.queues[q]);
    WithoutCount(d.queues[q].sortList, r);
  }

  /** Everything in q has gone out once, and nothing else; its fifo is empty too. */
  lemma {:induction false} DrainQueueOk(d: Cfqd, q: nat, x: nat)
    requires Core(d) && q < |d.queues|
    ensures var e := DrainQueue(d, q);
      && Core(e) && OnlyLists(d, e, q) && e.rqs == d.rqs
      && e.queues[q].sortList == [] && e.queues[q].fifo == [] && e.queues[q].queued == Counts(0, 0, false)
      && |e.out| == |d.out| + |d.queues[q].sortList| && d.out <= e.out
      && multiset(e.out)[x] == multiset(d.out)[x] + if x in d.queues[q].sortList then 1 else 0
    decreases |d.queues[q].sortList|
  {
    hide Core, AllLists, DispatchInsert;
    CoreLists(d);
    NextHeld(d, q);
    if d.queues[q].next.Some? {
      var r := d.queues[q].next.value;
      DispatchInsertOk(d, q, r);
      DispatchShrinks(d, q, r);
      DrainQueueOk(DispatchInsert(d, q, r), q, x);
    }
  }

  /** The request marked as next goes out first. */
  lemma DrainFirst(d: Cfqd, q: nat)
    requires Core(d) && q < |d.queues| && d.queues[q].next.Some?
    ensures var e := DrainQueue(d, q); |e.out| > |d.out| && e.out[|d.out|] == d.queues[q].next.value
  {
    hide Core, AllLists, DispatchInsert;
    CoreLists(d);
    NextHeld(d, q);
    var r := d.queues[q].next.value;
    DispatchInsertOk(d, q, r);
    DispatchShrinks(d, q, r);
    DrainQueueOk(DispatchInsert(d, q, r), q, 0);
  }

  // -------------------------------------------------------------- which queue is next

  /** The first tree from k on whose count is not zero. */
  function FirstTree(g: Cfqg, k: nat): (r: Option<nat>)
    requires k <= |g.trees|
    ensures r.Some? ==> k <= r.value < |g.trees| && g.trees[r.value].count != 0
    ensures r.Some? ==> forall t :: k <= t < r.value ==> g.trees[t].count == 0
    ensures r.None? ==> forall t :: k <= t < |g.trees| ==> g.trees[t].count == 0
    decreases |g.trees| - k
  {
    if k == |g.trees| then None
    else if g.trees[k].count != 0 then Some(k)
    else FirstTree(g, k + 1)
  }

  /** cfq_get_next_queue_forced. */
  function NextForced(d: Cfqd): Option<nat>
    requires Core(d)
  {
    if d.rqQueued == 0 || d.order == [] then None
    else
      assert d.order[0] in d.order && GroupOk(d.queues, d.order[0], d.groups[d.order[0]], 0);
      var g := d.groups[d.order[0]];
      var t := FirstTree(g, 0);
      if t.None? then None
      else
        assert TreeOk(d.queues, d.order[0], t.value, g.trees[t.value]);
        Some(g.trees[t.value].list[0])
  }

  lemma QueuedNonNegative(d: Cfqd)
    requires Core(d)
    ensures d.rqQueued >= 0
  {
    TotalNonNegative(d.queues, QueuedOn);
  }

  /** Queue q is the first of the first tree in use of the first group. */
  ghost predicate FirstInLine(d: Cfqd, q: nat) {
    && d.order != [] && d.order[0] < |d.groups|
    && var trees := d.groups[d.order[0]].trees;
       exists t :: 0 <= t < |trees| && trees[t].list != [] && trees[t].list[0] == q
                   && forall u :: 0 <= u < t ==> trees[u].list == []
  }

  lemma NextForcedFirst(d: Cfqd)
    requires Core(d) && NextForced(d).Some?
    ensures FirstInLine(d, NextForced(d).value)
  {
    hide Total, OnTree;
    var gi := d.order[0];
    assert gi in d.order;
    var trees := d.groups[gi].trees;
    assert GroupOk(d.queues, gi, d.groups[gi], 0);
    var t := FirstTree(d.groups[gi], 0).value;
    assert TreeOk(d.queues, gi, t, trees[t]);
    forall u | 0 <= u < t ensures trees[u].list == [] {
      assert TreeOk(d.queues, gi, u, trees[u]);
    }
  }

  /** While anything is queued a queue is found, and it is on the round-robin. */
  lemma NextForcedOk(d: Cfqd)
    requires Inv(d)
    ensures NextForced(d).None? <==> d.rqQueued == 0
    ensures NextForced(d).Some? ==> NextForced(d).value < |d.queues| && d.queues[NextForced(d).value].onRr
  {
    QueuedNonNegative(d);
    if d.rqQueued > 0 {
      var k := TotalPositive(d.queues, QueuedOn);
      assert Needed(d, k);
      BusyGroup(d, k);
      assert d.order[0] in d.order;
      var gi, g := d.order[0], d.groups[d.order[0]];
      assert GroupOk(d.queues, gi, g, 0);
      var t := TotalPositive(g.trees, CountOf);
      var f := FirstTree(g, 0).value;
      assert TreeOk(d.queues, gi, f, g.trees[f]);
      var q := g.trees[f].list[0];
      assert q in g.trees[f].list && OnTree(d.queues, gi, f, q);
      assert Linked(d, d.queues[q]);
    }
  }

  /** No request left and no queue being served: nothing is busy. */
  lemma NothingBusy(d: Cfqd)
    requires Inv(d) && d.active.None? && d.rqQueued == 0
    ensures d.busy == 0
    ensures forall q :: 0 <= q < |d.queues| ==>
      d.queues[q].sortList == [] && !d.queues[q].onRr && d.queues[q].queued == Counts(0, 0, false)
  {
    forall q | 0 <= q < |d.queues|
      ensures d.queues[q].sortList == [] && !d.queues[q].onRr && d.queues[q].queued == Counts(0, 0, false)
    {
      assert ListsOk(d.rqs, q, d.queues[q]);
      TotalZero(d.queues, QueuedOn, q);
      assert Needed(d, q);
    }
    if d.busy > 0 {
      var q := TotalPositive(d.queues, IsBusy);
    }
    TotalNonNegative(d.queues, IsBusy);
  }

  // ------------------------------------------------------------------- the whole drain

  ghost predicate SpotsOk(spots: Cfqd -> Spot) {
    forall d :: spots(d).tree < TREES
  }

  /** One turn of the loop of cfq_forced_dispatch: serve q until it is empty, then expire it. */
  function DrainTurn(d: Cfqd, q: nat, spots: Cfqd -> Spot): Cfqd
    requires Inv(d) && d.active.None? && q < |d.queues| && d.queues[q].onRr && SpotsOk(spots)
  {
    SetActiveInv(d, q);
    var e := SetActive(d, q);
    DrainQueueOk(e, q, 0);
    SliceExpired(DrainQueue(e, q), q, spots(e))
  }

  lemma DrainTurnOk(d: Cfqd, q: nat, spots: Cfqd -> Spot, x: nat)
    requires Inv(d) && d.active.None? && q < |d.queues| && d.queues[q].onRr && SpotsOk(spots)
    ensures var e := DrainTurn(d, q, spots);
      && Inv(e) && e.active.None? && e.rqs == d.rqs && |e.queues| == |d.queues|
      && e.rqQueued < d.rqQueued && |e.out| + e.rqQueued == |d.out| + d.rqQueued && d.out <= e.out
      && (forall k :: 0 <= k < |d.queues| ==> e.queues[k].sortList == if k == q then [] else d.queues[k].sortList)
      && multiset(e.out)[x] == multiset(d.out)[x] + if x in d.queues[q].sortList then 1 else 0
  {
    hide Core, DrainQueue, SliceExpired;
    SetActiveInv(d, q);
    var e := SetActive(d, q);
    DrainQueueOk(e, q, x);
    var f := DrainQueue(e, q);
    forall k | 0 <= k < |f.queues| ensures Needed(f, k) {
      assert Needed(d, k);
    }
    SliceExpiredOk(f, q, spots(e));
  }

  function DrainLoop(d: Cfqd, spots: Cfqd -> Spot): Cfqd
    requires Inv(d) && d.active.None? && SpotsOk(spots)
    decreases d.rqQueued
  {
    NextForcedOk(d);
    QueuedNonNegative(d);
    var q := NextForced(d);
    if q.None? then d
    else
      DrainTurnOk(d, q.value, spots, 0);
      DrainLoop(DrainTurn(d, q.value, spots), spots)
  }

  /** cfq_forced_dispatch. */
  function Drain(d: Cfqd, spots: Cfqd -> Spot): Cfqd
    requires Inv(d) && SpotsOk(spots)
  {
    if d.active.Some? then
      SliceExpiredOk(d, d.active.value, spots(d));
      DrainLoop(SliceExpired(d, d.active.value, spots(d)), spots)
    else DrainLoop(d, spots)
  }

  /** Request x waits in the queue that owns it. */
  ghost predicate Waiting(d: Cfqd, x: nat) {
    x < |d.rqs| && Holds(d, d.rqs[x].owner, x)
  }

  lemma OwnQueue(d: Cfqd, q: nat, x: nat)
    requires AllLists(d) && Holds(d, q, x)
    ensures x < |d.rqs| && d.rqs[x].owner == q
  {
    assert ListsOk(d.rqs, q, d.queues[q]);
  }

  lemma {:induction false} DrainLoopOk(d: Cfqd, spots: Cfqd -> Spot, x: nat)
    requires Inv(d) && d.active.None? && SpotsOk(spots)
    ensures var e := DrainLoop(d, spots);
      && Inv(e) && e.active.None? && e.rqQueued == 0 && e.rqs == d.rqs && |e.queues| == |d.queues|
      && |e.out| == |d.out| + d.rqQueued && d.out <= e.out
      && multiset(e.out)[x] == multiset(d.out)[x] + if Waiting(d, x) then 1 else 0
    decreases d.rqQueued
  {
    hide Core, NextForced, DrainTurn;
    NextForcedOk(d);
    var q := NextForced(d);
    QueuedNonNegative(d);
    CoreLists(d);
    if q.None? {
      NothingBusy(d);
    } else {
      DrainTurnOk(d, q.value, spots, x);
      var e := DrainTurn(d, q.value, spots);
      DrainLoopOk(e, spots, x);
      if Holds(d, q.value, x) { OwnQueue(d, q.value, x); }
    }
  }

  /** A forced dispatch ends with no queue busy, having sent every waiting request exactly
      once and nothing else. */
  lemma DrainsEverythingOnce(d: Cfqd, spots: Cfqd -> Spot, x: nat)
    requires Inv(d) && SpotsOk(spots)
    ensures var e := Drain(d, spots);
      && Inv(e) && e.busy == 0 && e.active.None?
      && (forall q :: 0 <= q < |e.queues| ==>
            e.queues[q].sortList == [] && !e.queues[q].onRr && e.queues[q].queued == Counts(0, 0, false))
      && |e.out| == |d.out| + d.rqQueued && d.out <= e.out
      && multiset(e.out)[x] == multiset(d.out)[x] + if Waiting(d, x) then 1 else 0
  {
    hide Core, SliceExpired, DrainLoop;
    var e := d;
    if d.active.Some? {
      SliceExpiredOk(d, d.active.value, spots(d));
      e := SliceExpired(d, d.active.value, spots(d));
    }
    DrainLoopOk(e, spots, x);
    NothingBusy(DrainLoop(e, spots));
  }

  // ------------------------------------------------------------------- other operations

  /** cfq_preempt_queue: the active queue is expired and q goes to the front. */
  function Preempt(d: Cfqd, q: nat, expired: Spot, front: Spot): Cfqd
    requires Inv(d) && d.active.Some? && d.active != Some(q) && q < |d.queues| && d.queues[q].onRr
    requires expired.tree < TREES && front.tree < TREES
  {
    SliceExpiredOk(d, d.active.value, expired);
    var e := SliceExpired(d, d.active.value, expired);
    CoreLinked(e, q);
    ServiceTreeAdd(e, q, front, true)
  }

  lemma PreemptInv(d: Cfqd, q: nat, expired: Spot, front: Spot)
    requires Inv(d) && d.active.Some? && d.active != Some(q) && q < |d.queues| && d.queues[q].onRr
    requires expired.tree < TREES && front.tree < TREES
    ensures Inv(Preempt(d, q, expired, front))
  {
    hide Core, SliceExpired, ServiceTreeAdd;
    SliceExpiredOk(d, d.active.value, expired);
    var e := SliceExpired(d, d.active.value, expired);
    CoreLists(e);
    CoreLinked(e, q);
    ResortOk(e, q, front, true);
    var r := ServiceTreeAdd(e, q, front, true);
    forall k | 0 <= k < |r.queues| ensures Needed(r, k) {
      assert Needed(e, k);
    }
  }

  lemma DispatchInv(d: Cfqd, q: nat, r: nat)
    requires Inv(d) && d.active == Some(q) && Holds(d, q, r)
    ensures Inv(DispatchInsert(d, q, r))
  {
    hide Core, DispatchInsert;
    CoreLists(d);
    DispatchInsertOk(d, q, r);
    DispatchShrinks(d, q, r);
    var e := DispatchInsert(d, q, r);
    forall k | 0 <= k < |e.queues| ensures Needed(e, k) {
      assert Needed(d, k);
    }
  }

  function NewQueue(d: Cfqd, group: nat, sync: bool): Cfqd {
    d.(queues := d.queues + [Cfqq(group, None, false, sync, [], [], None, Counts(0, 0, false))])
  }

  lemma NewQueueInv(d: Cfqd, group: nat, sync: bool)
    requires Inv(d) && group < |d.groups|
    ensures Inv(NewQueue(d, group, sync))
  {
    var x := Cfqq(group, None, false, sync, [], [], None, Counts(0, 0, false));
    var e := NewQueue(d, group, sync);
    TotalSnoc(d.queues, IsBusy, x);
    TotalSnoc(d.queues, IsBusySync, x);
    TotalSnoc(d.queues, QueuedOn, x);
    forall g | 0 <= g < |d.groups| ensures GroupOk(e.queues, g, e.groups[g], 0) {
      assert GroupOk(d.queues, g, d.groups[g], 0);
      forall t | 0 <= t < TREES ensures TreeOk(e.queues, g, t, e.groups[g].trees[t]) {
        assert TreeOk(d.queues, g, t, d.groups[g].trees[t]);
        forall k: nat ensures k in e.groups[g].trees[t].list <==> OnTree(e.queues, g, t, k) {
          assert k in d.groups[g].trees[t].list <==> OnTree(d.queues, g, t, k);
        }
      }
    }
    forall k | 0 <= k < |e.queues| ensures ListsOk(e.rqs, k, e.queues[k]) && Linked(e, e.queues[k]) && Needed(e, k) {
      if k < |d.queues| { assert ListsOk(d.rqs, k, d.queues[k]) && Linked(d, d.queues[k]) && Needed(d, k); }
    }
  }

  function EmptyTrees(n: nat): (r: seq<Tree>)
    ensures |r| == n && (forall t :: 0 <= t < n ==> r[t] == Tree([], 0)) && Total(r, CountOf) == 0
  {
    if n == 0 then [] else [Tree([], 0)] + EmptyTrees(n - 1)
  }

  function NewGroup(d: Cfqd): Cfqd {
    d.(groups := d.groups + [Cfqg(0, EmptyTrees(TREES))])
  }

  lemma NewGroupInv(d: Cfqd)
    requires Inv(d)
    ensures Inv(NewGroup(d))
  {
    hide EmptyTrees;
    var x, n := Cfqg(0, EmptyTrees(TREES)), |d.groups|;
    var e := NewGroup(d);
    TotalSnoc(d.groups, NrOf, x);
    forall g | 0 <= g < |e.groups| ensures GroupOk(e.queues, g, e.groups[g], 0) {
      if g < n {
        assert GroupOk(d.queues, g, d.groups[g], 0);
      } else {
        forall t | 0 <= t < TREES ensures TreeOk(e.queues, g, t, x.trees[t]) {
          forall q: nat ensures !OnTree(e.queues, g, t, q) {
            if q < |d.queues| { assert Linked(d, d.queues[q]); }
          }
        }
      }
    }
    forall k | 0 <= k < |e.queues| ensures ListsOk(e.rqs, k, e.queues[k]) && Linked(e, e.queues[k]) && Needed(e, k) {
      assert ListsOk(d.rqs, k, d.queues[k]) && Linked(d, d.queues[k]) && Needed(d, k);
    }
  }

  // -------------------------------------------------------------------------- runs

  datatype Step =
    | AddGroup
    | AddQueue(group: nat, sync: bool)
    | Enter(q: nat, rq: Rq, last: nat, spot: Spot)
    | Absorb(i: nat, j: nat, older: bool)
    | Move(r: nat, sector: nat, last: nat)
    | Select(q: nat)
    | Dispatch(r: nat)
    | Expire(spot: Spot)
    | Overtake(q: nat, expired: Spot, front: Spot)
    | Force(spots: Cfqd -> Spot)

  /** What the callers guarantee: only the active queue dispatches, a queue is selected when
      none is active, and a request preempts only from a queue that has requests. */
  ghost predicate Enabled(d: Cfqd, t: Step) {
    match t
    case AddGroup => true
    case AddQueue(g, sync) => g < |d.groups|
    case Enter(q, rq, last, spot) => q < |d.queues| && spot.tree < TREES
    case Absorb(i, j, older) => Absorbs(d, i, j, older)
    case Move(r, sector, last) => Waiting(d, r)
    case Select(q) => d.active.None? && q < |d.queues| && d.queues[q].onRr
    case Dispatch(r) => d.active.Some? && Holds(d, d.active.value, r)
    case Expire(spot) => d.active.Some? && spot.tree < TREES
    case Overtake(q, expired, front) =>
      d.active.Some? && d.active != Some(q) && q < |d.queues| && d.queues[q].onRr
      && expired.tree < TREES && front.tree < TREES
    case Force(spots) => SpotsOk(spots)
  }

  ghost function Next(d: Cfqd, t: Step): Cfqd
    requires Inv(d) && Enabled(d, t)
  {
    match t
    case AddGroup => NewGroup(d)
    case AddQueue(g, sync) => NewQueue(d, g, sync)
    case Enter(q, rq, last, spot) => InsertRequest(d, q, rq, last, spot)
    case Absorb(i, j, older) => MergedRequests(d, i, j, older)
    case Move(r, sector, last) => Reposition(d, r, sector, last)
    case Select(q) => SetActive(d, q)
    case Dispatch(r) => DispatchInsert(d, d.active.value, r)
    case Expire(spot) => SliceExpired(d, d.active.value, spot)
    case Overtake(q, expired, front) => Preempt(d, q, expired, front)
    case Force(spots) => Drain(d, spots)
  }

  lemma NextInv(d: Cfqd, t: Step)
    requires Inv(d) && Enabled(d, t)
    ensures Inv(Next(d, t))
  {
    hide Core, NeededBut, ActiveOk, NewGroup, NewQueue, InsertRequest, MergedRequests, Reposition, DispatchInsert,
         SliceExpired, Preempt, Drain;
    match t
    case AddGroup => NewGroupInv(d);
    case AddQueue(g, sync) => NewQueueInv(d, g, sync);
    case Enter(q, rq, last, spot) => InsertRequestInv(d, q, rq, last, spot);
    case Absorb(i, j, older) => MergedRequestsInv(d, i, j, older);
    case Move(r, sector, last) => RepositionInv(d, r, sector, last);
    case Select(q) => SetActiveInv(d, q);
    case Dispatch(r) => DispatchInv(d, d.active.value, r);
    case Expire(spot) => SliceExpiredOk(d, d.active.value, spot);
    case Overtake(q, expired, front) => PreemptInv(d, q, expired, front);
    case Force(spots) => DrainsEverythingOnce(d, spots, 0);
  }

  ghost predicate Legal(d: Cfqd, steps: seq<Step>)
    requires Inv(d)
    decreases |steps|
  {
    steps == [] || (Enabled(d, steps[0]) && (NextInv(d, steps[0]); Legal(Next(d, steps[0]), steps[1..])))
  }

  ghost function Exec(d: Cfqd, steps: seq<Step>): (r: Cfqd)
    requires Inv(d) && Legal(d, steps)
    ensures Inv(r)
    decreases |steps|
  {
    if steps == [] then d else (NextInv(d, steps[0]); Exec(Next(d, steps[0]), steps[1..]))
  }

  function Idle(tun: Tunables): (r: Cfqd)
    ensures Inv(r)
  {
    Cfqd(tun, [], [], [], [], 0, 0, 0, None, [])
  }

  lemma {:induction false} NrTotal(d: Cfqd, k: nat)
    requires Groups(d, 0, 0) && k <= |d.groups|
    ensures Total(d.groups[k..], NrOf) == Total(d.groups[k..], TreeCounts)
    decreases |d.groups| - k
  {
    if k < |d.groups| {
      assert d.groups[k..][1..] == d.groups[k + 1..];
      assert GroupOk(d.queues, k, d.groups[k], 0);
      NrTotal(d, k + 1);
    }
  }

  function TreeCounts(g: Cfqg): int {
    Total(g.trees, CountOf)
  }

  /** In every reachable state the busy counter, the queues on the round-robin, nr_cfqq over
      the groups and the counts over all trees agree, each queue counts the requests it holds in
      either direction and none was ever taken from a count of zero, an empty queue is on the
      round-robin only while it is active, and a forced dispatch would drain everything. */
  lemma CountersAgree(tun: Tunables, steps: seq<Step>, q: nat, spots: Cfqd -> Spot)
    requires SpotsOk(spots)
    requires Legal(Idle(tun), steps)
    ensures var d := Exec(Idle(tun), steps);
      && d.busy == Total(d.queues, IsBusy) == Total(d.groups, NrOf) == Total(d.groups, TreeCounts)
      && d.busySync == Total(d.queues, IsBusySync) && d.rqQueued == Total(d.queues, QueuedOn)
      && (q < |d.queues| ==> Needed(d, q) && d.queues[q].queued == Counted(d.rqs, d.queues[q].sortList))
      && Drain(d, spots).busy == 0
  {
    var d := Exec(Idle(tun), steps);
    NrTotal(d, 0);
    assert d.groups[0..] == d.groups;
    if q < |d.queues| { assert Needed(d, q) && ListsOk(d.rqs, q, d.queues[q]); }
    DrainsEverythingOnce(d, spots, 0);
  }

  /** The checks the scheduler makes on a queue it is serving or taking off: its group counts
      it, some queue is busy, no more queues are asynchronous or idle than there are, and the
      queue counts whatever request it gives up. Trees 0 and 3 hold the asynchronous queues of
      the two classes, tree 6 the idle ones. */
  lemma ChecksHold(d: Cfqd, q: nat)
    requires Inv(d) && q < |d.queues| && d.queues[q].onRr
    ensures forall r :: r in d.queues[q].sortList ==> r < |d.rqs| && d.queues[q].queued.Of(d.rqs[r].sync) > 0
    ensures var g := d.groups[d.queues[q].group];
      && d.busy >= 1 && g.nr >= 1 && |g.trees| == TREES
      && g.nr - g.trees[0].count - g.trees[3].count - g.trees[6].count >= 0
  {
    hide InDirection;
    assert ListsOk(d.rqs, q, d.queues[q]);
    forall r | r in d.queues[q].sortList ensures d.queues[q].queued.Of(d.rqs[r].sync) > 0 {
      TakeCounted(d.rqs, d.queues[q].sortList, r);
    }
    BusyGroup(d, q);
    var gi := d.queues[q].group;
    var g := d.groups[gi];
    assert GroupOk(d.queues, gi, g, 0);
    forall t | 0 <= t < TREES ensures g.trees[t].count >= 0 {
      assert TreeOk(d.queues, gi, t, g.trees[t]);
    }
    var none := Tree([], 0);
    TotalSet(g.trees, CountOf, 0, none);
    TotalSet(g.trees[0 := none], CountOf, 3, none);
    TotalSet(g.trees[0 := none][3 := none], CountOf, 6, none);
    TotalNonNegative(g.trees[0 := none][3 := none][6 := none], CountOf);
    if d.busy <= 0 { TotalZero(d.queues, IsBusy, q); }
  }
}
