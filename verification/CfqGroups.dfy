/**
 CFQ's weighted group hierarchy.

 Groups are numbered in creation order, so that a parent has a smaller number than
 its children and 0 is the root.  A group is active while it or a descendant has
 queues to serve; it then counts towards its parent's nr_active and children_weight.
 */
module CfqGroups {

  const SHARE_ONE: nat := 4096
  const WEIGHT_MIN: nat := 10
  const WEIGHT_MAX: nat := 1000

  datatype Group = Group(
    nrActive: int, childrenWeight: int, vfraction: nat,
    weight: nat, newWeight: nat, leafWeight: nat, newLeafWeight: nat,
    onTree: bool)

  datatype Hierarchy = Hierarchy(parent: seq<nat>, gs: seq<Group>)

  predicate WeightOk(w: nat) {
    WEIGHT_MIN <= w <= WEIGHT_MAX
  }

  ghost predicate Shaped(h: Hierarchy) {
    && |h.parent| == |h.gs| >= 1
    && (forall i :: 0 < i < |h.parent| ==> h.parent[i] < i)
    && (forall i :: 0 <= i < |h.gs| ==>
          && WeightOk(h.gs[i].weight) && WeightOk(h.gs[i].leafWeight)
          && (h.gs[i].newWeight == 0 || WeightOk(h.gs[i].newWeight))
          && (h.gs[i].newLeafWeight == 0 || WeightOk(h.gs[i].newLeafWeight)))
  }

  // ------------------------------------------------------------------- operations

  /** cfq_update_group_weight: a pending weight takes effect. */
  function TakeWeight(g: Group): Group {
    if g.newWeight != 0 then g.(weight := g.newWeight, newWeight := 0) else g
  }

  function TakeLeafWeight(g: Group): Group {
    if g.newLeafWeight != 0 then g.(leafWeight := g.newLeafWeight, newLeafWeight := 0) else g
  }

  function Enter(g: Group, w: nat): Group {
    g.(nrActive := g.nrActive + 1, childrenWeight := g.childrenWeight + w)
  }

  function Leave(g: Group, w: nat): Group {
    g.(nrActive := g.nrActive - 1, childrenWeight := g.childrenWeight - w)
  }

  function Set(h: Hierarchy, i: nat, g: Group): Hierarchy
    requires i < |h.gs|
  {
    h.(gs := h.gs[i := g])
  }

  /** One more contributor of weight w below pos, up to the first ancestor already active. */
  function Bump(h: Hierarchy, pos: nat, w: nat): (r: Hierarchy)
    requires Shaped(h) && pos < |h.gs|
    ensures Shaped(r) && r.parent == h.parent
    decreases pos, 1
  {
    var h' := Set(h, pos, Enter(h.gs[pos], w));
    if h.gs[pos].nrActive == 0 then Propagate(h', pos) else h'
  }

  /** pos has just become active: tell its parent. */
  function Propagate(h: Hierarchy, pos: nat): (r: Hierarchy)
    requires Shaped(h) && pos < |h.gs|
    ensures Shaped(r) && r.parent == h.parent
    decreases pos, 0
  {
    if pos == 0 then h
    else
      var h' := Set(h, pos, TakeWeight(h.gs[pos]));
      Bump(h', h.parent[pos], h'.gs[pos].weight)
  }

  /** One contributor of weight w fewer below pos; an emptied group leaves its parent too. */
  function Drop(h: Hierarchy, pos: nat, w: nat): (r: Hierarchy)
    requires Shaped(h) && pos < |h.gs|
    ensures Shaped(r) && r.parent == h.parent
    decreases pos
  {
    var g := Leave(h.gs[pos], w);
    if g.nrActive != 0 then Set(h, pos, g)
    else
      var h' := Set(h, pos, g.(vfraction := 0));
      if pos == 0 then h' else Drop(h', h.parent[pos], g.weight)
  }

  function Portion(x: nat, weight: nat, total: int): nat
    requires total > 0
  {
    x * weight / total
  }

  /** The share x of something at pos, scaled by the weights on the way to the root. */
  function UpTo(h: Hierarchy, pos: nat, x: nat): nat
    requires Shaped(h) && pos < |h.gs|
    decreases pos
  {
    if pos == 0 then x
    else
      var p := h.parent[pos];
      if h.gs[p].childrenWeight <= 0 then 0
      else UpTo(h, p, Portion(x, h.gs[pos].weight, h.gs[p].childrenWeight))
  }

  /** The floor-divided fraction of the disk that a group's own queues are entitled to. */
  function Share(h: Hierarchy, i: nat): nat
    requires Shaped(h) && i < |h.gs|
  {
    var g := h.gs[i];
    if g.childrenWeight <= 0 then 0 else UpTo(h, i, Portion(SHARE_ONE, g.leafWeight, g.childrenWeight))
  }

  function Activated(h: Hierarchy, i: nat): (r: Hierarchy)
    requires Shaped(h) && i < |h.gs|
    ensures Shaped(r) && r.parent == h.parent
  {
    var g := TakeLeafWeight(h.gs[i]).(onTree := true);
    Bump(Set(h, i, g), i, g.leafWeight)
  }

  /** cfq_group_service_tree_add. */
  function Add(h: Hierarchy, i: nat): (r: Hierarchy)
    requires Shaped(h) && i < |h.gs|
    ensures Shaped(r) && r.parent == h.parent
  {
    var h' := Activated(h, i);
    var vfr := Share(h', i);
    Set(h', i, h'.gs[i].(vfraction := if vfr < 1 then 1 else vfr))
  }

  /** cfq_group_service_tree_del. */
  function Del(h: Hierarchy, i: nat): (r: Hierarchy)
    requires Shaped(h) && i < |h.gs|
    ensures Shaped(r) && r.parent == h.parent
  {
    Drop(Set(h, i, h.gs[i].(onTree := false)), i, h.gs[i].leafWeight)
  }

  // -------------------------------------------------------------------- invariant

  datatype Tally = Tally(n: int, w: int)

  function Contribution(h: Hierarchy, p: nat, i: nat): Tally
    requires |h.parent| == |h.gs| && i < |h.gs|
  {
    if 0 < i && h.parent[i] == p && h.gs[i].nrActive > 0 then Tally(1, h.gs[i].weight) else Tally(0, 0)
  }

  /** The active children of p among the first k groups: how many and their weight. */
  function Children(h: Hierarchy, p: nat, k: nat): Tally
    requires |h.parent| == |h.gs| && k <= |h.gs|
  {
    if k == 0 then Tally(0, 0)
    else
      var t, c := Children(h, p, k - 1), Contribution(h, p, k - 1);
      Tally(t.n + c.n, t.w + c.w)
  }

  function Own(g: Group): Tally {
    if g.onTree then Tally(1, g.leafWeight) else Tally(0, 0)
  }

  /** What nr_active and children_weight of p should be. */
  function Expected(h: Hierarchy, p: nat): Tally
    requires |h.parent| == |h.gs| && p < |h.gs|
  {
    var t, o := Children(h, p, |h.gs|), Own(h.gs[p]);
    Tally(t.n + o.n, t.w + o.w)
  }

  /** The counters of p are short of what is expected by dn and dw. */
  ghost predicate Short(h: Hierarchy, p: nat, dn: int, dw: int)
    requires |h.parent| == |h.gs| && p < |h.gs|
  {
    h.gs[p].nrActive + dn == Expected(h, p).n && h.gs[p].childrenWeight + dw == Expected(h, p).w
  }

  ghost predicate ShortAt(h: Hierarchy, p: nat, pos: nat, dn: int, dw: int)
    requires |h.parent| == |h.gs| && p < |h.gs|
  {
    if p == pos then Short(h, p, dn, dw) else Short(h, p, 0, 0)
  }

  /** Every group's counters agree with the groups below it, except for pos. */
  ghost predicate Counted(h: Hierarchy, pos: nat, dn: int, dw: int) {
    Shaped(h) && forall p :: 0 <= p < |h.gs| ==> ShortAt(h, p, pos, dn, dw)
  }

  ghost predicate Fractions(h: Hierarchy) {
    forall i :: 0 <= i < |h.gs| && h.gs[i].onTree ==> 1 <= h.gs[i].vfraction <= SHARE_ONE
  }

  ghost predicate Inv(h: Hierarchy) {
    Counted(h, 0, 0, 0) && Fractions(h)
  }

  lemma {:induction false} ChildrenSame(h: Hierarchy, h': Hierarchy, p: nat, k: nat)
    requires h'.parent == h.parent && |h.parent| == |h.gs| == |h'.gs| && k <= |h.gs|
    requires forall i :: 0 <= i < k ==> Contribution(h', p, i) == Contribution(h, p, i)
    ensures Children(h', p, k) == Children(h, p, k)
  {
    if k > 0 { ChildrenSame(h, h', p, k - 1); }
  }

  /** Changing one group moves the tally by the change of its contribution. */
  lemma {:induction false} ChildrenMoved(h: Hierarchy, h': Hierarchy, p: nat, c: nat, k: nat)
    requires h'.parent == h.parent && |h.parent| == |h.gs| == |h'.gs| && c < k <= |h.gs|
    requires forall i :: 0 <= i < |h.gs| && i != c ==> h'.gs[i] == h.gs[i]
    ensures Children(h', p, k).n - Children(h, p, k).n == Contribution(h', p, c).n - Contribution(h, p, c).n
    ensures Children(h', p, k).w - Children(h, p, k).w == Contribution(h', p, c).w - Contribution(h, p, c).w
  {
    if c == k - 1 {
      ChildrenSame(h, h', p, k - 1);
    } else {
      ChildrenMoved(h, h', p, c, k - 1);
    }
  }

  lemma {:induction false} ChildrenPositive(h: Hierarchy, p: nat, k: nat)
    requires Shaped(h) && k <= |h.gs|
    ensures 0 <= Children(h, p, k).n
    ensures WEIGHT_MIN * Children(h, p, k).n <= Children(h, p, k).w <= WEIGHT_MAX * Children(h, p, k).n
  {
    if k > 0 { ChildrenPositive(h, p, k - 1); }
  }

  /** Nothing active below and not queued: the weight is exactly zero, and conversely. */
  lemma CountedPositive(h: Hierarchy, p: nat)
    requires Shaped(h) && p < |h.gs| && Short(h, p, 0, 0)
    ensures h.gs[p].nrActive >= 0
    ensures h.gs[p].nrActive == 0 <==> h.gs[p].childrenWeight == 0
    ensures h.gs[p].nrActive > 0 ==> h.gs[p].childrenWeight > 0
    ensures h.gs[p].onTree ==> h.gs[p].childrenWeight >= h.gs[p].leafWeight
  {
    ChildrenPositive(h, p, |h.gs|);
  }

  lemma {:induction false} ChildWithin(h: Hierarchy, p: nat, c: nat, k: nat)
    requires Shaped(h) && 0 < c < k <= |h.gs| && h.parent[c] == p && h.gs[c].nrActive > 0
    ensures Children(h, p, k).w >= h.gs[c].weight && Children(h, p, k).n >= 1
  {
    if c == k - 1 {
      ChildrenPositive(h, p, k - 1);
    } else {
      ChildWithin(h, p, c, k - 1);
    }
  }

  /** Changing group c: its own expectation moves with onTree and leaf weight, its parent's with
      its activity and weight, nobody else's. */
  lemma SetExpected(h: Hierarchy, c: nat, g: Group, p: nat)
    requires Shaped(h) && c < |h.gs| && p < |h.gs|
    ensures var h' := Set(h, c, g);
      && Expected(h', p).n == Expected(h, p).n + Contribution(h', p, c).n - Contribution(h, p, c).n
           + (if p == c then Own(g).n - Own(h.gs[c]).n else 0)
      && Expected(h', p).w == Expected(h, p).w + Contribution(h', p, c).w - Contribution(h, p, c).w
           + (if p == c then Own(g).w - Own(h.gs[c]).w else 0)
  {
    ChildrenMoved(h, Set(h, c, g), p, c, |h.gs|);
  }

  // --------------------------------------------------------- activation keeps it

  /** pos gets its missing contributor. */
  lemma EnterCounted(h: Hierarchy, pos: nat, w: nat)
    requires pos < |h.gs| && Counted(h, pos, 1, w) && h.gs[pos].nrActive >= 0
    ensures var h' := Set(h, pos, Enter(h.gs[pos], w));
      if h.gs[pos].nrActive == 0 && pos > 0 then Counted(h', h.parent[pos], 1, h.gs[pos].weight)
      else Counted(h', 0, 0, 0)
  {
    var g := Enter(h.gs[pos], w);
    var h' := Set(h, pos, g);
    var waking := h.gs[pos].nrActive == 0 && pos > 0;
    var up, dn, dw := if waking then h.parent[pos] else 0, if waking then 1 else 0, if waking then g.weight else 0;
    forall p | 0 <= p < |h.gs| ensures ShortAt(h', p, up, dn, dw) {
      assert ShortAt(h, p, pos, 1, w);
      SetExpected(h, pos, g, p);
    }
  }

  /** A pending weight of an active group takes effect before its parent counts it. */
  lemma TakeWeightCounted(h: Hierarchy, pos: nat)
    requires Shaped(h) && 0 < pos < |h.gs| && h.gs[pos].nrActive > 0
    requires Counted(h, h.parent[pos], 1, h.gs[pos].weight)
    ensures var h' := Set(h, pos, TakeWeight(h.gs[pos])); Counted(h', h.parent[pos], 1, h'.gs[pos].weight)
  {
    var g := TakeWeight(h.gs[pos]);
    var h' := Set(h, pos, g);
    forall p | 0 <= p < |h.gs| ensures ShortAt(h', p, h.parent[pos], 1, g.weight) {
      assert ShortAt(h, p, h.parent[pos], 1, h.gs[pos].weight);
      SetExpected(h, pos, g, p);
    }
  }

  lemma {:induction false} BumpCounted(h: Hierarchy, pos: nat, w: nat)
    requires pos < |h.gs| && Counted(h, pos, 1, w) && h.gs[pos].nrActive >= 0
    ensures Counted(Bump(h, pos, w), 0, 0, 0)
    decreases pos
  {
    var h1 := Set(h, pos, Enter(h.gs[pos], w));
    EnterCounted(h, pos, w);
    if h.gs[pos].nrActive == 0 && pos > 0 {
      var p := h.parent[pos];
      assert ShortAt(h, p, pos, 1, w);
      CountedPositive(h, p);
      TakeWeightCounted(h1, pos);
      var h2 := Set(h1, pos, TakeWeight(h1.gs[pos]));
      BumpCounted(h2, p, h2.gs[pos].weight);
    }
  }

  /** Counters and weights move only at pos and above; queueing and fractions not at all. */
  lemma {:induction false} BumpFrame(h: Hierarchy, pos: nat, w: nat)
    requires Shaped(h) && pos < |h.gs|
    ensures var r := Bump(h, pos, w);
      && (forall i :: pos < i < |h.gs| ==> r.gs[i] == h.gs[i])
      && (forall i :: 0 <= i < |h.gs| ==>
            && r.gs[i].onTree == h.gs[i].onTree && r.gs[i].vfraction == h.gs[i].vfraction
            && r.gs[i].leafWeight == h.gs[i].leafWeight && r.gs[i].newLeafWeight == h.gs[i].newLeafWeight)
      && r.gs[pos].nrActive == h.gs[pos].nrActive + 1
      && r.gs[pos].childrenWeight == h.gs[pos].childrenWeight + w
    decreases pos
  {
    var h1 := Set(h, pos, Enter(h.gs[pos], w));
    if h.gs[pos].nrActive == 0 && pos > 0 {
      var h2 := Set(h1, pos, TakeWeight(h1.gs[pos]));
      BumpFrame(h2, h.parent[pos], h2.gs[pos].weight);
    }
  }

  /** A pending weight takes effect exactly when its group becomes active. */
  lemma {:induction false} BumpWeights(h: Hierarchy, pos: nat, w: nat, i: nat)
    requires Shaped(h) && pos < |h.gs| && i < |h.gs|
    ensures var r := Bump(h, pos, w);
      && (r.gs[i].weight, r.gs[i].newWeight) ==
           (if 0 < i && h.gs[i].nrActive == 0 && r.gs[i].nrActive != 0
            then (if h.gs[i].newWeight != 0 then h.gs[i].newWeight else h.gs[i].weight, 0)
            else (h.gs[i].weight, h.gs[i].newWeight))
    decreases pos
  {
    BumpFrame(h, pos, w);
    var h1 := Set(h, pos, Enter(h.gs[pos], w));
    if h.gs[pos].nrActive == 0 && pos > 0 {
      var h2 := Set(h1, pos, TakeWeight(h1.gs[pos]));
      BumpFrame(h2, h.parent[pos], h2.gs[pos].weight);
      BumpWeights(h2, h.parent[pos], h2.gs[pos].weight, i);
    }
  }

  // ------------------------------------------------------------------------ shares

  /** Scaling by weights never increases a share, and never divides by zero. */
  lemma {:induction false} UpToBound(h: Hierarchy, pos: nat, x: nat)
    requires Counted(h, 0, 0, 0) && pos < |h.gs| && h.gs[pos].nrActive > 0
    ensures UpTo(h, pos, x) <= x
    ensures pos > 0 ==> h.gs[h.parent[pos]].childrenWeight >= h.gs[pos].weight > 0
    decreases pos
  {
    hide Portion;
    if pos > 0 {
      var p := h.parent[pos];
      ActiveParent(h, pos);
      DivBound(x, h.gs[pos].weight, h.gs[p].childrenWeight);
      UpToBound(h, p, Portion(x, h.gs[pos].weight, h.gs[p].childrenWeight));
    }
  }

  lemma ActiveParent(h: Hierarchy, c: nat)
    requires Counted(h, 0, 0, 0) && 0 < c < |h.gs| && h.gs[c].nrActive > 0
    ensures var p := h.gs[h.parent[c]]; p.nrActive > 0 && p.childrenWeight >= h.gs[c].weight > 0
  {
    assert ShortAt(h, h.parent[c], 0, 0, 0);
    ChildWithin(h, h.parent[c], c, |h.gs|);
  }

  lemma DivBound(x: nat, w: nat, c: nat)
    requires 0 < c && w <= c
    ensures Portion(x, w, c) <= x
  {
    assert x * w <= x * c;
    assert x * c / c == x;
  }

  lemma ShareBound(h: Hierarchy, i: nat)
    requires Counted(h, 0, 0, 0) && i < |h.gs| && h.gs[i].onTree
    ensures Share(h, i) <= SHARE_ONE
  {
    hide Portion;
    assert ShortAt(h, i, 0, 0, 0);
    CountedPositive(h, i);
    DivBound(SHARE_ONE, h.gs[i].leafWeight, h.gs[i].childrenWeight);
    UpToBound(h, i, Portion(SHARE_ONE, h.gs[i].leafWeight, h.gs[i].childrenWeight));
  }

  // ------------------------------------------------------- deactivation keeps it

  lemma LeaveCounted(h: Hierarchy, pos: nat, w: nat)
    requires pos < |h.gs| && Counted(h, pos, -1, 0 - w)
    ensures var g := Leave(h.gs[pos], w);
      var h' := Set(h, pos, if g.nrActive != 0 then g else g.(vfraction := 0));
      && g.nrActive >= 0
      && (g.nrActive == 0 ==> g.childrenWeight == 0 && !g.onTree)
      && if g.nrActive == 0 && pos > 0 then Counted(h', h.parent[pos], -1, 0 - g.weight) else Counted(h', 0, 0, 0)
  {
    assert ShortAt(h, pos, pos, -1, 0 - w);
    ChildrenPositive(h, pos, |h.gs|);
    var g0 := Leave(h.gs[pos], w);
    var g := if g0.nrActive != 0 then g0 else g0.(vfraction := 0);
    var h' := Set(h, pos, g);
    var sleeping := g.nrActive == 0 && pos > 0;
    var up, dn := if sleeping then h.parent[pos] else 0, if sleeping then -1 else 0;
    var dw := if sleeping then 0 - g.weight else 0;
    forall p | 0 <= p < |h.gs| ensures ShortAt(h', p, up, dn, dw) {
      assert ShortAt(h, p, pos, -1, 0 - w);
      SetExpected(h, pos, g, p);
    }
  }

  lemma {:induction false} DropCounted(h: Hierarchy, pos: nat, w: nat)
    requires pos < |h.gs| && Counted(h, pos, -1, 0 - w) && Fractions(h)
    ensures Counted(Drop(h, pos, w), 0, 0, 0) && Fractions(Drop(h, pos, w))
    decreases pos
  {
    LeaveCounted(h, pos, w);
    var g := Leave(h.gs[pos], w);
    if g.nrActive == 0 && pos > 0 {
      DropCounted(Set(h, pos, g.(vfraction := 0)), h.parent[pos], g.weight);
    }
  }

  /** Counters move only at pos and above; weights and queueing not at all. */
  lemma {:induction false} DropFrame(h: Hierarchy, pos: nat, w: nat)
    requires Shaped(h) && pos < |h.gs|
    ensures var r := Drop(h, pos, w);
      forall i :: 0 <= i < |h.gs| ==>
        && (pos < i ==> r.gs[i] == h.gs[i])
        && r.gs[i] == h.gs[i].(nrActive := r.gs[i].nrActive, childrenWeight := r.gs[i].childrenWeight,
                               vfraction := r.gs[i].vfraction)
        && (r.gs[i].vfraction == h.gs[i].vfraction || (r.gs[i].vfraction == 0 == r.gs[i].nrActive))
    decreases pos
  {
    var g := Leave(h.gs[pos], w);
    if g.nrActive == 0 && pos > 0 {
      DropFrame(Set(h, pos, g.(vfraction := 0)), h.parent[pos], g.weight);
    }
  }

  // -------------------------------------------------------------------- operations

  lemma ActivatedCounted(h: Hierarchy, i: nat)
    requires Counted(h, 0, 0, 0) && i < |h.gs| && !h.gs[i].onTree
    ensures Counted(Activated(h, i), 0, 0, 0)
  {
    var g := TakeLeafWeight(h.gs[i]).(onTree := true);
    var h1 := Set(h, i, g);
    assert ShortAt(h, i, 0, 0, 0);
    CountedPositive(h, i);
    forall p | 0 <= p < |h.gs| ensures ShortAt(h1, p, i, 1, g.leafWeight) {
      assert ShortAt(h, p, 0, 0, 0);
      SetExpected(h, i, g, p);
    }
    BumpCounted(h1, i, g.leafWeight);
  }

  lemma ActivatedFrame(h: Hierarchy, i: nat)
    requires Shaped(h) && i < |h.gs|
    ensures var r := Activated(h, i);
      && (forall k :: 0 <= k < |h.gs| ==> r.gs[k].onTree == (k == i || h.gs[k].onTree))
      && (forall k :: 0 <= k < |h.gs| ==> r.gs[k].vfraction == h.gs[k].vfraction)
  {
    var g := TakeLeafWeight(h.gs[i]).(onTree := true);
    BumpFrame(Set(h, i, g), i, g.leafWeight);
  }

  /** Putting a group on the service tree: the counters stay right, only queueing of i
      changed, and its fraction is its share in the new state, within 1..4096. */
  lemma AddInv(h: Hierarchy, i: nat)
    requires Inv(h) && i < |h.gs| && !h.gs[i].onTree
    ensures var r := Add(h, i);
      && Inv(r) && r.parent == h.parent
      && (forall k :: 0 <= k < |h.gs| ==> r.gs[k].onTree == (k == i || h.gs[k].onTree))
      && (forall k :: 0 <= k < |h.gs| && k != i ==> r.gs[k].vfraction == h.gs[k].vfraction)
      && r.gs[i].vfraction == if Share(r, i) < 1 then 1 else Share(r, i)
  {
    hide Portion;
    ActivatedCounted(h, i);
    ActivatedFrame(h, i);
    FractionSet(Activated(h, i), i);
  }

  /** Putting a group on the tree: its own pending leaf weight takes effect, and the pending
      weight of every group that becomes active by it; no other weight changes. */
  lemma AddWeights(h: Hierarchy, i: nat, k: nat)
    requires Shaped(h) && i < |h.gs| && k < |h.gs|
    ensures var r := Add(h, i);
      && (r.gs[k].leafWeight, r.gs[k].newLeafWeight) ==
           (if k == i then (if h.gs[i].newLeafWeight != 0 then h.gs[i].newLeafWeight else h.gs[i].leafWeight, 0)
            else (h.gs[k].leafWeight, h.gs[k].newLeafWeight))
      && (r.gs[k].weight, r.gs[k].newWeight) ==
           (if 0 < k && h.gs[k].nrActive == 0 && r.gs[k].nrActive != 0
            then (if h.gs[k].newWeight != 0 then h.gs[k].newWeight else h.gs[k].weight, 0)
            else (h.gs[k].weight, h.gs[k].newWeight))
  {
    hide Share;
    var g := TakeLeafWeight(h.gs[i]).(onTree := true);
    BumpFrame(Set(h, i, g), i, g.leafWeight);
    BumpWeights(Set(h, i, g), i, g.leafWeight, k);
  }

  /** The weight a group will next compete with. */
  function Wanted(g: Group): nat {
    if g.newWeight != 0 then g.newWeight else g.weight
  }

  function WantedLeaf(g: Group): nat {
    if g.newLeafWeight != 0 then g.newLeafWeight else g.leafWeight
  }

  /** Only setting a weight from 10 to 1000 changes what a group will compete with; queueing and
      unqueueing do not, whatever takes effect by them. */
  lemma WantedKept(h: Hierarchy, t: Step, k: nat)
    requires Shaped(h) && Enabled(h, t) && k < |h.gs|
    ensures var r := Next(h, t);
      && k < |r.gs|
      && Wanted(r.gs[k]) == (if t.SetWeight? && t.i == k && 10 <= t.w <= 1000 then t.w else Wanted(h.gs[k]))
      && WantedLeaf(r.gs[k]) ==
           (if t.SetLeafWeight? && t.i == k && 10 <= t.w <= 1000 then t.w else WantedLeaf(h.gs[k]))
  {
    hide Add, Del;
    match t
    case Queue(i) => AddWeights(h, i, k);
    case Unqueue(i) => DelWeights(h, i, k);
    case _ =>
  }

  lemma DelWeights(h: Hierarchy, i: nat, k: nat)
    requires Shaped(h) && i < |h.gs| && k < |h.gs|
    ensures Wanted(Del(h, i).gs[k]) == Wanted(h.gs[k]) && WantedLeaf(Del(h, i).gs[k]) == WantedLeaf(h.gs[k])
  {
    DropFrame(Set(h, i, h.gs[i].(onTree := false)), i, h.gs[i].leafWeight);
  }

  /** Storing the fraction disturbs nothing. */
  lemma FractionSet(h: Hierarchy, i: nat)
    requires Counted(h, 0, 0, 0) && i < |h.gs| && h.gs[i].onTree
    requires forall k :: 0 <= k < |h.gs| && k != i && h.gs[k].onTree ==> 1 <= h.gs[k].vfraction <= SHARE_ONE
    ensures var vfr := Share(h, i);
      var r := Set(h, i, h.gs[i].(vfraction := if vfr < 1 then 1 else vfr));
      Inv(r) && Share(r, i) == vfr
  {
    hide Portion;
    var vfr := Share(h, i);
    var g := h.gs[i].(vfraction := if vfr < 1 then 1 else vfr);
    var r := Set(h, i, g);
    ShareBound(h, i);
    forall p | 0 <= p < |h.gs| ensures ShortAt(r, p, 0, 0, 0) {
      assert ShortAt(h, p, 0, 0, 0);
      SetExpected(h, i, g, p);
    }
    if g.childrenWeight > 0 { UpToSame(h, r, i, Portion(SHARE_ONE, g.leafWeight, g.childrenWeight)); }
  }

  lemma {:induction false} UpToSame(h: Hierarchy, r: Hierarchy, pos: nat, x: nat)
    requires Shaped(h) && Shaped(r) && r.parent == h.parent && pos < |h.gs|
    requires forall k :: 0 <= k < |h.gs| ==>
               r.gs[k].weight == h.gs[k].weight && r.gs[k].childrenWeight == h.gs[k].childrenWeight
    ensures UpTo(r, pos, x) == UpTo(h, pos, x)
    decreases pos
  {
    hide Portion;
    if pos > 0 && h.gs[h.parent[pos]].childrenWeight > 0 {
      UpToSame(h, r, h.parent[pos], Portion(x, h.gs[pos].weight, h.gs[h.parent[pos]].childrenWeight));
    }
  }

  lemma DelCounted(h: Hierarchy, i: nat)
    requires Counted(h, 0, 0, 0) && i < |h.gs| && h.gs[i].onTree
    ensures Counted(Set(h, i, h.gs[i].(onTree := false)), i, -1, 0 - h.gs[i].leafWeight)
  {
    var g := h.gs[i].(onTree := false);
    var h1 := Set(h, i, g);
    var dw: int := 0 - g.leafWeight;
    forall p | 0 <= p < |h.gs| ensures ShortAt(h1, p, i, -1, dw) {
      assert ShortAt(h, p, 0, 0, 0);
      SetExpected(h, i, g, p);
    }
  }

  /** Taking a group off undoes its contribution: an inactive group is back to exactly zero. */
  lemma DelInv(h: Hierarchy, i: nat)
    requires Inv(h) && i < |h.gs| && h.gs[i].onTree
    ensures var r := Del(h, i);
      && Inv(r) && r.parent == h.parent
      && (forall k :: 0 <= k < |h.gs| ==> r.gs[k].onTree == (k != i && h.gs[k].onTree))
      && (forall k :: 0 <= k < |h.gs| && r.gs[k].nrActive == 0 ==> r.gs[k].childrenWeight == 0)
  {
    var g := h.gs[i].(onTree := false);
    var h1 := Set(h, i, g);
    DelCounted(h, i);
    DropCounted(h1, i, g.leafWeight);
    DropFrame(h1, i, g.leafWeight);
    var r := Del(h, i);
    forall k | 0 <= k < |h.gs| && r.gs[k].nrActive == 0 ensures r.gs[k].childrenWeight == 0 {
      assert ShortAt(r, k, 0, 0, 0);
      CountedPositive(r, k);
    }
  }

  // -------------------------------------------------------------------------- runs

  datatype Step =
    | Queue(i: nat)
    | Unqueue(i: nat)
    | SetWeight(i: nat, w: nat)
    | SetLeafWeight(i: nat, w: nat)
    | NewGroup(parent: nat, weight: nat, leafWeight: nat)

  ghost predicate Enabled(h: Hierarchy, t: Step) {
    match t
    case Queue(i) => i < |h.gs| && !h.gs[i].onTree
    case Unqueue(i) => i < |h.gs| && h.gs[i].onTree
    case SetWeight(i, w) => i < |h.gs|
    case SetLeafWeight(i, w) => i < |h.gs|
    case NewGroup(p, w, lw) => p < |h.gs| && WeightOk(w) && WeightOk(lw)
  }

  /** A weight outside 10..1000 is refused; an accepted one waits in new_weight. */
  function Next(h: Hierarchy, t: Step): (r: Hierarchy)
    requires Shaped(h) && Enabled(h, t)
    ensures Shaped(r)
  {
    match t
    case Queue(i) => Add(h, i)
    case Unqueue(i) => Del(h, i)
    case SetWeight(i, w) => if WeightOk(w) then Set(h, i, h.gs[i].(newWeight := w)) else h
    case SetLeafWeight(i, w) => if WeightOk(w) then Set(h, i, h.gs[i].(newLeafWeight := w)) else h
    case NewGroup(p, w, lw) => Hierarchy(h.parent + [p], h.gs + [Group(0, 0, 0, w, 0, lw, 0, false)])
  }

  lemma SetWeightInv(h: Hierarchy, i: nat, g: Group)
    requires Inv(h) && i < |h.gs| && Shaped(Set(h, i, g))
    requires g == h.gs[i].(newWeight := g.newWeight, newLeafWeight := g.newLeafWeight)
    ensures Inv(Set(h, i, g))
  {
    var r := Set(h, i, g);
    forall p | 0 <= p < |h.gs| ensures ShortAt(r, p, 0, 0, 0) {
      assert ShortAt(h, p, 0, 0, 0);
      SetExpected(h, i, g, p);
    }
  }

  lemma {:induction false} ChildrenPrefix(h: Hierarchy, r: Hierarchy, p: nat, k: nat)
    requires |h.parent| == |h.gs| && |r.parent| == |r.gs| && h.parent <= r.parent && h.gs <= r.gs && k <= |h.gs|
    ensures Children(r, p, k) == Children(h, p, k)
  {
    if k > 0 { ChildrenPrefix(h, r, p, k - 1); }
  }

  lemma {:induction false} ChildrenOfNewest(h: Hierarchy, p: nat, k: nat)
    requires Shaped(h) && k <= |h.gs| && p + 1 >= |h.gs|
    ensures Children(h, p, k) == Tally(0, 0)
  {
    if k > 0 { ChildrenOfNewest(h, p, k - 1); }
  }

  lemma NewGroupInv(h: Hierarchy, up: nat, w: nat, lw: nat)
    requires Inv(h) && up < |h.gs| && WeightOk(w) && WeightOk(lw)
    ensures Inv(Next(h, NewGroup(up, w, lw)))
  {
    var r := Next(h, NewGroup(up, w, lw));
    forall p | 0 <= p < |r.gs| ensures ShortAt(r, p, 0, 0, 0) {
      if p < |h.gs| {
        assert ShortAt(h, p, 0, 0, 0);
        ChildrenPrefix(h, r, p, |h.gs|);
      } else {
        ChildrenOfNewest(r, p, |r.gs|);
      }
    }
  }

  lemma NextInv(h: Hierarchy, t: Step)
    requires Inv(h) && Enabled(h, t)
    ensures Inv(Next(h, t))
  {
    match t
    case Queue(i) => AddInv(h, i);
    case Unqueue(i) => DelInv(h, i);
    case SetWeight(i, w) => if WeightOk(w) { SetWeightInv(h, i, h.gs[i].(newWeight := w)); }
    case SetLeafWeight(i, w) => if WeightOk(w) { SetWeightInv(h, i, h.gs[i].(newLeafWeight := w)); }
    case NewGroup(p, w, lw) => NewGroupInv(h, p, w, lw);
  }

  ghost predicate Legal(h: Hierarchy, steps: seq<Step>)
    requires Shaped(h)
    decreases |steps|
  {
    steps == [] || (Enabled(h, steps[0]) && Legal(Next(h, steps[0]), steps[1..]))
  }

  ghost function Exec(h: Hierarchy, steps: seq<Step>): (r: Hierarchy)
    requires Shaped(h) && Legal(h, steps)
    ensures Shaped(r)
    decreases |steps|
  {
    if steps == [] then h else Exec(Next(h, steps[0]), steps[1..])
  }

  lemma {:induction false} ExecInv(h: Hierarchy, steps: seq<Step>)
    requires Inv(h) && Legal(h, steps)
    ensures Inv(Exec(h, steps))
    decreases |steps|
  {
    if steps != [] {
      NextInv(h, steps[0]);
      ExecInv(Next(h, steps[0]), steps[1..]);
    }
  }

  function Root(weight: nat, leafWeight: nat): Hierarchy {
    Hierarchy([0], [Group(0, 0, 0, weight, 0, leafWeight, 0, false)])
  }

  lemma RootInv(w: nat, lw: nat)
    requires WeightOk(w) && WeightOk(lw)
    ensures Inv(Root(w, lw))
  {
    var h := Root(w, lw);
    assert Children(h, 0, 1) == Tally(0, 0);
    assert ShortAt(h, 0, 0, 0, 0);
  }

  /** In every reachable hierarchy the counters equal what is queued at and active below
      each group, and the fraction of every queued group lies in 1..4096. */
  lemma CountersAgree(w: nat, lw: nat, steps: seq<Step>, p: nat)
    requires WeightOk(w) && WeightOk(lw) && Legal(Root(w, lw), steps) && p < |Exec(Root(w, lw), steps).gs|
    ensures var h := Exec(Root(w, lw), steps);
      var g := h.gs[p];
      && g.nrActive == Children(h, p, |h.gs|).n + (if g.onTree then 1 else 0)
      && g.childrenWeight == Children(h, p, |h.gs|).w + (if g.onTree then g.leafWeight else 0)
      && (g.nrActive == 0 <==> g.childrenWeight == 0)
      && (g.onTree ==> 1 <= g.vfraction <= SHARE_ONE)
  {
    RootInv(w, lw);
    ExecInv(Root(w, lw), steps);
    var h := Exec(Root(w, lw), steps);
    assert ShortAt(h, p, 0, 0, 0);
    CountedPositive(h, p);
  }
}
