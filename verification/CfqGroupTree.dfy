/**
 The group hierarchy as CFQ keeps it: one walk towards the root per activation or
 deactivation, updating counters in place.  Activation and the fraction are computed in
 the same walk; propagation stops at the first ancestor that was already active while the
 fraction goes on to the root.
 */
module CfqGroupTree {
  import opened CfqGroups

  /** What the walk towards the root still owes, when it stands at pos. */
  ghost predicate Walking(h: Hierarchy, final: Hierarchy, i: nat, pos: nat, propagate: bool, vfr: nat) {
    && Shaped(h) && Shaped(final) && pos < |h.gs| == |final.gs| && i < |h.gs| && final.parent == h.parent
    && final == (if propagate then Propagate(h, pos) else h)
    && UpTo(final, pos, vfr) == Share(final, i)
    && final.gs[pos].nrActive > 0
  }

  lemma WalkStart(h: Hierarchy, i: nat)
    requires Inv(h) && i < |h.gs| && !h.gs[i].onTree
    ensures var g := TakeLeafWeight(h.gs[i]).(onTree := true);
      var e := Enter(g, g.leafWeight);
      && e.childrenWeight > 0
      && Counted(Activated(h, i), 0, 0, 0)
      && Walking(Set(h, i, e), Activated(h, i), i, i, g.nrActive == 0,
                 Portion(SHARE_ONE, g.leafWeight, e.childrenWeight))
  {
    hide Portion;
    var g := TakeLeafWeight(h.gs[i]).(onTree := true);
    var h1 := Set(h, i, g);
    assert ShortAt(h, i, 0, 0, 0);
    CountedPositive(h, i);
    ActivatedCounted(h, i);
    BumpFrame(h1, i, g.leafWeight);
    assert Set(h1, i, Enter(g, g.leafWeight)) == Set(h, i, Enter(g, g.leafWeight));
  }

  /** One level up. */
  function Climbed(h: Hierarchy, pos: nat, propagate: bool): Hierarchy
    requires Shaped(h) && 0 < pos < |h.gs|
  {
    if propagate then
      var h' := Set(h, pos, TakeWeight(h.gs[pos]));
      Set(h', h.parent[pos], Enter(h'.gs[h.parent[pos]], h'.gs[pos].weight))
    else h
  }

  lemma WalkUp(h: Hierarchy, final: Hierarchy, i: nat, pos: nat, propagate: bool, vfr: nat)
    requires Walking(h, final, i, pos, propagate, vfr) && 0 < pos && Counted(final, 0, 0, 0)
    ensures var p := h.parent[pos];
      var h' := Climbed(h, pos, propagate);
      && h'.gs[p].childrenWeight > 0
      && Walking(h', final, i, p, propagate && h.gs[p].nrActive == 0,
                 Portion(vfr, h'.gs[pos].weight, h'.gs[p].childrenWeight))
  {
    hide Counted, Share, Portion;
    var p := h.parent[pos];
    ActiveParent(final, pos);
    if propagate {
      var h1 := Set(h, pos, TakeWeight(h.gs[pos]));
      BumpFrame(h1, p, h1.gs[pos].weight);
    }
  }

  function Cleared(h: Hierarchy, pos: nat): Hierarchy
    requires pos < |h.gs|
  {
    Set(h, pos, h.gs[pos].(vfraction := 0))
  }

  /** What is left to do at pos once it has become inactive. */
  function Sunk(h: Hierarchy, pos: nat): Hierarchy
    requires Shaped(h) && pos < |h.gs|
  {
    if pos == 0 then Cleared(h, 0) else Drop(Cleared(h, pos), h.parent[pos], h.gs[pos].weight)
  }

  /** A deactivation in progress: pos has given up a contributor, and if it is now inactive
      its fraction and its parent still have to follow. */
  ghost predicate Sinking(h: Hierarchy, final: Hierarchy, pos: nat, propagate: bool) {
    && Shaped(h) && pos < |h.gs|
    && propagate == (h.gs[pos].nrActive == 0)
    && (propagate ==> h.gs[pos].childrenWeight == 0)
    && (propagate && pos > 0 ==> Counted(Cleared(h, pos), h.parent[pos], -1, 0 - h.gs[pos].weight))
    && final == if propagate then Sunk(h, pos) else h
  }

  lemma SinkFrom(h: Hierarchy, pos: nat, w: nat)
    requires pos < |h.gs| && Counted(h, pos, -1, 0 - w)
    ensures var h' := Set(h, pos, Leave(h.gs[pos], w)); Sinking(h', Drop(h, pos, w), pos, h'.gs[pos].nrActive == 0)
  {
    LeaveCounted(h, pos, w);
    var g := Leave(h.gs[pos], w);
    assert Set(Set(h, pos, g), pos, g.(vfraction := 0)) == Set(h, pos, g.(vfraction := 0));
  }

  lemma SinkStart(h: Hierarchy, i: nat)
    requires Inv(h) && i < |h.gs| && h.gs[i].onTree
    ensures var g := Leave(h.gs[i].(onTree := false), h.gs[i].leafWeight);
      Sinking(Set(h, i, g), Del(h, i), i, g.nrActive == 0)
  {
    hide Sinking, Drop;
    DelCounted(h, i);
    var h1 := Set(h, i, h.gs[i].(onTree := false));
    SinkFrom(h1, i, h.gs[i].leafWeight);
    assert Set(h1, i, Leave(h1.gs[i], h.gs[i].leafWeight)) == Set(h, i, Leave(h1.gs[i], h.gs[i].leafWeight));
  }

  lemma SinkStep(h: Hierarchy, final: Hierarchy, pos: nat)
    requires Sinking(h, final, pos, true)
    ensures if pos == 0 then final == Cleared(h, 0) else
      var p := h.parent[pos];
      var h' := Set(Cleared(h, pos), p, Leave(h.gs[p], h.gs[pos].weight));
      Sinking(h', final, p, h'.gs[p].nrActive == 0)
  {
    hide Drop, Counted;
    if pos > 0 {
      SinkFrom(Cleared(h, pos), h.parent[pos], h.gs[pos].weight);
    }
  }

  lemma WalkEnd(h: Hierarchy, final: Hierarchy, i: nat, propagate: bool, vfr: nat)
    requires Walking(h, final, i, 0, propagate, vfr)
    ensures final == h && vfr == Share(h, i)
  {
  }

  class GroupTree {
    var parent: seq<nat>
    var gs: seq<Group>

    ghost function View(): Hierarchy
      reads this
    {
      Hierarchy(parent, gs)
    }

    ghost predicate Valid()
      reads this
    {
      Shaped(View()) && Inv(View())
    }

    constructor (weight: nat, leafWeight: nat)
      requires WeightOk(weight) && WeightOk(leafWeight)
      ensures Valid() && View() == Root(weight, leafWeight)
    {
      parent, gs := [0], [Group(0, 0, 0, weight, 0, leafWeight, 0, false)];
      RootInv(weight, leafWeight);
    }

    method ServiceTreeAdd(i: nat)
      requires Valid() && i < |gs| && !gs[i].onTree
      modifies this`gs
      ensures Valid() && View() == Add(old(View()), i)
    {
      hide Portion, Walking, Counted, Activated, Share;
      ghost var h0 := View();
      ghost var final := Activated(h0, i);
      WalkStart(h0, i);
      AddInv(h0, i);
      gs := gs[i := TakeLeafWeight(gs[i]).(onTree := true)];
      var pos: nat, propagate := i, gs[i].nrActive == 0;
      gs := gs[i := Enter(gs[i], gs[i].leafWeight)];
      var vfr: nat := Portion(SHARE_ONE, gs[i].leafWeight, gs[i].childrenWeight);
      assert View() == Set(h0, i, gs[i]);
      while pos != 0
        invariant |gs| == |parent| && pos < |gs| && Shaped(View())
        invariant Walking(View(), final, i, pos, propagate, vfr)
        decreases pos
      {
        var up := Climb(final, i, pos, propagate, vfr);
        vfr := Portion(vfr, gs[pos].weight, gs[parent[pos]].childrenWeight);
        pos, propagate := parent[pos], up;
      }
      WalkEnd(View(), final, i, propagate, vfr);
      gs := gs[i := gs[i].(vfraction := if vfr > 1 then vfr else 1)];
    }

    /** The body of the loop in the walk towards the root, up to its division. */
    method Climb(ghost final: Hierarchy, ghost i: nat, pos: nat, propagate: bool, ghost vfr: nat) returns (up: bool)
      requires |gs| == |parent| && 0 < pos < |gs|
      requires Walking(View(), final, i, pos, propagate, vfr) && Counted(final, 0, 0, 0) && Shaped(View())
      modifies this`gs
      ensures |gs| == |parent| && Shaped(View()) && parent[pos] < pos && gs[parent[pos]].childrenWeight > 0
      ensures Walking(View(), final, i, parent[pos], up, Portion(vfr, gs[pos].weight, gs[parent[pos]].childrenWeight))
    {
      hide Portion, Walking, Counted;
      WalkUp(View(), final, i, pos, propagate, vfr);
      ghost var h := View();
      up := false;
      if propagate {
        gs := gs[pos := TakeWeight(gs[pos])];
        up := gs[parent[pos]].nrActive == 0;
        gs := gs[parent[pos] := Enter(gs[parent[pos]], gs[pos].weight)];
      }
      assert View() == Climbed(h, pos, propagate);
    }

    method ServiceTreeDel(i: nat)
      requires Valid() && i < |gs| && gs[i].onTree
      modifies this`gs
      ensures Valid() && View() == Del(old(View()), i)
    {
      ghost var h0 := View();
      DelInv(h0, i);
      SinkStart(h0, i);
      var pos: nat := i;
      gs := gs[i := gs[i].(onTree := false)];
      gs := gs[i := Leave(gs[i], gs[i].leafWeight)];
      var propagate := gs[i].nrActive == 0;
      assert View() == Set(h0, i, gs[i]);
      while propagate
        invariant Sinking(View(), Del(h0, i), pos, propagate)
        invariant parent == old(parent)
        decreases pos, propagate
      {
        hide Counted, Fractions, Del;
        SinkStep(View(), Del(h0, i), pos);
        assert gs[pos].childrenWeight == 0;
        gs := gs[pos := gs[pos].(vfraction := 0)];
        if pos == 0 { break; }
        gs := gs[parent[pos] := Leave(gs[parent[pos]], gs[pos].weight)];
        propagate := gs[parent[pos]].nrActive == 0;
        pos := parent[pos];
      }
    }

    method SetWeight(i: nat, w: nat) returns (ok: bool)
      requires Valid() && i < |gs|
      modifies this`gs
      ensures Valid() && View() == Next(old(View()), Step.SetWeight(i, w)) && ok == (WEIGHT_MIN <= w <= WEIGHT_MAX)
    {
      NextInv(View(), Step.SetWeight(i, w));
      ok := WEIGHT_MIN <= w && w <= WEIGHT_MAX;
      if ok { gs := gs[i := gs[i].(newWeight := w)]; }
    }
  }
}
