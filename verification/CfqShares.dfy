/** The shares of all queued groups together never exceed the whole disk. */
module CfqShares {
  import opened CfqGroups

  predicate Active(h: Hierarchy, i: nat)
    requires i < |h.gs|
  {
    h.gs[i].nrActive > 0
  }

  function Scale(x: real, w: nat, c: nat): real
    requires c > 0
  {
    x * w as real / c as real
  }

  /** The exact fraction of the disk that reaches group v from the root. */
  function Fraction(h: Hierarchy, v: nat): real
    requires Shaped(h) && v < |h.gs|
    decreases v
  {
    if v == 0 then 1.0
    else
      var p := h.parent[v];
      if h.gs[p].childrenWeight <= 0 then 0.0
      else Scale(Fraction(h, p), h.gs[v].weight, h.gs[p].childrenWeight)
  }

  /** The part of it that v's own queues get. */
  function OwnFraction(h: Hierarchy, v: nat): real
    requires Shaped(h) && v < |h.gs|
  {
    if h.gs[v].onTree && h.gs[v].childrenWeight > 0
    then Scale(Fraction(h, v), h.gs[v].leafWeight, h.gs[v].childrenWeight) else 0.0
  }

  lemma ScalePositive(x: real, w: nat, c: nat)
    requires x >= 0.0 && c > 0
    ensures Scale(x, w, c) >= 0.0
  {
    assert x * w as real >= 0.0;
  }

  lemma ScaleBack(x: real, w: nat, c: nat)
    requires c > 0
    ensures Scale(x, w, c) * c as real == x * w as real
  {
  }

  lemma {:induction false} FractionPositive(h: Hierarchy, v: nat)
    requires Shaped(h) && v < |h.gs|
    ensures Fraction(h, v) >= 0.0
    decreases v
  {
    hide Scale;
    if v > 0 {
      var p := h.parent[v];
      FractionPositive(h, p);
      if h.gs[p].childrenWeight > 0 {
        ScalePositive(Fraction(h, p), h.gs[v].weight, h.gs[p].childrenWeight);
      }
    }
  }

  // -------------------------------------------------- floor shares against fractions

  lemma FloorDiv(x: nat, w: nat, c: nat)
    requires c > 0
    ensures (x * w / c) as real * c as real <= x as real * w as real
  {
    var q := x * w / c;
    assert q * c <= x * w;
    assert (q * c) as real == q as real * c as real;
    assert (x * w) as real == x as real * w as real;
  }

  lemma MulMono(a: real, b: real, f: real)
    requires a <= b && f >= 0.0
    ensures a * f <= b * f
  {
  }

  lemma Cancel(a: real, b: real, c: real)
    requires c > 0.0 && a * c <= b * c
    ensures a <= b
  {
  }

  lemma Commute(x: real, y: real, z: real)
    ensures x * y * z == x * z * y
    ensures x * y * z == x * (y * z)
  {
  }

  /** Dividing with a floor and then scaling by f loses against scaling exactly. */
  lemma ScaleStep(x: nat, w: nat, c: nat, f: real)
    requires c > 0 && f >= 0.0
    ensures Portion(x, w, c) as real * f <= x as real * Scale(f, w, c)
  {
    hide Scale;
    var q, rx, rw, rc := (x * w / c) as real, x as real, w as real, c as real;
    FloorDiv(x, w, c);
    MulMono(q * rc, rx * rw, f);
    Commute(q, rc, f);
    Commute(rx, rw, f);
    assert q * f * rc <= rx * (rw * f);
    ScaleBack(f, w, c);
    Commute(rx, Scale(f, w, c), rc);
    assert rx * Scale(f, w, c) * rc == rx * (f * rw);
    Cancel(q * f, rx * Scale(f, w, c), rc);
  }

  /** Every floor on the way up only loses. */
  lemma {:induction false} UpToFraction(h: Hierarchy, pos: nat, x: nat)
    requires Shaped(h) && pos < |h.gs|
    ensures UpTo(h, pos, x) as real <= x as real * Fraction(h, pos)
    decreases pos
  {
    hide Scale, Portion;
    if pos > 0 {
      var p := h.parent[pos];
      var w, c := h.gs[pos].weight, h.gs[p].childrenWeight;
      if c > 0 {
        UpToFraction(h, p, Portion(x, w, c));
        FractionPositive(h, p);
        ScaleStep(x, w, c, Fraction(h, p));
      }
    }
  }

  lemma ShareFraction(h: Hierarchy, i: nat)
    requires Shaped(h) && i < |h.gs| && h.gs[i].onTree
    ensures Share(h, i) as real <= SHARE_ONE as real * OwnFraction(h, i)
  {
    hide Scale, Fraction, UpTo, Portion;
    var g := h.gs[i];
    if g.childrenWeight > 0 {
      UpToFraction(h, i, Portion(SHARE_ONE, g.leafWeight, g.childrenWeight));
      FractionPositive(h, i);
      ScaleStep(SHARE_ONE, g.leafWeight, g.childrenWeight, Fraction(h, i));
    }
  }

  // ----------------------------------------------------------- fractions add up to one

  function ChildFractions(h: Hierarchy, v: nat, k: nat): real
    requires Shaped(h) && k <= |h.gs|
  {
    if k == 0 then 0.0
    else ChildFractions(h, v, k - 1)
         + if 0 < k - 1 && h.parent[k - 1] == v && Active(h, k - 1) then Fraction(h, k - 1) else 0.0
  }

  lemma Distribute(a: real, b: real, c: real)
    ensures (a + b) * c == a * c + b * c
    ensures c * (a + b) == c * a + c * b
  {
  }

  ghost predicate Balanced(a: real, c: real, f: real, x: real) {
    a * c == f * x
  }

  lemma AddProducts(a: real, b: real, c: real, f: real, x: real, y: real)
    requires Balanced(a, c, f, x) && Balanced(b, c, f, y)
    ensures Balanced(a + b, c, f, x + y)
  {
    Distribute(a, b, c);
    Distribute(x, y, f);
  }

  lemma NoneBalanced(c: real, f: real)
    ensures Balanced(0.0, c, f, 0.0)
  {
  }

  lemma ChildFraction(h: Hierarchy, v: nat, i: nat)
    requires Shaped(h) && 0 < i < |h.gs| && h.parent[i] == v && h.gs[v].childrenWeight > 0
    ensures Balanced(Fraction(h, i), h.gs[v].childrenWeight as real, Fraction(h, v), h.gs[i].weight as real)
  {
    hide Scale;
    ScaleBack(Fraction(h, v), h.gs[i].weight, h.gs[v].childrenWeight);
  }

  lemma {:induction false} ChildFractionsWeight(h: Hierarchy, v: nat, k: nat)
    requires Shaped(h) && k <= |h.gs| && v < |h.gs| && h.gs[v].childrenWeight > 0
    ensures Balanced(ChildFractions(h, v, k), h.gs[v].childrenWeight as real, Fraction(h, v),
                     Children(h, v, k).w as real)
  {
    hide Scale, Fraction, Balanced;
    if k == 0 {
      NoneBalanced(h.gs[v].childrenWeight as real, Fraction(h, v));
    } else {
      var i := k - 1;
      ChildFractionsWeight(h, v, i);
      if 0 < i && h.parent[i] == v && Active(h, i) {
        ChildFraction(h, v, i);
        AddProducts(ChildFractions(h, v, i), Fraction(h, i), h.gs[v].childrenWeight as real, Fraction(h, v),
                    Children(h, v, i).w as real, h.gs[i].weight as real);
      }
    }
  }

  lemma CancelEq(a: real, b: real, c: real)
    requires c > 0.0 && a * c == b * c
    ensures a == b
  {
  }

  lemma OwnFractionWeight(h: Hierarchy, v: nat)
    requires Shaped(h) && v < |h.gs| && h.gs[v].childrenWeight > 0
    ensures Balanced(OwnFraction(h, v), h.gs[v].childrenWeight as real, Fraction(h, v), Own(h.gs[v]).w as real)
  {
    hide Scale, Fraction;
    if h.gs[v].onTree {
      ScaleBack(Fraction(h, v), h.gs[v].leafWeight, h.gs[v].childrenWeight);
    }
  }

  /** What reaches an active group is split among its queues and its active children. */
  lemma FractionSplit(h: Hierarchy, v: nat)
    requires Counted(h, 0, 0, 0) && v < |h.gs|
    ensures OwnFraction(h, v) + ChildFractions(h, v, |h.gs|) == if Active(h, v) then Fraction(h, v) else 0.0
  {
    hide Scale, Fraction, ChildFractions, Children;
    assert ShortAt(h, v, 0, 0, 0);
    CountedPositive(h, v);
    if Active(h, v) {
      var n, c, f := |h.gs|, h.gs[v].childrenWeight as real, Fraction(h, v);
      ChildFractionsWeight(h, v, n);
      OwnFractionWeight(h, v);
      AddProducts(OwnFraction(h, v), ChildFractions(h, v, n), c, f, Own(h.gs[v]).w as real,
                  Children(h, v, n).w as real);
      CancelEq(OwnFraction(h, v) + ChildFractions(h, v, n), f, c);
    } else {
      NoChildren(h, v, |h.gs|);
    }
  }

  lemma {:induction false} NoChildren(h: Hierarchy, v: nat, k: nat)
    requires Counted(h, 0, 0, 0) && v < |h.gs| && !Active(h, v) && k <= |h.gs|
    ensures ChildFractions(h, v, k) == 0.0
  {
    if k > 0 {
      NoChildren(h, v, k - 1);
      if 0 < k - 1 && Active(h, k - 1) {
        ActiveParent(h, k - 1);
      }
    }
  }

  /** Fractions of the active groups from k on, below m, whose parent comes before k. */
  function Frontier(h: Hierarchy, k: nat, m: nat): real
    requires Shaped(h) && m <= |h.gs|
  {
    if m <= k then 0.0
    else
      Frontier(h, k, m - 1)
      + if 0 < m - 1 && h.parent[m - 1] < k && Active(h, m - 1) then Fraction(h, m - 1) else 0.0
  }

  lemma {:induction false} NoEarlyChildren(h: Hierarchy, v: nat, k: nat)
    requires Shaped(h) && k <= v + 1 && k <= |h.gs|
    ensures ChildFractions(h, v, k) == 0.0
  {
    if k > 0 { NoEarlyChildren(h, v, k - 1); }
  }

  /** Group k leaves the frontier and its active children join it. */
  lemma {:induction false} FrontierStep(h: Hierarchy, k: nat, m: nat)
    requires Shaped(h) && 0 < k < m <= |h.gs|
    ensures Frontier(h, k + 1, m) ==
              Frontier(h, k, m) - (if Active(h, k) then Fraction(h, k) else 0.0) + ChildFractions(h, k, m)
    decreases m
  {
    if m == k + 1 {
      NoEarlyChildren(h, k, k + 1);
    } else {
      FrontierStep(h, k, m - 1);
    }
  }

  lemma {:induction false} FrontierOfRoot(h: Hierarchy, m: nat)
    requires Shaped(h) && 0 < m <= |h.gs|
    ensures Frontier(h, 1, m) == ChildFractions(h, 0, m)
  {
    if m > 1 { FrontierOfRoot(h, m - 1); }
  }

  function OwnFractions(h: Hierarchy, k: nat): real
    requires Shaped(h) && k <= |h.gs|
  {
    if k == 0 then 0.0 else OwnFractions(h, k - 1) + OwnFraction(h, k - 1)
  }

  lemma {:induction false} Telescope(h: Hierarchy, k: nat)
    requires Counted(h, 0, 0, 0) && 0 < k <= |h.gs|
    ensures OwnFractions(h, k) + Frontier(h, k, |h.gs|) == if Active(h, 0) then 1.0 else 0.0
  {
    if k == 1 {
      assert OwnFractions(h, 1) == OwnFractions(h, 0) + OwnFraction(h, 0);
      FrontierOfRoot(h, |h.gs|);
      FractionSplit(h, 0);
    } else {
      Telescope(h, k - 1);
      FrontierStep(h, k - 1, |h.gs|);
      FractionSplit(h, k - 1);
    }
  }

  /** The unclamped floor-divided shares of the queued groups among the first k. */
  function Shares(h: Hierarchy, k: nat): nat
    requires Shaped(h) && k <= |h.gs|
  {
    if k == 0 then 0 else Shares(h, k - 1) + if h.gs[k - 1].onTree then Share(h, k - 1) else 0
  }

  lemma {:induction false} SharesFractions(h: Hierarchy, k: nat)
    requires Shaped(h) && k <= |h.gs|
    ensures Shares(h, k) as real <= SHARE_ONE as real * OwnFractions(h, k)
  {
    if k > 0 {
      SharesFractions(h, k - 1);
      if h.gs[k - 1].onTree {
        ShareFraction(h, k - 1);
      }
    }
  }

  /** In every reachable hierarchy the shares of all queued groups sum to at most 1 << 12. */
  lemma SharesWithinOne(w: nat, lw: nat, steps: seq<Step>)
    requires WeightOk(w) && WeightOk(lw) && Legal(Root(w, lw), steps)
    ensures var h := Exec(Root(w, lw), steps); Shares(h, |h.gs|) <= SHARE_ONE
  {
    RootInv(w, lw);
    ExecInv(Root(w, lw), steps);
    var h := Exec(Root(w, lw), steps);
    Telescope(h, |h.gs|);
    SharesFractions(h, |h.gs|);
  }

  // ------------------------------------------------------------------ not far below

  function Depth(h: Hierarchy, pos: nat): nat
    requires Shaped(h) && pos < |h.gs|
    decreases pos
  {
    if pos == 0 then 0 else 1 + Depth(h, h.parent[pos])
  }

  lemma ScaleWithin(f: real, w: nat, c: nat)
    requires 0.0 <= f <= 1.0 && 0 < c && w <= c
    ensures Scale(f, w, c) <= 1.0
  {
    hide Scale;
    ScaleBack(f, w, c);
    MulMono(f, 1.0, w as real);
    Cancel(Scale(f, w, c), 1.0, c as real);
  }

  /** What reaches an active group is at most everything. */
  lemma {:induction false} FractionWithin(h: Hierarchy, v: nat)
    requires Counted(h, 0, 0, 0) && v < |h.gs| && Active(h, v)
    ensures 0.0 <= Fraction(h, v) <= 1.0
    decreases v
  {
    hide Scale, Counted;
    CountedShaped(h);
    FractionPositive(h, v);
    if v > 0 {
      var p := h.parent[v];
      ActiveParent(h, v);
      FractionPositive(h, p);
      FractionWithin(h, p);
      ScaleWithin(Fraction(h, p), h.gs[v].weight, h.gs[p].childrenWeight);
    }
  }

  lemma CountedShaped(h: Hierarchy)
    requires Counted(h, 0, 0, 0)
    ensures Shaped(h)
  {
  }

  lemma FloorLoss(x: nat, w: nat, c: nat)
    requires c > 0
    ensures x as real * w as real < (Portion(x, w, c) as real + 1.0) * c as real
  {
    var q := Portion(x, w, c);
    assert x * w == q * c + x * w % c;
    assert x * w < (q + 1) * c;
    assert (x * w) as real == x as real * w as real;
    assert ((q + 1) * c) as real == (q as real + 1.0) * c as real;
  }

  lemma MulStrict(a: real, b: real, f: real)
    requires a < b && f >= 0.0
    ensures a * f <= b * f
  {
  }

  /** One level loses less than one unit. */
  lemma ScaleLoss(x: nat, w: nat, c: nat, f: real)
    requires c > 0 && 0.0 <= f <= 1.0
    ensures x as real * Scale(f, w, c) <= Portion(x, w, c) as real * f + 1.0
  {
    hide Scale, Portion;
    var q, rx, rw, rc := Portion(x, w, c) as real, x as real, w as real, c as real;
    FloorLoss(x, w, c);
    MulStrict(rx * rw, (q + 1.0) * rc, f);
    ScaleBack(f, w, c);
    Commute(rx, Scale(f, w, c), rc);
    Commute(rx, rw, f);
    Commute(q + 1.0, rc, f);
    assert rx * Scale(f, w, c) * rc == rx * rw * f;
    assert rx * Scale(f, w, c) * rc <= (q + 1.0) * f * rc;
    Cancel(rx * Scale(f, w, c), (q + 1.0) * f, rc);
    Distribute(q, 1.0, f);
  }

  lemma {:induction false} UpToLower(h: Hierarchy, pos: nat, x: nat)
    requires Counted(h, 0, 0, 0) && pos < |h.gs| && Active(h, pos)
    ensures x as real * Fraction(h, pos) <= UpTo(h, pos, x) as real + Depth(h, pos) as real
    decreases pos
  {
    hide Scale, Portion, Counted;
    CountedShaped(h);
    if pos > 0 {
      var p := h.parent[pos];
      var w, c := h.gs[pos].weight, h.gs[p].childrenWeight;
      ActiveParent(h, pos);
      FractionWithin(h, p);
      UpToLower(h, p, Portion(x, w, c));
      ScaleLoss(x, w, c, Fraction(h, p));
    }
  }

  /** A queued group's share is its exact fraction of 4096, less at most one unit for each
      level of the hierarchy. */
  lemma ShareAccurate(h: Hierarchy, i: nat)
    requires Counted(h, 0, 0, 0) && i < |h.gs| && h.gs[i].onTree
    ensures Share(h, i) as real <= SHARE_ONE as real * OwnFraction(h, i)
    ensures SHARE_ONE as real * OwnFraction(h, i) <= Share(h, i) as real + (Depth(h, i) + 1) as real
  {
    hide Scale, Portion, Fraction, UpTo, Depth, Children;
    assert ShortAt(h, i, 0, 0, 0);
    CountedPositive(h, i);
    OwnActive(h, i);
    ShareFraction(h, i);
    FractionWithin(h, i);
    var g := h.gs[i];
    UpToLower(h, i, Portion(SHARE_ONE, g.leafWeight, g.childrenWeight));
    ScaleLoss(SHARE_ONE, g.leafWeight, g.childrenWeight, Fraction(h, i));
  }

  /** A group with queues of its own is active. */
  lemma OwnActive(h: Hierarchy, i: nat)
    requires Shaped(h) && i < |h.gs| && h.gs[i].onTree && Short(h, i, 0, 0)
    ensures Active(h, i)
  {
    ChildrenPositive(h, i, |h.gs|);
  }

  /** One unit for each queued group and level. */
  function Slack(h: Hierarchy, k: nat): nat
    requires Shaped(h) && k <= |h.gs|
  {
    if k == 0 then 0 else Slack(h, k - 1) + if h.gs[k - 1].onTree then Depth(h, k - 1) + 1 else 0
  }

  lemma {:induction false} SharesLower(h: Hierarchy, k: nat)
    requires Counted(h, 0, 0, 0) && k <= |h.gs|
    ensures SHARE_ONE as real * OwnFractions(h, k) <= Shares(h, k) as real + Slack(h, k) as real
  {
    hide Counted, Share, OwnFraction, Depth;
    CountedShaped(h);
    if k > 0 {
      SharesLower(h, k - 1);
      if h.gs[k - 1].onTree {
        ShareAccurate(h, k - 1);
      } else {
        NotQueued(h, k - 1);
      }
    }
  }

  lemma NotQueued(h: Hierarchy, v: nat)
    requires Shaped(h) && v < |h.gs| && !h.gs[v].onTree
    ensures OwnFraction(h, v) == 0.0
  {
  }

  /** The shares add up to the whole disk, but for what rounding loses. */
  lemma SharesNearOne(w: nat, lw: nat, steps: seq<Step>)
    requires WeightOk(w) && WeightOk(lw) && Legal(Root(w, lw), steps)
    ensures var h := Exec(Root(w, lw), steps);
      Active(h, 0) ==> SHARE_ONE <= Shares(h, |h.gs|) + Slack(h, |h.gs|)
  {
    RootInv(w, lw);
    ExecInv(Root(w, lw), steps);
    var h := Exec(Root(w, lw), steps);
    Telescope(h, |h.gs|);
    SharesLower(h, |h.gs|);
  }
}
