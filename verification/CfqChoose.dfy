/** CFQ's choice of the next request of a queue. */
module CfqChoose {
  import opened Lists
  import opened Options

  /** owner is the queue the request belongs to. */
  datatype Rq = Rq(sector: nat, sync: bool, prio: bool, owner: nat)

  /** The tunables: back_max in KiB. */
  datatype Tunables = Tunables(backMax: nat, backPenalty: nat)

  /** Behind the head by more than a short backward seek. */
  predicate Wraps(c: Tunables, s: nat, last: nat) {
    s < last && s + c.backMax * 2 < last
  }

  function Distance(c: Tunables, s: nat, last: nat): nat {
    if s >= last then s - last
    else if s + c.backMax * 2 >= last then (last - s) * c.backPenalty
    else 0
  }

  /** cfq_choose_req between the requests numbered i and j. */
  function ChooseReq(c: Tunables, rqs: seq<Rq>, i: Option<nat>, j: Option<nat>, last: nat): (r: Option<nat>)
    requires (i.Some? ==> i.value < |rqs|) && (j.Some? ==> j.value < |rqs|)
    ensures r == i || r == j
    ensures r.None? ==> i.None? && j.None?
  {
    if i.None? || i == j then j
    else if j.None? then i
    else
      var a, b := rqs[i.value], rqs[j.value];
      if a.sync != b.sync then (if a.sync then i else j)
      else if a.prio != b.prio then (if a.prio then i else j)
      else
        var d1, d2 := Distance(c, a.sector, last), Distance(c, b.sector, last);
        match (Wraps(c, a.sector, last), Wraps(c, b.sector, last))
        case (false, false) => if d1 < d2 then i else if d2 < d1 then j else if a.sector >= b.sector then i else j
        case (false, true) => i
        case (true, false) => j
        case (true, true) => if a.sector <= b.sector then i else j
  }

  /** cfq_find_next_rq for the k-th request of a sorted list: its two neighbours in the tree,
      or the first one when it has none behind it. */
  function FindNext(c: Tunables, rqs: seq<Rq>, list: seq<nat>, k: nat): (r: Option<nat>)
    requires k < |list| && forall i :: 0 <= i < |list| ==> list[i] < |rqs|
    ensures r.None? <==> |list| == 1
    ensures r.Some? ==> exists i :: 0 <= i < |list| && i != k && list[i] == r.value
  {
    var prev := if k > 0 then Some(list[k - 1]) else None;
    var next := if k + 1 < |list| then Some(list[k + 1]) else if k > 0 then Some(list[0]) else None;
    assert k > 0 ==> list[k - 1] == prev.value;
    ChooseReq(c, rqs, next, prev, rqs[list[k]].sector)
  }

  // ------------------------------------------------------------------- what is least

  /** Too far behind the head for a seek backwards: back_max is in KiB, two sectors each. */
  predicate OutOfReach(c: Tunables, s: nat, last: nat) {
    s + 2 * c.backMax < last
  }

  /** The seek to s from last costs no more than the seek to t. Anything within reach comes
      before what is not, and of the latter the lowest sector comes first. Ahead of the head
      the nearer one costs less, behind it too, and a seek backwards costs the penalty times
      its length. */
  predicate NoFurther(c: Tunables, s: nat, t: nat, last: nat) {
    if OutOfReach(c, s, last) then OutOfReach(c, t, last) && s <= t
    else if OutOfReach(c, t, last) then true
    else if s >= last && t >= last then s <= t
    else if s >= last then s - last <= (last - t) * c.backPenalty
    else if t >= last then (last - s) * c.backPenalty <= t - last
    else s >= t || c.backPenalty == 0
  }

  /** The one of two that is taken where nothing but the seek counts: the cheaper one, and of
      two that cost the same the one ahead, or the higher sector behind. */
  predicate Nearer(c: Tunables, s: nat, t: nat, last: nat) {
    if OutOfReach(c, s, last) then OutOfReach(c, t, last) && s <= t
    else if OutOfReach(c, t, last) then true
    else if s >= last && t >= last then s <= t
    else if s >= last then s - last <= (last - t) * c.backPenalty
    else if t >= last then (last - s) * c.backPenalty < t - last
    else s >= t
  }

  lemma NoFurtherTrans(c: Tunables, r: nat, s: nat, t: nat, last: nat)
    requires NoFurther(c, r, s, last) && NoFurther(c, s, t, last)
    ensures NoFurther(c, r, t, last)
  {
    if s < last {
      if t < s { Closer(last - s, last - t, c.backPenalty); }
      if s <= r < last { Closer(last - r, last - s, c.backPenalty); }
    } else if r < last && t < last && t > r && c.backPenalty > 0 {
      Further(last - t, last - r, c.backPenalty);
    }
  }

  lemma Further(a: nat, b: nat, p: nat)
    requires a < b && p > 0
    ensures a * p < b * p
  {
  }

  predicate SameFlags(a: Rq, b: Rq) {
    a.sync == b.sync && a.prio == b.prio
  }

  /** Of two requests with different flags, the one cfq_choose_req takes whatever the seek:
      synchronous first, then PRIO. */
  predicate Favoured(a: Rq, b: Rq) {
    if a.sync != b.sync then a.sync else a.prio && !b.prio
  }

  /** The flags do not stand against the seek: they are equal, or the favoured request is also
      no further. */
  predicate FlagsAgree(c: Tunables, a: Rq, b: Rq, last: nat) {
    || SameFlags(a, b)
    || (if Favoured(a, b) then NoFurther(c, a.sector, b.sector, last)
        else NoFurther(c, b.sector, a.sector, last))
  }

  /** Which of two requests is chosen: by their flags where these differ, and by the seek
      where they do not. */
  lemma ChooseExactly(c: Tunables, rqs: seq<Rq>, i: nat, j: nat, last: nat)
    requires i < |rqs| && j < |rqs| && i != j
    ensures ChooseReq(c, rqs, Some(i), Some(j), last) ==
      if (if SameFlags(rqs[i], rqs[j]) then Nearer(c, rqs[i].sector, rqs[j].sector, last) else Favoured(rqs[i], rqs[j]))
      then Some(i) else Some(j)
  {
    hide Distance, Nearer, Wraps;
    ByDistance(c, rqs[i].sector, rqs[j].sector, last);
  }

  /** The distances compared as the sectors say. */
  lemma ByDistance(c: Tunables, s: nat, t: nat, last: nat)
    ensures var d1, d2 := Distance(c, s, last), Distance(c, t, last);
      Nearer(c, s, t, last) <==>
        if Wraps(c, s, last) then Wraps(c, t, last) && s <= t
        else Wraps(c, t, last) || d1 < d2 || (d1 == d2 && s >= t)
  {
    if s < last && t < last { Products(last - s, last - t, c.backPenalty); }
  }

  lemma Products(a: nat, b: nat, p: nat)
    ensures (a <= b ==> a * p <= b * p) && (b <= a ==> b * p <= a * p)
  {
    if a <= b { Closer(a, b, p); } else { Closer(b, a, p); }
  }

  lemma NearerIs(c: Tunables, s: nat, t: nat, last: nat)
    ensures Nearer(c, s, t, last) ==> NoFurther(c, s, t, last)
    ensures !Nearer(c, s, t, last) ==> NoFurther(c, t, s, last)
  {
  }

  /** The choice is the cheaper seek exactly when the flags do not stand against it. */
  lemma ChooseLeast(c: Tunables, rqs: seq<Rq>, i: Option<nat>, j: Option<nat>, last: nat)
    requires (i.Some? ==> i.value < |rqs|) && (j.Some? ==> j.value < |rqs|)
    ensures var r := ChooseReq(c, rqs, i, j, last);
      (&& (i.Some? ==> NoFurther(c, rqs[r.value].sector, rqs[i.value].sector, last))
       && (j.Some? ==> NoFurther(c, rqs[r.value].sector, rqs[j.value].sector, last)))
      <==> (i.Some? && j.Some? ==> FlagsAgree(c, rqs[i.value], rqs[j.value], last))
  {
    if i.Some? && j.Some? && i != j {
      ChooseExactly(c, rqs, i.value, j.value, last);
      NearerIs(c, rqs[i.value].sector, rqs[j.value].sector, last);
    }
  }

  lemma Closer(a: nat, b: nat, p: nat)
    requires a <= b
    ensures a * p <= b * p
  {
  }

  /** Of two requests on the same side of the head the nearer one is no further. */
  lemma SameSide(c: Tunables, s: nat, t: nat, last: nat)
    requires last <= s <= t || (t <= s < last && !OutOfReach(c, s, last))
    ensures NoFurther(c, s, t, last)
  {
  }

  ghost predicate Sorted(rqs: seq<Rq>, list: seq<nat>) {
    && (forall i :: 0 <= i < |list| ==> list[i] < |rqs|)
    && (forall i, j :: 0 <= i < j < |list| ==> rqs[list[i]].sector <= rqs[list[j]].sector)
  }

  /** r is of least seek cost among the requests of the list other than the k-th. */
  ghost predicate LeastOfOthers(c: Tunables, rqs: seq<Rq>, list: seq<nat>, k: nat, r: Option<nat>)
    requires Sorted(rqs, list) && k < |list| && (r.Some? ==> r.value < |rqs|)
  {
    forall i :: 0 <= i < |list| && i != k ==>
      r.Some? && NoFurther(c, rqs[r.value].sector, rqs[list[i]].sector, rqs[list[k]].sector)
  }

  /** The request in front of the k-th and the one behind it, or else the first, do not have
      flags that stand against the seek. */
  predicate NeighboursAgree(c: Tunables, rqs: seq<Rq>, list: seq<nat>, k: nat)
    requires k < |list| && forall i :: 0 <= i < |list| ==> list[i] < |rqs|
  {
    k > 0 ==>
      var next := if k + 1 < |list| then list[k + 1] else list[0];
      FlagsAgree(c, rqs[next], rqs[list[k - 1]], rqs[list[k]].sector)
  }

  lemma NoFurtherThan(c: Tunables, rqs: seq<Rq>, list: seq<nat>, k: nat, i: nat)
    requires Sorted(rqs, list) && k < |list| && i < |list| && i != k && NeighboursAgree(c, rqs, list, k)
    ensures var r := FindNext(c, rqs, list, k);
      r.Some? && NoFurther(c, rqs[r.value].sector, rqs[list[i]].sector, rqs[list[k]].sector)
  {
    var last := rqs[list[k]].sector;
    var prev := if k > 0 then Some(list[k - 1]) else None;
    var next := if k + 1 < |list| then Some(list[k + 1]) else if k > 0 then Some(list[0]) else None;
    ChooseLeast(c, rqs, next, prev, last);
    var r := rqs[FindNext(c, rqs, list, k).value].sector;
    var s := rqs[list[i]].sector;
    if i > k {
      SameSide(c, rqs[list[k + 1]].sector, s, last);
      NoFurtherTrans(c, r, rqs[list[k + 1]].sector, s, last);
    } else {
      var near := rqs[list[k - 1]].sector;
      if s == last {
        NoFurtherTrans(c, r, near, s, last);
      } else if !OutOfReach(c, near, last) {
        if near == last { assert NoFurther(c, near, s, last); } else { SameSide(c, near, s, last); }
        NoFurtherTrans(c, r, near, s, last);
      } else {
        NoFurtherTrans(c, r, rqs[next.value].sector, s, last);
      }
    }
  }

  /** Looking at the two neighbours only, or the wrap-around first, finds a request of least
      seek cost among all the others exactly when the flags of those two do not stand against
      it; no other request of the list matters. */
  lemma FindNextLeast(c: Tunables, rqs: seq<Rq>, list: seq<nat>, k: nat)
    requires Sorted(rqs, list) && k < |list|
    ensures LeastOfOthers(c, rqs, list, k, FindNext(c, rqs, list, k)) <==> NeighboursAgree(c, rqs, list, k)
  {
    if NeighboursAgree(c, rqs, list, k) {
      forall i | 0 <= i < |list| && i != k
        ensures FindNext(c, rqs, list, k).Some?
        ensures NoFurther(c, rqs[FindNext(c, rqs, list, k).value].sector, rqs[list[i]].sector, rqs[list[k]].sector)
      {
        NoFurtherThan(c, rqs, list, k, i);
      }
    } else {
      var n := if k + 1 < |list| then k + 1 else 0;
      ChooseLeast(c, rqs, Some(list[n]), Some(list[k - 1]), rqs[list[k]].sector);
    }
  }

  /** Requests of mixed priority: a PRIO neighbour wins over a nearer one. */
  lemma MixedFlagsMiss()
    ensures var c := Tunables(16384, 2);
      var rqs := [Rq(100, true, false, 0), Rq(110, true, false, 0), Rq(0, true, true, 0)];
      && Sorted(rqs, [2, 0, 1]) && FindNext(c, rqs, [2, 0, 1], 1) == Some(2)
      && !NoFurther(c, rqs[2].sector, rqs[1].sector, rqs[0].sector)
      && !NeighboursAgree(c, rqs, [2, 0, 1], 1)
  {
  }

  // -------------------------------------------------------------------- sorted lists

  /** How many requests from k on do not lie further than x. */
  function Place(rqs: seq<Rq>, list: seq<nat>, x: nat, k: nat): (n: nat)
    requires x < |rqs| && k <= |list| && forall i :: 0 <= i < |list| ==> list[i] < |rqs|
    ensures k <= n <= |list|
    ensures forall i :: k <= i < n ==> rqs[list[i]].sector <= rqs[x].sector
    ensures n < |list| ==> rqs[x].sector < rqs[list[n]].sector
    decreases |list| - k
  {
    if k == |list| || rqs[x].sector < rqs[list[k]].sector then k else Place(rqs, list, x, k + 1)
  }

  /** elv_rb_add: after every request that does not lie further. */
  function InsertSorted(rqs: seq<Rq>, list: seq<nat>, x: nat): (r: seq<nat>)
    requires x < |rqs| && forall i :: 0 <= i < |list| ==> list[i] < |rqs|
  {
    InsertAt(list, Place(rqs, list, x, 0), x)
  }

  lemma InsertSortedOk(rqs: seq<Rq>, list: seq<nat>, x: nat)
    requires x < |rqs| && Sorted(rqs, list)
    ensures Sorted(rqs, InsertSorted(rqs, list, x))
  {
    hide InsertAt;
    var n := Place(rqs, list, x, 0);
    var r := InsertSorted(rqs, list, x);
    forall i, j | 0 <= i < j < |r| ensures rqs[r[i]].sector <= rqs[r[j]].sector {
      if i == n {
        assert rqs[list[n]].sector <= rqs[list[j - 1]].sector;
      }
    }
  }
}
