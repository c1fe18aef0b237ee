/**
 The dispatch list: requests are sorted into one-way elevator order behind whatever the
 driver has already been shown, and showing the driver a request moves the boundary.
 */
module DispatchOrder {
  import opened Lists

  datatype Rq = Rq(sector: nat, sectors: nat, write: bool, discard: bool, barrier: bool, started: bool)

  /** end: end_sector, where the head will be after the request last shown to the driver. */
  datatype Dispatch = Dispatch(list: seq<Rq>, end: nat)

  function End(r: Rq): nat {
    r.sector + r.sectors
  }

  /** Does the walk from the tail stop at pos, so that r goes right behind it? */
  predicate StopsAt(r: Rq, pos: Rq, boundary: nat) {
    || r.discard != pos.discard || r.write != pos.write || pos.barrier || pos.started
    || (r.sector < boundary && pos.sector >= boundary)
    || (!(r.sector >= boundary && pos.sector < boundary) && r.sector >= pos.sector)
  }

  /** elv_dispatch_sort: the place found by walking back from k. */
  function SortPlace(list: seq<Rq>, r: Rq, boundary: nat, k: nat): (n: nat)
    requires k <= |list|
    ensures n <= k && (n > 0 ==> StopsAt(r, list[n - 1], boundary))
    ensures forall i :: n <= i < k ==> !StopsAt(r, list[i], boundary)
  {
    if k == 0 || StopsAt(r, list[k - 1], boundary) then k else SortPlace(list, r, boundary, k - 1)
  }

  function Sort(d: Dispatch, r: Rq): Dispatch {
    d.(list := InsertAt(d.list, SortPlace(d.list, r, d.end, |d.list|), r))
  }

  /** blk_peek_request: the first request is marked started and becomes the boundary. */
  function Peek(d: Dispatch): Dispatch
    requires d.list != []
  {
    Dispatch(d.list[0 := d.list[0].(started := true)], End(d.list[0]))
  }

  function Dequeue(d: Dispatch): Dispatch
    requires d.list != []
  {
    d.(list := d.list[1..])
  }

  // ---------------------------------------------------------------------------- order

  /** a may come before b: at or past the boundary first, ascending on either side. */
  predicate Before(a: Rq, b: Rq, boundary: nat) {
    if (a.sector >= boundary) == (b.sector >= boundary) then a.sector <= b.sector else a.sector >= boundary
  }

  /** One-way elevator order from index k on. */
  ghost predicate OneWay(list: seq<Rq>, k: nat, boundary: nat) {
    forall i, j :: k <= i < j < |list| ==> Before(list[i], list[j], boundary)
  }

  /** The order spelled out: first those at or past the boundary, ascending, then those
      below it, ascending. */
  lemma {:induction false} OneWaySplit(list: seq<Rq>, k: nat, boundary: nat) returns (m: nat)
    requires OneWay(list, k, boundary) && k <= |list|
    ensures k <= m <= |list|
    ensures forall i :: k <= i < m ==> list[i].sector >= boundary
    ensures forall i :: m <= i < |list| ==> list[i].sector < boundary
    ensures forall i, j :: k <= i < j < m || m <= i < j < |list| ==> list[i].sector <= list[j].sector
  {
    m := k;
    while m < |list| && list[m].sector >= boundary
      invariant k <= m <= |list| && forall i :: k <= i < m ==> list[i].sector >= boundary
    {
      m := m + 1;
    }
    forall i | m <= i < |list| ensures list[i].sector < boundary {
      if i > m { assert Before(list[m], list[i], boundary); }
    }
    forall i, j | k <= i < j < m || m <= i < j < |list| ensures list[i].sector <= list[j].sector {
      assert Before(list[i], list[j], boundary);
    }
  }

  /** How many at the front the driver has been shown. */
  function Started(list: seq<Rq>): (k: nat)
    ensures k <= |list| && (k < |list| ==> !list[k].started)
    ensures forall i :: 0 <= i < k ==> list[i].started
  {
    if list == [] || !list[0].started then 0 else 1 + Started(list[1..])
  }

  /** All requests can pass each other, and only a prefix has been shown to the driver. */
  ghost predicate Plain(list: seq<Rq>) {
    && (forall i :: 0 <= i < |list| ==> !list[i].barrier)
    && (forall i, j :: 0 <= i < |list| && 0 <= j < |list| ==>
          list[i].write == list[j].write && list[i].discard == list[j].discard)
    && (forall i :: Started(list) <= i < |list| ==> !list[i].started)
  }

  ghost predicate Fits(list: seq<Rq>, r: Rq) {
    !r.barrier && !r.started
    && forall i :: 0 <= i < |list| ==> list[i].write == r.write && list[i].discard == r.discard
  }

  lemma {:induction false} StartedIs(list: seq<Rq>, k: nat)
    requires k <= |list| && (forall i :: 0 <= i < k ==> list[i].started) && (k < |list| ==> !list[k].started)
    ensures Started(list) == k
  {
    if k > 0 { StartedIs(list[1..], k - 1); }
  }

  /** Among requests that can pass each other the walk stops exactly where the order says. */
  lemma StopsBefore(r: Rq, pos: Rq, boundary: nat)
    requires !pos.barrier && !pos.started && r.write == pos.write && r.discard == pos.discard
    ensures StopsAt(r, pos, boundary) <==> Before(pos, r, boundary)
    ensures !StopsAt(r, pos, boundary) ==> Before(r, pos, boundary)
  {
  }

  lemma BeforeTrans(a: Rq, b: Rq, c: Rq, boundary: nat)
    requires Before(a, b, boundary) && Before(b, c, boundary)
    ensures Before(a, c, boundary)
  {
  }

  lemma Passable(l: seq<Rq>, r: Rq, i: nat)
    requires Plain(l) && Fits(l, r) && Started(l) <= i < |l|
    ensures !l[i].barrier && !l[i].started && r.write == l[i].write && r.discard == l[i].discard
  {
  }

  lemma SortSides(l: seq<Rq>, r: Rq, boundary: nat, i: nat)
    requires Plain(l) && Fits(l, r) && OneWay(l, Started(l), boundary) && Started(l) <= i < |l|
    ensures var n := SortPlace(l, r, boundary, |l|);
      && Started(l) <= n
      && (if i < n then Before(l[i], r, boundary) else Before(r, l[i], boundary))
  {
    hide StopsAt, Before, SortPlace, Started, Plain, Fits;
    var n := SortPlace(l, r, boundary, |l|);
    SortBehindStarted(l, r, boundary);
    Passable(l, r, i);
    StopsBefore(r, l[i], boundary);
    if i < n {
      Passable(l, r, n - 1);
      StopsBefore(r, l[n - 1], boundary);
      if i < n - 1 { BeforeTrans(l[i], l[n - 1], r, boundary); }
    }
  }

  lemma SortBehindStarted(l: seq<Rq>, r: Rq, boundary: nat)
    ensures Started(l) <= SortPlace(l, r, boundary, |l|)
  {
    if Started(l) > 0 { StopsAtStarted(r, l[Started(l) - 1], boundary); }
  }

  lemma InsertedOrder(l: seq<Rq>, n: nat, r: Rq, k: nat, boundary: nat)
    requires k <= n <= |l| && OneWay(l, k, boundary)
    requires forall i :: k <= i < n ==> Before(l[i], r, boundary)
    requires forall i :: n <= i < |l| ==> Before(r, l[i], boundary)
    ensures OneWay(InsertAt(l, n, r), k, boundary)
  {
    hide InsertAt, Before;
  }

  lemma InsertedPlain(l: seq<Rq>, n: nat, r: Rq)
    requires Plain(l) && Fits(l, r) && Started(l) <= n <= |l|
    ensures Plain(InsertAt(l, n, r)) && Started(InsertAt(l, n, r)) == Started(l)
  {
    hide InsertAt, Started;
    var e := InsertAt(l, n, r);
    InsertedStart(l, n, r);
    forall i | 0 <= i < |e|
      ensures !e[i].barrier && e[i].write == r.write && e[i].discard == r.discard && (i >= Started(l) ==> !e[i].started)
    {
      if i < n { assert e[i] == l[i]; } else if i > n { assert e[i] == l[i - 1]; }
    }
  }

  lemma InsertedStart(l: seq<Rq>, n: nat, r: Rq)
    requires !r.started && Started(l) <= n <= |l|
    ensures Started(InsertAt(l, n, r)) == Started(l)
  {
    hide InsertAt, Started;
    var e, k := InsertAt(l, n, r), Started(l);
    forall i | 0 <= i < k ensures e[i].started {
      assert e[i] == l[i];
    }
    if k < n { assert e[k] == l[k]; } else { assert e[k] == r; }
    StartedIs(e, k);
  }

  /** Sorting a request in keeps the order, behind everything started. */
  lemma SortKeepsOrder(d: Dispatch, r: Rq)
    requires Plain(d.list) && OneWay(d.list, Started(d.list), d.end) && Fits(d.list, r)
    ensures var e := Sort(d, r);
      && Plain(e.list) && Started(e.list) == Started(d.list) && OneWay(e.list, Started(e.list), d.end) && e.end == d.end
      && multiset(e.list) == multiset(d.list) + multiset{r}
  {
    hide InsertAt, StopsAt, Before;
    var l, s := d.list, Started(d.list);
    InsertAtIn(l, SortPlace(l, r, d.end, |l|), r);
    var n := SortPlace(l, r, d.end, |l|);
    SortBehindStarted(l, r, d.end);
    forall i | s <= i < |l| ensures if i < n then Before(l[i], r, d.end) else Before(r, l[i], d.end) {
      SortSides(l, r, d.end, i);
    }
    InsertedOrder(l, n, r, s, d.end);
    InsertedPlain(l, n, r);
  }

  lemma StopsAtStarted(r: Rq, pos: Rq, boundary: nat)
    requires pos.started
    ensures StopsAt(r, pos, boundary)
  {
  }

  // ------------------------------------------------------------- any mixture of requests

  /** Two requests neither of which the other stops at, but for their sectors. */
  predicate Kin(a: Rq, b: Rq) {
    a.write == b.write && a.discard == b.discard && !a.barrier && !b.barrier && !a.started && !b.started
  }

  /** r overtakes pos: the same direction and kind, pos neither a barrier nor shown to the
      driver, and r comes before it in the order. */
  predicate Overtakes(r: Rq, pos: Rq, boundary: nat) {
    && r.write == pos.write && r.discard == pos.discard && !pos.barrier && !pos.started
    && !Before(pos, r, boundary)
  }

  /** Whatever is on the list, the request goes right behind the last one it does not overtake. */
  lemma SortExactly(d: Dispatch, r: Rq)
    ensures var n := SortPlace(d.list, r, d.end, |d.list|);
      && n <= |d.list| && Sort(d, r).list == d.list[..n] + [r] + d.list[n..] && Sort(d, r).end == d.end
      && (forall i :: n <= i < |d.list| ==> Overtakes(r, d.list[i], d.end))
      && (n > 0 ==> !Overtakes(r, d.list[n - 1], d.end))
  {
    var n := SortPlace(d.list, r, d.end, |d.list|);
    forall i | n <= i < |d.list| ensures Overtakes(r, d.list[i], d.end) {
      StopsExactly(r, d.list[i], d.end);
    }
    if n > 0 { StopsExactly(r, d.list[n - 1], d.end); }
  }

  lemma StopsExactly(r: Rq, pos: Rq, boundary: nat)
    ensures StopsAt(r, pos, boundary) <==> !Overtakes(r, pos, boundary)
  {
  }

  /** Every stretch of requests that may overtake each other is in elevator order. */
  ghost predicate Stretches(list: seq<Rq>, boundary: nat) {
    forall i, j :: 0 <= i && j == i + 1 && j < |list| && Kin(list[i], list[j]) ==> Before(list[i], list[j], boundary)
  }

  /** The order of neighbours is that of the whole stretch. */
  lemma {:induction false} StretchOrdered(list: seq<Rq>, boundary: nat, i: nat, j: nat)
    requires Stretches(list, boundary) && i < j < |list|
    requires forall m, n :: i <= m && n == m + 1 && n <= j ==> Kin(list[m], list[n])
    ensures Before(list[i], list[j], boundary)
    decreases j - i
  {
    if j > i + 1 {
      StretchOrdered(list, boundary, i, j - 1);
      assert Kin(list[j - 1], list[j]);
      BeforeTrans(list[i], list[j - 1], list[j], boundary);
    }
  }

  lemma BeforeTotal(a: Rq, b: Rq, boundary: nat)
    ensures Before(a, b, boundary) || Before(b, a, boundary)
  {
  }

  /** Sorting any request into any list keeps its stretches in order. */
  lemma SortKeepsStretches(d: Dispatch, r: Rq)
    requires Stretches(d.list, d.end)
    ensures Stretches(Sort(d, r).list, d.end)
  {
    hide StopsAt, Before, Kin, Sort;
    var l, e, n := d.list, Sort(d, r).list, SortPlace(d.list, r, d.end, |d.list|);
    SortExactly(d, r);
    forall i, j | 0 <= i && j == i + 1 && j < |e| && Kin(e[i], e[j]) ensures Before(e[i], e[j], d.end) {
      if j == n {
        KinStops(r, l[n - 1], d.end);
      } else if i == n {
        BeforeTotal(r, l[n], d.end);
      } else {
        var k := if j < n then i else i - 1;
        assert e[i] == l[k] && e[j] == l[k + 1];
      }
    }
  }

  lemma KinStops(r: Rq, pos: Rq, boundary: nat)
    requires Kin(pos, r) && !Overtakes(r, pos, boundary)
    ensures Before(pos, r, boundary)
  {
  }

  // ------------------------------------------------------------------- moving boundary

  /** b starts within the range of a. */
  predicate Inside(b: Rq, a: Rq) {
    a.sector <= b.sector < End(a)
  }

  /** The order about the end of a request that came first is kept exactly when no other
      starts inside it, or all do. */
  lemma BoundaryMoves(list: seq<Rq>, k: nat, boundary: nat)
    requires k < |list| && OneWay(list, k, boundary)
    ensures OneWay(list, k + 1, End(list[k])) <==>
              (|| (forall i :: k < i < |list| ==> !Inside(list[i], list[k]))
               || (forall i :: k < i < |list| ==> Inside(list[i], list[k])))
  {
    var f := list[k];
    forall i | k < i < |list| ensures Before(f, list[i], boundary) {
    }
    if forall i :: k < i < |list| ==> !Inside(list[i], f) {
      forall i, j | k < i < j < |list| ensures Before(list[i], list[j], End(f)) {
        assert Before(list[i], list[j], boundary) && !Inside(list[i], f) && !Inside(list[j], f);
      }
    } else if forall i :: k < i < |list| ==> Inside(list[i], f) {
      forall i, j | k < i < j < |list| ensures Before(list[i], list[j], End(f)) {
        assert Before(list[i], list[j], boundary) && Inside(list[i], f) && Inside(list[j], f);
      }
    } else {
      var a :| k < a < |list| && Inside(list[a], f);
      var b :| k < b < |list| && !Inside(list[b], f);
      InsideFirst(list, k, boundary, a);
      assert Before(list[a], list[b], boundary) && !Before(list[a], list[b], End(f));
    }
  }

  /** Two overlapping requests and a third: showing the first one breaks the order. */
  lemma OverlapBreaks()
    ensures var list := [Rq(0, 8, false, false, false, false), Rq(4, 8, false, false, false, false),
                         Rq(16, 8, false, false, false, false)];
      OneWay(list, 0, 0) && !OneWay(list, 1, End(list[0]))
  {
    var list := [Rq(0, 8, false, false, false, false), Rq(4, 8, false, false, false, false),
                 Rq(16, 8, false, false, false, false)];
    assert !Before(list[1], list[2], End(list[0]));
  }

  lemma InsideFirst(list: seq<Rq>, k: nat, boundary: nat, a: nat)
    requires k < a < |list| && OneWay(list, k, boundary) && Inside(list[a], list[k])
    ensures forall b :: k < b < a ==> Inside(list[b], list[k])
  {
    forall b | k < b < a ensures Inside(list[b], list[k]) {
      assert Before(list[b], list[a], boundary) && Before(list[k], list[b], boundary);
      assert Before(list[k], list[a], boundary);
    }
  }

  // ----------------------------------------------------------------------------- runs

  ghost predicate DisjointRanges(list: seq<Rq>) {
    forall i, j :: 0 <= i < j < |list| ==> Apart(list[i], list[j])
  }

  predicate Apart(a: Rq, b: Rq) {
    a.sectors > 0 && b.sectors > 0 && (End(a) <= b.sector || End(b) <= a.sector)
  }

  ghost predicate Inv(d: Dispatch) {
    && Plain(d.list) && DisjointRanges(d.list) && Started(d.list) <= 1
    && OneWay(d.list, Started(d.list), d.end)
    && (Started(d.list) == 1 ==> d.end == End(d.list[0]))
  }

  datatype Step = Insert(r: Rq) | Show | Take

  /** Only a request that has been shown is taken off. */
  ghost predicate Enabled(d: Dispatch, t: Step) {
    match t
    case Insert(r) => Fits(d.list, r) && r.sectors > 0 && forall i :: 0 <= i < |d.list| ==> Apart(d.list[i], r)
    case Show => d.list != []
    case Take => d.list != [] && d.list[0].started
  }

  function Next(d: Dispatch, t: Step): Dispatch
    requires Enabled(d, t)
  {
    match t
    case Insert(r) => Sort(d, r)
    case Show => Peek(d)
    case Take => Dequeue(d)
  }

  lemma PeekInv(d: Dispatch)
    requires Inv(d) && d.list != []
    ensures Inv(Peek(d)) && Started(Peek(d).list) == 1
  {
    var e := Peek(d);
    StartedIs(e.list, 1);
    forall i, j | 0 <= i < j < |e.list| ensures Apart(e.list[i], e.list[j]) {
      assert Apart(d.list[i], d.list[j]);
    }
    if Started(d.list) == 0 {
      forall i | 0 < i < |d.list| ensures !Inside(d.list[i], d.list[0]) {
        assert Apart(d.list[0], d.list[i]);
      }
      BoundaryMoves(d.list, 0, d.end);
    }
    forall i, j | 1 <= i < j < |e.list| ensures Before(e.list[i], e.list[j], e.end) {
      assert Before(d.list[i], d.list[j], e.end);
    }
  }

  lemma DequeueInv(d: Dispatch)
    requires Inv(d) && d.list != [] && d.list[0].started
    ensures Inv(Dequeue(d)) && Started(Dequeue(d).list) == 0
  {
    var e := Dequeue(d);
    StartedIs(d.list, 1);
    StartedIs(e.list, 0);
    forall i, j | 0 <= i < j < |e.list| ensures Apart(e.list[i], e.list[j]) && Before(e.list[i], e.list[j], e.end) {
      assert Apart(d.list[i + 1], d.list[j + 1]) && Before(d.list[i + 1], d.list[j + 1], d.end);
    }
  }

  lemma SortInv(d: Dispatch, r: Rq)
    requires Inv(d) && Enabled(d, Insert(r))
    ensures Inv(Sort(d, r))
  {
    hide InsertAt, Plain, OneWay;
    SortKeepsOrder(d, r);
    var e := Sort(d, r);
    var n := SortPlace(d.list, r, d.end, |d.list|);
    SortBehindStarted(d.list, r, d.end);
    forall i, j | 0 <= i < j < |e.list| ensures Apart(e.list[i], e.list[j]) {
      assert i < n || i == n || i > n;
    }
  }

  lemma NextInv(d: Dispatch, t: Step)
    requires Inv(d) && Enabled(d, t)
    ensures Inv(Next(d, t))
  {
    match t
    case Insert(r) => SortInv(d, r);
    case Show => PeekInv(d);
    case Take => DequeueInv(d);
  }

  ghost predicate Legal(d: Dispatch, steps: seq<Step>)
    decreases |steps|
  {
    steps == [] || (Enabled(d, steps[0]) && Legal(Next(d, steps[0]), steps[1..]))
  }

  ghost function Exec(d: Dispatch, steps: seq<Step>): Dispatch
    requires Legal(d, steps)
    decreases |steps|
  {
    if steps == [] then d else Exec(Next(d, steps[0]), steps[1..])
  }

  lemma {:induction false} ExecInv(d: Dispatch, steps: seq<Step>)
    requires Inv(d) && Legal(d, steps)
    ensures Inv(Exec(d, steps))
    decreases |steps|
  {
    if steps != [] {
      NextInv(d, steps[0]);
      ExecInv(Next(d, steps[0]), steps[1..]);
    }
  }

  /** However insertions, peeks and removals interleave, what the driver has not been shown
      lies at or past end_sector ascending, then below it ascending. */
  lemma OneWayAlways(end: nat, steps: seq<Step>) returns (m: nat)
    requires Legal(Dispatch([], end), steps)
    ensures var d := Exec(Dispatch([], end), steps);
      var k := Started(d.list);
      && k <= m <= |d.list|
      && (forall i :: k <= i < |d.list| ==> !d.list[i].started)
      && (forall i :: k <= i < m ==> d.list[i].sector >= d.end)
      && (forall i :: m <= i < |d.list| ==> d.list[i].sector < d.end)
      && (forall i, j :: k <= i < j < m || m <= i < j < |d.list| ==> d.list[i].sector <= d.list[j].sector)
  {
    ExecInv(Dispatch([], end), steps);
    var d := Exec(Dispatch([], end), steps);
    m := OneWaySplit(d.list, Started(d.list), d.end);
  }

  // ------------------------------------------------------------------------- in place

  class DispatchList {
    var list: seq<Rq>
    var endSector: nat

    ghost function View(): Dispatch
      reads this
    {
      Dispatch(list, endSector)
    }

    constructor ()
      ensures View() == Dispatch([], 0) && Inv(View())
    {
      list, endSector := [], 0;
    }

    /** Walks the list from its tail. */
    method DispatchSort(r: Rq)
      modifies this`list
      ensures View() == Sort(old(View()), r)
    {
      var boundary, entry: nat := endSector, |list|;
      while entry > 0
        invariant entry <= |list| && SortPlace(list, r, boundary, entry) == SortPlace(list, r, boundary, |list|)
      {
        var pos := list[entry - 1];
        if r.discard != pos.discard { break; }
        if r.write != pos.write { break; }
        if pos.barrier || pos.started { break; }
        if r.sector >= boundary {
          if pos.sector < boundary {
            entry := entry - 1;
            continue;
          }
        } else {
          if pos.sector >= boundary { break; }
        }
        if r.sector >= pos.sector { break; }
        entry := entry - 1;
      }
      list := list[..entry] + [r] + list[entry..];
    }

    method PeekRequest() returns (r: Rq)
      requires list != []
      modifies this
      ensures View() == Peek(old(View())) && r == list[0]
    {
      if !list[0].started {
        list := list[0 := list[0].(started := true)];
      }
      endSector := End(list[0]);
      r := list[0];
    }

    method DequeueRequest()
      requires list != []
      modifies this`list
      ensures View() == Dequeue(old(View()))
    {
      list := list[1..];
    }
  }
}
