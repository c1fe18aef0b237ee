/**
 Counting the physical segments of a chain of pages, and why the counts kept by
 merging never fall below the number of scatterlist entries.

 Both the recount and the scatterlist mapping sweep the pages once and greedily
 extend the segment they are in.  A sweep is summarised by the number of segments
 opened and the size of the last one.
 */
module SegmentCounts {

  /** A bio_vec; `high` says that its page lies above the bounce limit. */
  datatype Vec = Vec(page: nat, offset: nat, len: nat, high: bool)

  /** Queue limits; `contig` is BIOVEC_PHYS_MERGEABLE together with BIOVEC_SEG_BOUNDARY. */
  datatype Limits = Limits(cluster: bool, maxSegmentSize: nat, maxSegments: nat, maxSectors: nat,
                           contig: (Vec, Vec) -> bool)

  datatype Prev = NoPrev | Prev(vec: Vec)

  datatype Acc = Acc(n: nat, size: nat)

  predicate Le(a: Acc, b: Acc) {
    a.n < b.n || (a.n == b.n && a.size <= b.size)
  }

  predicate Extends(q: Limits, prev: Prev, size: nat, v: Vec) {
    q.cluster && prev.Prev? && size + v.len <= q.maxSegmentSize && q.contig(prev.vec, v)
  }

  function MapStep(q: Limits, prev: Prev, a: Acc, v: Vec): Acc {
    if Extends(q, prev, a.size, v) then Acc(a.n, a.size + v.len) else Acc(a.n + 1, v.len)
  }

  /** The sweep of blk_rq_map_sg. */
  function MapRun(q: Limits, prev: Prev, a: Acc, vs: seq<Vec>): Acc
    decreases |vs|
  {
    if vs == [] then a else MapRun(q, Prev(vs[0]), MapStep(q, prev, a, vs[0]), vs[1..])
  }

  function CountStep(q: Limits, prev: Prev, a: Acc, v: Vec): Acc {
    if !v.high && prev.Prev? && !prev.vec.high && Extends(q, prev, a.size, v)
    then Acc(a.n, a.size + v.len) else Acc(a.n + 1, v.len)
  }

  /** The sweep of the recount: a high page is a segment of its own. */
  function CountRun(q: Limits, prev: Prev, a: Acc, vs: seq<Vec>): Acc
    decreases |vs|
  {
    if vs == [] then a else CountRun(q, Prev(vs[0]), CountStep(q, prev, a, vs[0]), vs[1..])
  }

  function Map(q: Limits, vs: seq<Vec>): Acc {
    MapRun(q, NoPrev, Acc(0, 0), vs)
  }

  function Count(q: Limits, vs: seq<Vec>): Acc {
    CountRun(q, NoPrev, Acc(0, 0), vs)
  }

  /** The size of the segment the recount is in, when it is left or the chain ends. */
  function SegmentRun(q: Limits, prev: Prev, size: nat, vs: seq<Vec>): nat
    decreases |vs|
  {
    if vs == [] || CountStep(q, prev, Acc(0, size), vs[0]).n > 0 then size
    else SegmentRun(q, Prev(vs[0]), size + vs[0].len, vs[1..])
  }

  /** The size of the first segment. */
  function FirstSegment(q: Limits, vs: seq<Vec>): nat {
    if vs == [] then 0 else SegmentRun(q, Prev(vs[0]), vs[0].len, vs[1..])
  }

  function Last(prev: Prev, vs: seq<Vec>): Prev {
    if vs == [] then prev else Prev(vs[|vs| - 1])
  }

  // ------------------------------------------------------------- sweeps compared

  /** A sweep that is ahead stays ahead. */
  lemma {:induction false} MapAhead(q: Limits, prev: Prev, a: Acc, b: Acc, vs: seq<Vec>)
    requires Le(a, b)
    ensures Le(MapRun(q, prev, a, vs), MapRun(q, prev, b, vs))
    ensures Le(MapRun(q, prev, a, vs), CountRun(q, prev, b, vs))
    decreases |vs|
  {
    if vs != [] {
      MapAhead(q, Prev(vs[0]), MapStep(q, prev, a, vs[0]), MapStep(q, prev, b, vs[0]), vs[1..]);
      MapAhead(q, Prev(vs[0]), MapStep(q, prev, a, vs[0]), CountStep(q, prev, b, vs[0]), vs[1..]);
    }
  }

  lemma {:induction false} Shift(q: Limits, prev: Prev, a: Acc, k: nat, vs: seq<Vec>)
    ensures var r := MapRun(q, prev, a, vs); MapRun(q, prev, Acc(a.n + k, a.size), vs) == Acc(r.n + k, r.size)
    ensures var r := CountRun(q, prev, a, vs); CountRun(q, prev, Acc(a.n + k, a.size), vs) == Acc(r.n + k, r.size)
    decreases |vs|
  {
    if vs != [] {
      Shift(q, Prev(vs[0]), MapStep(q, prev, a, vs[0]), k, vs[1..]);
      Shift(q, Prev(vs[0]), CountStep(q, prev, a, vs[0]), k, vs[1..]);
    }
  }

  lemma {:induction false} MapConcat(q: Limits, prev: Prev, a: Acc, xs: seq<Vec>, ys: seq<Vec>)
    ensures MapRun(q, prev, a, xs + ys) == MapRun(q, Last(prev, xs), MapRun(q, prev, a, xs), ys)
    decreases |xs|
  {
    if xs == [] {
      assert xs + ys == ys;
    } else {
      assert (xs + ys)[1..] == xs[1..] + ys;
      MapConcat(q, Prev(xs[0]), MapStep(q, prev, a, xs[0]), xs[1..], ys);
    }
  }

  lemma {:induction false} CountConcat(q: Limits, prev: Prev, a: Acc, xs: seq<Vec>, ys: seq<Vec>)
    ensures CountRun(q, prev, a, xs + ys) == CountRun(q, Last(prev, xs), CountRun(q, prev, a, xs), ys)
    decreases |xs|
  {
    if xs == [] {
      assert xs + ys == ys;
    } else {
      assert (xs + ys)[1..] == xs[1..] + ys;
      CountConcat(q, Prev(xs[0]), CountStep(q, prev, a, xs[0]), xs[1..], ys);
    }
  }

  lemma {:induction false} CountLowRun(q: Limits, prev: Prev, a: Acc, vs: seq<Vec>)
    requires (forall i :: 0 <= i < |vs| ==> !vs[i].high) && (prev.Prev? ==> !prev.vec.high)
    ensures CountRun(q, prev, a, vs) == MapRun(q, prev, a, vs)
    decreases |vs|
  {
    if vs != [] { CountLowRun(q, Prev(vs[0]), CountStep(q, prev, a, vs[0]), vs[1..]); }
  }

  /** Without high pages the recount is exact: as many segments as the scatterlist has entries,
      the last of the same size. */
  lemma CountExact(q: Limits, vs: seq<Vec>)
    requires forall i :: 0 <= i < |vs| ==> !vs[i].high
    ensures Count(q, vs) == Map(q, vs)
  {
    CountLowRun(q, NoPrev, Acc(0, 0), vs);
  }

  /** A high page is counted as a segment of its own, between what is counted on either side. */
  lemma CountHigh(q: Limits, xs: seq<Vec>, v: Vec, ys: seq<Vec>)
    requires v.high
    ensures Count(q, xs + [v] + ys).n == Count(q, xs).n + 1 + Count(q, ys).n
  {
    CountConcat(q, NoPrev, Acc(0, 0), xs + [v], ys);
    CountConcat(q, NoPrev, Acc(0, 0), xs, [v]);
    var a := Count(q, xs);
    assert CountRun(q, Last(NoPrev, xs), a, [v]) == Acc(a.n + 1, v.len) by { assert [v][1..] == []; }
    if ys != [] {
      Shift(q, Prev(ys[0]), Acc(1, ys[0].len), a.n + 1, ys[1..]);
    }
  }

  /** Wherever a sweep stands, a chain adds at most what it needs on its own. */
  lemma MapAnywhere(q: Limits, prev: Prev, a: Acc, vs: seq<Vec>)
    requires vs != []
    ensures var r := Map(q, vs); Le(MapRun(q, prev, a, vs), Acc(a.n + r.n, r.size))
  {
    var v := vs[0];
    MapAhead(q, Prev(v), MapStep(q, prev, a, v), Acc(a.n + 1, v.len), vs[1..]);
    Shift(q, Prev(v), Acc(1, v.len), a.n, vs[1..]);
  }

  lemma {:induction false} RunGrows(q: Limits, prev: Prev, a: Acc, vs: seq<Vec>)
    ensures MapRun(q, prev, a, vs).n >= a.n && CountRun(q, prev, a, vs).n >= a.n
    ensures MapRun(q, prev, a, vs).n == a.n ==> MapRun(q, prev, a, vs).size >= a.size
    decreases |vs|
  {
    if vs != [] {
      RunGrows(q, Prev(vs[0]), MapStep(q, prev, a, vs[0]), vs[1..]);
      RunGrows(q, Prev(vs[0]), CountStep(q, prev, a, vs[0]), vs[1..]);
    }
  }

  /** While a sweep stays in its segment, so does one that is z bytes further in, if it fits. */
  lemma {:induction false} StayInside(q: Limits, prev: Prev, a: Acc, z: nat, vs: seq<Vec>)
    requires MapRun(q, prev, a, vs).n == a.n
    requires z + MapRun(q, prev, a, vs).size <= q.maxSegmentSize
    ensures MapRun(q, prev, Acc(a.n, a.size + z), vs) == Acc(a.n, MapRun(q, prev, a, vs).size + z)
    decreases |vs|
  {
    if vs != [] {
      var v := vs[0];
      RunGrows(q, Prev(v), MapStep(q, prev, a, v), vs[1..]);
      assert Extends(q, prev, a.size, v);
      StayInside(q, Prev(v), Acc(a.n, a.size + v.len), z, vs[1..]);
    }
  }

  /** A chain that is one segment is swallowed whole by a contiguous one with room for it. */
  lemma OneSegment(q: Limits, prev: Vec, z: nat, vs: seq<Vec>)
    requires vs != [] && Map(q, vs).n == 1 && q.cluster && q.contig(prev, vs[0])
    requires z + Map(q, vs).size <= q.maxSegmentSize
    ensures MapRun(q, Prev(prev), Acc(0, z), vs) == Acc(0, z + Map(q, vs).size)
  {
    var v := vs[0];
    assert Map(q, vs) == MapRun(q, Prev(v), Acc(1, v.len), vs[1..]);
    Shift(q, Prev(v), Acc(0, v.len), 1, vs[1..]);
    RunGrows(q, Prev(v), Acc(0, v.len), vs[1..]);
    StayInside(q, Prev(v), Acc(0, v.len), z, vs[1..]);
  }

  // ------------------------------------------------------------------ good counts

  /**
   A chain may be accounted as n segments, the first of at most `front` and the last
   of at most `back` bytes: it never maps to more, and appended to a contiguous segment
   with `front` bytes of room it opens one segment fewer.
   */
  ghost predicate Good(q: Limits, vs: seq<Vec>, n: nat, front: nat, back: nat) {
    && vs != []
    && Le(Map(q, vs), Acc(n, back))
    && (n == 1 ==> Map(q, vs).size <= front)
    && (n >= 2 ==> forall prev: Vec, z: nat ::
          q.cluster && q.contig(prev, vs[0]) && z + front <= q.maxSegmentSize ==>
            Le(MapRun(q, Prev(prev), Acc(0, z), vs), Acc(n - 1, back)))
  }

  lemma GoodMore(q: Limits, vs: seq<Vec>, n: nat, front: nat, back: nat, front': nat, back': nat)
    requires Good(q, vs, n, front, back) && front <= front' && back <= back'
    ensures Good(q, vs, n, front', back')
  {
  }

  lemma GoodPositive(q: Limits, vs: seq<Vec>, n: nat, front: nat, back: nat)
    requires Good(q, vs, n, front, back)
    ensures n >= 1 && Map(q, vs).n >= 1
    ensures n == 1 ==> Map(q, vs).n == 1 && Map(q, vs).size <= back
  {
    RunGrows(q, Prev(vs[0]), Acc(1, vs[0].len), vs[1..]);
  }

  /** A good chain placed after contiguous bytes: one segment is saved. */
  lemma GoodAfter(q: Limits, vs: seq<Vec>, n: nat, front: nat, back: nat, prev: Vec, c: nat, z: nat)
    requires Good(q, vs, n, front, back) && n >= 1
    requires q.cluster && q.contig(prev, vs[0]) && z + front <= q.maxSegmentSize
    ensures var r := MapRun(q, Prev(prev), Acc(c, z), vs);
      if n == 1 then r == Acc(c, z + Map(q, vs).size) else Le(r, Acc(c + n - 1, back))
  {
    GoodPositive(q, vs, n, front, back);
    Shift(q, Prev(prev), Acc(0, z), c, vs);
    if n == 1 {
      OneSegment(q, prev, z, vs);
    }
  }

  /** Appending without saving anything: bio merges and non-contiguous request merges. */
  lemma GoodConcat(q: Limits, xs: seq<Vec>, nx: nat, fx: nat, bx: nat, ys: seq<Vec>, ny: nat, fy: nat, bz: nat)
    requires Good(q, xs, nx, fx, bx) && Good(q, ys, ny, fy, bz)
    ensures Good(q, xs + ys, nx + ny, fx, bz)
  {
    GoodPositive(q, xs, nx, fx, bx);
    GoodPositive(q, ys, ny, fy, bz);
    MapConcat(q, NoPrev, Acc(0, 0), xs, ys);
    MapAnywhere(q, Last(NoPrev, xs), Map(q, xs), ys);
    forall prev: Vec, z: nat | q.cluster && q.contig(prev, (xs + ys)[0]) && z + fx <= q.maxSegmentSize
      ensures Le(MapRun(q, Prev(prev), Acc(0, z), xs + ys), Acc(nx + ny - 1, bz))
    {
      assert (xs + ys)[0] == xs[0];
      GoodAfter(q, xs, nx, fx, bx, prev, 0, z);
      MapConcat(q, Prev(prev), Acc(0, z), xs, ys);
      MapAnywhere(q, Last(Prev(prev), xs), MapRun(q, Prev(prev), Acc(0, z), xs), ys);
    }
  }

  /** Where the second chain goes when the first was swept to a: the subtract-one case. */
  lemma GoodJoin(q: Limits, a: Acc, n: nat, b: nat, last: Vec,
                 ys: seq<Vec>, ny: nat, fy: nat, bz: nat)
    requires Good(q, ys, ny, fy, bz) && Le(a, Acc(n, b))
    requires q.cluster && q.contig(last, ys[0]) && b + fy <= q.maxSegmentSize
    ensures ny >= 1 && Le(MapRun(q, Prev(last), a, ys), Acc(n + ny - 1, if ny == 1 then b + fy else bz))
  {
    GoodPositive(q, ys, ny, fy, bz);
    if a.n < n {
      MapAnywhere(q, Prev(last), a, ys);
    } else {
      GoodAfter(q, ys, ny, fy, bz, last, n, a.size);
    }
  }

  /** Appending a contiguous chain, one segment saved and the cached sizes adjusted. */
  lemma GoodMerge(q: Limits, xs: seq<Vec>, nx: nat, fx: nat, bx: nat, ys: seq<Vec>, ny: nat, fy: nat, bz: nat)
    requires Good(q, xs, nx, fx, bx) && Good(q, ys, ny, fy, bz)
    requires q.cluster && q.contig(xs[|xs| - 1], ys[0]) && bx + fy <= q.maxSegmentSize
    ensures nx + ny >= 1
    ensures Good(q, xs + ys, nx + ny - 1, if nx == 1 then bx + fy else fx, if ny == 1 then bx + fy else bz)
  {
    var last := xs[|xs| - 1];
    var front, back := if nx == 1 then bx + fy else fx, if ny == 1 then bx + fy else bz;
    GoodPositive(q, xs, nx, fx, bx);
    GoodPositive(q, ys, ny, fy, bz);
    MapConcat(q, NoPrev, Acc(0, 0), xs, ys);
    GoodJoin(q, Map(q, xs), nx, bx, last, ys, ny, fy, bz);
    RunGrows(q, Prev(last), Map(q, xs), ys);
    if nx + ny - 1 >= 2 {
      forall prev: Vec, z: nat | q.cluster && q.contig(prev, (xs + ys)[0]) && z + front <= q.maxSegmentSize
        ensures Le(MapRun(q, Prev(prev), Acc(0, z), xs + ys), Acc(nx + ny - 2, back))
      {
        assert (xs + ys)[0] == xs[0];
        MapConcat(q, Prev(prev), Acc(0, z), xs, ys);
        if nx == 1 {
          OneSegment(q, prev, z, xs);
          GoodAfter(q, ys, ny, fy, bz, last, 0, z + Map(q, xs).size);
        } else {
          GoodAfter(q, xs, nx, fx, bx, prev, 0, z);
          GoodJoin(q, MapRun(q, Prev(prev), Acc(0, z), xs), nx - 1, bx, last, ys, ny, fy, bz);
        }
      }
    }
  }

  // --------------------------------------------------------------- recounts are good

  lemma {:induction false} SegmentOfOne(q: Limits, prev: Prev, size: nat, vs: seq<Vec>)
    requires CountRun(q, prev, Acc(1, size), vs).n == 1
    ensures CountRun(q, prev, Acc(1, size), vs).size == SegmentRun(q, prev, size, vs)
    decreases |vs|
  {
    if vs != [] {
      RunGrows(q, Prev(vs[0]), CountStep(q, prev, Acc(1, size), vs[0]), vs[1..]);
      SegmentOfOne(q, Prev(vs[0]), size + vs[0].len, vs[1..]);
    }
  }

  /** Inside the first counted segment the mapping, z bytes further in, keeps up. */
  lemma {:induction false} FirstSegmentKeepsUp(q: Limits, prev: Prev, size: nat, z: nat, vs: seq<Vec>)
    requires z + SegmentRun(q, prev, size, vs) <= q.maxSegmentSize
    ensures var c := CountRun(q, prev, Acc(1, size), vs);
      c.n >= 2 ==> Le(MapRun(q, prev, Acc(0, z + size), vs), Acc(c.n - 1, c.size))
    decreases |vs|
  {
    if vs != [] {
      var v := vs[0];
      if CountStep(q, prev, Acc(1, size), v).n == 1 {
        SegmentGrows(q, Prev(v), size + v.len, vs[1..]);
        FirstSegmentKeepsUp(q, Prev(v), size + v.len, z, vs[1..]);
      } else {
        MapAhead(q, Prev(v), MapStep(q, prev, Acc(0, z + size), v), Acc(1, v.len), vs[1..]);
        Shift(q, Prev(v), Acc(1, v.len), 1, vs[1..]);
      }
    }
  }

  lemma {:induction false} SegmentGrows(q: Limits, prev: Prev, size: nat, vs: seq<Vec>)
    ensures SegmentRun(q, prev, size, vs) >= size
    decreases |vs|
  {
    if vs != [] { SegmentGrows(q, Prev(vs[0]), size + vs[0].len, vs[1..]); }
  }

  lemma RecountGood(q: Limits, vs: seq<Vec>, front: nat, back: nat)
    requires vs != [] && FirstSegment(q, vs) <= front && Count(q, vs).size <= back
    ensures Good(q, vs, Count(q, vs).n, front, back)
  {
    var n, v := Count(q, vs).n, vs[0];
    MapAhead(q, NoPrev, Acc(0, 0), Acc(0, 0), vs);
    RunGrows(q, Prev(v), Acc(1, v.len), vs[1..]);
    if n == 1 {
      SegmentOfOne(q, Prev(v), v.len, vs[1..]);
    }
    forall prev: Vec, z: nat | n >= 2 && q.cluster && q.contig(prev, v) && z + front <= q.maxSegmentSize
      ensures Le(MapRun(q, Prev(prev), Acc(0, z), vs), Acc(n - 1, back))
    {
      SegmentGrows(q, Prev(v), v.len, vs[1..]);
      FirstSegmentKeepsUp(q, Prev(v), v.len, z, vs[1..]);
    }
  }
}
