/** The loops of blk-merge.c: the recount, the scatterlist mapping, and merging in place. */
module SegmentSweeps {
  import opened Arith
  import opened Lists
  import opened SegmentCounts
  import opened SegmentRequests

  datatype Sg = Sg(page: nat, offset: nat, length: nat)

  /** One scatterlist entry covers a non-empty contiguous run of vecs within the size limit. */
  ghost predicate Covers(q: Limits, s: Sg, g: seq<Vec>) {
    && g != []
    && s == Sg(g[0].page, g[0].offset, Bytes(g))
    && (forall i, j :: 0 <= i && j == i + 1 && j < |g| ==> q.cluster && q.contig(g[i], g[j]))
    && (|g| > 1 ==> Bytes(g) <= q.maxSegmentSize)
  }

  ghost predicate CoverAll(q: Limits, sg: seq<Sg>, groups: seq<seq<Vec>>) {
    |sg| == |groups| && forall i :: 0 <= i < |sg| ==> Covers(q, sg[i], groups[i])
  }

  /** No entry could have taken the page the next one starts with. */
  ghost predicate NoneWasted(q: Limits, groups: seq<seq<Vec>>) {
    forall i, j :: 0 <= i && j == i + 1 && j < |groups| && groups[i] != [] && groups[j] != [] ==>
      !(q.cluster && Bytes(groups[i]) + groups[j][0].len <= q.maxSegmentSize
        && q.contig(groups[i][|groups[i]| - 1], groups[j][0]))
  }

  lemma {:induction false} BytesSnoc(vs: seq<Vec>, v: Vec)
    ensures Bytes(vs + [v]) == Bytes(vs) + v.len
  {
    if vs != [] {
      assert (vs + [v])[1..] == vs[1..] + [v];
      BytesSnoc(vs[1..], v);
    }
  }

  /** What is left of a chain at vec j of bio i. */
  function Rest(bios: seq<Bio>, i: nat, j: nat): seq<Vec>
    requires i < |bios| && j <= |bios[i].vecs|
  {
    bios[i].vecs[j..] + Chain(bios[i + 1..])
  }

  lemma RestHead(bios: seq<Bio>, i: nat, j: nat)
    requires i < |bios| && j < |bios[i].vecs|
    ensures Rest(bios, i, j) != [] && Rest(bios, i, j)[0] == bios[i].vecs[j]
    ensures Rest(bios, i, j)[1..] == Rest(bios, i, j + 1)
  {
  }

  lemma RestNext(bios: seq<Bio>, i: nat)
    requires i < |bios|
    ensures Rest(bios, i, |bios[i].vecs|) == Chain(bios[i + 1..])
    ensures Rest(bios, i, 0) == Chain(bios[i..])
  {
    assert bios[i..][1..] == bios[i + 1..];
    assert bios[i].vecs[0..] == bios[i].vecs;
    assert bios[i].vecs[|bios[i].vecs|..] == [];
  }

  lemma ChainNone()
    ensures Chain([]) == []
  {
  }

  /** Where the recount stands, told by what is left to sweep. */
  ghost predicate Sweeping(q: Limits, vs: seq<Vec>, rest: seq<Vec>, prv: Prev, a: Acc, front0: nat, front: nat) {
    && CountRun(q, prv, a, rest) == Count(q, vs)
    && (prv.NoPrev? <==> a.n == 0) && (a.n == 0 ==> rest == vs && a.size == 0)
    && (a.n == 1 ==> SegmentRun(q, prv, a.size, rest) == FirstSegment(q, vs))
    && front == if a.n <= 1 then front0 else Max(front0, FirstSegment(q, vs))
  }

  lemma SweepStep(q: Limits, vs: seq<Vec>, rest: seq<Vec>, prv: Prev, a: Acc, front0: nat, front: nat)
    requires Sweeping(q, vs, rest, prv, a, front0, front) && rest != []
    ensures var b := CountStep(q, prv, a, rest[0]);
      Sweeping(q, vs, rest[1..], Prev(rest[0]), b, front0,
               if b.n == 2 && a.n == 1 then Max(front, a.size) else front)
  {
  }

  lemma SweepStart(q: Limits, vs: seq<Vec>, front: nat)
    ensures Sweeping(q, vs, vs, NoPrev, Acc(0, 0), front, front)
  {
  }

  lemma SweepEnd(q: Limits, vs: seq<Vec>, prv: Prev, a: Acc, front0: nat, front: nat)
    requires Sweeping(q, vs, [], prv, a, front0, front)
    ensures a == Count(q, vs)
    ensures Max(front0, FirstSegment(q, vs)) == if a.n == 1 then Max(front, a.size) else front
  {
  }

  method RecalcSegments(q: Limits, bios: seq<Bio>) returns (n: nat, bios': seq<Bio>)
    ensures bios == [] ==> n == 0 && bios' == []
    ensures bios != [] ==> n == Count(q, Chain(bios)).n && bios' == Recached(q, bios)
  {
    hide Sweeping, Count, CountRun, FirstSegment, Chain;
    if bios == [] {
      return 0, [];
    }
    ghost var vs := Chain(bios);
    SweepStart(q, vs, bios[0].front);
    assert bios[0..] == bios;
    var front: nat := bios[0].front;
    var prv, highprv := NoPrev, true;
    var segSize: nat := 0;
    n := 0;
    var i := 0;
    while i < |bios|
      invariant i <= |bios|
      invariant Sweeping(q, vs, Chain(bios[i..]), prv, Acc(n, segSize), bios[0].front, front)
      invariant highprv <==> prv.NoPrev? || prv.vec.high
    {
      var vecs := bios[i].vecs;
      var j := 0;
      RestNext(bios, i);
      while j < |vecs|
        invariant j <= |vecs|
        invariant Sweeping(q, vs, Rest(bios, i, j), prv, Acc(n, segSize), bios[0].front, front)
        invariant highprv <==> prv.NoPrev? || prv.vec.high
      {
        var v := vecs[j];
        RestHead(bios, i, j);
        SweepStep(q, vs, Rest(bios, i, j), prv, Acc(n, segSize), bios[0].front, front);
        if !v.high && !highprv && q.cluster && segSize + v.len <= q.maxSegmentSize && q.contig(prv.vec, v) {
          segSize := segSize + v.len;
        } else {
          if n == 1 && segSize > front {
            front := segSize;
          }
          n, segSize, highprv := n + 1, v.len, v.high;
        }
        prv := Prev(v);
        j := j + 1;
      }
      i := i + 1;
    }
    assert bios[i..] == [];
    ChainNone();
    SweepEnd(q, vs, prv, Acc(n, segSize), bios[0].front, front);
    if n == 1 && segSize > front {
      front := segSize;
    }
    bios' := SetFront(bios, front);
    if segSize > BackSize(bios') {
      bios' := SetBack(bios', segSize);
    }
  }

  ghost predicate Mapping(q: Limits, vs: seq<Vec>, rest: seq<Vec>, prv: Prev, sg: seq<Sg>, groups: seq<seq<Vec>>) {
    && CoverAll(q, sg, groups) && NoneWasted(q, groups)
    && Flatten(groups) + rest == vs
    && prv == (if groups == [] then NoPrev else Last(NoPrev, groups[|groups| - 1]))
    && MapRun(q, prv, Acc(|sg|, if sg == [] then 0 else sg[|sg| - 1].length), rest) == Map(q, vs)
  }

  /** A vec that opens an entry. */
  lemma Open(q: Limits, v: Vec, prv: Prev, sg: seq<Sg>, vs: seq<Vec>, rest: seq<Vec>, groups: seq<seq<Vec>>)
    requires Mapping(q, vs, rest, prv, sg, groups) && rest != [] && rest[0] == v
    requires !Extends(q, prv, if sg == [] then 0 else sg[|sg| - 1].length, v)
    ensures Mapping(q, vs, rest[1..], Prev(v), sg + [Sg(v.page, v.offset, v.len)], groups + [[v]])
  {
    hide Covers, NoneWasted, Flatten;
    FlattenSnoc(groups, [v]);
    OneCovers(q, v);
    OpenWastes(q, groups, prv, sg, v);
    assert Flatten(groups) + [v] + rest[1..] == Flatten(groups) + rest;
  }

  lemma OneCovers(q: Limits, v: Vec)
    ensures Covers(q, Sg(v.page, v.offset, v.len), [v])
  {
    BytesSnoc([], v);
    assert [] + [v] == [v];
  }

  lemma OpenWastes(q: Limits, groups: seq<seq<Vec>>, prv: Prev, sg: seq<Sg>, v: Vec)
    requires NoneWasted(q, groups) && CoverAll(q, sg, groups)
    requires prv == (if groups == [] then NoPrev else Last(NoPrev, groups[|groups| - 1]))
    requires !Extends(q, prv, if sg == [] then 0 else sg[|sg| - 1].length, v)
    ensures NoneWasted(q, groups + [[v]])
  {
    hide Bytes;
    if groups != [] { assert Covers(q, sg[|sg| - 1], groups[|groups| - 1]); }
  }

  /** A vec that extends the last entry. */
  lemma Extend(q: Limits, v: Vec, prv: Prev, sg: seq<Sg>, vs: seq<Vec>, rest: seq<Vec>, groups: seq<seq<Vec>>)
    requires Mapping(q, vs, rest, prv, sg, groups) && rest != [] && rest[0] == v
    requires sg != [] && Extends(q, prv, sg[|sg| - 1].length, v)
    ensures groups != []
    ensures var k := |sg| - 1;
      Mapping(q, vs, rest[1..], Prev(v), sg[k := sg[k].(length := sg[k].length + v.len)],
              groups[k := groups[k] + [v]])
  {
    hide Covers, NoneWasted;
    var k := |sg| - 1;
    ExtendCovers(q, sg[k], groups[k], prv, v);
    ExtendWastes(q, groups, v);
    ExtendFlatten(groups, v, rest);
  }

  lemma ExtendCovers(q: Limits, s: Sg, g: seq<Vec>, prv: Prev, v: Vec)
    requires Covers(q, s, g) && prv == Last(NoPrev, g) && Extends(q, prv, s.length, v)
    ensures Covers(q, s.(length := s.length + v.len), g + [v])
  {
    BytesSnoc(g, v);
  }

  lemma ExtendWastes(q: Limits, groups: seq<seq<Vec>>, v: Vec)
    requires NoneWasted(q, groups) && groups != [] && groups[|groups| - 1] != []
    ensures var k := |groups| - 1; NoneWasted(q, groups[k := groups[k] + [v]])
  {
    hide Bytes;
  }

  lemma ExtendFlatten(groups: seq<seq<Vec>>, v: Vec, rest: seq<Vec>)
    requires groups != [] && rest != [] && rest[0] == v
    ensures var k := |groups| - 1; Flatten(groups[k := groups[k] + [v]]) + rest[1..] == Flatten(groups) + rest
  {
    hide Flatten;
    var k := |groups| - 1;
    var g, g' := groups[k], groups[k] + [v];
    assert groups == groups[..k] + [g] && groups[k := g'] == groups[..k] + [g'];
    FlattenSnoc(groups[..k], g);
    FlattenSnoc(groups[..k], g');
  }

  /** blk_rq_map_sg: consecutive entries cover the pages of the request in order, each as many
      as it can, and there are no more of them than nr_phys_segments. */
  method MapSg(q: Limits, r: Req) returns (sg: seq<Sg>, ghost groups: seq<seq<Vec>>)
    ensures CoverAll(q, sg, groups) && NoneWasted(q, groups) && Flatten(groups) == Chain(r.bios)
    ensures |sg| == Map(q, Chain(r.bios)).n
    ensures ReqOk(q, r) ==> |sg| <= r.nrPhysSegments
  {
    hide CoverAll, Map, MapRun, Chain, Flatten, Good;
    ghost var vs := Chain(r.bios);
    var prv := NoPrev;
    sg, groups := [], [];
    var i := 0;
    assert r.bios[0..] == r.bios;
    MapStart(q, vs);
    while i < |r.bios|
      invariant i <= |r.bios|
      invariant Mapping(q, vs, Chain(r.bios[i..]), prv, sg, groups)
    {
      var vecs := r.bios[i].vecs;
      var j := 0;
      RestNext(r.bios, i);
      while j < |vecs|
        invariant j <= |vecs|
        invariant Mapping(q, vs, Rest(r.bios, i, j), prv, sg, groups)
      {
        ghost var rest := Rest(r.bios, i, j);
        RestHead(r.bios, i, j);
        sg, groups := MapVec(q, vecs[j], prv, sg, vs, rest, groups);
        prv := Prev(vecs[j]);
        j := j + 1;
      }
      i := i + 1;
    }
    assert r.bios[i..] == [];
    ChainNone();
    MapEnd(q, r, prv, sg, groups);
  }

  lemma MapStart(q: Limits, vs: seq<Vec>)
    ensures Mapping(q, vs, vs, NoPrev, [], [])
  {
  }

  lemma MapEnd(q: Limits, r: Req, prv: Prev, sg: seq<Sg>, groups: seq<seq<Vec>>)
    requires Mapping(q, Chain(r.bios), [], prv, sg, groups)
    ensures CoverAll(q, sg, groups) && NoneWasted(q, groups) && Flatten(groups) == Chain(r.bios)
    ensures |sg| == Map(q, Chain(r.bios)).n
    ensures ReqOk(q, r) ==> |sg| <= r.nrPhysSegments
  {
  }

  /** __blk_segment_map_sg: one vec extends the last entry or opens a new one. */
  method MapVec(q: Limits, v: Vec, prv: Prev, sg: seq<Sg>, ghost vs: seq<Vec>, ghost rest: seq<Vec>,
                ghost groups: seq<seq<Vec>>)
    returns (sg': seq<Sg>, ghost groups': seq<seq<Vec>>)
    requires Mapping(q, vs, rest, prv, sg, groups) && rest != [] && rest[0] == v
    ensures Mapping(q, vs, rest[1..], Prev(v), sg', groups')
  {
    hide Flatten, MapRun, Map;
    var k := |sg| - 1;
    if prv.Prev? && q.cluster && sg[k].length + v.len <= q.maxSegmentSize && q.contig(prv.vec, v) {
      Extend(q, v, prv, sg, vs, rest, groups);
      sg', groups' := sg[k := sg[k].(length := sg[k].length + v.len)], groups[k := groups[k] + [v]];
    } else {
      Open(q, v, prv, sg, vs, rest, groups);
      sg', groups' := sg + [Sg(v.page, v.offset, v.len)], groups + [[v]];
    }
  }

  class Request {
    var bios: seq<Bio>
    var nrPhysSegments: nat
    var noMerge: bool
    var special: bool

    ghost function State(): Req
      reads this
    {
      Req(bios, nrPhysSegments, noMerge, special)
    }

    constructor (q: Limits, bio: Bio)
      requires bio.vecs != []
      ensures State() == NewRequest(q, bio)
    {
      var b := Recount(q, bio);
      bios, nrPhysSegments, noMerge, special := [b], b.physSegments, false, false;
    }

    /** ll_new_hw_segment. */
    method NewHwSegment(q: Limits, bio: Bio) returns (ok: bool)
      modifies this`nrPhysSegments, this`noMerge
      ensures ok == (old(nrPhysSegments) + bio.physSegments <= q.maxSegments)
      ensures nrPhysSegments == if ok then old(nrPhysSegments) + bio.physSegments else old(nrPhysSegments)
      ensures noMerge == (old(noMerge) || !ok)
    {
      if nrPhysSegments + bio.physSegments > q.maxSegments {
        noMerge := true;
        return false;
      }
      nrPhysSegments := nrPhysSegments + bio.physSegments;
      return true;
    }

    /** ll_back_merge_fn and the linking of bio_attempt_back_merge. */
    method AttemptBackMerge(q: Limits, bio: Bio) returns (ok: bool)
      requires HasData(bios) && bio.vecs != []
      modifies this
      ensures (State(), ok) == BackMerge(q, old(State()), bio)
    {
      if Sectors(bios) + Sectors([bio]) > q.maxSectors {
        noMerge := true;
        return false;
      }
      var tail := Recount(q, bios[|bios| - 1]);
      bios := bios[|bios| - 1 := tail];
      var b := Recount(q, bio);
      ok := NewHwSegment(q, b);
      if ok {
        bios := bios + [b];
      }
    }

    /** ll_front_merge_fn and the linking of bio_attempt_front_merge. */
    method AttemptFrontMerge(q: Limits, bio: Bio) returns (ok: bool)
      requires HasData(bios) && bio.vecs != []
      modifies this
      ensures (State(), ok) == FrontMerge(q, old(State()), bio)
    {
      if Sectors(bios) + Sectors([bio]) > q.maxSectors {
        noMerge := true;
        return false;
      }
      var b := Recount(q, bio);
      var head := Recount(q, bios[0]);
      bios := bios[0 := head];
      ok := NewHwSegment(q, b);
      if ok {
        bios := [b] + bios;
      }
    }
  }

  method Recount(q: Limits, bio: Bio) returns (b: Bio)
    requires bio.vecs != []
    ensures b == Fill(q, bio)
  {
    if bio.segValid {
      return bio;
    }
    ChainOne(bio);
    var n, bs := RecalcSegments(q, [bio]);
    b := bs[0].(segValid := true, physSegments := n);
  }

  /** ll_merge_requests_fn and the linking of attempt_merge. */
  method AttemptMerge(q: Limits, req: Request, next: Request) returns (ok: bool)
    requires req != next && HasData(req.bios) && HasData(next.bios)
    modifies req, next
    ensures (req.State(), next.State(), ok) == MergeRequests(q, old(req.State()), old(next.State()))
  {
    hide Sectors, ContigSegment, SetFront, SetBack, BackSize, FrontSize;
    var segSize := BackSize(req.bios) + FrontSize(next.bios);
    if req.special || next.special {
      return false;
    }
    if Sectors(req.bios) + Sectors(next.bios) > q.maxSectors {
      return false;
    }
    var total: int := req.nrPhysSegments + next.nrPhysSegments;
    if ContigSegment(q, req.bios, next.bios) {
      if req.nrPhysSegments == 1 {
        req.bios := SetFront(req.bios, segSize);
      }
      if next.nrPhysSegments == 1 {
        next.bios := SetBack(next.bios, segSize);
      }
      total := total - 1;
    }
    if total > q.maxSegments || total < 0 {
      return false;
    }
    req.nrPhysSegments := total;
    req.bios := req.bios + next.bios;
    next.bios := [];
    return true;
  }
}
