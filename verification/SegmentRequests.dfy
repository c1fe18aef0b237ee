/** Requests as chains of bios with a conservative segment count, and the merges that update it. */
module SegmentRequests {
  import opened Arith
  import opened SegmentCounts

  /** bi_seg_front_size and bi_seg_back_size are caches; so is bi_phys_segments while segValid. */
  datatype Bio = Bio(vecs: seq<Vec>, segValid: bool, physSegments: nat, front: nat, back: nat)

  datatype Req = Req(bios: seq<Bio>, nrPhysSegments: nat, noMerge: bool, special: bool)

  function Chain(bios: seq<Bio>): seq<Vec> {
    if bios == [] then [] else bios[0].vecs + Chain(bios[1..])
  }

  function Bytes(vs: seq<Vec>): nat {
    if vs == [] then 0 else vs[0].len + Bytes(vs[1..])
  }

  function Sectors(bios: seq<Bio>): nat {
    Bytes(Chain(bios)) / 512
  }

  function SetFront(bios: seq<Bio>, size: nat): seq<Bio>
    requires bios != []
  {
    bios[0 := bios[0].(front := size)]
  }

  function SetBack(bios: seq<Bio>, size: nat): seq<Bio>
    requires bios != []
  {
    bios[|bios| - 1 := bios[|bios| - 1].(back := size)]
  }

  function FrontSize(bios: seq<Bio>): nat
    requires bios != []
  {
    bios[0].front
  }

  function BackSize(bios: seq<Bio>): nat
    requires bios != []
  {
    bios[|bios| - 1].back
  }

  /** What a recount does to the caches of the first and last bio: they only grow. */
  function Recached(q: Limits, bios: seq<Bio>): seq<Bio>
    requires bios != []
  {
    var vs := Chain(bios);
    var b := SetFront(bios, Max(FrontSize(bios), FirstSegment(q, vs)));
    SetBack(b, Max(BackSize(b), Count(q, vs).size))
  }

  /** blk_recount_segments on one bio, if its count is not valid. */
  function Fill(q: Limits, bio: Bio): Bio {
    if bio.segValid then bio
    else Recached(q, [bio])[0].(segValid := true, physSegments := Count(q, bio.vecs).n)
  }

  function FillAt(q: Limits, r: Req, i: nat): Req
    requires i < |r.bios|
  {
    r.(bios := r.bios[i := Fill(q, r.bios[i])])
  }

  function NewRequest(q: Limits, bio: Bio): Req {
    Req([Fill(q, bio)], Fill(q, bio).physSegments, false, false)
  }

  function BackMerge(q: Limits, r: Req, bio: Bio): (Req, bool)
    requires r.bios != []
  {
    if Sectors(r.bios) + Sectors([bio]) > q.maxSectors then (r.(noMerge := true), false)
    else
      var r', b := FillAt(q, r, |r.bios| - 1), Fill(q, bio);
      var n := r'.nrPhysSegments + b.physSegments;
      if n > q.maxSegments then (r'.(noMerge := true), false)
      else (r'.(nrPhysSegments := n, bios := r'.bios + [b]), true)
  }

  function FrontMerge(q: Limits, r: Req, bio: Bio): (Req, bool)
    requires r.bios != []
  {
    if Sectors(r.bios) + Sectors([bio]) > q.maxSectors then (r.(noMerge := true), false)
    else
      var r', b := FillAt(q, r, 0), Fill(q, bio);
      var n := r'.nrPhysSegments + b.physSegments;
      if n > q.maxSegments then (r'.(noMerge := true), false)
      else (r'.(nrPhysSegments := n, bios := [b] + r'.bios), true)
  }

  predicate HasData(bios: seq<Bio>) {
    bios != [] && forall i :: 0 <= i < |bios| ==> bios[i].vecs != []
  }

  /** blk_phys_contig_segment between the tail of one chain and the head of another. */
  predicate ContigSegment(q: Limits, xs: seq<Bio>, ys: seq<Bio>)
    requires HasData(xs) && HasData(ys)
  {
    var x, y := xs[|xs| - 1], ys[0];
    q.cluster && x.back + y.front <= q.maxSegmentSize && q.contig(x.vecs[|x.vecs| - 1], y.vecs[0])
  }

  /** ll_merge_requests_fn: the caches are adjusted before the last check can fail.
      The total is negative only for requests without segments, which have no data. */
  function LlMergeRequests(q: Limits, r: Req, next: Req): (Req, Req, bool)
    requires HasData(r.bios) && HasData(next.bios)
  {
    if r.special || next.special || Sectors(r.bios) + Sectors(next.bios) > q.maxSectors then (r, next, false)
    else
      var size := BackSize(r.bios) + FrontSize(next.bios);
      var joined := ContigSegment(q, r.bios, next.bios);
      var total := r.nrPhysSegments + next.nrPhysSegments - if joined then 1 else 0;
      var r' := if joined && r.nrPhysSegments == 1 then r.(bios := SetFront(r.bios, size)) else r;
      var next' := if joined && next.nrPhysSegments == 1 then next.(bios := SetBack(next.bios, size)) else next;
      if total > q.maxSegments || total < 0 then (r', next', false)
      else (r'.(nrPhysSegments := total), next', true)
  }

  /** attempt_merge as far as the chains go: next is appended and goes away. */
  function MergeRequests(q: Limits, r: Req, next: Req): (Req, Req, bool)
    requires HasData(r.bios) && HasData(next.bios)
  {
    var (r', next', ok) := LlMergeRequests(q, r, next);
    if ok then (r'.(bios := r'.bios + next'.bios), next'.(bios := []), true) else (r', next', false)
  }

  function Recalc(q: Limits, r: Req): Req
    requires r.bios != []
  {
    r.(bios := Recached(q, r.bios), nrPhysSegments := Count(q, Chain(r.bios)).n)
  }

  // -------------------------------------------------------------------- invariant

  ghost predicate BioOk(q: Limits, b: Bio) {
    b.vecs != [] && (b.segValid ==> Good(q, b.vecs, b.physSegments, b.front, b.back))
  }

  ghost predicate ReqOk(q: Limits, r: Req) {
    && HasData(r.bios)
    && Good(q, Chain(r.bios), r.nrPhysSegments, FrontSize(r.bios), BackSize(r.bios))
  }

  lemma {:induction false} ChainConcat(xs: seq<Bio>, ys: seq<Bio>)
    ensures Chain(xs + ys) == Chain(xs) + Chain(ys)
  {
    if xs == [] {
      assert xs + ys == ys;
    } else {
      assert (xs + ys)[1..] == xs[1..] + ys;
      ChainConcat(xs[1..], ys);
      assert xs[0].vecs + (Chain(xs[1..]) + Chain(ys)) == Chain(xs) + Chain(ys);
    }
  }

  lemma {:induction false} ChainSame(xs: seq<Bio>, ys: seq<Bio>)
    requires |xs| == |ys| && forall i :: 0 <= i < |xs| ==> xs[i].vecs == ys[i].vecs
    ensures Chain(xs) == Chain(ys)
  {
    if xs != [] { ChainSame(xs[1..], ys[1..]); }
  }

  lemma ChainOne(b: Bio)
    ensures Chain([b]) == b.vecs
  {
    assert [b][1..] == [];
  }

  /** The ends of a chain are the ends of its first and last bio. */
  lemma {:induction false} ChainEnds(bios: seq<Bio>)
    requires HasData(bios)
    ensures var vs, l := Chain(bios), bios[|bios| - 1].vecs;
      vs != [] && vs[0] == bios[0].vecs[0] && vs[|vs| - 1] == l[|l| - 1]
    decreases |bios|
  {
    if |bios| == 1 {
      ChainOne(bios[0]);
      assert bios == [bios[0]];
    } else {
      ChainEnds(bios[1..]);
    }
  }

  lemma FillOk(q: Limits, b: Bio)
    requires BioOk(q, b)
    ensures var f := Fill(q, b);
      f.vecs == b.vecs && Good(q, f.vecs, f.physSegments, f.front, f.back) && f.front >= b.front && f.back >= b.back
  {
    ChainOne(b);
    if !b.segValid {
      var f := Fill(q, b);
      RecountGood(q, b.vecs, f.front, f.back);
    }
  }

  /** Recounting a bio inside a request only raises caches. */
  lemma FillAtOk(q: Limits, r: Req, i: nat)
    requires ReqOk(q, r) && i < |r.bios|
    ensures ReqOk(q, FillAt(q, r, i)) && Chain(FillAt(q, r, i).bios) == Chain(r.bios)
  {
    var r' := FillAt(q, r, i);
    ChainSame(r.bios, r'.bios);
    ChainOne(r.bios[i]);
    GoodMore(q, Chain(r.bios), r.nrPhysSegments, FrontSize(r.bios), BackSize(r.bios),
             FrontSize(r'.bios), BackSize(r'.bios));
  }

  lemma NewOk(q: Limits, bio: Bio)
    requires BioOk(q, bio)
    ensures ReqOk(q, NewRequest(q, bio)) && Chain(NewRequest(q, bio).bios) == bio.vecs
    ensures !NewRequest(q, bio).noMerge && !NewRequest(q, bio).special
  {
    FillOk(q, bio);
    ChainOne(Fill(q, bio));
  }

  ghost predicate Counted(q: Limits, b: Bio) {
    Good(q, b.vecs, b.physSegments, b.front, b.back)
  }

  /** A counted bio at either end: the counts add up. */
  lemma AttachOk(q: Limits, r: Req, b: Bio)
    requires ReqOk(q, r) && Counted(q, b)
    ensures ReqOk(q, r.(nrPhysSegments := r.nrPhysSegments + b.physSegments, bios := r.bios + [b]))
    ensures ReqOk(q, r.(nrPhysSegments := r.nrPhysSegments + b.physSegments, bios := [b] + r.bios))
  {
    hide Good;
    GoodData(q, b);
    ChainOne(b);
    ChainConcat(r.bios, [b]);
    ChainConcat([b], r.bios);
    GoodConcat(q, Chain(r.bios), r.nrPhysSegments, FrontSize(r.bios), BackSize(r.bios),
               b.vecs, b.physSegments, b.front, b.back);
    GoodConcat(q, b.vecs, b.physSegments, b.front, b.back,
               Chain(r.bios), r.nrPhysSegments, FrontSize(r.bios), BackSize(r.bios));
  }

  lemma GoodData(q: Limits, b: Bio)
    requires Counted(q, b)
    ensures b.vecs != []
  {
  }

  lemma BackMergeOk(q: Limits, r: Req, bio: Bio)
    requires ReqOk(q, r) && BioOk(q, bio)
    ensures ReqOk(q, BackMerge(q, r, bio).0)
    ensures var (r', ok) := BackMerge(q, r, bio);
      Chain(r'.bios) == if ok then Chain(r.bios) + bio.vecs else Chain(r.bios)
  {
    hide Good, Fill, FillAt, Chain;
    var i := |r.bios| - 1;
    FillAtOk(q, r, i);
    FillOk(q, bio);
    AttachOk(q, FillAt(q, r, i), Fill(q, bio));
    ChainConcat(FillAt(q, r, i).bios, [Fill(q, bio)]);
    ChainOne(Fill(q, bio));
  }

  lemma FrontMergeOk(q: Limits, r: Req, bio: Bio)
    requires ReqOk(q, r) && BioOk(q, bio)
    ensures ReqOk(q, FrontMerge(q, r, bio).0)
    ensures var (r', ok) := FrontMerge(q, r, bio);
      Chain(r'.bios) == if ok then bio.vecs + Chain(r.bios) else Chain(r.bios)
  {
    hide Good, Fill, FillAt, Chain;
    FillAtOk(q, r, 0);
    FillOk(q, bio);
    AttachOk(q, FillAt(q, r, 0), Fill(q, bio));
    ChainConcat([Fill(q, bio)], FillAt(q, r, 0).bios);
    ChainOne(Fill(q, bio));
  }

  /** When the count is one segment, its size bounds both caches that may be overwritten. */
  lemma MergeCachesOk(q: Limits, r: Req, next: Req)
    requires ReqOk(q, r) && ReqOk(q, next)
    ensures var (r', next', ok) := LlMergeRequests(q, r, next);
      && HasData(r'.bios) && HasData(next'.bios)
      && Chain(r'.bios) == Chain(r.bios) && Chain(next'.bios) == Chain(next.bios)
      && ReqOk(q, r'.(nrPhysSegments := r.nrPhysSegments)) && ReqOk(q, next')
  {
    var (r', next', ok) := LlMergeRequests(q, r, next);
    ChainSame(r.bios, r'.bios);
    ChainSame(next.bios, next'.bios);
    GoodPositive(q, Chain(r.bios), r.nrPhysSegments, FrontSize(r.bios), BackSize(r.bios));
    GoodPositive(q, Chain(next.bios), next.nrPhysSegments, FrontSize(next.bios), BackSize(next.bios));
  }

  lemma MergeRequestsOk(q: Limits, r: Req, next: Req)
    requires ReqOk(q, r) && ReqOk(q, next)
    ensures var (r', next', ok) := MergeRequests(q, r, next);
      && ReqOk(q, r') && (!ok ==> ReqOk(q, next'))
      && Chain(r'.bios) == (if ok then Chain(r.bios) + Chain(next.bios) else Chain(r.bios))
      && (if ok then next'.bios == [] else Chain(next'.bios) == Chain(next.bios))
  {
    hide Good, Chain, Sectors;
    var (r', next', ok) := LlMergeRequests(q, r, next);
    MergeCachesOk(q, r, next);
    if ok {
      ChainConcat(r'.bios, next'.bios);
      if ContigSegment(q, r.bios, next.bios) {
        ChainEnds(r.bios);
        ChainEnds(next.bios);
        GoodMerge(q, Chain(r.bios), r.nrPhysSegments, FrontSize(r.bios), BackSize(r.bios),
                  Chain(next.bios), next.nrPhysSegments, FrontSize(next.bios), BackSize(next.bios));
      } else {
        GoodConcat(q, Chain(r.bios), r.nrPhysSegments, FrontSize(r.bios), BackSize(r.bios),
                   Chain(next.bios), next.nrPhysSegments, FrontSize(next.bios), BackSize(next.bios));
      }
    }
  }

  lemma RecalcOk(q: Limits, r: Req)
    requires HasData(r.bios)
    ensures ReqOk(q, Recalc(q, r)) && Chain(Recalc(q, r).bios) == Chain(r.bios)
  {
    var r' := Recalc(q, r);
    ChainSame(r.bios, r'.bios);
    ChainEnds(r.bios);
    RecountGood(q, Chain(r.bios), FrontSize(r'.bios), BackSize(r'.bios));
  }

  // ------------------------------------------------------------------------- runs

  datatype Step =
    | New(id: nat, bio: Bio)
    | AddBack(id: nat, bio: Bio)
    | AddFront(id: nat, bio: Bio)
    | Join(id: nat, next: nat)
    | Resum(id: nat)
    | Progress(id: nat, done: nat, vecs: seq<Vec>)

  type Store = map<nat, Req>

  /** Incoming bios carry data, and a valid count only if a recount made it. */
  ghost predicate Enabled(q: Limits, s: Store, t: Step) {
    match t
    case New(id, bio) => id !in s && BioOk(q, bio)
    case AddBack(id, bio) => id in s && BioOk(q, bio)
    case AddFront(id, bio) => id in s && BioOk(q, bio)
    case Join(id, next) => id in s && next in s && id != next && HasData(s[id].bios) && HasData(s[next].bios)
    case Resum(id) => id in s && s[id].bios != []
    case Progress(id, done, vecs) => id in s && done < |s[id].bios| && vecs != []
  }

  /** Some bios are completed, and the first one left over has only `vecs` to go. */
  function Advanced(r: Req, done: nat, vecs: seq<Vec>): Req
    requires done < |r.bios|
  {
    r.(bios := [r.bios[done].(vecs := vecs)] + r.bios[done + 1..])
  }

  lemma AdvancedChain(r: Req, done: nat, vecs: seq<Vec>)
    requires done < |r.bios|
    ensures Chain(Advanced(r, done, vecs).bios) == vecs + Chain(r.bios[done + 1..])
  {
    assert Advanced(r, done, vecs).bios[1..] == r.bios[done + 1..];
  }

  ghost function Next(q: Limits, s: Store, t: Step): Store
    requires Enabled(q, s, t)
  {
    match t
    case New(id, bio) => s[id := NewRequest(q, bio)]
    case AddBack(id, bio) => if s[id].bios == [] then s else s[id := BackMerge(q, s[id], bio).0]
    case AddFront(id, bio) => if s[id].bios == [] then s else s[id := FrontMerge(q, s[id], bio).0]
    case Join(id, next) =>
      var (r, n, ok) := MergeRequests(q, s[id], s[next]);
      if ok then s[id := r] - {next} else s[id := r][next := n]
    case Resum(id) => s[id := Recalc(q, s[id])]
    case Progress(id, done, vecs) => s[id := Recalc(q, Advanced(s[id], done, vecs))]
  }

  ghost predicate StoreOk(q: Limits, s: Store) {
    forall id :: id in s ==> ReqOk(q, s[id])
  }

  lemma NextOk(q: Limits, s: Store, t: Step)
    requires StoreOk(q, s) && Enabled(q, s, t)
    ensures StoreOk(q, Next(q, s, t))
  {
    hide Good, ReqOk, BackMerge, FrontMerge, MergeRequests, Recalc, NewRequest;
    match t
    case New(id, bio) => NewOk(q, bio);
    case AddBack(id, bio) => assert ReqOk(q, s[id]); BackMergeOk(q, s[id], bio);
    case AddFront(id, bio) => assert ReqOk(q, s[id]); FrontMergeOk(q, s[id], bio);
    case Join(id, next) =>
      assert ReqOk(q, s[id]) && ReqOk(q, s[next]);
      MergeRequestsOk(q, s[id], s[next]);
    case Resum(id) =>
      assert ReqOk(q, s[id]);
      ReqData(q, s[id]);
      RecalcOk(q, s[id]);
    case Progress(id, done, vecs) =>
      assert ReqOk(q, s[id]);
      ReqData(q, s[id]);
      RecalcOk(q, Advanced(s[id], done, vecs));
  }

  lemma ReqData(q: Limits, r: Req)
    requires ReqOk(q, r)
    ensures HasData(r.bios) && Map(q, Chain(r.bios)).n <= r.nrPhysSegments
  {
  }

  ghost predicate Legal(q: Limits, s: Store, steps: seq<Step>)
    decreases |steps|
  {
    steps == [] || (Enabled(q, s, steps[0]) && Legal(q, Next(q, s, steps[0]), steps[1..]))
  }

  ghost function Exec(q: Limits, s: Store, steps: seq<Step>): Store
    requires Legal(q, s, steps)
    decreases |steps|
  {
    if steps == [] then s else Exec(q, Next(q, s, steps[0]), steps[1..])
  }

  lemma {:induction false} ExecOk(q: Limits, s: Store, steps: seq<Step>)
    requires StoreOk(q, s) && Legal(q, s, steps)
    ensures StoreOk(q, Exec(q, s, steps))
    decreases |steps|
  {
    if steps != [] {
      NextOk(q, s, steps[0]);
      ExecOk(q, Next(q, s, steps[0]), steps[1..]);
    }
  }

  /** Through any sequence of recounts, merges and partial completions, no request maps
      to more scatterlist entries than its nr_phys_segments. */
  lemma ScatterlistFits(q: Limits, steps: seq<Step>, id: nat)
    requires Legal(q, map[], steps) && id in Exec(q, map[], steps)
    ensures var r := Exec(q, map[], steps)[id]; Map(q, Chain(r.bios)).n <= r.nrPhysSegments
  {
    ExecOk(q, map[], steps);
    ReqData(q, Exec(q, map[], steps)[id]);
  }
}
