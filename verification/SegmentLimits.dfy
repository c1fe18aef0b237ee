/** When a bio or a request may join another one, and what that keeps of the limits of the queue. */
module SegmentLimits {
  import opened Arith
  import opened SegmentCounts
  import opened SegmentRequests

  /** The segments a bio is charged for: its valid count, or that of a recount. */
  function Charge(q: Limits, bio: Bio): nat {
    if bio.segValid then bio.physSegments else Count(q, bio.vecs).n
  }

  /** Both together are no longer than the queue allows, each in whole sectors of 512 bytes. */
  predicate LengthFits(q: Limits, vs: seq<Vec>, ws: seq<Vec>) {
    Bytes(vs) / 512 + Bytes(ws) / 512 <= q.maxSectors
  }

  /** The last page of one chain and the first of the other make one segment, as far as the
      sizes cached at the two ends tell. */
  predicate InnerPagesJoin(q: Limits, r: Req, next: Req)
    requires HasData(r.bios) && HasData(next.bios) && Chain(r.bios) != [] && Chain(next.bios) != []
  {
    var vs, ws := Chain(r.bios), Chain(next.bios);
    && q.cluster && q.contig(vs[|vs| - 1], ws[0])
    && r.bios[|r.bios| - 1].back + next.bios[0].front <= q.maxSegmentSize
  }

  lemma FillCharge(q: Limits, bio: Bio)
    ensures Fill(q, bio).segValid && Fill(q, bio).physSegments == Charge(q, bio) && Fill(q, bio).vecs == bio.vecs
  {
    ChainOne(bio);
  }

  /** A bio is taken at the back exactly when the length fits and so does the count with what
      the bio is charged for; otherwise the request will not be tried again. */
  lemma BackAccepted(q: Limits, r: Req, bio: Bio)
    requires r.bios != []
    ensures var (r', ok) := BackMerge(q, r, bio);
      && (ok <==> LengthFits(q, Chain(r.bios), bio.vecs) && r.nrPhysSegments + Charge(q, bio) <= q.maxSegments)
      && r'.nrPhysSegments == r.nrPhysSegments + (if ok then Charge(q, bio) else 0)
      && r'.noMerge == (r.noMerge || !ok) && r'.special == r.special
      && |r'.bios| == |r.bios| + (if ok then 1 else 0)
      && (ok ==> r'.bios[|r.bios| - 1].segValid && r'.bios[|r.bios|] == Fill(q, bio))
  {
    hide Count, Recached, Bytes;
    ChainOne(bio);
    FillCharge(q, bio);
    FillCharge(q, r.bios[|r.bios| - 1]);
  }

  lemma FrontAccepted(q: Limits, r: Req, bio: Bio)
    requires r.bios != []
    ensures var (r', ok) := FrontMerge(q, r, bio);
      && (ok <==> LengthFits(q, Chain(r.bios), bio.vecs) && r.nrPhysSegments + Charge(q, bio) <= q.maxSegments)
      && r'.nrPhysSegments == r.nrPhysSegments + (if ok then Charge(q, bio) else 0)
      && r'.noMerge == (r.noMerge || !ok) && r'.special == r.special
      && |r'.bios| == |r.bios| + (if ok then 1 else 0)
      && (ok ==> r'.bios[0] == Fill(q, bio) && r'.bios[1].segValid)
  {
    hide Count, Recached, Bytes;
    ChainOne(bio);
    FillCharge(q, bio);
    FillCharge(q, r.bios[0]);
  }

  /** Two requests join exactly when neither was requeued, the length fits and so do the two
      counts, less one where the inner pages make one segment. */
  lemma JoinAccepted(q: Limits, r: Req, next: Req)
    requires ReqOk(q, r) && ReqOk(q, next)
    ensures Chain(r.bios) != [] && Chain(next.bios) != []
    ensures var (r', next', ok) := MergeRequests(q, r, next);
      var total := r.nrPhysSegments + next.nrPhysSegments - if InnerPagesJoin(q, r, next) then 1 else 0;
      && (ok <==> !r.special && !next.special && LengthFits(q, Chain(r.bios), Chain(next.bios))
                  && total <= q.maxSegments)
      && r'.nrPhysSegments == (if ok then total else r.nrPhysSegments)
      && r'.noMerge == r.noMerge && r'.special == r.special
  {
    hide Good, Bytes;
    ChainEnds(r.bios);
    ChainEnds(next.bios);
    ReqPositive(q, r);
    ReqPositive(q, next);
  }

  lemma ReqPositive(q: Limits, r: Req)
    requires ReqOk(q, r)
    ensures r.nrPhysSegments > 0 && HasData(r.bios)
  {
    ChainEnds(r.bios);
    GoodPositive(q, Chain(r.bios), r.nrPhysSegments, FrontSize(r.bios), BackSize(r.bios));
  }

  // ------------------------------------------------------------------------------ runs

  predicate Whole(bytes: nat) {
    bytes % 512 == 0
  }

  ghost predicate WholeSectors(bios: seq<Bio>) {
    forall i :: 0 <= i < |bios| ==> Whole(Bytes(bios[i].vecs))
  }

  /** Within both limits of the queue. Each part is rounded down to sectors before the two are
      added, so a length that is not made of whole sectors may reach into one sector more. */
  ghost predicate WithinLimits(q: Limits, r: Req) {
    && r.nrPhysSegments <= q.maxSegments
    && Bytes(Chain(r.bios)) < (q.maxSectors + 2) * 512
    && (WholeSectors(r.bios) ==> Bytes(Chain(r.bios)) <= q.maxSectors * 512)
  }

  lemma {:induction false} BytesConcat(vs: seq<Vec>, ws: seq<Vec>)
    ensures Bytes(vs + ws) == Bytes(vs) + Bytes(ws)
  {
    if vs == [] {
      assert vs + ws == ws;
    } else {
      assert (vs + ws)[1..] == vs[1..] + ws;
      BytesConcat(vs[1..], ws);
    }
  }

  lemma {:induction false} WholeChain(bios: seq<Bio>)
    requires WholeSectors(bios)
    ensures Whole(Bytes(Chain(bios)))
  {
    hide Whole;
    WholeSum(0, 0);
    if bios != [] {
      assert forall i :: 0 <= i < |bios[1..]| ==> bios[1..][i] == bios[i + 1];
      WholeChain(bios[1..]);
      BytesConcat(bios[0].vecs, Chain(bios[1..]));
      WholeSum(Bytes(bios[0].vecs), Bytes(Chain(bios[1..])));
    }
  }

  lemma WholeSum(a: nat, b: nat)
    ensures Whole(0) && (Whole(a) && Whole(b) ==> Whole(a + b))
  {
  }

  lemma TwoParts(q: Limits, vs: seq<Vec>, ws: seq<Vec>)
    requires LengthFits(q, vs, ws)
    ensures Bytes(vs) + Bytes(ws) < (q.maxSectors + 2) * 512
    ensures Whole(Bytes(vs)) && Whole(Bytes(ws)) ==> Bytes(vs) + Bytes(ws) <= q.maxSectors * 512
  {
    hide Bytes;
  }

  /** r has the pages of xs followed by those of ys. */
  ghost predicate MadeOf(r: Req, xs: seq<Bio>, ys: seq<Bio>) {
    && |r.bios| == |xs| + |ys|
    && (forall i :: 0 <= i < |xs| ==> r.bios[i].vecs == xs[i].vecs)
    && (forall i :: 0 <= i < |ys| ==> r.bios[|xs| + i].vecs == ys[i].vecs)
  }

  lemma PartsBytes(r: Req, xs: seq<Bio>, ys: seq<Bio>)
    requires MadeOf(r, xs, ys)
    ensures Bytes(Chain(r.bios)) == Bytes(Chain(xs)) + Bytes(Chain(ys))
  {
    hide Bytes, Chain;
    ChainSame(xs + ys, r.bios);
    ChainConcat(xs, ys);
    BytesConcat(Chain(xs), Chain(ys));
  }

  lemma PartsWhole(r: Req, xs: seq<Bio>, ys: seq<Bio>)
    requires MadeOf(r, xs, ys) && WholeSectors(r.bios)
    ensures WholeSectors(xs) && WholeSectors(ys)
  {
    hide Whole, Bytes;
    forall i | 0 <= i < |ys| ensures Whole(Bytes(ys[i].vecs)) {
      assert r.bios[|xs| + i].vecs == ys[i].vecs;
    }
  }

  /** Two chains that fit together, seen in the request made of both. */
  lemma PartsWithin(q: Limits, r: Req, xs: seq<Bio>, ys: seq<Bio>)
    requires LengthFits(q, Chain(xs), Chain(ys)) && r.nrPhysSegments <= q.maxSegments && MadeOf(r, xs, ys)
    ensures WithinLimits(q, r)
  {
    hide Bytes, Chain, Whole, WholeSectors, LengthFits, MadeOf;
    PartsBytes(r, xs, ys);
    TwoParts(q, Chain(xs), Chain(ys));
    if WholeSectors(r.bios) {
      PartsWhole(r, xs, ys);
      WholeChain(xs);
      WholeChain(ys);
    }
  }

  lemma BackWithin(q: Limits, r: Req, bio: Bio)
    requires r.bios != [] && BackMerge(q, r, bio).1
    ensures WithinLimits(q, BackMerge(q, r, bio).0)
  {
    hide WithinLimits, Charge, Count, Bytes;
    BackAccepted(q, r, bio);
    FillCharge(q, bio);
    FillCharge(q, r.bios[|r.bios| - 1]);
    ChainOne(bio);
    PartsWithin(q, BackMerge(q, r, bio).0, r.bios, [bio]);
  }

  lemma FrontWithin(q: Limits, r: Req, bio: Bio)
    requires r.bios != [] && FrontMerge(q, r, bio).1
    ensures WithinLimits(q, FrontMerge(q, r, bio).0)
  {
    hide WithinLimits, Charge, Count, Bytes;
    FrontAccepted(q, r, bio);
    FillCharge(q, bio);
    FillCharge(q, r.bios[0]);
    ChainOne(bio);
    PartsWithin(q, FrontMerge(q, r, bio).0, [bio], r.bios);
  }

  lemma JoinWithin(q: Limits, r: Req, next: Req)
    requires ReqOk(q, r) && ReqOk(q, next) && MergeRequests(q, r, next).2
    ensures WithinLimits(q, MergeRequests(q, r, next).0)
  {
    hide WithinLimits, Good, Bytes;
    JoinAccepted(q, r, next);
    PartsWithin(q, MergeRequests(q, r, next).0, r.bios, next.bios);
  }

  /** The request has more pages than before. */
  ghost predicate Grew(s: Store, e: Store, id: nat) {
    id in s && id in e && |Chain(s[id].bios)| < |Chain(e[id].bios)|
  }

  /** In every run a request that a step makes longer is then within both limits, and requeued
      requests are never joined; completion, which only shortens, is not such a step. */
  lemma GrownWithinLimits(q: Limits, steps: seq<Step>, t: Step, id: nat)
    requires Legal(q, map[], steps) && Enabled(q, Exec(q, map[], steps), t) && !t.Progress?
    requires var s := Exec(q, map[], steps); Grew(s, Next(q, s, t), id)
    ensures var s := Exec(q, map[], steps);
      WithinLimits(q, Next(q, s, t)[id]) && (t.Join? ==> !s[id].special)
  {
    hide WithinLimits, Good, BackMerge, FrontMerge, MergeRequests, Recalc, ReqOk;
    ExecOk(q, map[], steps);
    var s := Exec(q, map[], steps);
    assert ReqOk(q, s[id]);
    match t
    case AddBack(i, bio) =>
      if s[i].bios != [] { BackMergeOk(q, s[i], bio); BackAccepted(q, s[i], bio); }
      if s[i].bios != [] && BackMerge(q, s[i], bio).1 { BackWithin(q, s[i], bio); }
    case AddFront(i, bio) =>
      if s[i].bios != [] { FrontMergeOk(q, s[i], bio); FrontAccepted(q, s[i], bio); }
      if s[i].bios != [] && FrontMerge(q, s[i], bio).1 { FrontWithin(q, s[i], bio); }
    case Join(i, n) =>
      MergeRequestsOk(q, s[i], s[n]);
      JoinAccepted(q, s[i], s[n]);
      if MergeRequests(q, s[i], s[n]).2 { JoinWithin(q, s[i], s[n]); }
    case Resum(i) =>
      ReqData(q, s[i]);
      RecalcOk(q, s[i]);
    case _ =>
  }
}
