/**
 Merging in the elevator, for plain reads and writes.

 A request is a chain of bios.  Requests are numbered in order of allocation; one that has
 been merged into another keeps its number and has no bios left.  The merge hash is seen
 here as one list: the requests that can be found in it, most recently filed first.
 */
module Merging {
  import opened Lists
  import opened Options

  const SECTOR: nat := 512

  /** sector counts 512-byte sectors, size bytes. */
  datatype Bio = Bio(sector: nat, size: nat)

  datatype Request = Request(sector: nat, dataLen: nat, bios: seq<Bio>, mergeable: bool, queued: bool)

  /** live: the mergeable requests on the hash; last: the one-hit cache. */
  datatype Elevator = Elevator(reqs: seq<Request>, live: seq<nat>, last: Option<nat>)

  /** What decides a merge besides position: flags, direction, device, the I/O scheduler's
      opinion, and the size and segment limits. */
  datatype Policy = Policy(
    allow: (Request, Bio) -> bool, fitsBack: (Request, Bio) -> bool, fitsFront: (Request, Bio) -> bool,
    fits: (Request, Request) -> bool)

  function Sectors(bytes: nat): nat {
    bytes / SECTOR
  }

  /** rq_hash_key: the first sector after the request. */
  function End(r: Request): nat {
    r.sector + Sectors(r.dataLen)
  }

  function BioEnd(b: Bio): nat {
    b.sector + Sectors(b.size)
  }

  predicate BioOk(b: Bio) {
    b.size > 0 && b.size % SECTOR == 0
  }

  // ------------------------------------------------------------------- operations

  /** elv_rqhash_find, as a scan: the first in the list that ends at offset. */
  function FirstMatch(reqs: seq<Request>, list: seq<nat>, offset: nat): (r: Option<nat>)
    requires forall x :: x in list ==> x < |reqs|
    ensures r.Some? ==> r.value in list && End(reqs[r.value]) == offset
    ensures r.None? ==> forall x :: x in list ==> End(reqs[x]) != offset
  {
    if list == [] then None
    else
      assert list[0] in list && forall x :: x in list[1..] ==> x in list;
      if End(reqs[list[0]]) == offset then Some(list[0])
      else FirstMatch(reqs, list[1..], offset)
  }

  function Allocate(s: Elevator, r: Request): Elevator {
    s.(reqs := s.reqs + [r.(queued := false)])
  }

  /** Hand an allocated request to the scheduler (ELEVATOR_INSERT_SORT). */
  function Enqueue(s: Elevator, i: nat): Elevator
    requires i < |s.reqs|
  {
    var r := s.reqs[i].(queued := true);
    if r.mergeable then
      Elevator(s.reqs[i := r], [i] + s.live, if s.last.None? then Some(i) else s.last)
    else s.(reqs := s.reqs[i := r])
  }

  /** A merge that would exceed a limit marks the request not mergeable. */
  function Refuse(s: Elevator, i: nat): Elevator
    requires i < |s.reqs|
  {
    Elevator(s.reqs[i := s.reqs[i].(mergeable := false)], Without(s.live, i),
             if s.last == Some(i) then None else s.last)
  }

  function Appended(r: Request, b: Bio): Request {
    r.(bios := r.bios + [b], dataLen := r.dataLen + b.size)
  }

  function Prepended(r: Request, b: Bio): Request {
    r.(bios := [b] + r.bios, sector := b.sector, dataLen := r.dataLen + b.size)
  }

  function Joined(r: Request, next: Request): Request {
    r.(bios := r.bios + next.bios, dataLen := r.dataLen + next.dataLen)
  }

  /** The new end moves the request to the head of the list. */
  function BackMerge(s: Elevator, i: nat, b: Bio): Elevator
    requires i < |s.reqs|
  {
    Elevator(s.reqs[i := Appended(s.reqs[i], b)], [i] + Without(s.live, i), Some(i))
  }

  /** The end is unchanged, so the request stays where it is filed. */
  function FrontMerge(s: Elevator, i: nat, b: Bio): Elevator
    requires i < |s.reqs|
  {
    Elevator(s.reqs[i := Prepended(s.reqs[i], b)], s.live, Some(i))
  }

  predicate CanJoin(p: Policy, r: Request, next: Request) {
    r.mergeable && next.mergeable && End(r) == next.sector && p.fits(r, next)
  }

  /** attempt_merge when it succeeds: j is absorbed by i. */
  function Join(s: Elevator, i: nat, j: nat): (r: Elevator)
    requires i < |s.reqs| && j < |s.reqs|
    ensures |r.reqs| == |s.reqs|
  {
    var reqs := s.reqs[i := Joined(s.reqs[i], s.reqs[j])];
    Elevator(reqs[j := reqs[j].(bios := [], queued := false)], Without([i] + Without(s.live, i), j), Some(i))
  }

  function TryJoin(p: Policy, s: Elevator, i: nat, j: nat): Elevator
    requires i < |s.reqs| && j < |s.reqs|
  {
    if CanJoin(p, s.reqs[i], s.reqs[j]) then Join(s, i, j) else s
  }

  function Dispatch(s: Elevator, i: nat): Elevator
    requires i < |s.reqs|
  {
    Elevator(s.reqs[i := s.reqs[i].(queued := false)], Without(s.live, i), if s.last == Some(i) then None else s.last)
  }

  // ------------------------------------------------------------- contiguous requests

  function Size(bios: seq<Bio>): nat {
    if bios == [] then 0 else bios[0].size + Size(bios[1..])
  }

  ghost predicate Contiguous(bios: seq<Bio>) {
    && (forall i :: 0 <= i < |bios| ==> BioOk(bios[i]))
    && (forall i, j :: 0 <= i && j == i + 1 && j < |bios| ==> BioEnd(bios[i]) == bios[j].sector)
  }

  /** A gap-free ascending run of non-empty bios from sector, dataLen bytes in all. */
  ghost predicate GapFree(r: Request) {
    r.bios != [] && Contiguous(r.bios) && r.bios[0].sector == r.sector && Size(r.bios) == r.dataLen
  }

  lemma {:induction false} SizeConcat(xs: seq<Bio>, ys: seq<Bio>)
    ensures Size(xs + ys) == Size(xs) + Size(ys)
  {
    if xs == [] {
      assert xs + ys == ys;
    } else {
      assert (xs + ys)[1..] == xs[1..] + ys;
      SizeConcat(xs[1..], ys);
    }
  }

  /** A run ends where its last bio does, a whole number of sectors after its start. */
  lemma {:induction false} RunEnd(bios: seq<Bio>)
    requires bios != [] && Contiguous(bios)
    ensures bios[0].sector + Sectors(Size(bios)) == BioEnd(bios[|bios| - 1])
    ensures Size(bios) % SECTOR == 0 && Size(bios) > 0
    decreases |bios|
  {
    if |bios| > 1 {
      assert bios[1..][|bios| - 2] == bios[|bios| - 1];
      RunEnd(bios[1..]);
    } else {
      assert Size(bios[1..]) == 0;
    }
  }

  lemma JoinGapFree(r: Request, next: Request)
    requires GapFree(r) && GapFree(next) && End(r) == next.sector
    ensures GapFree(Joined(r, next)) && End(Joined(r, next)) == End(next)
  {
    RunEnd(r.bios);
    RunEnd(next.bios);
    SizeConcat(r.bios, next.bios);
    var bs := r.bios + next.bios;
    forall i, j | 0 <= i && j == i + 1 && j < |bs| ensures BioEnd(bs[i]) == bs[j].sector {
      if j == |r.bios| {
        assert bs[i] == r.bios[|r.bios| - 1];
      }
    }
  }

  lemma AppendGapFree(r: Request, b: Bio)
    requires GapFree(r) && BioOk(b) && End(r) == b.sector
    ensures GapFree(Appended(r, b)) && End(Appended(r, b)) == BioEnd(b)
  {
    assert Size([b]) == b.size by { assert [b][1..] == []; }
    JoinGapFree(r, Request(b.sector, b.size, [b], true, false));
  }

  lemma PrependGapFree(r: Request, b: Bio)
    requires GapFree(r) && BioOk(b) && BioEnd(b) == r.sector
    ensures GapFree(Prepended(r, b)) && End(Prepended(r, b)) == End(r)
  {
    assert Size([b]) == b.size by { assert [b][1..] == []; }
    JoinGapFree(Request(b.sector, b.size, [b], true, false), r);
  }

  // -------------------------------------------------------------------- invariant

  ghost predicate ReqOk(r: Request) {
    if r.bios == [] then !r.queued else GapFree(r)
  }

  ghost predicate Findable(s: Elevator, i: nat) {
    i < |s.reqs| && s.reqs[i].queued && s.reqs[i].mergeable
  }

  ghost predicate Queued(s: Elevator, i: nat) {
    i < |s.reqs| && s.reqs[i].queued
  }

  ghost predicate Inv(s: Elevator) {
    && (forall i :: 0 <= i < |s.reqs| ==> ReqOk(s.reqs[i]))
    && NoDup(s.live)
    && (forall i :: i in s.live <==> Findable(s, i))
    && (s.last.Some? ==> Findable(s, s.last.value))
  }

  /** A lookup for the end of request i finds i, the last one filed under it. */
  ghost predicate Latest(s: Elevator, i: nat) {
    && i < |s.reqs| && (forall x :: x in s.live ==> x < |s.reqs|)
    && FirstMatch(s.reqs, s.live, End(s.reqs[i])) == Some(i)
  }

  lemma EnqueueInv(s: Elevator, i: nat)
    requires Inv(s) && i < |s.reqs| && !s.reqs[i].queued && s.reqs[i].bios != []
    ensures Inv(Enqueue(s, i))
    ensures s.reqs[i].mergeable ==> Latest(Enqueue(s, i), i)
    ensures Enqueue(s, i).last == if s.last.None? && s.reqs[i].mergeable then Some(i) else s.last
  {
    var s' := Enqueue(s, i);
    assert !Findable(s, i);
    forall k ensures k in s'.live <==> Findable(s', k) {
      assert k in s.live <==> Findable(s, k);
    }
    NoDupSnoc(s.live, i);
  }

  lemma RefuseInv(s: Elevator, i: nat)
    requires Inv(s) && i < |s.reqs|
    ensures Inv(Refuse(s, i)) && !Findable(Refuse(s, i), i)
    ensures Refuse(s, i).last == if s.last == Some(i) then None else s.last
  {
    var s' := Refuse(s, i);
    forall k ensures k in s'.live <==> Findable(s', k) {
      assert k in s.live <==> Findable(s, k);
    }
    WithoutNoDup(s.live, i);
  }

  lemma DispatchInv(s: Elevator, i: nat)
    requires Inv(s) && i < |s.reqs|
    ensures Inv(Dispatch(s, i)) && !Queued(Dispatch(s, i), i)
    ensures Dispatch(s, i).last == if s.last == Some(i) then None else s.last
  {
    var s' := Dispatch(s, i);
    forall k ensures k in s'.live <==> Findable(s', k) {
      assert k in s.live <==> Findable(s, k);
    }
    WithoutNoDup(s.live, i);
  }

  lemma BackMergeInv(s: Elevator, i: nat, b: Bio)
    requires Inv(s) && Findable(s, i) && BioOk(b) && End(s.reqs[i]) == b.sector
    ensures Inv(BackMerge(s, i, b)) && BackMerge(s, i, b).last == Some(i) && Latest(BackMerge(s, i, b), i)
  {
    var s' := BackMerge(s, i, b);
    AppendGapFree(s.reqs[i], b);
    forall k ensures k in s'.live <==> Findable(s', k) {
      assert k in s.live <==> Findable(s, k);
    }
    WithoutNoDup(s.live, i);
    NoDupSnoc(Without(s.live, i), i);
  }

  lemma FrontMergeInv(s: Elevator, i: nat, b: Bio)
    requires Inv(s) && Findable(s, i) && BioOk(b) && BioEnd(b) == s.reqs[i].sector
    ensures Inv(FrontMerge(s, i, b)) && End(FrontMerge(s, i, b).reqs[i]) == End(s.reqs[i])
    ensures FrontMerge(s, i, b).last == Some(i) && FrontMerge(s, i, b).live == s.live
  {
    var s' := FrontMerge(s, i, b);
    PrependGapFree(s.reqs[i], b);
    forall k ensures k in s'.live <==> Findable(s', k) {
      assert k in s.live <==> Findable(s, k);
    }
  }

  lemma JoinInv(s: Elevator, i: nat, j: nat)
    requires Inv(s) && Findable(s, i) && j < |s.reqs| && i != j
    requires s.reqs[j].bios != [] && End(s.reqs[i]) == s.reqs[j].sector
    ensures Inv(Join(s, i, j)) && End(Join(s, i, j).reqs[i]) == End(s.reqs[j])
    ensures Join(s, i, j).last == Some(i) && Latest(Join(s, i, j), i)
  {
    var s' := Join(s, i, j);
    JoinGapFree(s.reqs[i], s.reqs[j]);
    forall k ensures k in s'.live <==> Findable(s', k) {
      assert k in s.live <==> Findable(s, k);
    }
    WithoutNoDup(s.live, i);
    NoDupSnoc(Without(s.live, i), i);
    WithoutNoDup([i] + Without(s.live, i), j);
  }

  /** A findable request that ends where another begins is a different one. */
  lemma NotItself(s: Elevator, i: nat, j: nat)
    requires Inv(s) && i < |s.reqs| && j < |s.reqs| && s.reqs[j].bios != [] && End(s.reqs[i]) == s.reqs[j].sector
    ensures i != j
  {
    RunEnd(s.reqs[j].bios);
  }

  // ---------------------------------------------------------------------- lookups

  /** The scan of the list agrees with a scan of every queued mergeable request. */
  lemma FindsAny(s: Elevator, offset: nat)
    requires Inv(s)
    ensures FirstMatch(s.reqs, s.live, offset).Some? <==> exists i: nat :: Findable(s, i) && End(s.reqs[i]) == offset
  {
    var r := FirstMatch(s.reqs, s.live, offset);
    if r.Some? {
      assert Findable(s, r.value) && End(s.reqs[r.value]) == offset;
    }
  }

  datatype Choice = NoMerge | Back(i: nat) | Front(i: nat)

  /** blk_try_merge. */
  function TryMerge(r: Request, i: nat, b: Bio): Choice {
    if End(r) == b.sector then Back(i)
    else if r.sector - Sectors(b.size) == b.sector then Front(i)
    else NoMerge
  }

  /** elv_merge: the cache, the hash, then the scheduler's own candidate for a front merge. */
  function ElvMerge(p: Policy, s: Elevator, b: Bio, candidate: Option<nat>): Choice
    requires Inv(s)
  {
    var cached := if s.last.Some? && p.allow(s.reqs[s.last.value], b)
                  then TryMerge(s.reqs[s.last.value], s.last.value, b) else NoMerge;
    if cached != NoMerge then cached
    else
      var found := FirstMatch(s.reqs, s.live, b.sector);
      if found.Some? && p.allow(s.reqs[found.value], b) then Back(found.value)
      else if candidate.Some? then Front(candidate.value)
      else NoMerge
  }

  /** What a scheduler may answer when asked for a front merge: it looks itself whether the
      request may take the bio. */
  ghost predicate FrontCandidate(p: Policy, s: Elevator, b: Bio, candidate: Option<nat>) {
    candidate.Some? ==>
      && Findable(s, candidate.value) && s.reqs[candidate.value].sector == BioEnd(b)
      && p.allow(s.reqs[candidate.value], b)
  }

  /** Whatever is chosen may take the bio and touches it on the named side, the cached request
      comes first, and a request that ends at the bio is not overlooked when merging is allowed. */
  lemma ElvMergeRight(p: Policy, s: Elevator, b: Bio, candidate: Option<nat>)
    requires Inv(s) && FrontCandidate(p, s, b, candidate)
    ensures match ElvMerge(p, s, b, candidate)
      case Back(i) => Findable(s, i) && End(s.reqs[i]) == b.sector && p.allow(s.reqs[i], b)
      case Front(i) => Findable(s, i) && s.reqs[i].sector == BioEnd(b) && p.allow(s.reqs[i], b)
      case NoMerge =>
        && candidate.None?
        && forall i: nat :: Findable(s, i) && End(s.reqs[i]) == b.sector ==>
             exists k: nat :: Findable(s, k) && End(s.reqs[k]) == b.sector && !p.allow(s.reqs[k], b)
    ensures s.last.Some? && p.allow(s.reqs[s.last.value], b) ==>
      && (End(s.reqs[s.last.value]) == b.sector ==> ElvMerge(p, s, b, candidate) == Back(s.last.value))
      && (End(s.reqs[s.last.value]) != b.sector && s.reqs[s.last.value].sector == BioEnd(b) ==>
            ElvMerge(p, s, b, candidate) == Front(s.last.value))
  {
    var found := FirstMatch(s.reqs, s.live, b.sector);
    if found.Some? {
      assert Findable(s, found.value);
    }
  }

  // ------------------------------------------------------------------- whole requests

  /** The merging half of blk_queue_bio; neighbour is what the scheduler names as the next
      or previous request, once the bio has gone in. */
  function QueueBio(p: Policy, s: Elevator, b: Bio, candidate: Option<nat>, neighbour: Option<nat>): (Elevator, bool)
    requires Inv(s) && FrontCandidate(p, s, b, candidate) && (neighbour.Some? ==> Queued(s, neighbour.value))
  {
    ElvMergeRight(p, s, b, candidate);
    match ElvMerge(p, s, b, candidate)
    case NoMerge => (s, false)
    case Back(i) =>
      if !p.fitsBack(s.reqs[i], b) then (Refuse(s, i), false)
      else
        var s' := BackMerge(s, i, b);
        (if neighbour.Some? && neighbour.value != i then TryJoin(p, s', i, neighbour.value) else s', true)
    case Front(i) =>
      if !p.fitsFront(s.reqs[i], b) then (Refuse(s, i), false)
      else
        var s' := FrontMerge(s, i, b);
        (if neighbour.Some? && neighbour.value != i then TryJoin(p, s', neighbour.value, i) else s', true)
  }

  lemma TryJoinInv(p: Policy, s: Elevator, i: nat, j: nat)
    requires Inv(s) && Queued(s, i) && j < |s.reqs| && s.reqs[j].bios != []
    ensures Inv(TryJoin(p, s, i, j))
  {
    if CanJoin(p, s.reqs[i], s.reqs[j]) {
      NotItself(s, i, j);
      JoinInv(s, i, j);
    }
  }

  lemma QueueBioInv(p: Policy, s: Elevator, b: Bio, candidate: Option<nat>, neighbour: Option<nat>)
    requires Inv(s) && BioOk(b) && FrontCandidate(p, s, b, candidate)
    requires neighbour.Some? ==> Queued(s, neighbour.value)
    ensures Inv(QueueBio(p, s, b, candidate, neighbour).0)
  {
    hide Inv;
    ElvMergeRight(p, s, b, candidate);
    match ElvMerge(p, s, b, candidate)
    case NoMerge =>
    case Back(i) =>
      if !p.fitsBack(s.reqs[i], b) {
        RefuseInv(s, i);
      } else {
        BackMergeInv(s, i, b);
        if neighbour.Some? && neighbour.value != i {
          QueuedHasBios(s, neighbour.value);
          TryJoinInv(p, BackMerge(s, i, b), i, neighbour.value);
        }
      }
    case Front(i) =>
      if !p.fitsFront(s.reqs[i], b) {
        RefuseInv(s, i);
      } else {
        FrontMergeInv(s, i, b);
        if neighbour.Some? && neighbour.value != i {
          TryJoinInv(p, FrontMerge(s, i, b), neighbour.value, i);
        }
      }
  }

  /** When the limits and the scheduler have no objection, a bio that starts where a queued
      mergeable request ends does not become a request of its own. */
  lemma AdjacentBioMerges(p: Policy, s: Elevator, b: Bio, candidate: Option<nat>, neighbour: Option<nat>, i: nat)
    requires Inv(s) && FrontCandidate(p, s, b, candidate) && (neighbour.Some? ==> Queued(s, neighbour.value))
    requires Findable(s, i) && End(s.reqs[i]) == b.sector
    requires forall k: nat :: Findable(s, k) && End(s.reqs[k]) == b.sector ==>
      p.allow(s.reqs[k], b) && p.fitsBack(s.reqs[k], b)
    requires forall k: nat :: Findable(s, k) && s.reqs[k].sector == BioEnd(b) ==> p.fitsFront(s.reqs[k], b)
    ensures QueueBio(p, s, b, candidate, neighbour).1
  {
    ElvMergeRight(p, s, b, candidate);
  }

  lemma QueuedHasBios(s: Elevator, i: nat)
    requires Inv(s) && Queued(s, i)
    ensures s.reqs[i].bios != []
  {
  }

  function Alive(reqs: seq<Request>): nat {
    if reqs == [] then 0 else (if reqs[0].bios == [] then 0 else 1) + Alive(reqs[1..])
  }

  lemma {:induction false} AliveSet(reqs: seq<Request>, i: nat, r: Request)
    requires i < |reqs|
    ensures Alive(reqs[i := r]) ==
              Alive(reqs) - (if reqs[i].bios == [] then 0 else 1) + (if r.bios == [] then 0 else 1)
  {
    if i > 0 {
      assert reqs[i := r][1..] == reqs[1..][i - 1 := r];
      AliveSet(reqs[1..], i - 1, r);
    } else {
      assert reqs[0 := r][1..] == reqs[1..];
    }
  }

  lemma JoinAlive(s: Elevator, i: nat, j: nat)
    requires i < |s.reqs| && j < |s.reqs| && i != j && s.reqs[i].bios != [] && s.reqs[j].bios != []
    ensures Alive(Join(s, i, j).reqs) == Alive(s.reqs) - 1
  {
    var reqs := s.reqs[i := Joined(s.reqs[i], s.reqs[j])];
    AliveSet(s.reqs, i, reqs[i]);
    AliveSet(reqs, j, reqs[j].(bios := [], queued := false));
  }

  lemma JoinFound(p: Policy, s: Elevator, i: nat, j: nat)
    requires Inv(s) && i in s.live && j < |s.reqs| && s.reqs[j].bios != [] && CanJoin(p, s.reqs[i], s.reqs[j])
    ensures i != j && Inv(Join(s, i, j)) && Join(s, i, j).reqs[i].bios != []
    ensures Alive(Join(s, i, j).reqs) < Alive(s.reqs)
    ensures End(Join(s, i, j).reqs[i]) == End(s.reqs[j])
  {
    NotItself(s, i, j);
    JoinInv(s, i, j);
    QueuedHasBios(s, i);
    JoinAlive(s, i, j);
  }

  /** The loop of elv_attempt_insert_merge: the request is absorbed by the one that ends
      where it begins, that one by its own predecessor, and so on. */
  function Absorb(p: Policy, s: Elevator, cur: nat): (Elevator, nat)
    requires Inv(s) && cur < |s.reqs| && s.reqs[cur].bios != []
    decreases Alive(s.reqs)
  {
    var m := FirstMatch(s.reqs, s.live, s.reqs[cur].sector);
    if m.Some? && CanJoin(p, s.reqs[m.value], s.reqs[cur]) then
      JoinFound(p, s, m.value, cur);
      Absorb(p, Join(s, m.value, cur), m.value)
    else (s, cur)
  }

  ghost predicate Stuck(p: Policy, s: Elevator, cur: nat)
    requires Inv(s) && cur < |s.reqs|
  {
    var m := FirstMatch(s.reqs, s.live, s.reqs[cur].sector);
    m.Some? ==> !CanJoin(p, s.reqs[m.value], s.reqs[cur])
  }

  lemma LiveKnown(s: Elevator)
    requires Inv(s)
    ensures forall x :: x in s.live ==> x < |s.reqs|
  {
  }

  /** The absorbed data ends where it did; nothing found in front of it can take it. */
  lemma {:induction false} AbsorbRight(p: Policy, s: Elevator, cur: nat)
    requires Inv(s) && cur < |s.reqs| && s.reqs[cur].bios != []
    ensures var (r, c) := Absorb(p, s, cur);
      && Inv(r) && |r.reqs| == |s.reqs| && c < |r.reqs| && r.reqs[c].bios != []
      && End(r.reqs[c]) == End(s.reqs[cur]) && Stuck(p, r, c)
    decreases Alive(s.reqs)
  {
    hide Inv, Join, CanJoin, End;
    LiveKnown(s);
    var m := FirstMatch(s.reqs, s.live, s.reqs[cur].sector);
    if m.Some? && CanJoin(p, s.reqs[m.value], s.reqs[cur]) {
      JoinFound(p, s, m.value, cur);
      AbsorbRight(p, Join(s, m.value, cur), m.value);
    }
  }

  /** elv_attempt_insert_merge: the cache first, then the loop.  True if n was absorbed. */
  function InsertMerge(p: Policy, s: Elevator, n: nat): (Elevator, bool)
    requires Inv(s) && n < |s.reqs| && s.reqs[n].bios != []
  {
    var m := FirstMatch(s.reqs, s.live, s.reqs[n].sector);
    if s.last.Some? && CanJoin(p, s.reqs[s.last.value], s.reqs[n]) then (Join(s, s.last.value, n), true)
    else if m.Some? && CanJoin(p, s.reqs[m.value], s.reqs[n]) then (Absorb(p, s, n).0, true)
    else (s, false)
  }

  /** __elv_add_request for a new request, with ELEVATOR_INSERT_SORT_MERGE. */
  function AddSortMerge(p: Policy, s: Elevator, r: Request): Elevator
    requires Inv(s) && GapFree(r)
  {
    AllocateInv(s, r);
    var (s', merged) := InsertMerge(p, Allocate(s, r), |s.reqs|);
    if merged then s' else Enqueue(Allocate(s, r), |s.reqs|)
  }

  lemma AllocateInv(s: Elevator, r: Request)
    requires Inv(s) && GapFree(r)
    ensures Inv(Allocate(s, r)) && Allocate(s, r).reqs[|s.reqs|].bios == r.bios
  {
    var s' := Allocate(s, r);
    forall k ensures k in s'.live <==> Findable(s', k) {
      assert k in s.live <==> Findable(s, k);
    }
  }

  lemma InsertMergeInv(p: Policy, s: Elevator, n: nat)
    requires Inv(s) && n < |s.reqs| && s.reqs[n].bios != []
    ensures var (r, merged) := InsertMerge(p, s, n); Inv(r) && |r.reqs| == |s.reqs| && (!merged ==> r == s)
  {
    hide Join, CanJoin, Absorb;
    if s.last.Some? && CanJoin(p, s.reqs[s.last.value], s.reqs[n]) {
      JoinFound(p, s, s.last.value, n);
    } else {
      AbsorbRight(p, s, n);
    }
  }

  lemma AddSortMergeInv(p: Policy, s: Elevator, r: Request)
    requires Inv(s) && GapFree(r)
    ensures Inv(AddSortMerge(p, s, r))
  {
    hide InsertMerge, Enqueue;
    AllocateInv(s, r);
    InsertMergeInv(p, Allocate(s, r), |s.reqs|);
    EnqueueInv(Allocate(s, r), |s.reqs|);
  }

  // -------------------------------------------------------- no bio is lost or doubled

  /** How often bio x is held by the requests. */
  function Held(reqs: seq<Request>, x: Bio): nat {
    if reqs == [] then 0 else multiset(reqs[0].bios)[x] + Held(reqs[1..], x)
  }

  lemma {:induction false} HeldSet(reqs: seq<Request>, i: nat, r: Request, x: Bio)
    requires i < |reqs|
    ensures Held(reqs[i := r], x) + multiset(reqs[i].bios)[x] == Held(reqs, x) + multiset(r.bios)[x]
  {
    if i > 0 {
      assert reqs[i := r][1..] == reqs[1..][i - 1 := r];
      HeldSet(reqs[1..], i - 1, r, x);
    } else {
      assert reqs[0 := r][1..] == reqs[1..];
    }
  }

  lemma {:induction false} HeldSnoc(reqs: seq<Request>, r: Request, x: Bio)
    ensures Held(reqs + [r], x) == Held(reqs, x) + multiset(r.bios)[x]
  {
    if reqs == [] {
      assert [r][1..] == [];
    } else {
      assert (reqs + [r])[1..] == reqs[1..] + [r];
      HeldSnoc(reqs[1..], r, x);
    }
  }

  lemma JoinKeepsBios(s: Elevator, i: nat, j: nat, x: Bio)
    requires i < |s.reqs| && j < |s.reqs| && i != j
    ensures Held(Join(s, i, j).reqs, x) == Held(s.reqs, x)
  {
    var r := Joined(s.reqs[i], s.reqs[j]);
    var reqs := s.reqs[i := r];
    assert multiset(r.bios) == multiset(s.reqs[i].bios) + multiset(s.reqs[j].bios);
    HeldSet(s.reqs, i, r, x);
    HeldSet(reqs, j, reqs[j].(bios := [], queued := false), x);
  }

  lemma {:induction false} AbsorbKeepsBios(p: Policy, s: Elevator, cur: nat, x: Bio)
    requires Inv(s) && cur < |s.reqs| && s.reqs[cur].bios != []
    ensures Held(Absorb(p, s, cur).0.reqs, x) == Held(s.reqs, x)
    decreases Alive(s.reqs)
  {
    hide Inv, Join, CanJoin, End, Held;
    LiveKnown(s);
    var m := FirstMatch(s.reqs, s.live, s.reqs[cur].sector);
    if m.Some? && CanJoin(p, s.reqs[m.value], s.reqs[cur]) {
      JoinFound(p, s, m.value, cur);
      JoinKeepsBios(s, m.value, cur, x);
      AbsorbKeepsBios(p, Join(s, m.value, cur), m.value, x);
    }
  }

  lemma SameBios(reqs: seq<Request>, i: nat, r: Request, x: Bio)
    requires i < |reqs| && r.bios == reqs[i].bios
    ensures Held(reqs[i := r], x) == Held(reqs, x)
  {
    HeldSet(reqs, i, r, x);
  }

  lemma InsertMergeBios(p: Policy, s: Elevator, n: nat, x: Bio)
    requires Inv(s) && n < |s.reqs| && s.reqs[n].bios != []
    ensures Held(InsertMerge(p, s, n).0.reqs, x) == Held(s.reqs, x)
  {
    hide Join, CanJoin, Held, Absorb;
    if s.last.Some? && CanJoin(p, s.reqs[s.last.value], s.reqs[n]) {
      JoinFound(p, s, s.last.value, n);
      JoinKeepsBios(s, s.last.value, n, x);
    } else {
      AbsorbKeepsBios(p, s, n, x);
    }
  }

  lemma AddSortMergeBios(p: Policy, s: Elevator, r: Request, x: Bio)
    requires Inv(s) && GapFree(r)
    ensures Held(AddSortMerge(p, s, r).reqs, x) == Held(s.reqs, x) + multiset(r.bios)[x]
  {
    hide InsertMerge, Held;
    var s', n := Allocate(s, r), |s.reqs|;
    AllocateInv(s, r);
    HeldSnoc(s.reqs, r.(queued := false), x);
    InsertMergeInv(p, s', n);
    InsertMergeBios(p, s', n, x);
    SameBios(s'.reqs, n, s'.reqs[n].(queued := true), x);
  }

  lemma OneMore(reqs: seq<Request>, i: nat, r: Request, b: Bio, x: Bio)
    requires i < |reqs| && (r.bios == reqs[i].bios + [b] || r.bios == [b] + reqs[i].bios)
    ensures Held(reqs[i := r], x) == Held(reqs, x) + multiset{b}[x]
  {
    assert multiset(r.bios) == multiset(reqs[i].bios) + multiset{b};
    HeldSet(reqs, i, r, x);
  }

  lemma TryJoinBios(p: Policy, s: Elevator, i: nat, j: nat, x: Bio)
    requires i < |s.reqs| && j < |s.reqs| && i != j
    ensures Held(TryJoin(p, s, i, j).reqs, x) == Held(s.reqs, x)
  {
    JoinKeepsBios(s, i, j, x);
  }

  lemma QueueBioBios(p: Policy, s: Elevator, b: Bio, candidate: Option<nat>, neighbour: Option<nat>, x: Bio)
    requires Inv(s) && FrontCandidate(p, s, b, candidate)
    requires neighbour.Some? ==> Queued(s, neighbour.value)
    ensures var (s', merged) := QueueBio(p, s, b, candidate, neighbour);
      Held(s'.reqs, x) == Held(s.reqs, x) + if merged then multiset{b}[x] else 0
  {
    hide Held, TryJoin;
    ElvMergeRight(p, s, b, candidate);
    match ElvMerge(p, s, b, candidate)
    case NoMerge =>
    case Back(i) =>
      SameBios(s.reqs, i, s.reqs[i].(mergeable := false), x);
      OneMore(s.reqs, i, Appended(s.reqs[i], b), b, x);
      if neighbour.Some? && neighbour.value != i { TryJoinBios(p, BackMerge(s, i, b), i, neighbour.value, x); }
    case Front(i) =>
      SameBios(s.reqs, i, s.reqs[i].(mergeable := false), x);
      OneMore(s.reqs, i, Prepended(s.reqs[i], b), b, x);
      if neighbour.Some? && neighbour.value != i { TryJoinBios(p, FrontMerge(s, i, b), neighbour.value, i, x); }
  }

  // -------------------------------------------------------------------------- runs

  datatype Step =
    | Add(r: Request)
    | Submit(b: Bio, candidate: Option<nat>, neighbour: Option<nat>)
    | Send(i: nat)

  ghost predicate Enabled(p: Policy, s: Elevator, t: Step) {
    match t
    case Add(r) => GapFree(r)
    case Submit(b, candidate, neighbour) =>
      BioOk(b) && FrontCandidate(p, s, b, candidate) && (neighbour.Some? ==> Queued(s, neighbour.value))
    case Send(i) => Queued(s, i)
  }

  /** The new state and the bios taken in. */
  ghost function Next(p: Policy, s: Elevator, t: Step): (Elevator, multiset<Bio>)
    requires Inv(s) && Enabled(p, s, t)
  {
    match t
    case Add(r) => (AddSortMerge(p, s, r), multiset(r.bios))
    case Submit(b, candidate, neighbour) =>
      var (s', merged) := QueueBio(p, s, b, candidate, neighbour);
      (s', if merged then multiset{b} else multiset{})
    case Send(i) => (Dispatch(s, i), multiset{})
  }

  lemma NextInv(p: Policy, s: Elevator, t: Step)
    requires Inv(s) && Enabled(p, s, t)
    ensures Inv(Next(p, s, t).0)
  {
    hide Inv, AddSortMerge, QueueBio;
    match t
    case Add(r) => AddSortMergeInv(p, s, r);
    case Submit(b, candidate, neighbour) => QueueBioInv(p, s, b, candidate, neighbour);
    case Send(i) => DispatchInv(s, i);
  }

  lemma NextBios(p: Policy, s: Elevator, t: Step, x: Bio)
    requires Inv(s) && Enabled(p, s, t)
    ensures var (s', came) := Next(p, s, t); Held(s'.reqs, x) == Held(s.reqs, x) + came[x]
  {
    hide Held, Inv, AddSortMerge, QueueBio;
    match t
    case Add(r) => AddSortMergeBios(p, s, r, x);
    case Submit(b, candidate, neighbour) => QueueBioBios(p, s, b, candidate, neighbour, x);
    case Send(i) => SameBios(s.reqs, i, s.reqs[i].(queued := false), x);
  }

  ghost predicate Legal(p: Policy, s: Elevator, steps: seq<Step>)
    requires Inv(s)
    decreases |steps|
  {
    steps == [] || (Enabled(p, s, steps[0]) && (NextInv(p, s, steps[0]); Legal(p, Next(p, s, steps[0]).0, steps[1..])))
  }

  ghost function Exec(p: Policy, s: Elevator, steps: seq<Step>): (r: (Elevator, multiset<Bio>))
    requires Inv(s) && Legal(p, s, steps)
    ensures Inv(r.0)
    decreases |steps|
  {
    if steps == [] then (s, multiset{})
    else
      NextInv(p, s, steps[0]);
      var (s', came) := Next(p, s, steps[0]);
      var (r, rest) := Exec(p, s', steps[1..]);
      (r, came + rest)
  }

  lemma {:induction false} ExecBios(p: Policy, s: Elevator, steps: seq<Step>, x: Bio)
    requires Inv(s) && Legal(p, s, steps)
    ensures var (r, came) := Exec(p, s, steps); Held(r.reqs, x) == Held(s.reqs, x) + came[x]
    decreases |steps|
  {
    hide Next, Held, Enabled, Inv;
    if steps != [] {
      NextInv(p, s, steps[0]);
      NextBios(p, s, steps[0], x);
      ExecBios(p, Next(p, s, steps[0]).0, steps[1..], x);
    }
  }

  const IDLE := Elevator([], [], None)

  /** Through any submissions, merges, insertions and dispatches, every request with data is a
      gap-free ascending run whose sizes add up, the bios held are exactly those taken in, and
      a lookup succeeds exactly when some queued mergeable request ends there. */
  lemma MergingKeepsRuns(p: Policy, steps: seq<Step>, i: nat, offset: nat, x: Bio)
    requires Legal(p, IDLE, steps)
    ensures var (s, came) := Exec(p, IDLE, steps);
      && Held(s.reqs, x) == came[x]
      && (i < |s.reqs| && s.reqs[i].bios != [] ==> GapFree(s.reqs[i]))
      && (FirstMatch(s.reqs, s.live, offset).Some? <==>
          exists k: nat :: Findable(s, k) && End(s.reqs[k]) == offset)
  {
    ExecBios(p, IDLE, steps, x);
    FindsAny(Exec(p, IDLE, steps).0, offset);
  }
}
