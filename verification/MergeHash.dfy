/**
 The merge hash itself: 64 chains of requests, each filed under the sector after its end.
 Requests that have become unmergeable stay on their chain until a lookup walks past them.
 Unlinking takes a request off whatever chain it is on, so between a back merge and the
 repositioning that follows it the request is filed under its old end.
 */
module MergeHash {
  import opened Lists
  import opened Merging
  import opened Options

  const BUCKETS: nat := 64

  function Bucket(hash: nat -> nat, r: Request): nat {
    hash(End(r)) % BUCKETS
  }

  /** The part of the filing order that belongs on chain b. */
  function InBucket(hash: nat -> nat, reqs: seq<Request>, filed: seq<nat>, b: nat): (r: seq<nat>)
    ensures forall x :: x in r <==> x in filed && x < |reqs| && Bucket(hash, reqs[x]) == b
    ensures NoDup(filed) ==> NoDup(r)
  {
    if filed == [] then []
    else
      var rest := InBucket(hash, reqs, filed[1..], b);
      if filed[0] < |reqs| && Bucket(hash, reqs[filed[0]]) == b then [filed[0]] + rest else rest
  }

  /** The requests on the hash that can be found. */
  function Live(reqs: seq<Request>, filed: seq<nat>): (r: seq<nat>)
    ensures forall x :: x in r <==> x in filed && x < |reqs| && reqs[x].mergeable
  {
    if filed == [] then []
    else if filed[0] < |reqs| && reqs[filed[0]].mergeable then [filed[0]] + Live(reqs, filed[1..])
    else Live(reqs, filed[1..])
  }

  ghost predicate Table(hash: nat -> nat, chains: seq<seq<nat>>, reqs: seq<Request>, filed: seq<nat>) {
    && |chains| == BUCKETS && NoDup(filed)
    && (forall b :: 0 <= b < BUCKETS ==> chains[b] == InBucket(hash, reqs, filed, b))
    && (forall x :: x in filed ==> x < |reqs|)
  }

  function Unlinked(chains: seq<seq<nat>>, i: nat): (r: seq<seq<nat>>)
    ensures |r| == |chains| && forall b :: 0 <= b < |r| ==> r[b] == Without(chains[b], i)
  {
    seq(|chains|, b requires 0 <= b < |chains| => Without(chains[b], i))
  }

  function Linked(hash: nat -> nat, chains: seq<seq<nat>>, r: Request, i: nat): seq<seq<nat>>
    requires |chains| == BUCKETS
  {
    chains[Bucket(hash, r) := [i] + chains[Bucket(hash, r)]]
  }

  /** Everything but i is filed where it belongs. */
  ghost predicate TableBut(hash: nat -> nat, chains: seq<seq<nat>>, reqs: seq<Request>, filed: seq<nat>, i: nat) {
    NoDup(filed) && Table(hash, Unlinked(chains, i), reqs, Without(filed, i))
  }

  lemma {:induction false} InBucketWithout(hash: nat -> nat, reqs: seq<Request>, filed: seq<nat>, b: nat, i: nat)
    ensures InBucket(hash, reqs, Without(filed, i), b) == Without(InBucket(hash, reqs, filed, b), i)
  {
    if filed != [] {
      InBucketWithout(hash, reqs, filed[1..], b, i);
      var rest := InBucket(hash, reqs, filed[1..], b);
      var w := Without(filed[1..], i);
      assert ([filed[0]] + w)[1..] == w;
      assert ([filed[0]] + rest)[1..] == rest;
    }
  }

  lemma {:induction false} InBucketSame(hash: nat -> nat, reqs: seq<Request>, reqs': seq<Request>,
                                        filed: seq<nat>, b: nat)
    requires forall x :: x in filed ==> x < |reqs| && x < |reqs'| && End(reqs'[x]) == End(reqs[x])
    ensures InBucket(hash, reqs', filed, b) == InBucket(hash, reqs, filed, b)
  {
    if filed != [] {
      assert filed[0] in filed && forall x :: x in filed[1..] ==> x in filed;
      InBucketSame(hash, reqs, reqs', filed[1..], b);
    }
  }

  lemma {:induction false} LiveWithout(reqs: seq<Request>, filed: seq<nat>, i: nat)
    ensures Live(reqs, Without(filed, i)) == Without(Live(reqs, filed), i)
  {
    if filed != [] {
      LiveWithout(reqs, filed[1..], i);
      var w, rest := Without(filed[1..], i), Live(reqs, filed[1..]);
      assert ([filed[0]] + w)[1..] == w;
      assert ([filed[0]] + rest)[1..] == rest;
    }
  }

  lemma {:induction false} LiveSame(reqs: seq<Request>, reqs': seq<Request>, filed: seq<nat>)
    requires forall x :: x in filed ==> x < |reqs| && x < |reqs'| && reqs'[x].mergeable == reqs[x].mergeable
    ensures Live(reqs', filed) == Live(reqs, filed)
  {
    if filed != [] {
      assert filed[0] in filed && forall x :: x in filed[1..] ==> x in filed;
      LiveSame(reqs, reqs', filed[1..]);
    }
  }

  lemma UnlinkTable(hash: nat -> nat, chains: seq<seq<nat>>, reqs: seq<Request>, filed: seq<nat>, i: nat)
    requires Table(hash, chains, reqs, filed)
    ensures Table(hash, Unlinked(chains, i), reqs, Without(filed, i))
  {
    WithoutNoDup(filed, i);
    forall b | 0 <= b < BUCKETS ensures Unlinked(chains, i)[b] == InBucket(hash, reqs, Without(filed, i), b) {
      InBucketWithout(hash, reqs, filed, b, i);
    }
  }

  lemma LinkTable(hash: nat -> nat, chains: seq<seq<nat>>, reqs: seq<Request>, filed: seq<nat>, i: nat)
    requires Table(hash, chains, reqs, filed) && i < |reqs| && i !in filed
    ensures Table(hash, Linked(hash, chains, reqs[i], i), reqs, [i] + filed)
  {
    assert ([i] + filed)[1..] == filed;
    NoDupSnoc(filed, i);
  }

  /** A request that is not filed may change at will, others as long as they end where they did. */
  lemma TableSame(hash: nat -> nat, chains: seq<seq<nat>>, reqs: seq<Request>, reqs': seq<Request>, filed: seq<nat>)
    requires Table(hash, chains, reqs, filed)
    requires forall x :: x in filed ==> x < |reqs'| && End(reqs'[x]) == End(reqs[x])
    ensures Table(hash, chains, reqs', filed)
  {
    forall b | 0 <= b < BUCKETS ensures chains[b] == InBucket(hash, reqs', filed, b) {
      InBucketSame(hash, reqs, reqs', filed, b);
    }
  }

  /** The chain of offset holds, in filing order, everything a scan could return. */
  lemma {:induction false} ChainScan(hash: nat -> nat, reqs: seq<Request>, filed: seq<nat>, offset: nat)
    requires forall x :: x in filed ==> x < |reqs|
    ensures var chain := InBucket(hash, reqs, filed, hash(offset) % BUCKETS);
      && (forall x :: x in Live(reqs, chain) ==> x < |reqs|) && (forall x :: x in Live(reqs, filed) ==> x < |reqs|)
      && FirstMatch(reqs, Live(reqs, chain), offset) == FirstMatch(reqs, Live(reqs, filed), offset)
  {
    var b := hash(offset) % BUCKETS;
    var chain := InBucket(hash, reqs, filed, b);
    if filed != [] {
      assert filed[0] in filed && forall x :: x in filed[1..] ==> x in filed;
      ChainScan(hash, reqs, filed[1..], offset);
      var rest := InBucket(hash, reqs, filed[1..], b);
      assert ([filed[0]] + rest)[1..] == rest;
    }
  }

  /** A lookup in progress: the first k requests of the chain cannot be the answer. */
  ghost predicate Walking(hash: nat -> nat, chains: seq<seq<nat>>, filed: seq<nat>, s: Elevator,
                          chain: seq<nat>, k: nat, offset: nat)
  {
    && Table(hash, chains, s.reqs, filed) && (forall x :: x in filed ==> Queued(s, x))
    && Live(s.reqs, filed) == s.live
    && k <= |chain| && NoDup(chain) && (forall j :: k <= j < |chain| ==> chain[j] in filed)
    && (forall x :: x in chain ==> x < |s.reqs|)
    && FirstMatch(s.reqs, Live(s.reqs, chain[k..]), offset) == FirstMatch(s.reqs, s.live, offset)
  }

  lemma WalkStart(hash: nat -> nat, chains: seq<seq<nat>>, filed: seq<nat>, s: Elevator, offset: nat)
    requires Table(hash, chains, s.reqs, filed) && Live(s.reqs, filed) == s.live
    requires forall x :: x in filed ==> Queued(s, x)
    ensures Walking(hash, chains, filed, s, chains[hash(offset) % BUCKETS], 0, offset)
  {
    var chain := chains[hash(offset) % BUCKETS];
    ChainScan(hash, s.reqs, filed, offset);
    assert chain[0..] == chain;
  }

  lemma WalkAt(hash: nat -> nat, chains: seq<seq<nat>>, filed: seq<nat>, s: Elevator,
               chain: seq<nat>, k: nat, offset: nat)
    requires Walking(hash, chains, filed, s, chain, k, offset) && k < |chain|
    ensures chain[k] < |s.reqs| && chain[k] in filed
    ensures var r := s.reqs[chain[k]];
      if r.mergeable && End(r) == offset then FirstMatch(s.reqs, s.live, offset) == Some(chain[k])
      else FirstMatch(s.reqs, Live(s.reqs, chain[k + 1..]), offset) == FirstMatch(s.reqs, s.live, offset)
  {
    assert chain[k] in chain;
    assert chain[k..][1..] == chain[k + 1..];
    var rest := Live(s.reqs, chain[k + 1..]);
    assert ([chain[k]] + rest)[1..] == rest;
  }

  /** An unmergeable request is unlinked on the way. */
  lemma WalkDrop(hash: nat -> nat, chains: seq<seq<nat>>, filed: seq<nat>, s: Elevator,
                 chain: seq<nat>, k: nat, offset: nat)
    requires Walking(hash, chains, filed, s, chain, k, offset) && k < |chain|
    requires chain[k] < |s.reqs| && !s.reqs[chain[k]].mergeable
    ensures Walking(hash, Unlinked(chains, chain[k]), Without(filed, chain[k]), s, chain, k + 1, offset)
  {
    hide FirstMatch, InBucket, Live;
    WalkAt(hash, chains, filed, s, chain, k, offset);
    UnlinkTable(hash, chains, s.reqs, filed, chain[k]);
    LiveWithout(s.reqs, filed, chain[k]);
  }

  lemma WalkPast(hash: nat -> nat, chains: seq<seq<nat>>, filed: seq<nat>, s: Elevator,
                 chain: seq<nat>, k: nat, offset: nat)
    requires Walking(hash, chains, filed, s, chain, k, offset) && k < |chain|
    requires chain[k] < |s.reqs| && End(s.reqs[chain[k]]) != offset
    ensures Walking(hash, chains, filed, s, chain, k + 1, offset)
  {
    hide FirstMatch, InBucket, Live;
    WalkAt(hash, chains, filed, s, chain, k, offset);
  }

  lemma Walked(hash: nat -> nat, chains: seq<seq<nat>>, filed: seq<nat>, s: Elevator,
               chain: seq<nat>, k: nat, offset: nat)
    requires Walking(hash, chains, filed, s, chain, k, offset)
    ensures Table(hash, chains, s.reqs, filed) && (forall x :: x in filed ==> Queued(s, x))
    ensures Live(s.reqs, filed) == s.live
  {
  }

  lemma WalkEnd(hash: nat -> nat, chains: seq<seq<nat>>, filed: seq<nat>, s: Elevator, chain: seq<nat>, offset: nat)
    requires Walking(hash, chains, filed, s, chain, |chain|, offset)
    ensures FirstMatch(s.reqs, s.live, offset) == None
  {
    assert chain[|chain|..] == [];
  }

  // ------------------------------------------------------------- effects on the view

  /** Marking a request unmergeable takes it out of sight at once. */
  lemma {:induction false} LiveRefused(reqs: seq<Request>, filed: seq<nat>, i: nat)
    requires i < |reqs|
    ensures Live(reqs[i := reqs[i].(mergeable := false)], filed) == Without(Live(reqs, filed), i)
  {
    if filed != [] {
      LiveRefused(reqs, filed[1..], i);
      var rest := Live(reqs, filed[1..]);
      assert ([filed[0]] + rest)[1..] == rest;
    }
  }

  lemma LiveCons(reqs: seq<Request>, filed: seq<nat>, i: nat)
    requires i < |reqs| && reqs[i].mergeable
    ensures Live(reqs, [i] + filed) == [i] + Live(reqs, filed)
  {
    assert ([i] + filed)[1..] == filed;
  }

  lemma LiveReposition(reqs: seq<Request>, reqs': seq<Request>, filed: seq<nat>, i: nat)
    requires i < |reqs| == |reqs'| && reqs[i].mergeable
    requires forall x :: 0 <= x < |reqs| ==> reqs'[x].mergeable == reqs[x].mergeable
    requires forall x :: x in filed ==> x < |reqs|
    ensures Live(reqs', [i] + Without(filed, i)) == [i] + Without(Live(reqs, filed), i)
  {
    LiveSame(reqs, reqs', filed);
    LiveWithout(reqs', filed, i);
    LiveCons(reqs', Without(filed, i), i);
  }

  lemma WithoutTwice(s: seq<nat>, i: nat)
    ensures Without([i] + Without(s, i), i) == Without(s, i)
  {
    assert ([i] + Without(s, i))[1..] == Without(s, i);
  }

  lemma TableButSame(hash: nat -> nat, chains: seq<seq<nat>>, reqs: seq<Request>, filed: seq<nat>, i: nat, r: Request)
    requires TableBut(hash, chains, reqs, filed, i) && i < |reqs|
    ensures TableBut(hash, chains, reqs[i := r], filed, i)
  {
    hide Unlinked, InBucket;
    TableSame(hash, Unlinked(chains, i), reqs, reqs[i := r], Without(filed, i));
  }

  lemma LiveJoined(reqs: seq<Request>, reqs': seq<Request>, filed: seq<nat>, i: nat, j: nat)
    requires i < |reqs| == |reqs'| && reqs[i].mergeable
    requires forall x :: 0 <= x < |reqs| ==> reqs'[x].mergeable == reqs[x].mergeable
    requires forall x :: x in filed ==> x < |reqs|
    ensures Live(reqs', Without([i] + Without(filed, i), j)) == Without([i] + Without(Live(reqs, filed), i), j)
  {
    LiveReposition(reqs, reqs', filed, i);
    LiveWithout(reqs', [i] + Without(filed, i), j);
  }

  /** Once a bio has been appended, only the request itself is filed wrongly. */
  lemma AppendTransient(s: Elevator, hash: nat -> nat, chains: seq<seq<nat>>, filed: seq<nat>, i: nat, b: Bio)
    requires Inv(s) && Findable(s, i) && BioOk(b) && End(s.reqs[i]) == b.sector
    requires Table(hash, chains, s.reqs, filed)
    ensures var reqs := s.reqs[i := Appended(s.reqs[i], b)];
      TableBut(hash, chains, reqs, filed, i) && Inv(s.(reqs := reqs))
  {
    hide InBucket, Unlinked, GapFree;
    TableButHolds(hash, chains, s.reqs, filed, i);
    TableButSame(hash, chains, s.reqs, filed, i, Appended(s.reqs[i], b));
    AppendGapFree(s.reqs[i], b);
    var s' := s.(reqs := s.reqs[i := Appended(s.reqs[i], b)]);
    forall k ensures k in s'.live <==> Findable(s', k) {
      assert k in s.live <==> Findable(s, k);
    }
  }

  lemma TableButHolds(hash: nat -> nat, chains: seq<seq<nat>>, reqs: seq<Request>, filed: seq<nat>, i: nat)
    requires Table(hash, chains, reqs, filed)
    ensures TableBut(hash, chains, reqs, filed, i)
  {
    UnlinkTable(hash, chains, reqs, filed, i);
  }

  // ---------------------------------------------------------------------- in place

  class MergeQueue {
    const policy: Policy
    const hash: nat -> nat
    var reqs: seq<Request>
    var chains: seq<seq<nat>>
    var last: Option<nat>
    /** The requests on the hash, most recently filed first. */
    ghost var filed: seq<nat>

    ghost function View(): Elevator
      reads this
    {
      Elevator(reqs, Live(reqs, filed), last)
    }

    ghost predicate Valid()
      reads this
    {
      && Inv(View()) && Table(hash, chains, reqs, filed)
      && (forall x :: x in filed ==> Queued(View(), x))
    }

    constructor (policy: Policy, hash: nat -> nat)
      ensures Valid() && View() == IDLE
    {
      this.policy, this.hash := policy, hash;
      reqs, chains, last, filed := [], seq(BUCKETS, _ => []), None, [];
    }

    method HashDel(i: nat)
      modifies this`chains, this`filed
      ensures chains == Unlinked(old(chains), i) && filed == Without(old(filed), i)
    {
      chains := Unlinked(chains, i);
      filed := Without(filed, i);
    }

    method HashAdd(i: nat)
      requires i < |reqs| && i !in filed && Table(hash, chains, reqs, filed)
      modifies this`chains, this`filed
      ensures filed == [i] + old(filed) && Table(hash, chains, reqs, filed)
    {
      LinkTable(hash, chains, reqs, filed, i);
      var b := Bucket(hash, reqs[i]);
      chains := chains[b := [i] + chains[b]];
      filed := [i] + filed;
    }

    method Reposition(i: nat)
      requires i < |reqs| && TableBut(hash, chains, reqs, filed, i)
      modifies this`chains, this`filed
      ensures filed == [i] + Without(old(filed), i) && Table(hash, chains, reqs, filed)
    {
      HashDel(i);
      HashAdd(i);
    }

    /** Walks one chain, dropping the unmergeable requests it meets. */
    method Find(offset: nat) returns (r: Option<nat>)
      requires Valid()
      modifies this`chains, this`filed
      ensures Valid() && View() == old(View())
      ensures r == FirstMatch(reqs, View().live, offset)
    {
      hide Walking, InBucket, Live, FirstMatch;
      ghost var s := View();
      var chain := chains[hash(offset) % BUCKETS];
      WalkStart(hash, chains, filed, s, offset);
      var k := 0;
      while k < |chain|
        invariant k <= |chain| && Walking(hash, chains, filed, s, chain, k, offset)
      {
        WalkAt(hash, chains, filed, s, chain, k, offset);
        var i := chain[k];
        assert i in filed;
        if !reqs[i].mergeable {
          WalkDrop(hash, chains, filed, s, chain, k, offset);
          HashDel(i);
        } else if End(reqs[i]) == offset {
          Walked(hash, chains, filed, s, chain, k, offset);
          return Some(i);
        } else {
          WalkPast(hash, chains, filed, s, chain, k, offset);
        }
        k := k + 1;
      }
      WalkEnd(hash, chains, filed, s, chain, offset);
      Walked(hash, chains, filed, s, chain, k, offset);
      r := None;
    }

    /** elv_merge_requests: i is filed under its new end, j goes. */
    method MergedRequests(i: nat, j: nat)
      requires i < |reqs| && j < |reqs| && i != j && TableBut(hash, chains, reqs, filed, i)
      requires j in filed ==> reqs[j].queued
      modifies this`chains, this`filed, this`last
      ensures Table(hash, chains, reqs, filed) && last == Some(i)
      ensures filed == Without([i] + Without(old(filed), i), j)
    {
      hide InBucket, Unlinked;
      Reposition(i);
      UnlinkTable(hash, chains, reqs, filed, j);
      if reqs[j].queued { HashDel(j); }
      last := Some(i);
    }

    /** attempt_merge; i may still be filed under an end it no longer has. */
    method AttemptMerge(i: nat, j: nat) returns (ok: bool)
      requires Inv(View()) && (forall x :: x in filed ==> Queued(View(), x))
      requires Queued(View(), i) && j < |reqs| && reqs[j].bios != []
      requires TableBut(hash, chains, reqs, filed, i)
      modifies this
      ensures ok == CanJoin(policy, old(reqs[i]), old(reqs[j]))
      ensures if ok then Valid() && View() == Join(old(View()), i, j) else unchanged(this)
    {
      hide InBucket, Unlinked, Live, NoDup;
      ok := CanJoin(policy, reqs[i], reqs[j]);
      if ok {
        ghost var s, filed0 := View(), filed;
        NotItself(s, i, j);
        JoinInv(s, i, j);
        var next := reqs[j];
        TableButSame(hash, chains, reqs, filed, i, Joined(reqs[i], next));
        reqs := reqs[i := Joined(reqs[i], next)];
        MergedRequests(i, j);
        TableSame(hash, chains, reqs, reqs[j := next.(bios := [], queued := false)], filed);
        reqs := reqs[j := next.(bios := [], queued := false)];
        LiveJoined(s.reqs, reqs, filed0, i, j);
      }
    }

    /** elv_merged_request. */
    method MergedRequest(i: nat, back: bool)
      requires i < |reqs| && if back then TableBut(hash, chains, reqs, filed, i) else Table(hash, chains, reqs, filed)
      modifies this`chains, this`filed, this`last
      ensures Table(hash, chains, reqs, filed) && last == Some(i)
      ensures filed == if back then [i] + Without(old(filed), i) else old(filed)
    {
      if back { Reposition(i); }
      last := Some(i);
    }

    /** The end of ll_back_merge_fn and ll_front_merge_fn when a limit is exceeded. */
    method Refuse(i: nat)
      requires Valid() && i < |reqs|
      modifies this`reqs, this`last
      ensures Valid() && View() == Merging.Refuse(old(View()), i)
    {
      hide InBucket, Live;
      RefuseInv(View(), i);
      LiveRefused(reqs, filed, i);
      TableSame(hash, chains, reqs, reqs[i := reqs[i].(mergeable := false)], filed);
      reqs := reqs[i := reqs[i].(mergeable := false)];
      if last == Some(i) { last := None; }
    }

    method ElvMerge(b: Bio, candidate: Option<nat>) returns (c: Choice)
      requires Valid() && FrontCandidate(policy, View(), b, candidate)
      modifies this`chains, this`filed
      ensures Valid() && View() == old(View()) && c == Merging.ElvMerge(policy, View(), b, candidate)
    {
      hide FirstMatch, Live, InBucket;
      if last.Some? && policy.allow(reqs[last.value], b) {
        c := TryMerge(reqs[last.value], last.value, b);
        if c != NoMerge { return; }
      }
      var found := Find(b.sector);
      if found.Some? && policy.allow(reqs[found.value], b) {
        c := Back(found.value);
      } else if candidate.Some? {
        c := Front(candidate.value);
      } else {
        c := NoMerge;
      }
    }

    /** A bio that fits goes in at the back; the request may then absorb its successor. */
    method BackMergeBio(i: nat, b: Bio, neighbour: Option<nat>)
      requires Valid() && Findable(View(), i) && BioOk(b) && End(reqs[i]) == b.sector
      requires neighbour.Some? ==> Queued(View(), neighbour.value)
      modifies this
      ensures Valid()
      ensures var s := Merging.BackMerge(old(View()), i, b);
        View() == if neighbour.Some? && neighbour.value != i then TryJoin(policy, s, i, neighbour.value) else s
    {
      hide InBucket, Live, Unlinked, NoDup;
      ghost var s, filed0 := View(), filed;
      BackMergeInv(s, i, b);
      AppendTransient(s, hash, chains, filed, i, b);
      LiveReposition(reqs, reqs[i := Appended(reqs[i], b)], filed, i);
      LiveSame(reqs, reqs[i := Appended(reqs[i], b)], filed);
      reqs := reqs[i := Appended(reqs[i], b)];
      var joined := false;
      if neighbour.Some? && neighbour.value != i {
        QueuedHasBios(s, neighbour.value);
        joined := AttemptMerge(i, neighbour.value);
        WithoutTwice(s.live, i);
      }
      if !joined { MergedRequest(i, true); }
    }

    /** A bio that fits goes in at the front; the predecessor may then absorb the request. */
    method FrontMergeBio(i: nat, b: Bio, neighbour: Option<nat>)
      requires Valid() && Findable(View(), i) && BioOk(b) && BioEnd(b) == reqs[i].sector
      requires neighbour.Some? ==> Queued(View(), neighbour.value)
      modifies this
      ensures Valid()
      ensures var s := Merging.FrontMerge(old(View()), i, b);
        View() == if neighbour.Some? && neighbour.value != i then TryJoin(policy, s, neighbour.value, i) else s
    {
      hide InBucket, Live, Unlinked, NoDup;
      ghost var s := View();
      FrontMergeInv(s, i, b);
      LiveSame(reqs, reqs[i := Prepended(reqs[i], b)], filed);
      TableSame(hash, chains, reqs, reqs[i := Prepended(reqs[i], b)], filed);
      reqs := reqs[i := Prepended(reqs[i], b)];
      var joined := false;
      if neighbour.Some? && neighbour.value != i {
        TableButHolds(hash, chains, reqs, filed, neighbour.value);
        joined := AttemptMerge(neighbour.value, i);
      }
      if !joined { MergedRequest(i, false); }
    }

    /** The merging half of blk_queue_bio. */
    method QueueBio(b: Bio, candidate: Option<nat>, neighbour: Option<nat>) returns (merged: bool)
      requires Valid() && BioOk(b) && FrontCandidate(policy, View(), b, candidate)
      requires neighbour.Some? ==> Queued(View(), neighbour.value)
      modifies this
      ensures Valid() && (View(), merged) == Merging.QueueBio(policy, old(View()), b, candidate, neighbour)
    {
      hide Table, Inv, Live, Merging.ElvMerge, Merging.BackMerge, Merging.FrontMerge, Merging.Refuse, TryJoin;
      merged := false;
      ElvMergeRight(policy, View(), b, candidate);
      var c := ElvMerge(b, candidate);
      match c
      case NoMerge =>
      case Back(i) =>
        merged := policy.fitsBack(reqs[i], b);
        if merged { BackMergeBio(i, b, neighbour); } else { Refuse(i); }
      case Front(i) =>
        merged := policy.fitsFront(reqs[i], b);
        if merged { FrontMergeBio(i, b, neighbour); } else { Refuse(i); }
    }

    /** What dispatching a request does to the hash and the cache. */
    method Dispatch(i: nat)
      requires Valid() && Queued(View(), i)
      modifies this
      ensures Valid() && View() == Merging.Dispatch(old(View()), i)
    {
      hide InBucket, Live, Unlinked, NoDup;
      DispatchInv(View(), i);
      var r := reqs[i].(queued := false);
      LiveWithout(reqs, filed, i);
      UnlinkTable(hash, chains, reqs, filed, i);
      if last == Some(i) { last := None; }
      HashDel(i);
      LiveSame(reqs, reqs[i := r], filed);
      TableSame(hash, chains, reqs, reqs[i := r], filed);
      reqs := reqs[i := r];
    }

    /** ELEVATOR_INSERT_SORT: file the request and hand it to the scheduler. */
    method Enqueue(i: nat)
      requires Valid() && i < |reqs| && !reqs[i].queued && reqs[i].bios != []
      modifies this
      ensures Valid() && View() == Merging.Enqueue(old(View()), i)
    {
      hide InBucket, Live, NoDup;
      EnqueueInv(View(), i);
      var r := reqs[i].(queued := true);
      LiveSame(reqs, reqs[i := r], filed);
      TableSame(hash, chains, reqs, reqs[i := r], filed);
      reqs := reqs[i := r];
      if r.mergeable {
        LiveCons(reqs, filed, i);
        HashAdd(i);
        if last.None? { last := Some(i); }
      }
    }

    method AttemptInsertMerge(n: nat) returns (ret: bool)
      requires Valid() && n < |reqs| && reqs[n].bios != []
      modifies this
      ensures Valid() && (View(), ret) == InsertMerge(policy, old(View()), n)
    {
      hide Table, Inv, Live, Join, CanJoin;
      ghost var s := View();
      ret := false;
      LiveKnown(s);
      if last.Some? {
        ReadyToJoin(last.value);
        ret := AttemptMerge(last.value, n);
        if ret { return; }
      }
      var cur: nat := n;
      while true
        invariant Valid() && cur < |reqs| && reqs[cur].bios != []
        invariant Absorb(policy, View(), cur) == Absorb(policy, s, n)
        invariant if ret then FirstMatch(s.reqs, s.live, s.reqs[n].sector).Some?
                           && CanJoin(policy, s.reqs[FirstMatch(s.reqs, s.live, s.reqs[n].sector).value], s.reqs[n])
                  else View() == s && cur == n
        decreases Alive(reqs)
      {
        LiveKnown(View());
        ghost var s' := View();
        var m := Find(reqs[cur].sector);
        if m.None? { break; }
        ReadyToJoin(m.value);
        var ok := AttemptMerge(m.value, cur);
        if !ok { break; }
        JoinFound(policy, s', m.value, cur);
        ret := true;
        cur := m.value;
      }
    }

    /** A findable request may absorb another as it stands. */
    lemma ReadyToJoin(i: nat)
      requires Valid() && (i in View().live || last == Some(i))
      ensures Queued(View(), i) && TableBut(hash, chains, reqs, filed, i)
    {
      TableButHolds(hash, chains, reqs, filed, i);
    }

    /** __elv_add_request with ELEVATOR_INSERT_SORT_MERGE for a new request. */
    method AddSortMerge(r: Request)
      requires Valid() && GapFree(r)
      modifies this
      ensures Valid() && View() == Merging.AddSortMerge(policy, old(View()), r)
    {
      hide InBucket, Live, NoDup, InsertMerge;
      AllocateInv(View(), r);
      LiveSame(reqs, reqs + [r.(queued := false)], filed);
      TableSame(hash, chains, reqs, reqs + [r.(queued := false)], filed);
      InsertMergeInv(policy, Allocate(View(), r), |reqs|);
      var n := |reqs|;
      reqs := reqs + [r.(queued := false)];
      var merged := AttemptInsertMerge(n);
      if !merged { Enqueue(n); }
    }
  }
}
