/** Tagged command queueing: a bitmap of busy tags and an index from tag to request. */
module Tags {
  import opened Arith
  import opened Lists
  import opened Options

  const EBUSY: int := -16

  /** tag is -1 while the request is not tagged; queued is REQ_QUEUED. */
  datatype Rq = Rq(tag: int, queued: bool, sync: bool)

  /** bits and index have real_max_depth entries; busy is the tag_busy_list, newest first;
      queue is the dispatch list. */
  datatype Tagged = Tagged(
    bits: seq<bool>, index: seq<Option<nat>>, maxDepth: nat, shared: bool,
    rqs: seq<Rq>, busy: seq<nat>, queue: seq<nat>)

  // ------------------------------------------------------------------- operations

  /** find_first_zero_bit below limit, from k on; limit if there is none. */
  function FirstZero(bits: seq<bool>, limit: nat, k: nat): (t: nat)
    requires limit <= |bits| && k <= limit
    ensures k <= t <= limit && (t < limit ==> !bits[t]) && forall i :: k <= i < t ==> bits[i]
    decreases limit - k
  {
    if k == limit || !bits[k] then k else FirstZero(bits, limit, k + 1)
  }

  /** Asynchronous requests leave two tags to synchronous ones, but always have one. */
  function Limit(maxDepth: nat, sync: bool): nat {
    if sync || maxDepth <= 1 then maxDepth else if maxDepth == 2 then 1 else maxDepth - 2
  }

  predicate Overloaded(s: Tagged, r: nat, asyncInFlight: nat)
    requires r < |s.rqs|
  {
    !s.rqs[r].sync && s.maxDepth > 1 && asyncInFlight > Limit(s.maxDepth, false)
  }

  function Assign(s: Tagged, r: nat, t: nat): Tagged
    requires r < |s.rqs| && t < |s.bits| == |s.index|
  {
    s.(bits := s.bits[t := true], index := s.index[t := Some(r)],
       rqs := s.rqs[r := s.rqs[r].(tag := t, queued := true)],
       queue := Without(s.queue, r), busy := [r] + s.busy)
  }

  /** blk_queue_start_tag: true if the request could not be started. */
  function Start(s: Tagged, r: nat, asyncInFlight: nat): (Tagged, bool)
    requires r < |s.rqs| && |s.bits| == |s.index| && s.maxDepth <= |s.bits|
  {
    if Overloaded(s, r, asyncInFlight) then (s, true)
    else
      var limit := Limit(s.maxDepth, s.rqs[r].sync);
      var t := FirstZero(s.bits, limit, 0);
      if t >= limit then (s, true) else (Assign(s, r, t), false)
  }

  /** blk_queue_end_tag. */
  function End(s: Tagged, r: nat): Tagged
    requires r < |s.rqs| && 0 <= s.rqs[r].tag < |s.bits| == |s.index|
  {
    var t := s.rqs[r].tag;
    s.(bits := s.bits[t := false], index := s.index[t := None],
       rqs := s.rqs[r := s.rqs[r].(tag := -1, queued := false)], busy := Without(s.busy, r))
  }

  function Repeat<T>(x: T, n: nat): (s: seq<T>)
    ensures |s| == n && forall i :: 0 <= i < n ==> s[i] == x
  {
    seq(n, _ => x)
  }

  /** Overrun: the old entries are copied past the end of the new arrays. */
  datatype Outcome = Resized(tags: Tagged) | Busy | Overrun

  /** blk_queue_resize_tags: a larger map is filled from the old one; cap is twice the number
      of requests of the queue, which nothing keeps at the depth of the old map. */
  function Resize(s: Tagged, depth: nat, cap: nat): Outcome
    requires |s.bits| == |s.index|
  {
    if depth <= |s.bits| then Resized(s.(maxDepth := depth))
    else if s.shared then Busy
    else
      var n := Min(depth, cap);
      if n < |s.bits| then Overrun
      else
        Resized(s.(bits := s.bits + Repeat(false, n - |s.bits|), index := s.index + Repeat(None, n - |s.index|),
                   maxDepth := n))
  }

  /** The map need not grow, may not, or the cap leaves room for what it holds. */
  predicate Fits(s: Tagged, depth: nat, cap: nat) {
    depth <= |s.bits| || s.shared || |s.bits| <= cap
  }

  // -------------------------------------------------------------------- invariant

  ghost predicate Holds(s: Tagged, t: nat, r: nat) {
    t < |s.index| && s.index[t] == Some(r)
  }

  ghost predicate RqOk(s: Tagged, r: nat)
    requires r < |s.rqs|
  {
    var x := s.rqs[r];
    && (if x.queued then 0 <= x.tag && Holds(s, x.tag, r) else x.tag == -1)
    && (r in s.busy <==> x.queued) && (x.queued ==> r !in s.queue)
  }

  ghost predicate TagOk(s: Tagged, t: nat)
    requires t < |s.bits| == |s.index|
  {
    && (s.bits[t] <==> s.index[t].Some?)
    && (s.index[t].Some? ==>
          s.index[t].value < |s.rqs| && s.rqs[s.index[t].value].queued && s.rqs[s.index[t].value].tag == t)
  }

  /** A bit is set exactly when the index names a request, and that request carries the tag;
      the busy list is the tagged requests. */
  ghost predicate Inv(s: Tagged) {
    && |s.bits| == |s.index| && s.maxDepth <= |s.bits|
    && NoDup(s.busy) && NoDup(s.queue)
    && (forall t :: 0 <= t < |s.bits| ==> TagOk(s, t))
    && (forall r :: 0 <= r < |s.rqs| ==> RqOk(s, r))
    && (forall r :: r in s.busy || r in s.queue ==> r < |s.rqs|)
  }

  lemma AssignInv(s: Tagged, r: nat, t: nat)
    requires Inv(s) && r in s.queue && t < |s.bits| && !s.bits[t]
    ensures r < |s.rqs| && Inv(Assign(s, r, t))
  {
    assert RqOk(s, r) && TagOk(s, t);
    var e := Assign(s, r, t);
    NoDupSnoc(s.busy, r);
    WithoutNoDup(s.queue, r);
    forall k | 0 <= k < |e.bits| ensures TagOk(e, k) { assert TagOk(s, k); }
    forall k | 0 <= k < |e.rqs| ensures RqOk(e, k) { assert RqOk(s, k); }
  }

  /** An asynchronous request does without the last two tags, though one is always open to it,
      and does not start while more of its kind are in flight than it may have tags. A start
      succeeds exactly when one is free below that limit; the request then gets the least such
      tag, and no other request holds it. */
  lemma StartInv(s: Tagged, r: nat, asyncInFlight: nat)
    requires Inv(s) && r in s.queue
    ensures r < |s.rqs|
    ensures var (e, failed) := Start(s, r, asyncInFlight);
      var spared := !s.rqs[r].sync && s.maxDepth > 1;
      var limit := if spared then Max(s.maxDepth - 2, 1) else s.maxDepth;
      && Inv(e) && limit <= |s.bits|
      && (failed <==> (spared && asyncInFlight > limit) || forall t :: 0 <= t < limit ==> s.bits[t])
      && (failed ==> e == s)
      && (!failed ==> var t := e.rqs[r].tag;
            0 <= t < limit && !s.bits[t] && e.index[t] == Some(r) && (forall k :: 0 <= k < t ==> s.bits[k])
            && e.busy == [r] + s.busy)
  {
    assert RqOk(s, r);
    var limit := Limit(s.maxDepth, s.rqs[r].sync);
    var t := FirstZero(s.bits, limit, 0);
    if !Overloaded(s, r, asyncInFlight) && t < limit {
      AssignInv(s, r, t);
    }
  }

  lemma EndInv(s: Tagged, r: nat)
    requires Inv(s) && r in s.busy
    ensures r < |s.rqs| && 0 <= s.rqs[r].tag < |s.bits| && Inv(End(s, r))
  {
    assert RqOk(s, r);
    var e := End(s, r);
    WithoutNoDup(s.busy, r);
    forall k | 0 <= k < |e.bits| ensures TagOk(e, k) { assert TagOk(s, k); }
    forall k | 0 <= k < |e.rqs| ensures RqOk(e, k) { assert RqOk(s, k); }
  }

  /** Ending a request just started gives back the map, the index and the busy list. */
  lemma EndUndoesStart(s: Tagged, r: nat, asyncInFlight: nat)
    requires Inv(s) && r in s.queue && !Start(s, r, asyncInFlight).1
    ensures var e := Start(s, r, asyncInFlight).0;
      && 0 <= e.rqs[r].tag < |e.bits| == |e.index|
      && End(e, r) == s.(queue := Without(s.queue, r))
  {
    StartInv(s, r, asyncInFlight);
    assert RqOk(s, r);
    var e := Start(s, r, asyncInFlight).0;
    var t := e.rqs[r].tag;
    assert TagOk(s, t);
    assert End(e, r).rqs == s.rqs && End(e, r).bits == s.bits && End(e, r).index == s.index;
    assert ([r] + s.busy)[1..] == s.busy;
  }

  /** The copy overruns exactly when the map has to grow, is not shared and the cap is below
      its depth; otherwise no tag in use is lost. */
  lemma ResizeInv(s: Tagged, depth: nat, cap: nat)
    requires Inv(s)
    ensures match Resize(s, depth, cap)
      case Resized(e) =>
        && Fits(s, depth, cap) && (depth <= |s.bits| || !s.shared)
        && Inv(e) && s.bits <= e.bits && s.index <= e.index && e.maxDepth == Min(depth, Max(cap, |s.bits|))
        && e.rqs == s.rqs && e.busy == s.busy && e.queue == s.queue
      case Busy => depth > |s.bits| && s.shared
      case Overrun => !Fits(s, depth, cap)
  {
    if Resize(s, depth, cap).Resized? {
      var e := Resize(s, depth, cap).tags;
      forall k | 0 <= k < |e.bits| ensures TagOk(e, k) { if k < |s.bits| { assert TagOk(s, k); } }
      forall k | 0 <= k < |e.rqs| ensures RqOk(e, k) { assert RqOk(s, k); }
    }
  }

  // ---------------------------------------------------------------------- invalidation

  /** blk_requeue_request: the tag is ended and the request goes back to the front. */
  function Requeue(s: Tagged, r: nat): Tagged
    requires r < |s.rqs| && 0 <= s.rqs[r].tag < |s.bits| == |s.index|
  {
    var e := End(s, r);
    e.(queue := [r] + e.queue)
  }

  lemma RequeueInv(s: Tagged, r: nat)
    requires Inv(s) && r in s.busy
    ensures r < |s.rqs| && 0 <= s.rqs[r].tag < |s.bits| && Inv(Requeue(s, r))
  {
    assert RqOk(s, r);
    EndInv(s, r);
    var d, e := End(s, r), Requeue(s, r);
    NoDupSnoc(s.queue, r);
    forall k | 0 <= k < |e.bits| ensures TagOk(e, k) { assert TagOk(d, k); }
    forall k | 0 <= k < |e.rqs| ensures RqOk(e, k) { assert RqOk(d, k); }
  }

  /** blk_queue_invalidate_tags: the busy list from its head, the newest request first. */
  function Invalidate(s: Tagged): Tagged
    requires Inv(s)
    decreases |s.busy|
  {
    if s.busy == [] then s
    else
      RequeueInv(s, s.busy[0]);
      WithoutNoDup(s.busy, s.busy[0]);
      Invalidate(Requeue(s, s.busy[0]))
  }

  function Reverse(s: seq<nat>): seq<nat> {
    if s == [] then [] else Reverse(s[1..]) + [s[0]]
  }

  /** Invalidation clears every tag and puts the busy requests, in the order they were
      started, in front of the requests still queued. */
  lemma {:induction false} InvalidateOk(s: Tagged)
    requires Inv(s)
    ensures var e := Invalidate(s);
      && Inv(e) && e.busy == [] && e.queue == Reverse(s.busy) + s.queue
      && (forall t :: 0 <= t < |e.bits| ==> !e.bits[t] && e.index[t].None?)
      && (forall r :: 0 <= r < |e.rqs| ==> e.rqs[r].tag == -1)
    decreases |s.busy|
  {
    hide Requeue;
    if s.busy == [] {
      forall r | 0 <= r < |s.rqs| ensures s.rqs[r].tag == -1 && !s.rqs[r].queued { assert RqOk(s, r); }
      forall t | 0 <= t < |s.bits| ensures !s.bits[t] && s.index[t].None? { assert TagOk(s, t); }
    } else {
      var r := s.busy[0];
      RequeueInv(s, r);
      WithoutNoDup(s.busy, r);
      RequeueLists(s, r);
      InvalidateOk(Requeue(s, r));
      assert Reverse(s.busy[1..]) + ([r] + s.queue) == Reverse(s.busy) + s.queue;
    }
  }

  lemma RequeueLists(s: Tagged, r: nat)
    requires r < |s.rqs| && 0 <= s.rqs[r].tag < |s.bits| == |s.index|
    ensures Requeue(s, r).busy == Without(s.busy, r) && Requeue(s, r).queue == [r] + s.queue
  {
  }

  // ----------------------------------------------------------------------------- runs

  datatype Step =
    | Arrive(sync: bool)
    | StartTag(r: nat, asyncInFlight: nat)
    | EndTag(r: nat)
    | ResizeTo(depth: nat, cap: nat)
    | InvalidateAll

  /** Only queued requests are started and only tagged ones ended; a run ends where a resize
      overruns. */
  ghost predicate Enabled(s: Tagged, t: Step) {
    match t
    case Arrive(sync) => true
    case StartTag(r, n) => r in s.queue
    case EndTag(r) => r in s.busy
    case ResizeTo(depth, cap) => Fits(s, depth, cap)
    case InvalidateAll => true
  }

  function ArriveRq(s: Tagged, sync: bool): Tagged {
    s.(rqs := s.rqs + [Rq(-1, false, sync)], queue := s.queue + [|s.rqs|])
  }

  lemma ArriveInv(s: Tagged, sync: bool)
    requires Inv(s)
    ensures Inv(ArriveRq(s, sync))
  {
    var e := ArriveRq(s, sync);
    NoDupSnoc(s.queue, |s.rqs|);
    forall k | 0 <= k < |e.bits| ensures TagOk(e, k) { assert TagOk(s, k); }
    forall k | 0 <= k < |e.rqs| ensures RqOk(e, k) { if k < |s.rqs| { assert RqOk(s, k); } }
  }

  function AfterResize(s: Tagged, depth: nat, cap: nat): Tagged
    requires |s.bits| == |s.index| && !Resize(s, depth, cap).Overrun?
  {
    match Resize(s, depth, cap)
    case Resized(e) => e
    case Busy => s
  }

  /** A map of 16 tags, the number of requests lowered to 4, and 17 tags asked for. */
  lemma ResizeOverruns()
    ensures Resize(Fresh(16, false), 17, 2 * 4) == Overrun
  {
  }

  ghost function Next(s: Tagged, t: Step): Tagged
    requires Inv(s) && Enabled(s, t)
  {
    match t
    case Arrive(sync) => ArriveRq(s, sync)
    case StartTag(r, n) => StartInv(s, r, n); Start(s, r, n).0
    case EndTag(r) => EndInv(s, r); End(s, r)
    case ResizeTo(depth, cap) => ResizeInv(s, depth, cap); AfterResize(s, depth, cap)
    case InvalidateAll => Invalidate(s)
  }

  lemma NextInv(s: Tagged, t: Step)
    requires Inv(s) && Enabled(s, t)
    ensures Inv(Next(s, t))
  {
    hide Inv, Start, End, Resize, Invalidate;
    match t
    case Arrive(sync) => ArriveInv(s, sync);
    case StartTag(r, n) => StartInv(s, r, n);
    case EndTag(r) => EndInv(s, r);
    case ResizeTo(depth, cap) => ResizeOk(s); ResizeInv(s, depth, cap);
    case InvalidateAll => InvalidateOk(s);
  }

  lemma ResizeOk(s: Tagged)
    requires Inv(s)
    ensures |s.bits| == |s.index|
  {
  }

  ghost predicate Legal(s: Tagged, steps: seq<Step>)
    requires Inv(s)
    decreases |steps|
  {
    steps == [] || (Enabled(s, steps[0]) && (NextInv(s, steps[0]); Legal(Next(s, steps[0]), steps[1..])))
  }

  ghost function Exec(s: Tagged, steps: seq<Step>): (r: Tagged)
    requires Inv(s) && Legal(s, steps)
    ensures Inv(r)
    decreases |steps|
  {
    if steps == [] then s else (NextInv(s, steps[0]); Exec(Next(s, steps[0]), steps[1..]))
  }

  function Fresh(depth: nat, shared: bool): (s: Tagged)
    ensures Inv(s)
  {
    Tagged(Repeat(false, depth), Repeat(None, depth), depth, shared, [], [], [])
  }

  /** In every reachable state a bit is set exactly when the index holds a request carrying
      that tag, and no two requests carry the same one. */
  lemma BitsMatchIndex(depth: nat, shared: bool, steps: seq<Step>, t: nat, r: nat, r': nat)
    requires Legal(Fresh(depth, shared), steps)
    ensures var s := Exec(Fresh(depth, shared), steps);
      && |s.bits| == |s.index|
      && (t < |s.bits| ==> (s.bits[t] <==> exists x: nat :: x < |s.rqs| && s.index[t] == Some(x) && s.rqs[x].tag == t))
      && (r < |s.rqs| && r' < |s.rqs| && s.rqs[r].tag == s.rqs[r'].tag != -1 ==> r == r')
  {
    var s := Exec(Fresh(depth, shared), steps);
    if t < |s.bits| {
      assert TagOk(s, t);
      if s.bits[t] { assert s.index[t] == Some(s.index[t].value); }
    }
    if r < |s.rqs| && r' < |s.rqs| { assert RqOk(s, r) && RqOk(s, r'); }
  }

  // ------------------------------------------------------- tags kept for synchronous I/O

  /** No asynchronous request holds one of the last two tags of the map, or the second of two. */
  ghost predicate Spared(s: Tagged) {
    forall r :: 0 <= r < |s.rqs| && !s.rqs[r].sync && s.rqs[r].tag != -1 && s.maxDepth > 1 ==>
      s.rqs[r].tag < Max(s.maxDepth - 2, 1)
  }

  lemma RequeueSpared(s: Tagged, r: nat)
    requires Inv(s) && r in s.busy && Spared(s)
    ensures r < |s.rqs| && 0 <= s.rqs[r].tag < |s.bits| == |s.index| && Spared(Requeue(s, r))
    ensures Requeue(s, r).maxDepth == s.maxDepth
  {
    assert RqOk(s, r);
  }

  lemma {:induction false} InvalidateSpared(s: Tagged)
    requires Inv(s) && Spared(s)
    ensures Spared(Invalidate(s)) && Invalidate(s).maxDepth == s.maxDepth
    decreases |s.busy|
  {
    hide Inv, Spared;
    if s.busy != [] {
      RequeueInv(s, s.busy[0]);
      RequeueSpared(s, s.busy[0]);
      InvalidateSpared(Requeue(s, s.busy[0]));
    }
  }

  lemma NextSpared(s: Tagged, t: Step)
    requires Inv(s) && Enabled(s, t) && !t.ResizeTo? && Spared(s)
    ensures Spared(Next(s, t)) && Next(s, t).maxDepth == s.maxDepth
  {
    hide Inv, Invalidate;
    match t
    case Arrive(sync) =>
    case StartTag(r, n) => StartInv(s, r, n);
    case EndTag(r) => EndInv(s, r);
    case InvalidateAll => InvalidateSpared(s);
  }

  lemma {:induction false} ExecSpared(s: Tagged, steps: seq<Step>)
    requires Inv(s) && Legal(s, steps) && Spared(s) && forall t :: t in steps ==> !t.ResizeTo?
    ensures Spared(Exec(s, steps)) && Exec(s, steps).maxDepth == s.maxDepth
    decreases |steps|
  {
    hide Inv, Spared, Next, Enabled;
    if steps != [] {
      NextInv(s, steps[0]);
      NextSpared(s, steps[0]);
      assert forall t :: t in steps[1..] ==> t in steps;
      ExecSpared(Next(s, steps[0]), steps[1..]);
    }
  }

  /** As long as the map is not resized, asynchronous requests leave the last two tags alone. */
  lemma SyncTagsSpared(depth: nat, shared: bool, steps: seq<Step>, r: nat)
    requires depth > 2 && Legal(Fresh(depth, shared), steps) && forall t :: t in steps ==> !t.ResizeTo?
    requires r < |Exec(Fresh(depth, shared), steps).rqs| && !Exec(Fresh(depth, shared), steps).rqs[r].sync
    ensures Exec(Fresh(depth, shared), steps).rqs[r].tag < depth - 2
  {
    ExecSpared(Fresh(depth, shared), steps);
  }

  // ------------------------------------------------------------------------- in place

  class TagQueue {
    var tagMap: array<bool>
    var tagIndex: array<Option<nat>>
    var maxDepth: nat
    const shared: bool
    var rqs: seq<Rq>
    var busy: seq<nat>
    var queue: seq<nat>

    ghost function View(): Tagged
      reads this, tagMap, tagIndex
    {
      Tagged(tagMap[..], tagIndex[..], maxDepth, shared, rqs, busy, queue)
    }

    constructor (depth: nat, shared: bool)
      ensures View() == Fresh(depth, shared) && fresh(tagMap) && fresh(tagIndex)
    {
      tagMap := new bool[depth](_ => false);
      tagIndex := new Option<nat>[depth](_ => None);
      maxDepth, this.shared, rqs, busy, queue := depth, shared, [], [], [];
      new;
      assert tagMap[..] == Repeat(false, depth) && tagIndex[..] == Repeat(None, depth);
    }

    method FindFirstZero(limit: nat) returns (t: nat)
      requires limit <= tagMap.Length
      ensures t == FirstZero(tagMap[..], limit, 0)
    {
      t := 0;
      while t < limit && tagMap[t]
        invariant t <= limit && FirstZero(tagMap[..], limit, t) == FirstZero(tagMap[..], limit, 0)
      {
        t := t + 1;
      }
    }

    method StartTag(r: nat, asyncInFlight: nat) returns (failed: bool)
      requires Inv(View()) && r in queue
      modifies this, tagMap, tagIndex
      ensures tagMap == old(tagMap) && tagIndex == old(tagIndex)
      ensures r < |old(rqs)| && (View(), failed) == Start(old(View()), r, asyncInFlight) && Inv(View())
    {
      hide NoDup, TagOk, RqOk, FirstZero;
      StartInv(View(), r, asyncInFlight);
      var max := maxDepth;
      if !rqs[r].sync && max > 1 {
        max := max - 2;
        if max == 0 { max := 1; }
        if asyncInFlight > max { return true; }
      }
      var tag := FindFirstZero(max);
      if tag >= max { return true; }
      tagMap[tag] := true;
      rqs := rqs[r := rqs[r].(queued := true, tag := tag)];
      tagIndex[tag] := Some(r);
      queue := Without(queue, r);
      busy := [r] + busy;
      failed := false;
      assert tagMap[..] == old(tagMap[..])[tag := true] && tagIndex[..] == old(tagIndex[..])[tag := Some(r)];
    }

    method EndTag(r: nat)
      requires Inv(View()) && r in busy
      modifies this, tagMap, tagIndex
      ensures tagMap == old(tagMap) && tagIndex == old(tagIndex)
      ensures r < |old(rqs)| && 0 <= old(rqs[r].tag) < old(tagMap.Length)
      ensures View() == End(old(View()), r) && Inv(View()) && busy == Without(old(busy), r)
    {
      EndInv(View(), r);
      var tag := rqs[r].tag;
      assert TagOk(View(), tag);
      assert RqOk(View(), r);
      busy := Without(busy, r);
      rqs := rqs[r := rqs[r].(queued := false, tag := -1)];
      tagIndex[tag] := None;
      tagMap[tag] := false;
      assert tagMap[..] == old(tagMap[..])[tag := false] && tagIndex[..] == old(tagIndex[..])[tag := None];
    }

    /** The source does not look whether the old entries fit: the model stops there, and says
        nothing of the state after an overrun. */
    method ResizeTags(depth: nat, cap: nat) returns (overrun: bool, error: int)
      requires Inv(View())
      modifies this
      ensures overrun <==> Resize(old(View()), depth, cap) == Overrun
      ensures !overrun ==> View() == AfterResize(old(View()), depth, cap) && Inv(View())
      ensures !overrun ==> error == if Resize(old(View()), depth, cap) == Busy then EBUSY else 0
      ensures (tagMap == old(tagMap) || fresh(tagMap)) && (tagIndex == old(tagIndex) || fresh(tagIndex))
    {
      ghost var s := View();
      ResizeInv(s, depth, cap);
      overrun, error := false, 0;
      if depth <= tagMap.Length {
        maxDepth := depth;
        return;
      }
      if shared {
        error := EBUSY;
        return;
      }
      var n := if depth > cap then cap else depth;
      var bits := new bool[n](_ => false);
      var index := new Option<nat>[n](_ => None);
      var k := tagMap.Length;
      if n < k {
        overrun := true;
        return;
      }
      forall i | 0 <= i < k { bits[i] := tagMap[i]; }
      forall i | 0 <= i < k { index[i] := tagIndex[i]; }
      assert bits[..] == s.bits + Repeat(false, n - k);
      assert index[..] == s.index + Repeat(None, n - k);
      tagMap, tagIndex, maxDepth := bits, index, n;
    }

    /** The busy list is walked from its head while each request leaves it. */
    method InvalidateTags()
      requires Inv(View())
      modifies this, tagMap, tagIndex
      ensures tagMap == old(tagMap) && tagIndex == old(tagIndex)
      ensures View() == Invalidate(old(View())) && Inv(View())
    {
      hide Inv, End;
      while busy != []
        invariant tagMap == old(tagMap) && tagIndex == old(tagIndex)
        invariant Inv(View()) && Invalidate(View()) == Invalidate(old(View()))
        decreases |busy|
      {
        var r := busy[0];
        RequeueInv(View(), r);
        BusyShrinks(View());
        EndTag(r);
        queue := [r] + queue;
      }
    }
  }

  lemma BusyShrinks(s: Tagged)
    requires Inv(s) && s.busy != []
    ensures |Without(s.busy, s.busy[0])| < |s.busy|
  {
    WithoutNoDup(s.busy, s.busy[0]);
  }
}
