/** Splitting a discard into bios that respect the device's granularity and alignment. */
module Discard {
  import opened Arith

  const UINT_MAX: nat := 0xffff_ffff
  const EOPNOTSUPP: int := -95
  const ENOMEM: int := -12
  const EIO: int := -5

  datatype Bio = Bio(sector: nat, sects: nat)

  /** Queue limits: granularity and alignment in bytes, the maximum in sectors. */
  datatype Limits = Limits(granularity: nat, alignment: nat, maxSectors: nat)

  function Granularity(q: Limits): (g: nat)
    ensures g > 0
  {
    Max(q.granularity / 512, 1)
  }

  function Alignment(q: Limits): (a: nat)
    ensures a < Granularity(q)
  {
    q.alignment / 512 % Granularity(q)
  }

  /** The most one bio may cover: rounded down to the granularity, and small enough for a
      32-bit byte count. */
  function MaxSects(q: Limits): nat {
    Min(q.maxSectors, UINT_MAX / 512) / Granularity(q) * Granularity(q)
  }

  lemma MaxSectsOk(q: Limits)
    ensures MaxSects(q) % Granularity(q) == 0 && MaxSects(q) * 512 <= UINT_MAX && MaxSects(q) <= q.maxSectors
    ensures MaxSects(q) > 0 ==> MaxSects(q) >= Granularity(q)
  {
    var m, g := Min(q.maxSectors, UINT_MAX / 512), Granularity(q);
    RoundDown(m, g);
  }

  /** No more of the granularity would fit. */
  lemma MaxSectsMost(q: Limits)
    ensures MaxSects(q) + Granularity(q) > q.maxSectors || (MaxSects(q) + Granularity(q)) * 512 > UINT_MAX
  {
    var m, g := Min(q.maxSectors, UINT_MAX / 512), Granularity(q);
    RoundDown(m, g);
  }

  /** The granularity is in whole sectors, at least one, and the alignment is what is left of
      its whole sectors within that. */
  lemma InSectors(q: Limits)
    ensures if q.granularity < 1024 then Granularity(q) == 1
            else Granularity(q) * 512 <= q.granularity < (Granularity(q) + 1) * 512
    ensures exists k: nat :: (k * Granularity(q) + Alignment(q)) * 512 <= q.alignment
                             < (k * Granularity(q) + Alignment(q) + 1) * 512
  {
    var s, g := q.alignment / 512, Granularity(q);
    var k := s / g;
    assert s == k * g + Alignment(q);
  }

  lemma ScaleMod(x: nat, g: nat)
    requires g > 0
    ensures x * 512 % (g * 512) == x % g * 512
  {
    var k, r := x / g, x % g;
    assert x == k * g + r;
    Distribute(k * g, r, 512);
    Associate(k, g, 512);
    DivModUnique(x * 512, g * 512, k, r * 512);
  }

  lemma Associate(a: nat, b: nat, c: nat)
    ensures a * b * c == a * (b * c)
  {
  }

  /** With a granularity and an alignment in whole sectors, an aligned sector is one whose byte
      offset leaves the remainder the device asks for. */
  lemma AlignedBytes(q: Limits, g: nat, a: nat, x: nat)
    requires q.granularity == g * 512 && q.alignment == a * 512 && g > 0
    ensures x % Granularity(q) == Alignment(q) <==> x * 512 % q.granularity == q.alignment % q.granularity
  {
    hide Granularity, Alignment;
    WholeLimits(q, g, a);
    ScaleMod(x, g);
    ScaleMod(a, g);
    SameTimes(x % g, a % g);
  }

  lemma WholeLimits(q: Limits, g: nat, a: nat)
    requires q.granularity == g * 512 && q.alignment == a * 512 && g > 0
    ensures Granularity(q) == g && Alignment(q) == a % g
  {
  }

  lemma SameTimes(a: nat, b: nat)
    ensures a == b <==> a * 512 == b * 512
  {
  }

  // ----------------------------------------------------------------------- one split

  /** Where the next bio ends when it starts at sector and sects remain. */
  function EndSect(q: Limits, sector: nat, sects: nat): int {
    var req := Min(sects, MaxSects(q));
    var end, g, a := sector + req, Granularity(q), Alignment(q);
    if req < sects && end % g != a then (end - a) / g * g + a else end
  }

  /** Between two aligned points nothing is aligned. */
  lemma NotAligned(k: nat, g: nat, a: nat, t: nat)
    requires a < g && 0 < t < g
    ensures (k * g + a + t) % g != a
  {
    if a + t < g {
      DivModUnique(k * g + a + t, g, k, a + t);
    } else {
      assert (k + 1) * g == k * g + g;
      DivModUnique(k * g + a + t, g, k + 1, a + t - g);
    }
  }

  /** The last aligned point before end, when end is not aligned itself. */
  lemma AlignedBelow(end: nat, g: nat, a: nat)
    requires a < g <= end && end % g != a
    ensures var e := (end - a) / g * g + a; end - g < e < end && e % g == a
  {
    var k, m := (end - a) / g, (end - a) % g;
    assert end - a == k * g + m;
    DivModUnique(k * g + a, g, k, a);
  }

  lemma NoneBetween(end: nat, g: nat, a: nat, x: nat)
    requires a < g <= end && end % g != a && (end - a) / g * g + a < x <= end
    ensures x % g != a
  {
    var k, m := (end - a) / g, (end - a) % g;
    assert end - a == k * g + m;
    NotAligned(k, g, a, x - k * g - a);
  }

  /** A bio takes at least one sector and no more than allowed; unless it is the last, it
      stops at the furthest aligned point it may reach. */
  lemma EndSectOk(q: Limits, sector: nat, sects: nat)
    requires MaxSects(q) > 0 && sects > 0
    ensures var e, m := EndSect(q, sector, sects), MaxSects(q);
      && sector < e <= sector + Min(sects, m)
      && (e < sector + sects ==> e % Granularity(q) == Alignment(q))
      && (forall x: nat :: e < sector + sects && e < x <= sector + m ==> x % Granularity(q) != Alignment(q))
  {
    var req := Min(sects, MaxSects(q));
    var end, g, a := sector + req, Granularity(q), Alignment(q);
    MaxSectsOk(q);
    if req < sects && end % g != a {
      AlignedBelow(end, g, a);
      forall x: nat | EndSect(q, sector, sects) < x <= sector + MaxSects(q) ensures x % g != a {
        NoneBetween(end, g, a, x);
      }
    }
  }

  // -------------------------------------------------------------------------- the loop

  /** The bios issued from the i-th allocation on, and whether an allocation failed. */
  function Split(q: Limits, sector: nat, sects: nat, alloc: nat -> bool, i: nat): (seq<Bio>, bool)
    requires MaxSects(q) > 0
    decreases sects
  {
    if sects == 0 then ([], false)
    else if !alloc(i) then ([], true)
    else
      EndSectOk(q, sector, sects);
      var end := EndSect(q, sector, sects);
      var (rest, failed) := Split(q, end, sects - (end - sector), alloc, i + 1);
      ([Bio(sector, end - sector)] + rest, failed)
  }

  /** The bios lie end to end from sector on and cover n sectors. */
  ghost predicate Tiles(bios: seq<Bio>, sector: nat, n: nat) {
    if bios == [] then n == 0
    else
      && bios[0].sector == sector && 0 < bios[0].sects <= n
      && Tiles(bios[1..], sector + bios[0].sects, n - bios[0].sects)
  }

  function Covered(bios: seq<Bio>): nat {
    if bios == [] then 0 else bios[0].sects + Covered(bios[1..])
  }

  /** The bios tile what they cover, in order and without gap or overlap; that is the whole
      range unless an allocation fails. */
  lemma {:induction false} SplitTiles(q: Limits, sector: nat, sects: nat, alloc: nat -> bool, i: nat)
    requires MaxSects(q) > 0
    ensures var (bios, failed) := Split(q, sector, sects, alloc, i);
      && Tiles(bios, sector, Covered(bios)) && Covered(bios) <= sects
      && (!failed ==> Covered(bios) == sects) && (failed ==> Covered(bios) < sects && !alloc(i + |bios|))
    decreases sects
  {
    hide EndSect, MaxSects, Granularity, Alignment;
    if sects > 0 && alloc(i) {
      EndSectOk(q, sector, sects);
      var end := EndSect(q, sector, sects);
      var (rest, failed) := Split(q, end, sects - (end - sector), alloc, i + 1);
      SplitTiles(q, end, sects - (end - sector), alloc, i + 1);
      var bios := [Bio(sector, end - sector)] + rest;
      assert bios[1..] == rest;
    }
  }

  /** Every bio is within the limits, its byte count fits in 32 bits, and every point where
      one ends and another must follow is aligned. */
  lemma {:induction false} SplitAligned(q: Limits, sector: nat, sects: nat, alloc: nat -> bool, i: nat, k: nat)
    requires MaxSects(q) > 0 && k < |Split(q, sector, sects, alloc, i).0|
    ensures var b := Split(q, sector, sects, alloc, i).0[k];
      && 0 < b.sects <= MaxSects(q) <= q.maxSectors && b.sects * 512 <= UINT_MAX
      && (b.sector + b.sects < sector + sects ==> (b.sector + b.sects) % Granularity(q) == Alignment(q))
      && (k > 0 ==> b.sector % Granularity(q) == Alignment(q))
    decreases sects
  {
    MaxSectsOk(q);
    EndSectOk(q, sector, sects);
    var end := EndSect(q, sector, sects);
    if k > 0 {
      SplitAligned(q, end, sects - (end - sector), alloc, i + 1, k - 1);
      if k == 1 { SplitStart(q, end, sects - (end - sector), alloc, i + 1); }
    }
  }

  lemma SplitStart(q: Limits, sector: nat, sects: nat, alloc: nat -> bool, i: nat)
    requires MaxSects(q) > 0 && Split(q, sector, sects, alloc, i).0 != []
    ensures Split(q, sector, sects, alloc, i).0[0].sector == sector && sects > 0
  {
  }

  /** Once aligned, the split takes the most it may every time: only the first bio and the
      last can be shorter. */
  lemma {:induction false} SplitFull(q: Limits, sector: nat, sects: nat, alloc: nat -> bool, i: nat, k: nat)
    requires MaxSects(q) > 0 && 0 < k < |Split(q, sector, sects, alloc, i).0| - 1
    ensures Split(q, sector, sects, alloc, i).0[k].sects == MaxSects(q)
    decreases sects
  {
    EndSectOk(q, sector, sects);
    var end := EndSect(q, sector, sects);
    var left := sects - (end - sector);
    if k > 1 {
      SplitFull(q, end, left, alloc, i + 1, k - 1);
    } else {
      AlignedTakesAll(q, end, left);
      var end2 := EndSect(q, end, left);
      SplitStart(q, end2, left - (end2 - end), alloc, i + 2);
    }
  }

  lemma AlignedTakesAll(q: Limits, sector: nat, sects: nat)
    requires MaxSects(q) > 0 && sector % Granularity(q) == Alignment(q)
    ensures EndSect(q, sector, sects) == sector + Min(sects, MaxSects(q))
  {
    MaxSectsOk(q);
    AddMultiple(sector, MaxSects(q), Granularity(q));
  }

  lemma AddMultiple(x: nat, m: nat, g: nat)
    requires g > 0 && m % g == 0
    ensures (x + m) % g == x % g
  {
    var j, k := x / g, m / g;
    assert x == j * g + x % g && m == k * g;
    Distribute(j, k, g);
    DivModUnique(x + m, g, j + k, x % g);
  }

  // ------------------------------------------------------------------------- in place

  /** What the queue supports. */
  datatype Support = Support(discard: bool, secure: bool)

  /** secure tells whether the bios carry REQ_SECURE. */
  datatype Outcome = Outcome(bios: seq<Bio>, secure: bool, error: int)

  /** A bio that ended for another reason than the device not supporting discards. */
  predicate Bad(error: int) {
    error != 0 && error != EOPNOTSUPP
  }

  /** The limits in sectors, the maximum rounded so that a split stays aligned. */
  method Rounded(q: Limits) returns (granularity: nat, alignment: nat, max: nat)
    ensures granularity == Granularity(q) && alignment == Alignment(q) && max == MaxSects(q)
  {
    granularity := Max(q.granularity / 512, 1);
    alignment := q.alignment / 512 % granularity;
    max := Min(q.maxSectors, UINT_MAX / 512);
    max := max / granularity;
    max := max * granularity;
  }

  ghost predicate SomeFailed(fate: nat -> int, n: nat) {
    exists i: nat :: i < n && fate(i) != 0 && fate(i) != -95
  }

  lemma OneMoreFate(fate: nat -> int, n: nat)
    ensures !SomeFailed(fate, 0) && (SomeFailed(fate, n + 1) <==> SomeFailed(fate, n) || Bad(fate(n)))
  {
  }

  /** blkdev_issue_discard. Bio i ends with the error fate(i), at any time before the issuer is
      let go: by WokenOnce the order does not matter to what is reported. */
  method IssueDiscard(q: Limits, support: Support, secure: bool, start: nat, nrSects: nat, alloc: nat -> bool,
                      fate: nat -> int) returns (r: Outcome)
    ensures !support.discard || MaxSects(q) == 0 || (secure && !support.secure) ==> r.bios == [] && r.error == -95
    ensures support.discard && MaxSects(q) > 0 && (secure ==> support.secure) ==>
      && r.bios == Split(q, start, nrSects, alloc, 0).0 && r.secure == secure
      && (r.error == -5 <==> SomeFailed(fate, |r.bios|))
      && (r.error != -5 ==> r.error == if Split(q, start, nrSects, alloc, 0).1 then -12 else 0)
  {
    hide MaxSects, SomeFailed, Split;
    r := Outcome([], false, 0);
    if !support.discard { return r.(error := EOPNOTSUPP); }
    var granularity, alignment, max := Rounded(q);
    if max == 0 { return r.(error := EOPNOTSUPP); }
    if secure {
      if !support.secure { return r.(error := EOPNOTSUPP); }
      r := r.(secure := true);
    }
    var bios, failed, upToDate := IssueBios(q, granularity, alignment, max, start, nrSects, alloc, fate);
    r := r.(bios := bios, error := if failed then ENOMEM else 0);
    if !upToDate { r := r.(error := EIO); }
  }

  /** The loop: the bios issued, whether an allocation failed, and what is left of BIO_UPTODATE. */
  method IssueBios(q: Limits, granularity: nat, alignment: nat, max: nat, start: nat, nrSects: nat,
                   alloc: nat -> bool, fate: nat -> int) returns (bios: seq<Bio>, failed: bool, upToDate: bool)
    requires granularity == Granularity(q) && alignment == Alignment(q) && max == MaxSects(q) > 0
    ensures bios == Split(q, start, nrSects, alloc, 0).0 && failed == Split(q, start, nrSects, alloc, 0).1
    ensures upToDate <==> !SomeFailed(fate, |bios|)
  {
    hide EndSect, MaxSects, Granularity, Alignment, SomeFailed, Bad, Split;
    OneMoreFate(fate, 0);
    bios, failed, upToDate := [], false, true;
    var sector: nat, sects: nat := start, nrSects;
    ghost var all := Split(q, start, nrSects, alloc, 0);
    assert bios + Split(q, sector, sects, alloc, 0).0 == all.0;
    while sects > 0
      invariant bios + Split(q, sector, sects, alloc, |bios|).0 == all.0
      invariant Split(q, sector, sects, alloc, |bios|).1 == all.1
      invariant !failed && (upToDate <==> !SomeFailed(fate, |bios|))
    {
      SplitStep(q, sector, sects, alloc, |bios|);
      if !alloc(|bios|) {
        assert bios + [] == all.0;
        return bios, true, upToDate;
      }
      var end := StopAt(q, sector, sects, granularity, alignment, max);
      var req: nat := end - sector;
      var bio := Bio(sector, req);
      Shift(bios, bio, Split(q, end, sects - req, alloc, |bios| + 1).0);
      OneMoreFate(fate, |bios|);
      if Bad(fate(|bios|)) { upToDate := false; }
      bios := bios + [bio];
      sects := sects - req;
      sector := end;
    }
    SplitNone(q, sector, alloc, |bios|);
    assert bios + [] == all.0;
  }

  lemma SplitStep(q: Limits, sector: nat, sects: nat, alloc: nat -> bool, i: nat)
    requires MaxSects(q) > 0 && sects > 0
    ensures var end, all := EndSect(q, sector, sects), Split(q, sector, sects, alloc, i);
      && sector < end <= sector + sects
      && (!alloc(i) ==> all == ([], true))
      && (alloc(i) ==>
            var rest := Split(q, end, sects - (end - sector), alloc, i + 1);
            all.0 == [Bio(sector, end - sector)] + rest.0 && all.1 == rest.1)
  {
    hide EndSect, MaxSects;
    EndSectOk(q, sector, sects);
  }

  lemma SplitNone(q: Limits, sector: nat, alloc: nat -> bool, i: nat)
    requires MaxSects(q) > 0
    ensures Split(q, sector, 0, alloc, i) == ([], false)
  {
  }

  /** The end of the next bio, moved back to an aligned point if more is to follow. */
  method StopAt(q: Limits, sector: nat, sects: nat, granularity: nat, alignment: nat, max: nat) returns (end: nat)
    requires granularity == Granularity(q) && alignment == Alignment(q) && max == MaxSects(q) > 0 && sects > 0
    ensures end == EndSect(q, sector, sects)
  {
    EndSectOk(q, sector, sects);
    var req := Min(sects, max);
    var e: int := sector + req;
    if req < sects && e % granularity != alignment {
      e := e - alignment;
      e := e / granularity;
      e := e * granularity + alignment;
    }
    end := e;
  }

  lemma Shift(xs: seq<Bio>, b: Bio, ys: seq<Bio>)
    ensures xs + ([b] + ys) == (xs + [b]) + ys
  {
  }

  // -------------------------------------------------------------------- waiting for them

  /** The shared counter: one for the issuer and one for each bio in flight. */
  datatype Batch = Batch(done: int, upToDate: bool, inFlight: nat, issuing: bool, woken: nat)

  datatype Event = Submit | End(error: int) | Finish

  ghost predicate Enabled(b: Batch, e: Event) {
    match e
    case Submit => b.issuing
    case End(error) => b.inFlight > 0
    case Finish => b.issuing
  }

  /** bio_batch_end_io and the issuer's own last decrement. */
  function Next(b: Batch, e: Event): Batch
    requires Enabled(b, e)
  {
    match e
    case Submit => b.(done := b.done + 1, inFlight := b.inFlight + 1)
    case End(error) =>
      b.(done := b.done - 1, inFlight := b.inFlight - 1, upToDate := b.upToDate && !Bad(error),
         woken := if b.done == 1 then b.woken + 1 else b.woken)
    case Finish => b.(done := b.done - 1, issuing := false, woken := if b.done == 1 then b.woken + 1 else b.woken)
  }

  const STARTED := Batch(1, true, 0, true, 0)

  ghost predicate Legal(b: Batch, es: seq<Event>)
    decreases |es|
  {
    es == [] || (Enabled(b, es[0]) && Legal(Next(b, es[0]), es[1..]))
  }

  function Exec(b: Batch, es: seq<Event>): Batch
    requires Legal(b, es)
    decreases |es|
  {
    if es == [] then b else Exec(Next(b, es[0]), es[1..])
  }

  ghost predicate BatchInv(b: Batch) {
    && b.done == b.inFlight + (if b.issuing then 1 else 0)
    && b.woken == if b.issuing || b.inFlight > 0 then 0 else 1
  }

  lemma {:induction false} ExecInv(b: Batch, es: seq<Event>)
    requires BatchInv(b) && Legal(b, es)
    ensures BatchInv(Exec(b, es))
    decreases |es|
  {
    if es != [] { ExecInv(Next(b, es[0]), es[1..]); }
  }

  ghost predicate SomeBad(es: seq<Event>) {
    exists i :: 0 <= i < |es| && es[i].End? && Bad(es[i].error)
  }

  lemma SomeBadFirst(es: seq<Event>)
    requires es != []
    ensures SomeBad(es) <==> (es[0].End? && Bad(es[0].error)) || SomeBad(es[1..])
  {
    if SomeBad(es[1..]) {
      var i :| 0 <= i < |es[1..]| && es[1..][i].End? && Bad(es[1..][i].error);
      assert es[i + 1].End? && Bad(es[i + 1].error);
    }
    if SomeBad(es) {
      var i :| 0 <= i < |es| && es[i].End? && Bad(es[i].error);
      if i > 0 { assert es[1..][i - 1].End? && Bad(es[1..][i - 1].error); }
    }
  }

  lemma {:induction false} ExecUpToDate(b: Batch, es: seq<Event>)
    requires Legal(b, es)
    ensures Exec(b, es).upToDate <==> b.upToDate && !SomeBad(es)
    decreases |es|
  {
    if es != [] {
      ExecUpToDate(Next(b, es[0]), es[1..]);
      SomeBadFirst(es);
    }
  }

  /** The issuer is let go exactly once, when it has issued everything and the last bio has
      ended, and it finds the batch not up to date exactly when some bio failed for another
      reason than the device not supporting discards. */
  lemma WokenOnce(es: seq<Event>)
    requires Legal(STARTED, es)
    ensures var b := Exec(STARTED, es);
      && (b.woken == 1 <==> !b.issuing && b.inFlight == 0) && b.woken <= 1
      && (!b.upToDate <==> exists i :: 0 <= i < |es| && es[i].End? && es[i].error != 0 && es[i].error != -95)
  {
    ExecInv(STARTED, es);
    ExecUpToDate(STARTED, es);
  }
}
