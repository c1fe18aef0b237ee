/** Bentley and McIlroy's quicksort, in place on an array. */
module Qsort {

  /** What qsort may assume of the caller's comparison: a total preorder. */
  ghost predicate Preorder<T(!new)>(cmp: (T, T) -> int) {
    && (forall x, y :: cmp(x, y) < 0 <==> cmp(y, x) > 0)
    && (forall x, y, z :: cmp(x, y) <= 0 && cmp(y, z) <= 0 ==> cmp(x, z) <= 0)
  }

  ghost predicate Sorted<T(!new)>(cmp: (T, T) -> int, s: seq<T>, lo: int, hi: int)
    requires 0 <= lo <= hi <= |s|
  {
    forall i, j :: lo <= i < j < hi ==> cmp(s[i], s[j]) <= 0
  }

  /** t is s with the elements of [lo, hi) permuted and nothing else changed. */
  ghost predicate Permuted<T>(s: seq<T>, t: seq<T>, lo: int, hi: int) {
    && 0 <= lo <= hi <= |s| == |t|
    && s[..lo] == t[..lo] && s[hi..] == t[hi..]
    && multiset(s[lo..hi]) == multiset(t[lo..hi])
  }

  lemma PermutedTrans<T>(s: seq<T>, t: seq<T>, u: seq<T>, lo: int, hi: int)
    requires Permuted(s, t, lo, hi) && Permuted(t, u, lo, hi)
    ensures Permuted(s, u, lo, hi)
  {
  }

  lemma PermutedWiden<T>(s: seq<T>, t: seq<T>, l: int, h: int, lo: int, hi: int)
    requires Permuted(s, t, l, h) && 0 <= lo <= l <= h <= hi <= |s|
    ensures Permuted(s, t, lo, hi)
  {
    assert s[..lo] == s[..l][..lo] && t[..lo] == t[..l][..lo];
    assert s[hi..] == s[h..][hi - h..] && t[hi..] == t[h..][hi - h..];
    assert s[lo..l] == s[..l][lo..] && t[lo..l] == t[..l][lo..];
    assert s[h..hi] == s[h..][..hi - h] && t[h..hi] == t[h..][..hi - h];
    assert s[lo..hi] == s[lo..l] + s[l..h] + s[h..hi];
    assert t[lo..hi] == t[lo..l] + t[l..h] + t[h..hi];
  }

  function Swapped<T>(s: seq<T>, i: int, j: int): seq<T>
    requires 0 <= i < |s| && 0 <= j < |s|
  {
    s[i := s[j]][j := s[i]]
  }

  lemma SwappedPermutes<T>(s: seq<T>, i: int, j: int, lo: int, hi: int)
    requires 0 <= lo <= i < hi <= |s| && lo <= j < hi
    ensures Permuted(s, Swapped(s, i, j), lo, hi)
  {
    var t, sub := Swapped(s, i, j), s[lo..hi];
    assert t[lo..hi] == sub[i - lo := sub[j - lo]][j - lo := sub[i - lo]];
    assert t[..lo] == s[..lo] && t[hi..] == s[hi..];
  }

  /** A property of all elements of a range survives permuting that range. */
  lemma PermutedElement<T>(s: seq<T>, t: seq<T>, lo: int, hi: int, i: int)
    requires Permuted(s, t, lo, hi) && lo <= i < hi
    ensures exists j :: lo <= j < hi && s[j] == t[i]
  {
    assert t[i] in multiset(t[lo..hi]);
    assert t[i] in multiset(s[lo..hi]);
    assert t[i] in s[lo..hi];
    var k :| 0 <= k < hi - lo && s[lo..hi][k] == t[i];
    assert s[lo + k] == t[i];
  }

  lemma SwappedElsewhere<T>(s: seq<T>, i: int, j: int, k: int)
    requires 0 <= i < |s| && 0 <= j < |s| && 0 <= k < |s|
    ensures k != i && k != j ==> Swapped(s, i, j)[k] == s[k]
    ensures |Swapped(s, i, j)| == |s|
  {
  }

  method Swap<T>(a: array<T>, i: int, j: int)
    requires 0 <= i < a.Length && 0 <= j < a.Length
    modifies a
    ensures a[..] == Swapped(old(a[..]), i, j)
  {
    a[i], a[j] := a[j], a[i];
  }

  // --------------------------------------------------------------- insertion sort

  /** [lo, pm] is sorted but for the element at pl, which is below everything after it. */
  ghost predicate Sinking<T(!new)>(cmp: (T, T) -> int, s: seq<T>, lo: int, pl: int, pm: int) {
    && 0 <= lo <= pl <= pm < |s|
    && (forall i, j :: lo <= i < j <= pm && j != pl && i != pl ==> cmp(s[i], s[j]) <= 0)
    && (forall j :: pl < j <= pm ==> cmp(s[pl], s[j]) <= 0)
  }

  lemma SinkStep<T(!new)>(cmp: (T, T) -> int, s: seq<T>, lo: int, pl: int, pm: int)
    requires Preorder(cmp) && Sinking(cmp, s, lo, pl, pm) && pl > lo && cmp(s[pl - 1], s[pl]) > 0
    ensures Sinking(cmp, Swapped(s, pl, pl - 1), lo, pl - 1, pm)
  {
    var t := Swapped(s, pl, pl - 1);
    assert forall k :: 0 <= k < |s| && k != pl && k != pl - 1 ==> t[k] == s[k];
    assert t[pl] == s[pl - 1] && t[pl - 1] == s[pl];
  }

  lemma SinkDone<T(!new)>(cmp: (T, T) -> int, s: seq<T>, lo: int, pl: int, pm: int)
    requires Preorder(cmp) && Sinking(cmp, s, lo, pl, pm)
    requires pl == lo || cmp(s[pl - 1], s[pl]) <= 0
    ensures Sorted(cmp, s, lo, pm + 1)
  {
    forall i, j | lo <= i < j < pm + 1 ensures cmp(s[i], s[j]) <= 0 {
      if j == pl && i < pl - 1 {
        assert cmp(s[i], s[pl - 1]) <= 0;
      }
    }
  }

  lemma SinkStart<T(!new)>(cmp: (T, T) -> int, s: seq<T>, lo: int, pm: int)
    requires 0 <= lo <= pm < |s| && Sorted(cmp, s, lo, pm)
    ensures Sinking(cmp, s, lo, pm, pm)
  {
  }

  /** Both insertion loops of the source: swap the element at pm down to its place. */
  method Sink<T(!new)>(a: array<T>, lo: int, pm: int, cmp: (T, T) -> int)
    requires Preorder(cmp) && 0 <= lo <= pm < a.Length && Sorted(cmp, a[..], lo, pm)
    modifies a
    ensures Permuted(old(a[..]), a[..], lo, pm + 1)
    ensures Sorted(cmp, a[..], lo, pm + 1)
  {
    hide Preorder, Permuted, Swapped, Sinking, Sorted;
    ghost var s := a[..];
    PermutedRefl(s, lo, pm + 1);
    SinkStart(cmp, s, lo, pm);
    var pl := pm;
    while pl > lo && cmp(a[pl - 1], a[pl]) > 0
      invariant lo <= pl <= pm
      invariant Permuted(s, a[..], lo, pm + 1)
      invariant Sinking(cmp, a[..], lo, pl, pm)
    {
      ghost var t := a[..];
      SinkStep(cmp, t, lo, pl, pm);
      SwappedPermutes(t, pl, pl - 1, lo, pm + 1);
      PermutedTrans(s, t, Swapped(t, pl, pl - 1), lo, pm + 1);
      Swap(a, pl, pl - 1);
      pl := pl - 1;
    }
    SinkDone(cmp, a[..], lo, pl, pm);
  }

  method InsertionSort<T(!new)>(a: array<T>, lo: int, hi: int, cmp: (T, T) -> int)
    requires Preorder(cmp) && 0 <= lo <= hi <= a.Length
    modifies a
    ensures Permuted(old(a[..]), a[..], lo, hi)
    ensures Sorted(cmp, a[..], lo, hi)
  {
    hide Preorder, Permuted;
    ghost var s := a[..];
    PermutedRefl(s, lo, hi);
    var pm := lo + 1;
    while pm < hi
      invariant lo < pm && (pm <= hi || hi == lo)
      invariant Permuted(s, a[..], lo, hi)
      invariant Sorted(cmp, a[..], lo, if pm <= hi then pm else hi)
    {
      ghost var t := a[..];
      Sink(a, lo, pm, cmp);
      PermutedWiden(t, a[..], lo, pm + 1, lo, hi);
      PermutedTrans(s, t, a[..], lo, hi);
      pm := pm + 1;
    }
  }

  lemma PermutedRefl<T>(s: seq<T>, lo: int, hi: int)
    requires 0 <= lo <= hi <= |s|
    ensures Permuted(s, s, lo, hi)
  {
  }

  // -------------------------------------------------------------------- partition

  /** With pivot p: equal in [lo, pa), below in [pa, pb), above in (pc, pd], equal in (pd, hi). */
  ghost predicate Parted<T(!new)>(cmp: (T, T) -> int, s: seq<T>, p: T, lo: int, hi: int,
                                  pa: int, pb: int, pc: int, pd: int)
  {
    && 0 <= lo < pa <= pb <= pc + 1 <= pd + 1 <= hi <= |s|
    && s[lo] == p
    && (forall i :: lo <= i < pa ==> cmp(s[i], p) == 0)
    && (forall i :: pa <= i < pb ==> cmp(s[i], p) < 0)
    && (forall i :: pc < i <= pd ==> cmp(s[i], p) > 0)
    && (forall i :: pd < i < hi ==> cmp(s[i], p) == 0)
  }

  lemma PartedLowEqual<T(!new)>(cmp: (T, T) -> int, s: seq<T>, p: T, lo: int, hi: int,
                                pa: int, pb: int, pc: int, pd: int)
    requires Parted(cmp, s, p, lo, hi, pa, pb, pc, pd) && pb <= pc && cmp(s[pb], p) == 0
    ensures Parted(cmp, Swapped(s, pa, pb), p, lo, hi, pa + 1, pb + 1, pc, pd)
  {
    var t := Swapped(s, pa, pb);
    assert forall k :: 0 <= k < |s| && k != pa && k != pb ==> t[k] == s[k];
    assert t[pa] == s[pb] && t[pb] == s[pa];
  }

  lemma PartedHighEqual<T(!new)>(cmp: (T, T) -> int, s: seq<T>, p: T, lo: int, hi: int,
                                 pa: int, pb: int, pc: int, pd: int)
    requires Parted(cmp, s, p, lo, hi, pa, pb, pc, pd) && pb <= pc && cmp(s[pc], p) == 0
    ensures Parted(cmp, Swapped(s, pc, pd), p, lo, hi, pa, pb, pc - 1, pd - 1)
  {
    var t := Swapped(s, pc, pd);
    assert forall k :: 0 <= k < |s| && k != pc && k != pd ==> t[k] == s[k];
    assert t[pc] == s[pd] && t[pd] == s[pc];
  }

  lemma PartedCross<T(!new)>(cmp: (T, T) -> int, s: seq<T>, p: T, lo: int, hi: int, pa: int, pb: int, pc: int, pd: int)
    requires Parted(cmp, s, p, lo, hi, pa, pb, pc, pd) && pb < pc && cmp(s[pb], p) > 0 && cmp(s[pc], p) < 0
    ensures Parted(cmp, Swapped(s, pb, pc), p, lo, hi, pa, pb + 1, pc - 1, pd)
  {
    var t := Swapped(s, pb, pc);
    assert forall k :: 0 <= k < |s| && k != pb && k != pc ==> t[k] == s[k];
    assert t[pb] == s[pc] && t[pc] == s[pb];
  }

  lemma PartedLess<T(!new)>(cmp: (T, T) -> int, s: seq<T>, p: T, lo: int, hi: int, pa: int, pb: int, pc: int, pd: int)
    requires Parted(cmp, s, p, lo, hi, pa, pb, pc, pd) && pb <= pc
    ensures cmp(s[pb], p) < 0 ==> Parted(cmp, s, p, lo, hi, pa, pb + 1, pc, pd)
    ensures cmp(s[pc], p) > 0 ==> Parted(cmp, s, p, lo, hi, pa, pb, pc - 1, pd)
  {
  }

  lemma PartedBounds<T(!new)>(cmp: (T, T) -> int, s: seq<T>, p: T, lo: int, hi: int, pa: int, pb: int, pc: int, pd: int)
    requires Parted(cmp, s, p, lo, hi, pa, pb, pc, pd)
    ensures 0 <= lo < pa <= pb <= pc + 1 <= pd + 1 <= hi <= |s| && s[lo] == p
  {
  }

  lemma PartedStart<T(!new)>(cmp: (T, T) -> int, s: seq<T>, lo: int, hi: int)
    requires Preorder(cmp) && 0 <= lo < hi <= |s|
    ensures Parted(cmp, s, s[lo], lo, hi, lo + 1, lo + 1, hi - 1, hi - 1)
  {
  }

  /** The upward scan: equal elements go to the left end, smaller ones stay. */
  method ScanUp<T(!new)>(a: array<T>, ghost p: T, lo: int, hi: int, pa0: int, pb0: int, pc: int, pd: int,
                         cmp: (T, T) -> int)
    returns (pa: int, pb: int, swapped: bool)
    requires Parted(cmp, a[..], p, lo, hi, pa0, pb0, pc, pd)
    modifies a
    ensures Parted(cmp, a[..], p, lo, hi, pa, pb, pc, pd)
    ensures Permuted(old(a[..]), a[..], lo, hi)
    ensures pb > pc || cmp(a[pb], p) > 0
    ensures pb >= pb0 && (!swapped ==> a[..] == old(a[..]))
  {
    hide Parted, Permuted, Swapped;
    ghost var s := a[..];
    pa, pb, swapped := pa0, pb0, false;
    PartedBounds(cmp, s, p, lo, hi, pa, pb, pc, pd);
    PermutedRefl(s, lo, hi);
    while pb <= pc && cmp(a[pb], a[lo]) <= 0
      invariant Parted(cmp, a[..], p, lo, hi, pa, pb, pc, pd)
      invariant 0 <= lo < pa <= pb <= pc + 1 <= pd + 1 <= hi <= a.Length && a[lo] == p && pb >= pb0
      invariant Permuted(s, a[..], lo, hi) && (!swapped ==> a[..] == s)
      decreases pc - pb
    {
      ghost var t := a[..];
      if cmp(a[pb], a[lo]) == 0 {
        PartedLowEqual(cmp, t, p, lo, hi, pa, pb, pc, pd);
        SwappedPermutes(t, pa, pb, lo, hi);
        PermutedTrans(s, t, Swapped(t, pa, pb), lo, hi);
        swapped := true;
        Swap(a, pa, pb);
        pa := pa + 1;
      } else {
        PartedLess(cmp, t, p, lo, hi, pa, pb, pc, pd);
      }
      pb := pb + 1;
      PartedBounds(cmp, a[..], p, lo, hi, pa, pb, pc, pd);
    }
  }

  /** The downward scan: equal elements go to the right end, larger ones stay. */
  method ScanDown<T(!new)>(a: array<T>, ghost p: T, lo: int, hi: int, pa: int, pb: int, pc0: int, pd0: int,
                           cmp: (T, T) -> int)
    returns (pc: int, pd: int, swapped: bool)
    requires Parted(cmp, a[..], p, lo, hi, pa, pb, pc0, pd0)
    modifies a
    ensures Parted(cmp, a[..], p, lo, hi, pa, pb, pc, pd)
    ensures Permuted(old(a[..]), a[..], lo, hi)
    ensures pb > pc || (cmp(a[pc], p) < 0 && a[pb] == old(a[pb]))
    ensures pc <= pc0 && (!swapped ==> a[..] == old(a[..]))
  {
    hide Parted, Permuted, Swapped;
    ghost var s := a[..];
    pc, pd, swapped := pc0, pd0, false;
    PartedBounds(cmp, s, p, lo, hi, pa, pb, pc, pd);
    PermutedRefl(s, lo, hi);
    while pb <= pc && cmp(a[pc], a[lo]) >= 0
      invariant Parted(cmp, a[..], p, lo, hi, pa, pb, pc, pd)
      invariant 0 <= lo < pa <= pb <= pc + 1 <= pd + 1 <= hi <= a.Length && a[lo] == p && pc <= pc0
      invariant Permuted(s, a[..], lo, hi) && (!swapped ==> a[..] == s)
      invariant pb <= pc ==> a[pb] == s[pb]
      decreases pc - pb
    {
      ghost var t := a[..];
      if cmp(a[pc], a[lo]) == 0 {
        PartedHighEqual(cmp, t, p, lo, hi, pa, pb, pc, pd);
        SwappedPermutes(t, pc, pd, lo, hi);
        PermutedTrans(s, t, Swapped(t, pc, pd), lo, hi);
        swapped := true;
        Swap(a, pc, pd);
        SwappedElsewhere(t, pc, pd, pb);
        pd := pd - 1;
      } else {
        PartedLess(cmp, t, p, lo, hi, pa, pb, pc, pd);
      }
      pc := pc - 1;
      PartedBounds(cmp, a[..], p, lo, hi, pa, pb, pc, pd);
    }
  }

  /** The partitioning loop, from a pivot at the front of the range. */
  method Partition<T(!new)>(a: array<T>, lo: int, hi: int, cmp: (T, T) -> int)
    returns (pa: int, pb: int, pc: int, pd: int, swapped: bool)
    requires Preorder(cmp) && 0 <= lo < hi <= a.Length
    modifies a
    ensures Permuted(old(a[..]), a[..], lo, hi)
    ensures Parted(cmp, a[..], old(a[lo]), lo, hi, pa, pb, pc, pd) && pb == pc + 1
    ensures !swapped ==> a[..] == old(a[..])
  {
    hide Permuted, Swapped, Parted, Preorder;
    ghost var s := a[..];
    ghost var p := a[lo];
    pa, pb, pc, pd, swapped := lo + 1, lo + 1, hi - 1, hi - 1, false;
    PermutedRefl(s, lo, hi);
    PartedStart(cmp, s, lo, hi);
    while true
      invariant Parted(cmp, a[..], p, lo, hi, pa, pb, pc, pd)
      invariant Permuted(s, a[..], lo, hi) && (!swapped ==> a[..] == s)
      decreases pc + 1 - pb
    {
      ghost var t := a[..];
      PartedBounds(cmp, t, p, lo, hi, pa, pb, pc, pd);
      var up, down;
      pa, pb, up := ScanUp(a, p, lo, hi, pa, pb, pc, pd, cmp);
      ghost var u := a[..];
      PermutedTrans(s, t, u, lo, hi);
      PartedBounds(cmp, u, p, lo, hi, pa, pb, pc, pd);
      pc, pd, down := ScanDown(a, p, lo, hi, pa, pb, pc, pd, cmp);
      PermutedTrans(s, u, a[..], lo, hi);
      PartedBounds(cmp, a[..], p, lo, hi, pa, pb, pc, pd);
      swapped := swapped || up || down;
      if pb > pc {
        break;
      }
      ghost var v := a[..];
      PartedCross(cmp, v, p, lo, hi, pa, pb, pc, pd);
      SwappedPermutes(v, pb, pc, lo, hi);
      PermutedTrans(s, v, Swapped(v, pb, pc), lo, hi);
      Swap(a, pb, pc);
      swapped := true;
      pb, pc := pb + 1, pc - 1;
    }
  }

  // ----------------------------------------------------- gathering the equal ends

  /** s with the blocks of r elements at i and j exchanged. */
  ghost predicate Exchanged<T(!new)>(s: seq<T>, t: seq<T>, i: int, j: int, r: int) {
    && 0 <= r && 0 <= i && i + r <= j && j + r <= |s| == |t|
    && (forall k :: i <= k < i + r ==> t[k] == s[k - i + j])
    && (forall k :: j <= k < j + r ==> t[k] == s[k - j + i])
    && (forall k :: 0 <= k < |s| && !(i <= k < i + r) && !(j <= k < j + r) ==> t[k] == s[k])
  }

  lemma ExchangeOne<T(!new)>(s: seq<T>, t: seq<T>, i: int, j: int, k: int)
    requires Exchanged(s, t, i, j, k) && i + k < j && j + k < |s|
    ensures Exchanged(s, Swapped(t, i + k, j + k), i, j, k + 1)
  {
  }

  method VecSwap<T(!new)>(a: array<T>, i: int, j: int, r: int, ghost lo: int, ghost hi: int)
    requires 0 <= lo <= i && 0 <= r && i + r <= j && j + r <= hi <= a.Length
    modifies a
    ensures Exchanged(old(a[..]), a[..], i, j, r)
    ensures Permuted(old(a[..]), a[..], lo, hi)
  {
    hide Permuted, Swapped, Exchanged;
    ghost var s := a[..];
    PermutedRefl(s, lo, hi);
    ExchangeNone(s, i, j);
    var k := 0;
    while k < r
      invariant 0 <= k <= r
      invariant Exchanged(s, a[..], i, j, k)
      invariant Permuted(s, a[..], lo, hi)
    {
      ghost var t := a[..];
      ExchangeOne(s, t, i, j, k);
      SwappedPermutes(t, i + k, j + k, lo, hi);
      PermutedTrans(s, t, Swapped(t, i + k, j + k), lo, hi);
      Swap(a, i + k, j + k);
      k := k + 1;
    }
  }

  lemma ExchangeNone<T(!new)>(s: seq<T>, i: int, j: int)
    requires 0 <= i <= j <= |s|
    ensures Exchanged(s, s, i, j, 0)
  {
  }

  /** Below p in [lo, l), equal to it in [l, h), above it in [h, hi). */
  ghost predicate Split<T(!new)>(cmp: (T, T) -> int, s: seq<T>, p: T, lo: int, l: int, h: int, hi: int) {
    && 0 <= lo <= l < h <= hi <= |s|
    && (forall i :: lo <= i < l ==> cmp(s[i], p) < 0)
    && (forall i :: l <= i < h ==> cmp(s[i], p) == 0)
    && (forall i :: h <= i < hi ==> cmp(s[i], p) > 0)
  }

  /** Equal elements of the left end moved to the middle. */
  lemma GatherLeft<T(!new)>(cmp: (T, T) -> int, s: seq<T>, t: seq<T>, p: T, lo: int, hi: int, pa: int, pb: int, pd: int)
    requires Parted(cmp, s, p, lo, hi, pa, pb, pb - 1, pd)
    requires var r := if pa - lo < pb - pa then pa - lo else pb - pa; Exchanged(s, t, lo, pb - r, r)
    ensures forall i :: lo <= i < lo + (pb - pa) ==> cmp(t[i], p) < 0
    ensures forall i :: lo + (pb - pa) <= i < pb ==> cmp(t[i], p) == 0
    ensures forall i :: pb <= i <= pd ==> cmp(t[i], p) > 0
    ensures forall i :: pd < i < hi ==> cmp(t[i], p) == 0
  {
  }

  lemma GatherRight<T(!new)>(cmp: (T, T) -> int, s: seq<T>, t: seq<T>, p: T, lo: int, hi: int, l: int, pb: int, pd: int)
    requires 0 <= lo <= l < pb <= pd + 1 <= hi <= |s|
    requires forall i :: lo <= i < l ==> cmp(s[i], p) < 0
    requires forall i :: l <= i < pb ==> cmp(s[i], p) == 0
    requires forall i :: pb <= i <= pd ==> cmp(s[i], p) > 0
    requires forall i :: pd < i < hi ==> cmp(s[i], p) == 0
    requires var r := if pd - pb + 1 < hi - pd - 1 then pd - pb + 1 else hi - pd - 1; Exchanged(s, t, pb, hi - r, r)
    ensures Split(cmp, t, p, lo, l, hi - (pd - pb + 1), hi)
  {
  }

  method Gather<T(!new)>(a: array<T>, ghost p: T, lo: int, hi: int, pa: int, pb: int, pc: int, pd: int,
                         ghost cmp: (T, T) -> int)
    requires a.Length >= hi && Parted(cmp, a[..], p, lo, hi, pa, pb, pc, pd) && pb == pc + 1
    modifies a
    ensures Split(cmp, a[..], p, lo, lo + (pb - pa), hi - (pd - pc), hi)
    ensures Permuted(old(a[..]), a[..], lo, hi)
  {
    hide Permuted, Exchanged, Split, Parted;
    ghost var s := a[..];
    PartedBounds(cmp, s, p, lo, hi, pa, pb, pc, pd);
    var r := if pa - lo < pb - pa then pa - lo else pb - pa;
    VecSwap(a, lo, pb - r, r, lo, hi);
    ghost var t := a[..];
    GatherLeft(cmp, s, t, p, lo, hi, pa, pb, pd);
    r := if pd - pc < hi - pd - 1 then pd - pc else hi - pd - 1;
    VecSwap(a, pb, hi - r, r, lo, hi);
    GatherRight(cmp, t, a[..], p, lo, hi, lo + (pb - pa), pb, pd);
    PermutedTrans(s, t, a[..], lo, hi);
  }

  // ----------------------------------------------------------------------- pivot

  function Bit(b: bool): nat {
    if b then 1 else 0
  }

  predicate Median<T>(cmp: (T, T) -> int, x: T, y: T, z: T, m: T) {
    && Bit(cmp(x, m) <= 0) + Bit(cmp(y, m) <= 0) + Bit(cmp(z, m) <= 0) >= 2
    && Bit(cmp(x, m) >= 0) + Bit(cmp(y, m) >= 0) + Bit(cmp(z, m) >= 0) >= 2
  }

  function Med3<T(!new)>(s: seq<T>, i: int, j: int, k: int, cmp: (T, T) -> int): (m: int)
    requires 0 <= i < |s| && 0 <= j < |s| && 0 <= k < |s|
    ensures m == i || m == j || m == k
    ensures Preorder(cmp) ==> Median(cmp, s[i], s[j], s[k], s[m])
  {
    if cmp(s[i], s[j]) < 0 then
      if cmp(s[j], s[k]) < 0 then j else if cmp(s[i], s[k]) < 0 then k else i
    else
      if cmp(s[j], s[k]) > 0 then j else if cmp(s[i], s[k]) < 0 then i else k
  }

  /** The pivot: the middle element, a median of three, or a median of three medians. */
  method ChoosePivot<T(!new)>(a: array<T>, lo: int, n: int, cmp: (T, T) -> int) returns (pm: int)
    requires 0 <= lo && 7 <= n && lo + n <= a.Length
    ensures lo <= pm < lo + n
  {
    pm := lo + n / 2;
    if n > 7 {
      var pl, pn := lo, lo + (n - 1);
      if n > 40 {
        var d := n / 8;
        pl := Med3(a[..], pl, pl + d, pl + 2 * d, cmp);
        pm := Med3(a[..], pm - d, pm, pm + d, cmp);
        pn := Med3(a[..], pn - 2 * d, pn - d, pn, cmp);
      }
      pm := Med3(a[..], pl, pm, pn, cmp);
    }
  }

  // ------------------------------------------------------------------------ qsort

  /** [lo0, lo) is in its final order and nothing in [lo, hi) belongs before it. */
  ghost predicate Settled<T(!new)>(cmp: (T, T) -> int, s: seq<T>, lo0: int, lo: int, hi: int) {
    && 0 <= lo0 <= lo <= hi <= |s|
    && (forall i, j :: lo0 <= i < lo && i < j < hi ==> cmp(s[i], s[j]) <= 0)
  }

  lemma SettledKept<T(!new)>(cmp: (T, T) -> int, s: seq<T>, t: seq<T>, lo0: int, lo: int, hi: int)
    requires Settled(cmp, s, lo0, lo, hi) && Permuted(s, t, lo, hi)
    ensures Settled(cmp, t, lo0, lo, hi)
  {
    forall i, j | lo0 <= i < lo && i < j < hi ensures cmp(t[i], t[j]) <= 0 {
      assert t[i] == t[..lo][i] == s[..lo][i] == s[i];
      if j < lo {
        assert t[j] == t[..lo][j] == s[..lo][j] == s[j];
      } else {
        PermutedElement(s, t, lo, hi, j);
      }
    }
  }

  lemma SplitKept<T(!new)>(cmp: (T, T) -> int, s: seq<T>, t: seq<T>, p: T, lo: int, l: int, h: int, hi: int)
    requires Split(cmp, s, p, lo, l, h, hi) && Permuted(s, t, lo, l)
    ensures Split(cmp, t, p, lo, l, h, hi)
  {
    forall i | lo <= i < l ensures cmp(t[i], p) < 0 {
      PermutedElement(s, t, lo, l, i);
    }
    assert forall i :: l <= i < |s| ==> t[i] == t[l..][i - l] == s[l..][i - l] == s[i];
  }

  lemma SettleMore<T(!new)>(cmp: (T, T) -> int, s: seq<T>, p: T, lo0: int, lo: int, l: int, h: int, hi: int)
    requires Preorder(cmp) && Settled(cmp, s, lo0, lo, hi) && Split(cmp, s, p, lo, l, h, hi) && Sorted(cmp, s, lo, l)
    ensures Settled(cmp, s, lo0, h, hi)
  {
    forall i, j | lo0 <= i < h && i < j < hi ensures cmp(s[i], s[j]) <= 0 {
      if i >= lo && !(j < l) {
        assert cmp(s[i], p) <= 0;
        assert cmp(p, s[j]) <= 0;
      }
    }
  }

  lemma SettledSorted<T(!new)>(cmp: (T, T) -> int, s: seq<T>, lo0: int, lo: int, hi: int)
    requires Settled(cmp, s, lo0, lo, hi) && Sorted(cmp, s, lo, hi)
    ensures Sorted(cmp, s, lo0, hi)
  {
  }

  /** One round: partition [lo, lo + n) and gather the equal elements, or sort it outright. */
  method Round<T(!new)>(a: array<T>, lo: int, n: int, cmp: (T, T) -> int)
    returns (done: bool, l: int, h: int, ghost p: T)
    requires Preorder(cmp) && 7 <= n && 0 <= lo && lo + n <= a.Length
    modifies a
    ensures Permuted(old(a[..]), a[..], lo, lo + n)
    ensures done ==> Sorted(cmp, a[..], lo, lo + n)
    ensures !done ==> Split(cmp, a[..], p, lo, l, h, lo + n)
  {
    hide Permuted, Parted, Split, Sorted, Preorder, Swapped;
    ghost var s := a[..];
    var hi := lo + n;
    var pm := ChoosePivot(a, lo, n, cmp);
    SwappedPermutes(s, lo, pm, lo, hi);
    Swap(a, lo, pm);
    ghost var t := a[..];
    p := a[lo];
    var pa, pb, pc, pd, swapped := Partition(a, lo, hi, cmp);
    ghost var u := a[..];
    PermutedTrans(s, t, u, lo, hi);
    l, h := lo + (pb - pa), hi - (pd - pc);
    if !swapped {
      InsertionSort(a, lo, hi, cmp);
      done := true;
    } else {
      Gather(a, p, lo, hi, pa, pb, pc, pd, cmp);
      done := false;
    }
    PermutedTrans(s, u, a[..], lo, hi);
  }

  /** Work on [lo, h) leaves a permutation of the whole and what was settled before it. */
  lemma WorkKept<T(!new)>(cmp: (T, T) -> int, s: seq<T>, t: seq<T>, u: seq<T>, lo0: int, lo: int, h: int, hi: int)
    requires Permuted(s, t, lo0, hi) && Settled(cmp, t, lo0, lo, hi) && Permuted(t, u, lo, h) && lo <= h <= hi
    ensures Permuted(s, u, lo0, hi) && Settled(cmp, u, lo0, lo, hi)
  {
    hide Permuted, Settled;
    SettledBounds(cmp, t, lo0, lo, hi);
    PermutedWiden(t, u, lo, h, lo0, hi);
    PermutedTrans(s, t, u, lo0, hi);
    PermutedWiden(t, u, lo, h, lo, hi);
    SettledKept(cmp, t, u, lo0, lo, hi);
  }

  lemma SettledBounds<T(!new)>(cmp: (T, T) -> int, s: seq<T>, lo0: int, lo: int, hi: int)
    requires Settled(cmp, s, lo0, lo, hi)
    ensures 0 <= lo0 <= lo <= hi <= |s|
  {
  }

  method Qsort<T(!new)>(a: array<T>, lo0: int, n0: int, cmp: (T, T) -> int)
    requires Preorder(cmp) && 0 <= lo0 && 0 <= n0 && lo0 + n0 <= a.Length
    modifies a
    ensures Permuted(old(a[..]), a[..], lo0, lo0 + n0)
    ensures Sorted(cmp, a[..], lo0, lo0 + n0)
    decreases n0
  {
    hide Permuted, Split, Sorted, Preorder, Settled;
    ghost var s := a[..];
    var lo, n := lo0, n0;
    var hi := lo0 + n0;
    PermutedRefl(s, lo0, hi);
    SettledNone(cmp, s, lo0, hi);
    while true
      invariant lo0 <= lo && 0 <= n && lo + n == hi
      invariant Permuted(s, a[..], lo0, hi)
      invariant Settled(cmp, a[..], lo0, lo, hi)
      decreases n
    {
      ghost var t := a[..];
      if n < 7 {
        InsertionSort(a, lo, lo + n, cmp);
        WorkKept(cmp, s, t, a[..], lo0, lo, hi, hi);
        SettledSorted(cmp, a[..], lo0, lo, hi);
        return;
      }
      ghost var p;
      var done, l, h;
      done, l, h, p := Round(a, lo, n, cmp);
      ghost var u := a[..];
      WorkKept(cmp, s, t, u, lo0, lo, hi, hi);
      if done {
        SettledSorted(cmp, u, lo0, lo, hi);
        return;
      }
      SplitBounds(cmp, u, p, lo, l, h, hi);
      if l - lo > 1 {
        Qsort(a, lo, l - lo, cmp);
        WorkKept(cmp, s, u, a[..], lo0, lo, l, hi);
        SplitKept(cmp, u, a[..], p, lo, l, h, hi);
      } else {
        SortedShort(cmp, u, lo, l);
      }
      SettleMore(cmp, a[..], p, lo0, lo, l, h, hi);
      if hi - h > 1 {
        lo, n := h, hi - h;
      } else {
        SortedShort(cmp, a[..], h, hi);
        SettledSorted(cmp, a[..], lo0, h, hi);
        return;
      }
    }
  }

  lemma SettledNone<T(!new)>(cmp: (T, T) -> int, s: seq<T>, lo: int, hi: int)
    requires 0 <= lo <= hi <= |s|
    ensures Settled(cmp, s, lo, lo, hi)
  {
  }

  lemma SplitBounds<T(!new)>(cmp: (T, T) -> int, s: seq<T>, p: T, lo: int, l: int, h: int, hi: int)
    requires Split(cmp, s, p, lo, l, h, hi)
    ensures 0 <= lo <= l < h <= hi <= |s|
  {
  }

  lemma SortedShort<T(!new)>(cmp: (T, T) -> int, s: seq<T>, lo: int, hi: int)
    requires 0 <= lo <= hi <= |s| && hi - lo <= 1
    ensures Sorted(cmp, s, lo, hi)
  {
  }
}
