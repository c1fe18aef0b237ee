/** The error each bio of a request ends with, over any run of partial completions. */
module CompletionErrors {
  import opened Arith
  import opened Completion

  /** A call for n bytes touches the first bio left, and each further one that starts before
      the bytes run out. */
  predicate Touches(bios: seq<Bio>, n: nat, j: nat) {
    j < |bios| && (j == 0 || Bytes(bios[..j]) < n)
  }

  /** What a bio ends with in a call that has the given error. */
  predicate Reports(e: End, id: nat, error: int, fine: bool) {
    && e.id == id
    && (error != 0 ==> e.error == error)
    && (error == 0 ==> e.error == if fine then 0 else EIO)
  }

  lemma BytesSplit(bios: seq<Bio>, j: nat)
    requires 0 < j <= |bios|
    ensures Bytes(bios[..j]) == Size(bios[0]) + Bytes(bios[1..][..j - 1])
  {
    assert bios[..j][1..] == bios[1..][..j - 1];
  }

  /** One step of the loop on the bio in front. */
  lemma EndIoFirst(r: Request, n: nat, error: int)
    requires r.bios != [] && n <= Size(r.bios[0]) && !r.flushSeq
    ensures var r', b := BioEndIo(r, n, error), r.bios[0];
      && !r'.flushSeq && r.ended <= r'.ended
      && (n == Size(b) ==> |r'.ended| == |r.ended| + 1 && Reports(r'.ended[|r.ended|], b.id, error, b.upToDate)
                           && r'.bios == r.bios[1..])
      && (n < Size(b) ==> r'.ended == r.ended && |r'.bios| == |r.bios| && r'.bios[1..] == r.bios[1..]
                          && r'.bios[0].id == b.id && (r'.bios[0].upToDate <==> b.upToDate && error == 0))
  {
  }

  /** What a call makes of the j-th bio left. */
  ghost predicate Tracks(r: Request, error: int, n: nat, j: nat, r': Request)
    requires j < |r.bios| && |r.ended| <= |r'.ended|
  {
    var m, b := |r'.ended| - |r.ended|, r.bios[j];
    && |r'.bios| == |r.bios| - m
    && (j < m <==> Touches(r.bios, n, j) && Bytes(r.bios[..j + 1]) <= n)
    && (j < m ==> Reports(r'.ended[|r.ended| + j], b.id, error, b.upToDate))
    && (j >= m ==> r'.bios[j - m].id == b.id
                   && (r'.bios[j - m].upToDate <==> b.upToDate && (Touches(r.bios, n, j) ==> error == 0)))
  }

  lemma {:induction false} ConsumeTracks(r: Request, error: int, n: nat, j: nat)
    requires !r.flushSeq && j < |r.bios|
    ensures var r' := Consume(r, error, n).0;
      !r'.flushSeq && r.ended <= r'.ended && Tracks(r, error, n, j, r')
    decreases |r.bios|
  {
    hide BioEndIo, Size, Reports;
    var k := Min(Size(r.bios[0]), n);
    var r' := BioEndIo(r, k, error);
    EndIoFirst(r, k, error);
    BytesSplit(r.bios, j + 1);
    if j > 0 { BytesSplit(r.bios, j); }
    if !(n == k || |r'.bios| >= |r.bios|) {
      assert k == Size(r.bios[0]) && r'.bios == r.bios[1..];
      if j > 0 {
        ConsumeTracks(r', error, n - k, j - 1);
      } else if r'.bios != [] {
        ConsumeTracks(r', error, n - k, 0);
      }
    }
  }

  lemma UpdateTracks(r: Request, error: int, n: nat, j: nat)
    requires !r.flushSeq && j < |r.bios|
    ensures var r' := Update(r, error, n).0;
      !r'.flushSeq && r.ended <= r'.ended && Tracks(r, error, n, j, r')
  {
    hide Consume, Reports;
    ConsumeTracks(r, error, n, j);
  }

  // ------------------------------------------------------------------------------ runs

  /** The request as call number c finds it. */
  function Before(r: Request, calls: seq<Call>, c: nat): Request
    requires c <= |calls|
  {
    Run(r, calls[..c])
  }

  lemma {:induction false} RunSnoc(r: Request, calls: seq<Call>, c: Call)
    ensures Run(r, calls + [c]) == Update(Run(r, calls), c.error, c.n).0
    decreases |calls|
  {
    if calls == [] {
      assert (calls + [c])[1..] == [];
    } else {
      assert (calls + [c])[1..] == calls[1..] + [c];
      RunSnoc(Update(r, calls[0].error, calls[0].n).0, calls[1..], c);
    }
  }

  lemma BeforeNext(r: Request, calls: seq<Call>, c: nat)
    requires c < |calls|
    ensures Before(r, calls, c + 1) == Update(Before(r, calls, c), calls[c].error, calls[c].n).0
  {
    assert calls[..c + 1] == calls[..c] + [calls[c]];
    RunSnoc(r, calls[..c], calls[c]);
  }

  /** Call number d touches the i-th bio of the request as it was at first. */
  predicate CallTouches(r: Request, calls: seq<Call>, d: nat, i: nat)
    requires d < |calls|
  {
    var at := Before(r, calls, d);
    i >= |at.ended| && Touches(at.bios, calls[d].n, i - |at.ended|)
  }

  /** The i-th bio came up to date, and no call before c that touched it had an error. */
  ghost predicate Fine(r: Request, calls: seq<Call>, c: nat, i: nat)
    requires i < |r.bios| && c <= |calls|
  {
    r.bios[i].upToDate && forall d :: 0 <= d < c && CallTouches(r, calls, d, i) ==> calls[d].error == 0
  }

  /** The i-th bio as call number c finds it: ended already, or still in the chain with the
      state its past gives it. */
  ghost predicate Found(r: Request, calls: seq<Call>, c: nat, i: nat)
    requires i < |r.bios| && c <= |calls|
  {
    var at := Before(r, calls, c);
    && !at.flushSeq && |at.ended| + |at.bios| == |r.bios|
    && (i >= |at.ended| ==>
          && at.bios[i - |at.ended|].id == r.bios[i].id
          && (at.bios[i - |at.ended|].upToDate <==> Fine(r, calls, c, i)))
  }

  lemma {:induction false} FoundAt(r: Request, calls: seq<Call>, c: nat, i: nat)
    requires r.ended == [] && !r.flushSeq && i < |r.bios| && c <= |calls|
    ensures Found(r, calls, c, i)
    decreases c
  {
    if c == 0 {
      assert calls[..0] == [];
    } else {
      FoundAt(r, calls, c - 1, i);
      FoundNext(r, calls, c - 1, i);
    }
  }

  lemma FoundNext(r: Request, calls: seq<Call>, c: nat, i: nat)
    requires i < |r.bios| && c < |calls| && Found(r, calls, c, i)
    ensures Found(r, calls, c + 1, i)
    ensures var at, next := Before(r, calls, c), Before(r, calls, c + 1);
      && at.ended <= next.ended
      && (|at.ended| <= i < |next.ended| ==>
            CallTouches(r, calls, c, i) && Reports(next.ended[i], r.bios[i].id, calls[c].error, Fine(r, calls, c, i)))
  {
    hide Before, Update, Reports, Touches;
    var at := Before(r, calls, c);
    BeforeNext(r, calls, c);
    if at.bios == [] {
      FinishedUpdate(at, calls[c].error, calls[c].n);
    } else {
      var j := if i >= |at.ended| then i - |at.ended| else 0;
      UpdateTracks(at, calls[c].error, calls[c].n, j);
    }
    FineNext(r, calls, c, i);
  }

  lemma FineNext(r: Request, calls: seq<Call>, c: nat, i: nat)
    requires i < |r.bios| && c < |calls|
    ensures Fine(r, calls, c + 1, i) <==> Fine(r, calls, c, i) && (CallTouches(r, calls, c, i) ==> calls[c].error == 0)
  {
    hide CallTouches;
  }

  lemma {:induction false} EndedGrows(r: Request, calls: seq<Call>, c: nat, d: nat, i: nat)
    requires r.ended == [] && !r.flushSeq && i < |r.bios| && c <= d <= |calls|
    ensures Before(r, calls, c).ended <= Before(r, calls, d).ended
    decreases d
  {
    hide Before, Found;
    if c < d {
      EndedGrows(r, calls, c, d - 1, i);
      FoundAt(r, calls, d - 1, i);
      FoundNext(r, calls, d - 1, i);
    }
  }

  lemma RunReports(r: Request, calls: seq<Call>, c: nat, i: nat)
    requires r.ended == [] && !r.flushSeq && i < |r.bios| && c < |calls|
    requires |Before(r, calls, c).ended| <= i < |Before(r, calls, c + 1).ended|
    ensures i < |Run(r, calls).ended|
    ensures Reports(Run(r, calls).ended[i], r.bios[i].id, calls[c].error, Fine(r, calls, c, i))
  {
    hide Before, Found, Reports, Fine, Run, CallTouches;
    FoundAt(r, calls, c, i);
    FoundNext(r, calls, c, i);
    EndedGrows(r, calls, c + 1, |calls|, i);
    AllBefore(r, calls);
  }

  /** Over any run of completions, a bio that ends in call c reports the error of that call, if
      it has one. Otherwise it reports none exactly when it came up to date and no call that
      touched it had an error, and -EIO if not. */
  lemma RunErrors(r: Request, calls: seq<Call>, c: nat, i: nat)
    requires r.ended == [] && !r.flushSeq && i < |r.bios| && c < |calls|
    requires |Before(r, calls, c).ended| <= i < |Before(r, calls, c + 1).ended|
    ensures i < |Run(r, calls).ended|
    ensures var e := Run(r, calls).ended[i];
      && e.id == r.bios[i].id
      && (calls[c].error != 0 ==> e.error == calls[c].error)
      && (calls[c].error == 0 ==>
            e.error == if r.bios[i].upToDate
                          && forall d :: 0 <= d < c && CallTouches(r, calls, d, i) ==> calls[d].error == 0
                       then 0 else EIO)
  {
    hide Before, Run, CallTouches;
    RunReports(r, calls, c, i);
  }

  lemma AllBefore(r: Request, calls: seq<Call>)
    ensures Before(r, calls, |calls|) == Run(r, calls)
  {
    assert calls[..|calls|] == calls;
  }

  /** Which call that is: the one that touches the bio and covers its last byte. */
  lemma EndsWhen(r: Request, calls: seq<Call>, c: nat, i: nat)
    requires r.ended == [] && !r.flushSeq && i < |r.bios| && c < |calls|
    ensures var at, next := Before(r, calls, c), Before(r, calls, c + 1);
      |at.ended| <= i < |next.ended| <==>
        CallTouches(r, calls, c, i) && Bytes(at.bios[..i - |at.ended| + 1]) <= calls[c].n
  {
    hide Before, Update, Reports, Touches;
    FoundAt(r, calls, c, i);
    var at := Before(r, calls, c);
    BeforeNext(r, calls, c);
    if at.bios == [] {
      FinishedUpdate(at, calls[c].error, calls[c].n);
    } else {
      var j := if i >= |at.ended| then i - |at.ended| else 0;
      UpdateTracks(at, calls[c].error, calls[c].n, j);
    }
    TouchesHere(at.bios, calls[c].n, i - |at.ended|);
  }

  lemma TouchesHere(bios: seq<Bio>, n: nat, j: int)
    ensures j >= |bios| ==> !Touches(bios, n, j)
  {
  }
}
