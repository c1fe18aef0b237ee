/** Completing a request in part or in full, bio by bio. */
module Completion {
  import opened Arith

  const EIO: int := -5

  /** vecs: the segment lengths that remain. */
  datatype Bio = Bio(id: nat, vecs: seq<nat>, upToDate: bool)

  /** A call of bio_endio. */
  datatype End = End(id: nat, error: int)

  /** tail: biotail, which stays behind when the chain has been consumed. */
  datatype Request = Request(
    bios: seq<Bio>, tail: Bio, dataLen: nat, sector: nat, fs: bool, flushSeq: bool, ended: seq<End>)

  function Sum(vecs: seq<nat>): nat {
    if vecs == [] then 0 else vecs[0] + Sum(vecs[1..])
  }

  function Size(b: Bio): nat {
    Sum(b.vecs)
  }

  function Bytes(bios: seq<Bio>): nat {
    if bios == [] then 0 else Size(bios[0]) + Bytes(bios[1..])
  }

  /** bio_advance. */
  function Advance(vecs: seq<nat>, n: nat): (r: seq<nat>)
    requires n <= Sum(vecs)
    ensures Sum(r) == Sum(vecs) - n
    decreases |vecs|
  {
    if n == 0 then vecs
    else if n >= vecs[0] then Advance(vecs[1..], n - vecs[0])
    else
      assert ([vecs[0] - n] + vecs[1..])[1..] == vecs[1..];
      [vecs[0] - n] + vecs[1..]
  }

  ghost predicate Positive(vecs: seq<nat>) {
    forall i :: 0 <= i < |vecs| ==> vecs[i] > 0
  }

  /** What is left are the segments at the end, the first of them cut short where n falls inside
      it; no empty segment stays behind. */
  lemma {:induction false} AdvanceSuffix(vecs: seq<nat>, n: nat)
    requires n <= Sum(vecs) && Positive(vecs)
    ensures var r := Advance(vecs, n);
      && Positive(r) && |r| <= |vecs|
      && (r != [] ==> r[0] <= vecs[|vecs| - |r|] && r[1..] == vecs[|vecs| - |r| + 1..])
    decreases |vecs|
  {
    if n > 0 && n >= vecs[0] {
      var rest := vecs[1..];
      AdvanceSuffix(rest, n - vecs[0]);
      var r := Advance(rest, n - vecs[0]);
      if r != [] { assert rest[|rest| - |r| + 1..] == vecs[|vecs| - |r| + 1..]; }
    }
  }

  /** The state of a bio after n of its bytes are done, and the error it would end with. */
  function Touched(b: Bio, n: nat, error: int): Bio
    requires n <= Size(b)
  {
    b.(vecs := Advance(b.vecs, n), upToDate := b.upToDate && error == 0)
  }

  function EndError(b: Bio, error: int): int {
    if error == 0 && !b.upToDate then EIO else error
  }

  /** req_bio_endio on the first bio of r. */
  function BioEndIo(r: Request, n: nat, error: int): Request
    requires r.bios != [] && n <= Size(r.bios[0])
  {
    var b := Touched(r.bios[0], n, error);
    var rest := if n == Size(r.bios[0]) then r.bios[1..] else [b] + r.bios[1..];
    r.(bios := rest, tail := if |r.bios| == 1 then b else r.tail,
       ended := if Size(b) == 0 && !r.flushSeq then r.ended + [End(b.id, EndError(r.bios[0], error))] else r.ended)
  }

  /** The loop of blk_update_request: the request and the bytes consumed. */
  function Consume(r: Request, error: int, n: nat): (Request, nat)
    decreases |r.bios|
  {
    if r.bios == [] then (r, 0)
    else
      var k := Min(Size(r.bios[0]), n);
      var r' := BioEndIo(r, k, error);
      if n == k || |r'.bios| >= |r.bios| then (r', k)
      else
        var (r'', total) := Consume(r', error, n - k);
        (r'', k + total)
  }

  function CurBytes(b: Bio): nat {
    if b.vecs == [] then 0 else b.vecs[0]
  }

  /** blk_update_request: true while there is more to come. */
  function Update(r: Request, error: int, n: nat): (Request, bool) {
    if r.bios == [] then (r, false)
    else
      var (r', total) := Consume(r, error, n);
      if r'.bios == [] then (r'.(dataLen := 0), false)
      else
        var left := if r.dataLen < total then 0 else r.dataLen - total;
        var cur := CurBytes(r'.bios[0]);
        (r'.(dataLen := if left < cur then cur else left,
             sector := if r.fs then r.sector + total / 512 else r.sector), true)
  }

  // ---------------------------------------------------------------- each bio ends once

  function Ids(bios: seq<Bio>): seq<nat> {
    if bios == [] then [] else [bios[0].id] + Ids(bios[1..])
  }

  function EndedIds(ended: seq<End>): seq<nat> {
    if ended == [] then [] else EndedIds(ended[..|ended| - 1]) + [ended[|ended| - 1].id]
  }

  /** The bios that have ended, then those that have not. */
  function Everyone(r: Request): seq<nat> {
    EndedIds(r.ended) + Ids(r.bios)
  }

  ghost predicate Inv(r: Request) {
    r.dataLen == Bytes(r.bios) && (r.bios != [] ==> r.bios[|r.bios| - 1] == r.tail)
  }

  lemma BioEndIoOk(r: Request, n: nat, error: int)
    requires r.bios != [] && n <= Size(r.bios[0]) && !r.flushSeq
    ensures var r' := BioEndIo(r, n, error);
      && Everyone(r') == Everyone(r) && Bytes(r'.bios) == Bytes(r.bios) - n
  {
    var b := Touched(r.bios[0], n, error);
    var r' := BioEndIo(r, n, error);
    if Size(b) == 0 {
      assert r'.ended[..|r'.ended| - 1] == r.ended;
      assert EndedIds(r.ended) + [b.id] + Ids(r.bios[1..]) == EndedIds(r.ended) + ([b.id] + Ids(r.bios[1..]));
    } else {
      assert ([b] + r.bios[1..])[1..] == r.bios[1..];
    }
  }

  lemma BioEndIoTail(r: Request, n: nat, error: int)
    requires r.bios != [] && n <= Size(r.bios[0]) && r.bios[|r.bios| - 1] == r.tail
    ensures var r' := BioEndIo(r, n, error);
      && (r'.bios != [] ==> r'.bios[|r'.bios| - 1] == r'.tail)
      && r' == r.(bios := r'.bios, tail := r'.tail, ended := r'.ended)
  {
  }

  /** Consuming n bytes ends the finished bios in order and leaves the rest. */
  lemma {:induction false} ConsumeOk(r: Request, error: int, n: nat)
    requires !r.flushSeq && (r.bios != [] ==> r.bios[|r.bios| - 1] == r.tail)
    ensures var (r', total) := Consume(r, error, n);
      && Everyone(r') == Everyone(r) && Bytes(r'.bios) == Bytes(r.bios) - total
      && total == Min(n, Bytes(r.bios))
      && (r'.bios != [] ==> r'.bios[|r'.bios| - 1] == r'.tail)
      && r' == r.(bios := r'.bios, tail := r'.tail, ended := r'.ended)
    decreases |r.bios|
  {
    hide Everyone, BioEndIo;
    if r.bios != [] {
      var k := Min(Size(r.bios[0]), n);
      var r' := BioEndIo(r, k, error);
      BioEndIoOk(r, k, error);
      BioEndIoTail(r, k, error);
      Popped(r, k, error);
      if !(n == k || |r'.bios| >= |r.bios|) {
        ConsumeOk(r', error, n - k);
      }
    }
  }

  lemma Popped(r: Request, n: nat, error: int)
    requires r.bios != [] && n <= Size(r.bios[0])
    ensures var r' := BioEndIo(r, n, error);
      if n == Size(r.bios[0]) then r'.bios == r.bios[1..] else |r'.bios| == |r.bios|
  {
  }

  lemma CurWithin(bios: seq<Bio>)
    requires bios != []
    ensures CurBytes(bios[0]) <= Bytes(bios)
  {
  }

  /** A partial completion keeps the byte count, ends finished bios in order, never finds the
      request botched, and asks for more exactly while a bio is left. */
  lemma UpdateOk(r: Request, error: int, n: nat)
    requires Inv(r) && !r.flushSeq
    ensures var (r', more) := Update(r, error, n);
      && Inv(r') && Everyone(r') == Everyone(r) && !r'.flushSeq && r'.fs == r.fs
      && r'.dataLen == r.dataLen - Min(n, r.dataLen)
      && (more <==> r'.bios != [])
      && r.ended <= r'.ended
      && (more && r.fs ==> r'.sector == r.sector + Min(n, r.dataLen) / 512)
  {
    hide Everyone;
    ConsumeOk(r, error, n);
    ConsumePrefix(r, error, n);
    var r' := Consume(r, error, n).0;
    if r'.bios != [] { CurWithin(r'.bios); }
    EveryoneFrame(r', Update(r, error, n).0);
  }

  /** A byte count that falls below the current segment is set right: it is never less. */
  lemma BotchedSetRight(r: Request, error: int, n: nat)
    requires !r.flushSeq && (r.bios != [] ==> r.bios[|r.bios| - 1] == r.tail) && r.dataLen >= Bytes(r.bios)
    ensures var (r', more) := Update(r, error, n);
      more ==> r'.bios != [] && r'.dataLen == Max(r.dataLen - Min(n, Bytes(r.bios)),
                                                  if r'.bios[0].vecs == [] then 0 else r'.bios[0].vecs[0])
  {
    ConsumeOk(r, error, n);
  }

  lemma EveryoneFrame(r: Request, r': Request)
    requires r'.ended == r.ended && r'.bios == r.bios
    ensures Everyone(r') == Everyone(r)
  {
  }

  lemma LogGrows(r: Request, n: nat, error: int)
    requires r.bios != [] && n <= Size(r.bios[0])
    ensures r.ended <= BioEndIo(r, n, error).ended
  {
  }

  lemma {:induction false} ConsumePrefix(r: Request, error: int, n: nat)
    ensures r.ended <= Consume(r, error, n).0.ended
    decreases |r.bios|
  {
    hide BioEndIo, Size;
    if r.bios != [] {
      var k := Min(Size(r.bios[0]), n);
      var r' := BioEndIo(r, k, error);
      LogGrows(r, k, error);
      if !(n == k || |r'.bios| >= |r.bios|) { ConsumePrefix(r', error, n - k); }
    }
  }

  // ---------------------------------------------------------------------------- errors

  lemma Logged(r: Request, n: nat, error: int)
    requires r.bios != [] && n <= Size(r.bios[0]) && !r.flushSeq
    ensures var r' := BioEndIo(r, n, error);
      && !r'.flushSeq
      && (if n == Size(r.bios[0])
          then r'.bios == r.bios[1..] && r'.ended == r.ended + [End(r.bios[0].id, EndError(r.bios[0], error))]
          else |r'.bios| == |r.bios| && r'.ended == r.ended)
  {
  }

  /** Every bio that ends in a failing call ends with its error; in a successful call a bio
      ends without error unless an earlier part of it failed. */
  lemma {:induction false} ConsumeErrors(r: Request, error: int, n: nat, i: nat)
    requires !r.flushSeq && |r.ended| <= i < |Consume(r, error, n).0.ended|
    ensures i - |r.ended| < |r.bios|
    ensures var e, b := Consume(r, error, n).0.ended[i], r.bios[i - |r.ended|];
      e.id == b.id && e.error == if error != 0 then error else if b.upToDate then 0 else EIO
    decreases |r.bios|
  {
    hide BioEndIo, Size;
    if r.bios != [] {
      var k := Min(Size(r.bios[0]), n);
      Logged(r, k, error);
      var r' := BioEndIo(r, k, error);
      if !(n == k || |r'.bios| >= |r.bios|) {
        ConsumePrefix(r', error, n - k);
        if i > |r.ended| { ConsumeErrors(r', error, n - k, i); }
      }
    }
  }

  // ------------------------------------------------------------------ when is it done

  /** Completing blk_rq_bytes finishes a request exactly when at most one bio is left or the
      last one has data: the loop stops once the bytes are used up. */
  lemma {:induction false} AllBytesFinish(r: Request, error: int)
    requires r.bios != []
    ensures Consume(r, error, Bytes(r.bios)).0.bios == [] <==>
              (|r.bios| == 1 || Size(r.bios[|r.bios| - 1]) > 0)
    decreases |r.bios|
  {
    hide BioEndIo, Size;
    var k := Min(Size(r.bios[0]), Bytes(r.bios));
    Popped(r, k, error);
    var r' := BioEndIo(r, k, error);
    if |r.bios| > 1 {
      if Bytes(r.bios) == k {
        NoBytes(r.bios[1..]);
      } else {
        AllBytesFinish(r', error);
      }
    }
  }

  lemma {:induction false} NoBytes(bios: seq<Bio>)
    requires bios != []
    ensures Bytes(bios) == 0 ==> Size(bios[|bios| - 1]) == 0
  {
    if |bios| > 1 { NoBytes(bios[1..]); }
  }

  /** A request whose last bio is empty is not finished by completing all its bytes. */
  lemma EmptyTailRemains()
    ensures var r := Request([Bio(0, [512], true), Bio(1, [], true)], Bio(1, [], true), 512, 0, true, false, []);
      Inv(r) && Update(r, 0, r.dataLen).1
  {
    var r := Request([Bio(0, [512], true), Bio(1, [], true)], Bio(1, [], true), 512, 0, true, false, []);
    assert r.bios[1..] == [Bio(1, [], true)];
    assert Size(r.bios[0]) == 512 by { assert r.bios[0].vecs[1..] == []; }
    AllBytesFinish(r, 0);
  }

  // ----------------------------------------------------------------------------- runs

  datatype Call = Call(error: int, n: nat)

  function Run(r: Request, calls: seq<Call>): Request
    decreases |calls|
  {
    if calls == [] then r else Run(Update(r, calls[0].error, calls[0].n).0, calls[1..])
  }

  function Asked(calls: seq<Call>): nat {
    if calls == [] then 0 else calls[0].n + Asked(calls[1..])
  }

  /** Any run of partial completions ends bios in chain order, each once, keeps __data_len
      equal to the bytes left, and leaves exactly the bytes not asked for. */
  lemma {:induction false} RunOk(r: Request, calls: seq<Call>)
    requires Inv(r) && !r.flushSeq
    ensures var r' := Run(r, calls);
      && Inv(r') && !r'.flushSeq && Everyone(r') == Everyone(r) && r.ended <= r'.ended
      && r'.dataLen == r.dataLen - Min(Asked(calls), r.dataLen)
    decreases |calls|
  {
    hide Inv, Everyone, Update;
    if calls != [] {
      UpdateOk(r, calls[0].error, calls[0].n);
      RunOk(Update(r, calls[0].error, calls[0].n).0, calls[1..]);
    }
  }

  ghost predicate HasData(bios: seq<Bio>) {
    forall i :: 0 <= i < |bios| ==> Size(bios[i]) > 0
  }

  lemma {:induction false} DataLeft(bios: seq<Bio>)
    requires HasData(bios)
    ensures bios == [] <==> Bytes(bios) == 0
  {
  }

  lemma {:induction false} ConsumeData(r: Request, error: int, n: nat)
    requires HasData(r.bios)
    ensures HasData(Consume(r, error, n).0.bios)
    decreases |r.bios|
  {
    if r.bios != [] {
      var k := Min(Size(r.bios[0]), n);
      var r' := BioEndIo(r, k, error);
      if !(n == k || |r'.bios| >= |r.bios|) { ConsumeData(r', error, n - k); }
    }
  }

  lemma {:induction false} RunData(r: Request, calls: seq<Call>)
    requires Inv(r) && !r.flushSeq && HasData(r.bios)
    ensures HasData(Run(r, calls).bios)
    decreases |calls|
  {
    if calls != [] {
      ConsumeData(r, calls[0].error, calls[0].n);
      UpdateOk(r, calls[0].error, calls[0].n);
      RunData(Update(r, calls[0].error, calls[0].n).0, calls[1..]);
    }
  }

  /** With non-empty bios a run of completions finishes the request exactly when it has asked
      for all of its bytes, and every bio has then ended exactly once, in order. */
  lemma FinishedWhenAllAsked(r: Request, calls: seq<Call>)
    requires Inv(r) && !r.flushSeq && HasData(r.bios) && r.ended == []
    ensures var r' := Run(r, calls);
      && (r'.bios == [] <==> Asked(calls) >= r.dataLen)
      && (r'.bios == [] ==> EndedIds(r'.ended) == Ids(r.bios))
      && r'.dataLen == Bytes(r'.bios)
  {
    hide Run, Bytes, Asked, HasData;
    RunOk(r, calls);
    RunData(r, calls);
    DataLeft(Run(r, calls).bios);
    assert Everyone(r) == Ids(r.bios);
  }

  // ----------------------------------------------------------------- flush sequencing

  /** blk_flush_restore_request: the tail is put back and completed as a normal request. */
  function Restore(r: Request): Request {
    r.(bios := [r.tail], flushSeq := false)
  }

  lemma ConsumeOne(r: Request, error: int, n: nat)
    requires |r.bios| == 1
    ensures var k := Min(Size(r.bios[0]), n); Consume(r, error, n) == (BioEndIo(r, k, error), k)
    ensures r.bios[1..] == []
  {
    var k := Min(Size(r.bios[0]), n);
    var r' := BioEndIo(r, k, error);
    Popped(r, k, error);
    if k == Size(r.bios[0]) {
      assert r'.bios == [];
      assert Consume(r', error, n - k) == (r', 0);
    }
  }

  lemma FlushUpdate(r: Request, error: int, n: nat)
    requires |r.bios| == 1 && r.bios == [r.tail] && r.flushSeq && r.dataLen == Size(r.tail)
    ensures var (r', more) := Update(r, error, n);
      && r'.ended == r.ended && r'.flushSeq && r'.tail.id == r.tail.id && r'.dataLen == Size(r'.tail)
      && (more <==> n < Size(r.tail)) && (more ==> r'.bios == [r'.tail])
      && (!more ==> r'.bios == [] && Size(r'.tail) == 0)
      && r'.tail.upToDate == (r.tail.upToDate && error == 0)
  {
    ConsumeOne(r, error, n);
    CurWithin([Touched(r.tail, Min(Size(r.tail), n), error)]);
  }

  /** No call that found the request with data left had an error. */
  ghost predicate DataFine(r: Request, calls: seq<Call>) {
    forall d :: 0 <= d < |calls| && Run(r, calls[..d]).bios != [] ==> calls[d].error == 0
  }

  lemma DataFineFirst(r: Request, calls: seq<Call>)
    requires calls != []
    ensures DataFine(r, calls) <==>
      (r.bios != [] ==> calls[0].error == 0) && DataFine(Update(r, calls[0].error, calls[0].n).0, calls[1..])
  {
    hide Update;
    var r', rest := Update(r, calls[0].error, calls[0].n).0, calls[1..];
    assert calls[..0] == [];
    forall d | 0 < d < |calls| ensures Run(r, calls[..d]) == Run(r', rest[..d - 1]) {
      assert calls[..d][1..] == rest[..d - 1];
    }
    if DataFine(r, calls) {
      assert Run(r, calls[..0]) == r;
      forall d | 0 <= d < |rest| && Run(r', rest[..d]).bios != [] ensures rest[d].error == 0 {
        assert Run(r, calls[..d + 1]).bios != [];
      }
    }
    if (r.bios != [] ==> calls[0].error == 0) && DataFine(r', rest) {
      forall d | 0 <= d < |calls| && Run(r, calls[..d]).bios != [] ensures calls[d].error == 0 {
        if d > 0 { assert rest[d - 1] == calls[d]; }
      }
    }
  }

  /** The data phase of a sequenced request ends nothing, however it is cut up. */
  lemma {:induction false} FlushData(r: Request, calls: seq<Call>)
    requires (r.bios == [r.tail] || (r.bios == [] && Size(r.tail) == 0)) && r.flushSeq && r.dataLen == Size(r.tail)
    ensures var r' := Run(r, calls);
      && r'.ended == r.ended && r'.flushSeq && r'.tail.id == r.tail.id && r'.dataLen == Size(r'.tail)
      && (r'.bios == [r'.tail] || (r'.bios == [] && Size(r'.tail) == 0))
      && (r'.tail.upToDate <==> r.tail.upToDate && DataFine(r, calls))
    decreases |calls|
  {
    hide Update, DataFine;
    if calls == [] {
      NoCalls(r);
    } else {
      DataFineFirst(r, calls);
      if r.bios != [] {
        FlushUpdate(r, calls[0].error, calls[0].n);
      } else {
        FinishedUpdate(r, calls[0].error, calls[0].n);
      }
      FlushData(Update(r, calls[0].error, calls[0].n).0, calls[1..]);
    }
  }

  lemma NoCalls(r: Request)
    ensures DataFine(r, [])
  {
  }

  lemma FinishedUpdate(r: Request, error: int, n: nat)
    requires r.bios == []
    ensures Update(r, error, n) == (r, false)
  {
  }

  /** A sequenced request is completed for its data, in any number of calls, and once more when
      the sequence is over. Its only bio ends exactly once, at that last completion, also when a
      failed flush ends the sequence with the data untouched or partly done. It reports the error
      of that completion, if there is one, and otherwise none exactly when it came up to date and
      no completion of its data had an error, and -EIO if not. */
  lemma FlushEndsOnce(r: Request, calls: seq<Call>, error: int)
    requires r.bios == [r.tail] && r.flushSeq && r.dataLen == Size(r.tail) && r.ended == []
    ensures var done := Run(r, calls);
      var (last, more) := Update(Restore(done), error, done.dataLen);
      && done.ended == [] && !more && last.bios == []
      && last.ended == [End(r.tail.id, if error != 0 then error
                                       else if r.tail.upToDate && DataFine(r, calls) then 0 else EIO)]
  {
    hide DataFine;
    FlushData(r, calls);
    var done := Run(r, calls);
    ConsumeOne(Restore(done), error, done.dataLen);
  }

  // ------------------------------------------------------------------------- in place

  /** bio_advance walks the segments. */
  method BioAdvance(vecs: seq<nat>, n: nat) returns (r: seq<nat>)
    requires n <= Sum(vecs)
    ensures r == Advance(vecs, n)
  {
    var bytes: nat := n;
    r := vecs;
    while bytes > 0
      invariant bytes <= Sum(r) && Advance(r, bytes) == Advance(vecs, n)
      decreases |r|, bytes
    {
      if bytes >= r[0] {
        bytes := bytes - r[0];
        r := r[1..];
      } else {
        r := [r[0] - bytes] + r[1..];
        bytes := 0;
      }
    }
  }

  class LiveRequest {
    var bios: seq<Bio>
    var tail: Bio
    var dataLen: nat
    var sector: nat
    const fs: bool
    var flushSeq: bool
    var ended: seq<End>

    ghost function View(): Request
      reads this
    {
      Request(bios, tail, dataLen, sector, fs, flushSeq, ended)
    }

    constructor (bio: Bio, sector: nat, fs: bool, flushSeq: bool)
      ensures Inv(View()) && View() == Request([bio], bio, Size(bio), sector, fs, flushSeq, [])
    {
      assert [bio][1..] == [];
      bios, tail, dataLen := [bio], bio, Sum(bio.vecs);
      this.sector, this.fs, this.flushSeq, ended := sector, fs, flushSeq, [];
    }

    method ReqBioEndIo(n: nat, error: int)
      requires bios != [] && n <= Size(bios[0])
      modifies this`bios, this`tail, this`ended
      ensures View() == BioEndIo(old(View()), n, error)
    {
      var bio, e := bios[0], error;
      var whole := n == Sum(bio.vecs);
      if error != 0 {
        bio := bio.(upToDate := false);
      } else if !bio.upToDate {
        e := EIO;
      }
      var vecs := BioAdvance(bio.vecs, n);
      bio := bio.(vecs := vecs);
      if |bios| == 1 { tail := bio; }
      bios := if whole then bios[1..] else [bio] + bios[1..];
      if Sum(bio.vecs) == 0 && !flushSeq { ended := ended + [End(bio.id, e)]; }
    }

    /** blk_update_request, for a request whose byte count agrees with its bios. */
    method UpdateRequest(error: int, nrBytes: nat) returns (more: bool)
      requires dataLen == Bytes(bios)
      modifies this
      ensures (View(), more) == Update(old(View()), error, nrBytes)
    {
      hide BioEndIo, Bytes, Size;
      if bios == [] { return false; }
      ghost var r0 := View();
      var total, left: nat := 0, nrBytes;
      ghost var whole := Consume(r0, error, nrBytes);
      while true
        invariant bios != [] && (Consume(View(), error, left).0, total + Consume(View(), error, left).1) == whole
        invariant dataLen == r0.dataLen && sector == r0.sector && flushSeq == r0.flushSeq
        decreases |bios|
      {
        var k := Min(Size(bios[0]), left);
        Popped(View(), k, error);
        EmptyDone(BioEndIo(View(), k, error), error, left - k);
        ReqBioEndIo(k, error);
        total := total + k;
        left := left - k;
        if left == 0 || bios == [] { break; }
      }
      assert (View(), total) == whole;
      if bios == [] {
        dataLen := 0;
        return false;
      }
      dataLen := if dataLen < total then 0 else dataLen - total;
      if fs { sector := sector + total / 512; }
      if dataLen < CurBytes(bios[0]) { dataLen := CurBytes(bios[0]); }
      more := true;
    }
  }

  lemma EmptyDone(r: Request, error: int, n: nat)
    ensures r.bios == [] ==> Consume(r, error, n) == (r, 0)
  {
  }
}
