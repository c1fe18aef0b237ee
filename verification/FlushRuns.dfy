/** Every run of the FLUSH/FUA sequencer: its invariant and what it guarantees. */
module FlushRuns {
  import opened Lists
  import opened FlushSpec

  // ---------------------------------------------------------------- structure

  ghost predicate OnDevice(q: Queue, it: Item) {
    it in q.queueHead || it in q.driver
  }

  ghost predicate Listed(q: Queue, x: Rq)
    requires Shaped(q)
  {
    x in q.flushQueue[0] || x in q.flushQueue[1] || x in q.dataInFlight
  }

  /** Stages are passed in order. */
  ghost predicate Ordered(policy: set<Stage>, done: set<Stage>) {
    && (Data in policy * done ==> Preflush in done)
    && (Postflush in policy * done ==> Preflush in done && Data in done)
  }

  /** What sends a request through the sequence. */
  predicate NeedsFlush(policy: set<Stage>) {
    Preflush in policy || Postflush in policy
  }

  /** A request that still has a stage to go through; a POSTFLUSH only follows DATA. */
  ghost predicate Sequenced(s: Seq) {
    && NeedsFlush(s.policy)
    && s.policy <= ACTIONS && ACTIONS - s.policy <= s.done <= ACTIONS
    && (Postflush in s.policy ==> Data in s.policy)
    && Ordered(s.policy, s.done) && CurSeq(s.done) != Done
  }

  /** A request is on the one list named by its first unset stage. */
  ghost predicate Placed(q: Queue, x: Rq)
    requires Shaped(q) && x in q.reqs
  {
    if CurSeq(q.reqs[x].done) == Data then x in q.dataInFlight
    else x in q.flushQueue[0] || x in q.flushQueue[1]
  }

  ghost predicate ListsOk(q: Queue)
    requires Shaped(q)
  {
    && NoDup(q.flushQueue[0]) && NoDup(q.flushQueue[1]) && NoDup(q.dataInFlight)
    && Disjoint(q.flushQueue[0], q.flushQueue[1])
    && Disjoint(q.flushQueue[0], q.dataInFlight)
    && Disjoint(q.flushQueue[1], q.dataInFlight)
    && forall x :: Listed(q, x) ==> x in q.reqs
  }

  ghost predicate DeviceOk(q: Queue) {
    && NoDup(q.queueHead)
    && (forall it :: it in q.queueHead ==> it !in q.driver)
    && (OnDevice(q, FlushItem) <==> q.pendingIdx != q.runningIdx)
    && (forall x :: OnDevice(q, PlainItem(x)) ==> x in q.used && x !in q.reqs)
    && (forall x :: x in q.reqs ==> x in q.used)
  }

  /** The structural invariant, except for what is being done to the requests in `hole`. */
  ghost predicate Core(q: Queue, hole: set<Rq>) {
    && Shaped(q) && !q.bug && ListsOk(q) && DeviceOk(q)
    && (forall x :: x in q.reqs && x !in hole ==> Sequenced(q.reqs[x]) && Placed(q, x))
    && (forall x :: x !in hole ==> (OnDevice(q, DataItem(x)) <==> x in q.dataInFlight))
    && (forall x :: x in hole ==> !OnDevice(q, DataItem(x)))
  }

  lemma UnlinkLists(q: Queue, rq: Rq)
    requires Shaped(q) && ListsOk(q)
    ensures ListsOk(Unlink(q, rq)) && !Listed(Unlink(q, rq), rq)
    ensures forall x :: x != rq ==> (x in Unlink(q, rq).dataInFlight <==> x in q.dataInFlight)
    ensures forall x :: x != rq ==> (x in Unlink(q, rq).flushQueue[0] <==> x in q.flushQueue[0])
    ensures forall x :: x != rq ==> (x in Unlink(q, rq).flushQueue[1] <==> x in q.flushQueue[1])
  {
    WithoutNoDup(q.flushQueue[0], rq);
    WithoutNoDup(q.flushQueue[1], rq);
    WithoutNoDup(q.dataInFlight, rq);
  }

  ghost predicate MayAdvance(q: Queue, rq: Rq, stages: set<Stage>) {
    && rq in q.reqs
    && var s := q.reqs[rq];
    && NeedsFlush(s.policy) && s.policy <= ACTIONS && (Postflush in s.policy ==> Data in s.policy)
    && s.done !! stages && ACTIONS - s.policy <= s.done + stages <= ACTIONS
    && Ordered(s.policy, s.done + stages)
  }

  function NextStage(q: Queue, rq: Rq, stages: set<Stage>, ok: bool): Stage
    requires rq in q.reqs
  {
    if ok then CurSeq(q.reqs[rq].done + stages) else Done
  }

  lemma AdvanceToData(q: Queue, rq: Rq, stages: set<Stage>, ok: bool, now: nat)
    requires Core(q, {rq}) && MayAdvance(q, rq, stages)
    requires NextStage(q, rq, stages, ok) == Data
    ensures Core(Advance(q, rq, stages, ok, now), {})
  {
    var r := Advance(q, rq, stages, ok, now);
    UnlinkLists(q, rq);
    NoDupSnoc(Unlink(q, rq).dataInFlight, rq);
    NoDupSnoc(q.queueHead, DataItem(rq));
    assert ListsOk(r);
    assert DeviceOk(r);
  }

  lemma AdvanceToDone(q: Queue, rq: Rq, stages: set<Stage>, ok: bool, now: nat)
    requires Core(q, {rq}) && MayAdvance(q, rq, stages)
    requires NextStage(q, rq, stages, ok) == Done
    ensures Core(Advance(q, rq, stages, ok, now), {})
  {
    var r := Advance(q, rq, stages, ok, now);
    UnlinkLists(q, rq);
    assert ListsOk(r);
    assert DeviceOk(r);
  }

  lemma AdvanceToFlush(q: Queue, rq: Rq, stages: set<Stage>, ok: bool, now: nat)
    requires Core(q, {rq}) && MayAdvance(q, rq, stages)
    requires NextStage(q, rq, stages, ok) in {Preflush, Postflush}
    ensures Core(Advance(q, rq, stages, ok, now), {})
  {
    var r := Advance(q, rq, stages, ok, now);
    UnlinkLists(q, rq);
    NoDupSnoc(Unlink(q, rq).flushQueue[q.pendingIdx], rq);
    assert ListsOk(r);
    assert DeviceOk(r);
  }

  lemma AdvanceCore(q: Queue, rq: Rq, stages: set<Stage>, ok: bool, now: nat)
    requires Core(q, {rq}) && MayAdvance(q, rq, stages)
    ensures Core(Advance(q, rq, stages, ok, now), {})
  {
    match NextStage(q, rq, stages, ok)
    case Data => AdvanceToData(q, rq, stages, ok, now);
    case Done => AdvanceToDone(q, rq, stages, ok, now);
    case _ => AdvanceToFlush(q, rq, stages, ok, now);
  }

  lemma KickCore(q: Queue, now: nat)
    requires Core(q, {})
    ensures Core(KickFlush(q, now), {})
  {
    if q.pendingIdx == q.runningIdx {
      NoDupSnoc(q.queueHead, FlushItem);
    }
  }

  // ------------------------------------------------------------------ history

  /** Flush number n was issued after e happened. */
  ghost predicate IssuedSince(log: seq<Event>, e: Event, n: nat) {
    exists a, b :: 0 <= a < b < |log| && log[a] == e && log[b] == FlushIssued(n)
  }

  /** A flush issued after e happened has completed successfully. */
  ghost predicate FlushedSince(log: seq<Event>, e: Event) {
    exists n, c :: 0 <= c < |log| && log[c] == FlushEnded(n, true) && IssuedSince(log[..c], e, n)
  }

  /** What the log must show of a request that is past the stages in s.done. */
  ghost predicate Behind(log: seq<Event>, x: Rq, s: Seq) {
    && (Preflush in s.policy * s.done ==> FlushedSince(log, Inserted(x, s.policy)))
    && (Data in s.policy * s.done ==> DataEnded(x, true) in log)
    && (Postflush in s.policy * s.done ==> FlushedSince(log, DataEnded(x, true)))
  }

  ghost predicate FlushOver(log: seq<Event>, n: nat) {
    FlushEnded(n, true) in log || FlushEnded(n, false) in log
  }

  predicate About(e: Event, x: Rq) {
    !e.FlushIssued? && !e.FlushEnded? && e.rq == x
  }

  ghost predicate EventOk(past: seq<Event>, e: Event) {
    match e
    case Inserted(x, p) => forall o :: o in past ==> !About(o, x)
    case Ended(x, ok) =>
      && (forall o :: Ended(x, o) !in past)
      && (ok ==> forall p :: Inserted(x, p) in past ==> Behind(past, x, Seq(p, ACTIONS)))
    case DataQueued(x) =>
      forall p :: Inserted(x, p) in past ==>
        Data in p && (Preflush in p ==> FlushedSince(past, Inserted(x, p)))
    case FlushIssued(n) =>
      && FlushIssued(n) !in past
      && (n > 0 ==> FlushOver(past, n - 1))
    case _ => true
  }

  ghost predicate SafeLog(log: seq<Event>) {
    forall i :: 0 <= i < |log| ==> EventOk(log[..i], log[i])
  }

  lemma SafeSnoc(log: seq<Event>, e: Event)
    requires SafeLog(log) && EventOk(log, e)
    ensures SafeLog(log + [e])
  {
    forall i | 0 <= i < |log + [e]|
      ensures EventOk((log + [e])[..i], (log + [e])[i])
    {
      assert (log + [e])[..i] == log[..i];
      assert log[..|log|] == log;
    }
  }

  lemma IssuedSinceMono(l: seq<Event>, m: seq<Event>, e: Event, n: nat)
    requires l <= m && IssuedSince(l, e, n)
    ensures IssuedSince(m, e, n)
  {
    var a, b :| 0 <= a < b < |l| && l[a] == e && l[b] == FlushIssued(n);
    assert m[a] == e && m[b] == FlushIssued(n);
  }

  lemma FlushedSinceMono(l: seq<Event>, m: seq<Event>, e: Event)
    requires l <= m && FlushedSince(l, e)
    ensures FlushedSince(m, e)
  {
    var n, c :| 0 <= c < |l| && l[c] == FlushEnded(n, true) && IssuedSince(l[..c], e, n);
    assert m[..c] == l[..c] && m[c] == l[c];
  }

  lemma BehindMono(l: seq<Event>, m: seq<Event>, x: Rq, s: Seq)
    requires l <= m && Behind(l, x, s)
    ensures Behind(m, x, s)
  {
    if Preflush in s.policy * s.done { FlushedSinceMono(l, m, Inserted(x, s.policy)); }
    if Postflush in s.policy * s.done { FlushedSinceMono(l, m, DataEnded(x, true)); }
    assert forall e :: e in l ==> e in m;
  }

  /** The event after which x waits for a flush. */
  function Since(x: Rq, s: Seq): Event {
    if CurSeq(s.done) == Preflush then Inserted(x, s.policy) else DataEnded(x, true)
  }

  /** The outstanding flush was issued after each request waiting for it began to wait. */
  ghost predicate Covered(q: Queue)
    requires Shaped(q)
  {
    q.pendingIdx != q.runningIdx ==>
      && q.flushes > 0
      && forall x :: x in q.flushQueue[q.runningIdx] && x in q.reqs ==>
           IssuedSince(q.log, Since(x, q.reqs[x]), q.flushes - 1)
  }

  /** `flushes` counts the flushes issued; all are over, but the last one if it is out. */
  ghost predicate FlushCount(log: seq<Event>, flushes: nat, out: bool) {
    && (forall n: nat :: FlushIssued(n) in log ==> n < flushes)
    && (!out && flushes > 0 ==> FlushOver(log, flushes - 1))
  }

  predicate FlushOut(q: Queue) {
    q.pendingIdx != q.runningIdx
  }

  ghost predicate HasEnded(q: Queue, x: Rq) {
    Ended(x, true) in q.log || Ended(x, false) in q.log
  }

  /** Every event is about a flush or about a request inserted before. */
  ghost predicate Known(log: seq<Event>, used: set<Rq>) {
    forall e :: e in log ==> e.FlushIssued? || e.FlushEnded? || e.rq in used
  }

  lemma KnownSnoc(log: seq<Event>, used: set<Rq>, e: Event)
    requires Known(log, used) && (e.FlushIssued? || e.FlushEnded? || e.rq in used)
    ensures Known(log + [e], used)
  {
  }

  ghost predicate Requests(q: Queue) {
    && (forall x, p :: Inserted(x, p) in q.log ==> x in q.used && (x in q.reqs ==> p == q.reqs[x].policy))
    && (forall x :: x in q.reqs ==> Inserted(x, q.reqs[x].policy) in q.log)
    && (forall x, p :: OnDevice(q, PlainItem(x)) && Inserted(x, p) in q.log ==> p == {Data})
    && (forall x :: HasEnded(q, x) ==> x in q.used && x !in q.reqs && !OnDevice(q, PlainItem(x)))
    && (forall x, p :: Inserted(x, p) in q.log ==> x in q.reqs || OnDevice(q, PlainItem(x)) || HasEnded(q, x))
  }

  ghost predicate Hist(q: Queue, hole: set<Rq>)
    requires Shaped(q)
  {
    && SafeLog(q.log) && Known(q.log, q.used) && FlushCount(q.log, q.flushes, FlushOut(q)) && Covered(q) && Requests(q)
    && forall x :: x in q.reqs && x !in hole ==> Behind(q.log, x, q.reqs[x])
  }

  /** Appending an event that is neither about requests coming and going nor a flush. */
  lemma BehindAll(q: Queue, r: Queue, hole: set<Rq>)
    requires q.log <= r.log
    requires forall x :: x in r.reqs && x !in hole ==> x in q.reqs && r.reqs[x] == q.reqs[x]
    requires forall x :: x in q.reqs && x !in hole ==> Behind(q.log, x, q.reqs[x])
    ensures forall x :: x in r.reqs && x !in hole ==> Behind(r.log, x, r.reqs[x])
  {
    forall x | x in r.reqs && x !in hole ensures Behind(r.log, x, r.reqs[x]) {
      BehindMono(q.log, r.log, x, q.reqs[x]);
    }
  }

  lemma CoveredMono(q: Queue, r: Queue)
    requires Shaped(q) && Shaped(r) && q.log <= r.log && Covered(q)
    requires r.runningIdx == q.runningIdx && r.pendingIdx == q.pendingIdx && r.flushes == q.flushes
    requires forall x :: x in r.flushQueue[r.runningIdx] && x in r.reqs ==>
               x in q.flushQueue[q.runningIdx] && x in q.reqs && r.reqs[x] == q.reqs[x]
    ensures Covered(r)
  {
    if q.pendingIdx != q.runningIdx {
      forall x | x in r.flushQueue[r.runningIdx] && x in r.reqs
        ensures IssuedSince(r.log, Since(x, r.reqs[x]), r.flushes - 1)
      {
        IssuedSinceMono(q.log, r.log, Since(x, q.reqs[x]), q.flushes - 1);
      }
    }
  }

  /** rq has what the log must show for it to be past the given stages. */
  ghost predicate Earned(q: Queue, rq: Rq, stages: set<Stage>, ok: bool)
    requires rq in q.reqs
  {
    ok ==> Behind(q.log, rq, q.reqs[rq].(done := q.reqs[rq].done + stages))
  }

  lemma AdvanceLog(q: Queue, rq: Rq, stages: set<Stage>, ok: bool, now: nat)
    requires Core(q, {rq}) && MayAdvance(q, rq, stages)
    requires Hist(q, {rq}) && Earned(q, rq, stages, ok)
    ensures var r := Advance(q, rq, stages, ok, now); SafeLog(r.log) && Known(r.log, r.used)
  {
    assert rq in q.used;
    var s := q.reqs[rq].(done := q.reqs[rq].done + stages);
    match NextStage(q, rq, stages, ok)
    case Data =>
      SafeSnoc(q.log, DataQueued(rq));
      KnownSnoc(q.log, q.used, DataQueued(rq));
    case Done =>
      assert ok ==> s.done == ACTIONS;
      assert Behind(q.log, rq, s) && ok ==> EventOk(q.log, Ended(rq, ok));
      SafeSnoc(q.log, Ended(rq, ok));
      KnownSnoc(q.log, q.used, Ended(rq, ok));
    case _ =>
  }

  /** Advancing rq touches nobody else, and logs at most one event, about rq. */
  lemma AdvanceFrame(q: Queue, rq: Rq, stages: set<Stage>, ok: bool, now: nat)
    requires Shaped(q) && ListsOk(q) && rq in q.reqs
    ensures var r := Advance(q, rq, stages, ok, now);
      && q.log <= r.log
      && r.used == q.used && r.flushes == q.flushes && r.runningIdx == q.runningIdx && r.pendingIdx == q.pendingIdx
      && (forall x, p :: Inserted(x, p) in r.log <==> Inserted(x, p) in q.log)
      && (forall n: nat :: FlushIssued(n) in r.log ==> FlushIssued(n) in q.log)
      && (forall x :: x != rq ==> (x in r.reqs <==> x in q.reqs) && (HasEnded(r, x) <==> HasEnded(q, x)))
      && (forall x :: x != rq && x in q.reqs ==> r.reqs[x] == q.reqs[x])
      && (rq in r.reqs ==> ok && r.reqs[rq] == q.reqs[rq].(done := q.reqs[rq].done + stages)
                            && (HasEnded(r, rq) ==> HasEnded(q, rq)))
      && (rq !in r.reqs ==> HasEnded(r, rq))
      && (forall x :: OnDevice(r, PlainItem(x)) <==> OnDevice(q, PlainItem(x)))
  {
  }

  lemma AdvanceRequests(q: Queue, rq: Rq, stages: set<Stage>, ok: bool, now: nat)
    requires Core(q, {rq}) && rq in q.reqs && Requests(q)
    ensures Requests(Advance(q, rq, stages, ok, now))
  {
    AdvanceFrame(q, rq, stages, ok, now);
  }

  lemma AdvanceRunning(q: Queue, rq: Rq, stages: set<Stage>, ok: bool, now: nat)
    requires Shaped(q) && ListsOk(q) && rq in q.reqs && q.pendingIdx != q.runningIdx
    ensures var r := Advance(q, rq, stages, ok, now);
      forall x :: x in r.flushQueue[q.runningIdx] ==> x in q.flushQueue[q.runningIdx] && x != rq
  {
    UnlinkLists(q, rq);
  }

  lemma AdvanceCount(q: Queue, rq: Rq, stages: set<Stage>, ok: bool, now: nat)
    requires Shaped(q) && rq in q.reqs && FlushCount(q.log, q.flushes, FlushOut(q))
    ensures var r := Advance(q, rq, stages, ok, now); FlushCount(r.log, r.flushes, FlushOut(r))
  {
  }

  lemma AdvanceCovered(q: Queue, rq: Rq, stages: set<Stage>, ok: bool, now: nat)
    requires Shaped(q) && ListsOk(q) && rq in q.reqs && Covered(q)
    ensures Covered(Advance(q, rq, stages, ok, now))
  {
    hide Advance, ListsOk;
    AdvanceFrame(q, rq, stages, ok, now);
    if q.pendingIdx != q.runningIdx {
      AdvanceRunning(q, rq, stages, ok, now);
      CoveredMono(q, Advance(q, rq, stages, ok, now));
    }
  }

  lemma CoreLists(q: Queue, hole: set<Rq>)
    requires Core(q, hole)
    ensures Shaped(q) && ListsOk(q) && !q.bug
  {
  }

  lemma AdvanceHist(q: Queue, rq: Rq, stages: set<Stage>, ok: bool, now: nat)
    requires Core(q, {rq}) && MayAdvance(q, rq, stages)
    requires Hist(q, {rq}) && Earned(q, rq, stages, ok)
    ensures Hist(Advance(q, rq, stages, ok, now), {})
  {
    hide Core, ListsOk, Advance, Requests, Covered, SafeLog, Known, Behind, FlushCount, HasEnded, OnDevice;
    CoreLists(q, {rq});
    var r := Advance(q, rq, stages, ok, now);
    AdvanceLog(q, rq, stages, ok, now);
    AdvanceRequests(q, rq, stages, ok, now);
    AdvanceCount(q, rq, stages, ok, now);
    AdvanceCovered(q, rq, stages, ok, now);
    AdvanceFrame(q, rq, stages, ok, now);
    BehindAll(q, r, {rq});
    if rq in r.reqs {
      BehindMono(q.log, r.log, rq, r.reqs[rq]);
    }
  }

  lemma KickCovered(q: Queue, r: Queue, now: nat)
    requires Core(q, {}) && Hist(q, {}) && r == KickFlush(q, now) && r != q
    ensures Covered(r)
  {
    var n := q.flushes;
    forall x | x in r.flushQueue[r.runningIdx] && x in r.reqs
      ensures IssuedSince(r.log, Since(x, r.reqs[x]), n)
    {
      assert x !in q.dataInFlight;
      var e := Since(x, q.reqs[x]);
      assert e in q.log;
      var a :| 0 <= a < |q.log| && q.log[a] == e;
      assert r.log[a] == e && r.log[|q.log|] == FlushIssued(n);
    }
  }

  lemma KickRequests(q: Queue, now: nat)
    requires Shaped(q) && Requests(q) && FlushCount(q.log, q.flushes, FlushOut(q))
    ensures var r := KickFlush(q, now); Requests(r) && FlushCount(r.log, r.flushes, FlushOut(r))
  {
    var r := KickFlush(q, now);
    assert forall x :: OnDevice(r, PlainItem(x)) <==> OnDevice(q, PlainItem(x));
    assert forall x :: HasEnded(r, x) <==> HasEnded(q, x);
    assert forall x, p :: Inserted(x, p) in r.log <==> Inserted(x, p) in q.log;
  }

  lemma KickLog(q: Queue)
    requires SafeLog(q.log) && Known(q.log, q.used) && FlushCount(q.log, q.flushes, false)
    ensures var log := q.log + [FlushIssued(q.flushes)]; SafeLog(log) && Known(log, q.used)
  {
    SafeSnoc(q.log, FlushIssued(q.flushes));
    KnownSnoc(q.log, q.used, FlushIssued(q.flushes));
  }

  lemma KickHist(q: Queue, now: nat)
    requires Core(q, {}) && Hist(q, {})
    ensures Hist(KickFlush(q, now), {})
  {
    hide Core, Requests, Covered, SafeLog, Known, Behind, FlushCount;
    CoreLists(q, {});
    var r := KickFlush(q, now);
    if r != q {
      KickLog(q);
      KickRequests(q, now);
      BehindAll(q, r, {});
      KickCovered(q, r, now);
    }
  }

  // ---------------------------------------------------------- the whole invariant

  /** The list that no flush covers is empty unless a flush is out, and the other way round. */
  ghost predicate Buffered(q: Queue)
    requires Shaped(q)
  {
    if q.pendingIdx == q.runningIdx then q.flushQueue[1 - q.pendingIdx] == []
    else q.flushQueue[q.runningIdx] != []
  }

  /** A waiting request and no flush in progress: then some request is executing DATA. */
  ghost predicate NotLost(q: Queue)
    requires Shaped(q)
  {
    q.pendingIdx == q.runningIdx && q.flushQueue[q.pendingIdx] != [] ==> q.dataInFlight != []
  }

  ghost predicate Inv(q: Queue) {
    Core(q, {}) && Hist(q, {}) && Buffered(q) && NotLost(q)
  }

  lemma InvShaped(q: Queue)
    requires Inv(q)
    ensures Shaped(q)
  {
  }

  lemma AdvanceBuffered(q: Queue, rq: Rq, stages: set<Stage>, ok: bool, now: nat)
    requires Shaped(q) && rq in q.reqs && Buffered(q)
    requires rq !in q.flushQueue[0] && rq !in q.flushQueue[1]
    ensures Buffered(Advance(q, rq, stages, ok, now))
  {
  }

  lemma KickSettled(q: Queue, now: nat)
    requires Shaped(q)
    ensures NotLost(KickFlush(q, now))
    ensures Buffered(q) ==> Buffered(KickFlush(q, now))
  {
  }

  lemma CompleteSeqInv(q: Queue, rq: Rq, stages: set<Stage>, ok: bool, now: nat)
    requires Core(q, {rq}) && MayAdvance(q, rq, stages)
    requires Hist(q, {rq}) && Earned(q, rq, stages, ok)
    requires Buffered(q) && rq !in q.flushQueue[0] && rq !in q.flushQueue[1]
    ensures Inv(CompleteSeq(q, rq, stages, ok, now))
  {
    assert Shaped(q) && rq in q.reqs;
    var r := Advance(q, rq, stages, ok, now);
    AdvanceCore(q, rq, stages, ok, now);
    AdvanceHist(q, rq, stages, ok, now);
    AdvanceBuffered(q, rq, stages, ok, now);
    KickCore(r, now);
    KickHist(r, now);
    KickSettled(r, now);
  }

  // ------------------------------------------------------- completion of a flush

  ghost predicate WalkInv(q: Queue, list: seq<Rq>, ok: bool) {
    && Core(q, {}) && Hist(q, {})
    && q.flushQueue[1 - q.runningIdx] == list
    && (q.pendingIdx != q.runningIdx ==> q.flushQueue[q.runningIdx] != [])
    && (ok ==> forall x :: x in list && x in q.reqs ==> FlushedSince(q.log, Since(x, q.reqs[x])))
  }

  /** Nobody goes from one flush straight to another, so the walked list only shrinks. */
  lemma WalkLists(q: Queue, list: seq<Rq>, ok: bool, now: nat)
    requires WalkInv(q, list, ok) && list != []
    ensures var stage := CurSeq(q.reqs[list[0]].done);
      && stage in {Preflush, Postflush}
      && var r := Advance(q, list[0], {stage}, ok, now);
      && r.flushQueue[1 - q.runningIdx] == list[1..]
      && r.flushQueue[q.runningIdx] == q.flushQueue[q.runningIdx]
  {
    hide Hist, Buffered, DeviceOk;
    var rq := list[0];
    assert rq in list;
    assert rq !in q.dataInFlight && rq !in q.flushQueue[q.runningIdx];
    var s := q.reqs[rq];
    var stage := CurSeq(s.done);
    assert Postflush in s.policy || Postflush in ACTIONS - s.policy;
    assert Data in s.policy || Data in ACTIONS - s.policy;
    assert CurSeq(s.done + {stage}) in {Data, Done};
    WithoutNoDup(list, rq);
  }

  lemma WalkEarned(q: Queue, list: seq<Rq>, ok: bool)
    requires WalkInv(q, list, ok) && list != []
    requires CurSeq(q.reqs[list[0]].done) in {Preflush, Postflush}
    ensures Earned(q, list[0], {CurSeq(q.reqs[list[0]].done)}, ok)
    ensures MayAdvance(q, list[0], {CurSeq(q.reqs[list[0]].done)})
    ensures Core(q, {list[0]})
  {
    assert list[0] in list;
    assert list[0] !in q.dataInFlight;
    assert !OnDevice(q, DataItem(list[0]));
  }

  lemma WalkFlushed(q: Queue, list: seq<Rq>, r: Queue)
    requires NoDup(list) && list != [] && q.log <= r.log
    requires forall x :: x in list && x in q.reqs ==> FlushedSince(q.log, Since(x, q.reqs[x]))
    requires forall x :: x != list[0] ==> (x in r.reqs <==> x in q.reqs)
    requires forall x :: x != list[0] && x in q.reqs ==> r.reqs[x] == q.reqs[x]
    ensures forall x :: x in list[1..] && x in r.reqs ==> FlushedSince(r.log, Since(x, r.reqs[x]))
  {
    forall x | x in list[1..] && x in r.reqs ensures FlushedSince(r.log, Since(x, r.reqs[x])) {
      FlushedSinceMono(q.log, r.log, Since(x, q.reqs[x]));
    }
  }

  lemma WalkAdvance(q: Queue, list: seq<Rq>, ok: bool, now: nat)
    requires WalkInv(q, list, ok) && list != []
    ensures list[0] in q.reqs
    ensures var stage := CurSeq(q.reqs[list[0]].done);
      && stage in {Preflush, Postflush}
      && var m := Advance(q, list[0], {stage}, ok, now);
      && WalkInv(m, list[1..], ok)
  {
    hide Core, Hist, ListsOk, Advance, Since, FlushedSince, NoDup, CurSeq, Earned, MayAdvance, HasEnded, OnDevice;
    WalkListed(q, list, ok);
    WalkLists(q, list, ok, now);
    WalkEarned(q, list, ok);
    CoreLists(q, {});
    var rq := list[0];
    var stage := CurSeq(q.reqs[rq].done);
    var m := Advance(q, rq, {stage}, ok, now);
    AdvanceCore(q, rq, {stage}, ok, now);
    WalkHist(q, rq);
    AdvanceHist(q, rq, {stage}, ok, now);
    AdvanceFrame(q, rq, {stage}, ok, now);
    if ok { WalkFlushed(q, list, m); }
  }

  lemma WalkHist(q: Queue, rq: Rq)
    requires Shaped(q) && Hist(q, {})
    ensures Hist(q, {rq})
  {
    hide Requests, Covered, SafeLog, Known, Behind, FlushCount;
  }

  lemma WalkKick(m: Queue, list: seq<Rq>, ok: bool, now: nat)
    requires WalkInv(m, list, ok)
    ensures WalkInv(KickFlush(m, now), list, ok)
    ensures NotLost(KickFlush(m, now))
  {
    hide Core, Hist, Since, FlushedSince, NotLost;
    KickCore(m, now);
    KickHist(m, now);
    KickSettled(m, now);
    var r := KickFlush(m, now);
    if ok {
      forall x | x in list && x in r.reqs ensures FlushedSince(r.log, Since(x, r.reqs[x])) {
        FlushedSinceMono(m.log, r.log, Since(x, m.reqs[x]));
      }
    }
  }

  lemma {:induction false} WalkAll(q: Queue, list: seq<Rq>, ok: bool, clock: nat -> nat)
    requires WalkInv(q, list, ok) && NoDup(list) && forall x :: x in list ==> x in q.reqs
    requires list == [] ==> NotLost(q)
    ensures Inv(Walk(q, list, ok, clock))
    decreases |list|
  {
    if list != [] {
      var rq, now := list[0], clock(|list|);
      var stage := CurSeq(q.reqs[rq].done);
      WalkAdvance(q, list, ok, now);
      assert q == q.(bug := q.bug || (stage != Preflush && stage != Postflush));
      var r := KickFlush(Advance(q, rq, {stage}, ok, now), now);
      WalkKick(Advance(q, rq, {stage}, ok, now), list[1..], ok, now);
      assert r == CompleteSeq(q, rq, {stage}, ok, now);
      WalkListed(r, list[1..], ok);
      WalkAll(r, list[1..], ok, clock);
    } else {
      WalkListed(q, list, ok);
    }
  }

  /** One turn of the walk leaves the live list at its next entry. */
  lemma WalkNext(q: Queue, list: seq<Rq>, ok: bool, now: nat)
    requires WalkInv(q, list, ok) && list != [] && list[0] in q.reqs
    ensures var stage := CurSeq(q.reqs[list[0]].done);
      && q == q.(bug := q.bug || (stage != Preflush && stage != Postflush))
      && WalkInv(CompleteSeq(q, list[0], {stage}, ok, now), list[1..], ok)
      && CompleteSeq(q, list[0], {stage}, ok, now).runningIdx == q.runningIdx
  {
    var stage := CurSeq(q.reqs[list[0]].done);
    WalkAdvance(q, list, ok, now);
    assert !q.bug && Shaped(q);
    WalkKick(Advance(q, list[0], {stage}, ok, now), list[1..], ok, now);
    AdvanceKeepsRunning(q, list[0], {stage}, ok, now);
  }

  lemma AdvanceKeepsRunning(q: Queue, rq: Rq, stages: set<Stage>, ok: bool, now: nat)
    requires Shaped(q) && rq in q.reqs
    ensures Advance(q, rq, stages, ok, now).runningIdx == q.runningIdx
  {
  }

  lemma WalkListed(q: Queue, list: seq<Rq>, ok: bool)
    requires WalkInv(q, list, ok)
    ensures NoDup(list) && forall x :: x in list ==> x in q.reqs
    ensures Shaped(q) && q.flushQueue[1 - q.runningIdx] == list
    ensures list == [] ==> Buffered(q)
  {
    assert forall x :: x in list ==> Listed(q, x);
  }

  // --------------------------------------------------------------------- steps

  datatype Step =
    | Insert(rq: Rq, cmd: Cmd, caps: Caps, now: nat)
    | Start
    | Requeue(item: Item)
    | PlainEnd(rq: Rq, ok: bool)
    | DataEnd(rq: Rq, ok: bool, now: nat)
    | FlushEnd(ok: bool, clock: nat -> nat)

  /** An empty request carries at most REQ_FLUSH; the driver completes what it holds. */
  ghost predicate Enabled(q: Queue, s: Step) {
    match s
    case Insert(rq, cmd, caps, now) => rq !in q.used && (cmd.sectors == 0 ==> !cmd.fua)
    case Start => q.queueHead != []
    case Requeue(it) => it in q.driver
    case PlainEnd(rq, ok) => PlainItem(rq) in q.driver
    case DataEnd(rq, ok, now) => DataItem(rq) in q.driver
    case FlushEnd(ok, clock) => FlushItem in q.driver
  }

  lemma StepReady(q: Queue, s: Step)
    requires Inv(q) && Enabled(q, s)
    ensures s.DataEnd? ==> s.rq in q.reqs && s.rq in q.dataInFlight
    ensures s.FlushEnd? ==>
      && q.flushes > 0 && q.pendingIdx != q.runningIdx
      && var l := q.flushQueue[q.runningIdx]; l != [] && NoDup(l) && forall x :: x in l ==> x in q.reqs
  {
    if s.DataEnd? {
      assert OnDevice(q, DataItem(s.rq));
      assert Listed(q, s.rq);
    } else if s.FlushEnd? {
      assert OnDevice(q, FlushItem);
      assert forall x :: x in q.flushQueue[q.runningIdx] ==> Listed(q, x);
    }
  }

  /** One step; following a pointer to a request that is not there counts as a bug. */
  ghost function Next(q: Queue, s: Step): (r: Queue)
    requires Shaped(q) && Enabled(q, s)
    ensures Shaped(r)
  {
    match s
    case Insert(rq, cmd, caps, now) => InsertFlush(q, rq, cmd, caps, now)
    case Start => q.(queueHead := q.queueHead[1..], driver := q.driver + {q.queueHead[0]})
    case Requeue(it) => q.(queueHead := [it] + q.queueHead, driver := q.driver - {it})
    case PlainEnd(rq, ok) => PlainEndIo(q, rq, ok)
    case DataEnd(rq, ok, now) =>
      if rq in q.reqs then CompleteSeq(DataEndIo(q, rq, ok), rq, {Data}, ok, now) else q.(bug := true)
    case FlushEnd(ok, clock) =>
      var l := q.flushQueue[q.runningIdx];
      if q.flushes > 0 && NoDup(l) && forall x :: x in l ==> x in q.reqs then FlushEndIo(q, ok, clock)
      else q.(bug := true)
  }

  // ------------------------------------------------------ each step keeps Inv

  /** Same requests, same lists, same log: only the place of device items changed. */
  lemma MoveCore(q: Queue, r: Queue)
    requires Core(q, {})
    requires NoDup(r.queueHead) && (forall it :: it in r.queueHead ==> it !in r.driver)
    requires r == q.(queueHead := r.queueHead, driver := r.driver)
    requires forall it :: OnDevice(r, it) <==> OnDevice(q, it)
    ensures Core(r, {})
  {
  }

  lemma MoveRequests(q: Queue, r: Queue)
    requires Requests(q)
    requires r == q.(queueHead := r.queueHead, driver := r.driver)
    requires forall it :: OnDevice(r, it) <==> OnDevice(q, it)
    ensures Requests(r)
  {
  }

  lemma MoveHist(q: Queue, r: Queue)
    requires Shaped(q) && Shaped(r) && Hist(q, {})
    requires r == q.(queueHead := r.queueHead, driver := r.driver)
    requires forall it :: OnDevice(r, it) <==> OnDevice(q, it)
    ensures Hist(r, {})
  {
    hide Requests, SafeLog, Known;
    MoveRequests(q, r);
  }

  lemma MoveInv(q: Queue, r: Queue)
    requires Inv(q)
    requires NoDup(r.queueHead) && (forall it :: it in r.queueHead ==> it !in r.driver)
    requires r == q.(queueHead := r.queueHead, driver := r.driver)
    requires forall it :: OnDevice(r, it) <==> OnDevice(q, it)
    ensures Inv(r)
  {
    hide Core, Hist;
    InvShaped(q);
    CoreShaped(q);
    MoveCore(q, r);
    MoveHist(q, r);
  }

  lemma CoreShaped(q: Queue)
    requires Core(q, {})
    ensures Shaped(q)
  {
  }

  lemma StartInv(q: Queue)
    requires Inv(q) && q.queueHead != []
    ensures Inv(Next(q, Start))
  {
    MoveInv(q, Next(q, Start));
  }

  lemma RequeueInv(q: Queue, it: Item)
    requires Inv(q) && it in q.driver
    ensures Inv(Next(q, Requeue(it)))
  {
    NoDupSnoc(q.queueHead, it);
    MoveInv(q, Next(q, Requeue(it)));
  }

  lemma DataEndEntry(q: Queue, rq: Rq, ok: bool)
    requires Inv(q) && DataItem(rq) in q.driver
    ensures var r := DataEndIo(q, rq, ok);
      && Core(r, {rq}) && Buffered(r)
      && rq in q.used && rq in r.reqs && CurSeq(r.reqs[rq].done) == Data && MayAdvance(r, rq, {Data})
      && rq !in r.flushQueue[0] && rq !in r.flushQueue[1]
  {
    assert OnDevice(q, DataItem(rq)) && Listed(q, rq);
  }

  lemma DataEndRequests(q: Queue, rq: Rq, ok: bool)
    requires Requests(q)
    ensures var r := DataEndIo(q, rq, ok);
      Requests(r) && (FlushCount(q.log, q.flushes, FlushOut(q)) ==> FlushCount(r.log, r.flushes, FlushOut(r)))
  {
    var r := DataEndIo(q, rq, ok);
    assert forall it :: it != DataItem(rq) ==> (OnDevice(r, it) <==> OnDevice(q, it));
  }

  lemma DataEndHist(q: Queue, rq: Rq, ok: bool)
    requires Shaped(q) && Hist(q, {}) && rq in q.used && rq in q.reqs && CurSeq(q.reqs[rq].done) == Data
    requires Sequenced(q.reqs[rq])
    ensures var r := DataEndIo(q, rq, ok);
      Hist(r, {rq}) && Earned(r, rq, {Data}, ok)
  {
    hide Requests, FlushCount, Covered, SafeLog, Known, FlushedSince;
    var r := DataEndIo(q, rq, ok);
    SafeSnoc(q.log, DataEnded(rq, ok));
    KnownSnoc(q.log, q.used, DataEnded(rq, ok));
    BehindAll(q, r, {});
    CoveredMono(q, r);
    DataEndRequests(q, rq, ok);
    assert Behind(r.log, rq, q.reqs[rq]);
    assert DataEnded(rq, ok) in r.log;
  }

  lemma DataEndInv(q: Queue, rq: Rq, ok: bool, now: nat)
    requires Inv(q) && DataItem(rq) in q.driver
    ensures Inv(Next(q, DataEnd(rq, ok, now)))
  {
    DataEndEntry(q, rq, ok);
    DataEndHist(q, rq, ok);
    assert q.reqs == DataEndIo(q, rq, ok).reqs;
    StepReady(q, DataEnd(rq, ok, now));
    CompleteSeqInv(DataEndIo(q, rq, ok), rq, {Data}, ok, now);
  }

  lemma PlainEndRequests(q: Queue, rq: Rq, ok: bool)
    requires Requests(q) && rq in q.used && rq !in q.reqs && PlainItem(rq) !in q.queueHead
    ensures var r := PlainEndIo(q, rq, ok);
      Requests(r) && (FlushCount(q.log, q.flushes, FlushOut(q)) ==> FlushCount(r.log, r.flushes, FlushOut(r)))
  {
    var r := PlainEndIo(q, rq, ok);
    assert forall it :: it != PlainItem(rq) ==> (OnDevice(r, it) <==> OnDevice(q, it));
    assert !OnDevice(r, PlainItem(rq));
    assert HasEnded(r, rq);
  }

  lemma PlainEndLog(q: Queue, rq: Rq, ok: bool)
    requires SafeLog(q.log) && Known(q.log, q.used) && Requests(q) && OnDevice(q, PlainItem(rq)) && rq in q.used
    ensures var r := PlainEndIo(q, rq, ok); SafeLog(r.log) && Known(r.log, r.used)
  {
    var log := q.log + [DataEnded(rq, ok)];
    SafeSnoc(q.log, DataEnded(rq, ok));
    assert forall o :: Ended(rq, o) in log ==> Ended(rq, o) in q.log;
    forall p | ok && Inserted(rq, p) in log ensures Behind(log, rq, Seq(p, ACTIONS)) {
      assert Inserted(rq, p) in q.log;
      assert DataEnded(rq, true) in log;
    }
    SafeSnoc(log, Ended(rq, ok));
  }

  lemma PlainEndHist(q: Queue, rq: Rq, ok: bool)
    requires Shaped(q) && Hist(q, {}) && OnDevice(q, PlainItem(rq))
    requires rq in q.used && rq !in q.reqs && PlainItem(rq) !in q.queueHead
    ensures Hist(PlainEndIo(q, rq, ok), {})
  {
    var r := PlainEndIo(q, rq, ok);
    PlainEndLog(q, rq, ok);
    PlainEndRequests(q, rq, ok);
    BehindAll(q, r, {});
    CoveredMono(q, r);
  }

  lemma PlainEndCore(q: Queue, rq: Rq, ok: bool)
    requires Core(q, {})
    ensures Core(PlainEndIo(q, rq, ok), {})
  {
    var r := PlainEndIo(q, rq, ok);
    assert forall it :: it != PlainItem(rq) ==> (OnDevice(r, it) <==> OnDevice(q, it));
    assert ListsOk(r);
  }

  lemma PlainEndInv(q: Queue, rq: Rq, ok: bool)
    requires Inv(q) && PlainItem(rq) in q.driver
    ensures Inv(PlainEndIo(q, rq, ok))
  {
    assert OnDevice(q, PlainItem(rq));
    PlainEndCore(q, rq, ok);
    PlainEndHist(q, rq, ok);
  }

  lemma EnterFresh(q: Queue, rq: Rq)
    requires Core(q, {}) && rq !in q.used
    ensures rq !in q.reqs && !Listed(q, rq) && !OnDevice(q, PlainItem(rq))
  {
  }

  lemma EnterCore(q: Queue, rq: Rq, policy: set<Stage>)
    requires Core(q, {}) && rq !in q.used
    ensures var r := Enter(q, rq, policy);
      Core(r, {rq}) && rq !in r.flushQueue[0] && rq !in r.flushQueue[1]
  {
    var r := Enter(q, rq, policy);
    assert !Listed(q, rq);
    assert !OnDevice(q, DataItem(rq));
    assert ListsOk(r);
    assert forall x :: x != rq && x in q.reqs ==> r.reqs[x] == q.reqs[x];
  }

  lemma EnterLog(q: Queue, rq: Rq, policy: set<Stage>)
    requires SafeLog(q.log) && FlushCount(q.log, q.flushes, FlushOut(q)) && Known(q.log, q.used) && rq !in q.used
    ensures var log := q.log + [Inserted(rq, policy)];
      SafeLog(log) && FlushCount(log, q.flushes, FlushOut(q)) && Known(log, q.used + {rq})
  {
    forall o | o in q.log ensures !About(o, rq) {}
    SafeSnoc(q.log, Inserted(rq, policy));
  }

  lemma EnterRequests(q: Queue, rq: Rq, policy: set<Stage>)
    requires Requests(q) && rq !in q.used && rq !in q.reqs && !OnDevice(q, PlainItem(rq))
    ensures Requests(Enter(q, rq, policy))
  {
    var r := Enter(q, rq, policy);
    assert forall x, p :: Inserted(x, p) in r.log <==> Inserted(x, p) in q.log || (x == rq && p == policy);
    assert forall x :: HasEnded(r, x) <==> HasEnded(q, x);
    assert forall it :: OnDevice(r, it) <==> OnDevice(q, it);
  }

  lemma EnterHist(q: Queue, rq: Rq, policy: set<Stage>)
    requires Shaped(q) && Hist(q, {}) && rq !in q.used && rq !in q.reqs
    requires !Listed(q, rq) && !OnDevice(q, PlainItem(rq))
    ensures Hist(Enter(q, rq, policy), {rq})
  {
    hide Requests, Covered, SafeLog, Known, Behind, FlushCount, OnDevice;
    var r := Enter(q, rq, policy);
    EnterLog(q, rq, policy);
    EnterRequests(q, rq, policy);
    BehindAll(q, r, {rq});
    CoveredMono(q, r);
  }

  lemma SequenceInv(q: Queue, rq: Rq, policy: set<Stage>, now: nat)
    requires Inv(q) && rq !in q.used
    requires NeedsFlush(policy) && policy <= ACTIONS && (Postflush in policy ==> Data in policy)
    ensures Inv(CompleteSeq(Enter(q, rq, policy), rq, ACTIONS - policy, true, now))
  {
    hide Core, Hist, Buffered, NotLost, MayAdvance, Earned, Enter, CompleteSeq;
    InvShaped(q);
    EnterFresh(q, rq);
    EnterCore(q, rq, policy);
    EnterHist(q, rq, policy);
    EnterEarned(q, rq, policy);
    CompleteSeqInv(Enter(q, rq, policy), rq, ACTIONS - policy, true, now);
  }

  lemma EnterEarned(q: Queue, rq: Rq, policy: set<Stage>)
    requires Shaped(q) && Buffered(q)
    requires NeedsFlush(policy) && policy <= ACTIONS && (Postflush in policy ==> Data in policy)
    ensures var r := Enter(q, rq, policy);
      && Shaped(r) && Buffered(r) && MayAdvance(r, rq, ACTIONS - policy)
      && Earned(r, rq, ACTIONS - policy, true)
  {
  }

  /** A request without data or flush to do ends at once. */
  lemma NothingToDoCore(q: Queue, rq: Rq, r: Queue)
    requires Core(q, {}) && rq !in q.used
    requires r == q.(used := q.used + {rq}, log := q.log + [Inserted(rq, {})] + [Ended(rq, true)])
    ensures Core(r, {})
  {
    assert ListsOk(r);
    assert forall it :: OnDevice(r, it) <==> OnDevice(q, it);
  }

  lemma NothingToDoInv(q: Queue, rq: Rq, r: Queue)
    requires Inv(q) && rq !in q.used
    requires r == q.(used := q.used + {rq}, log := q.log + [Inserted(rq, {})] + [Ended(rq, true)])
    ensures Inv(r)
  {
    hide Core, Requests, Covered, SafeLog, Known, Behind, FlushCount;
    CoreLists(q, {});
    EnterFresh(q, rq);
    NothingToDoCore(q, rq, r);
    NothingToDoLog(q, rq);
    NothingToDoRequests(q, rq, r);
    BehindAll(q, r, {});
    CoveredMono(q, r);
  }

  lemma NothingToDoLog(q: Queue, rq: Rq)
    requires SafeLog(q.log) && Known(q.log, q.used) && FlushCount(q.log, q.flushes, FlushOut(q))
    requires Requests(q) && rq !in q.used
    ensures var log := q.log + [Inserted(rq, {})] + [Ended(rq, true)];
      SafeLog(log) && Known(log, q.used + {rq}) && FlushCount(log, q.flushes, FlushOut(q))
  {
    var log := q.log + [Inserted(rq, {})];
    EnterLog(q, rq, {});
    KnownSnoc(log, q.used + {rq}, Ended(rq, true));
    assert !HasEnded(q, rq);
    assert forall o :: Ended(rq, o) in log ==> Ended(rq, o) in q.log;
    forall p | Inserted(rq, p) in log ensures Behind(log, rq, Seq(p, ACTIONS)) {
      assert Inserted(rq, p) !in q.log;
    }
    SafeSnoc(log, Ended(rq, true));
  }

  lemma NothingToDoRequests(q: Queue, rq: Rq, r: Queue)
    requires Requests(q) && rq !in q.used && rq !in q.reqs && !OnDevice(q, PlainItem(rq))
    requires r == q.(used := q.used + {rq}, log := q.log + [Inserted(rq, {})] + [Ended(rq, true)])
    ensures Requests(r)
  {
    assert forall x, p :: Inserted(x, p) in r.log <==> Inserted(x, p) in q.log || (x == rq && p == {});
    assert forall x :: HasEnded(r, x) <==> HasEnded(q, x) || x == rq;
    assert forall it :: OnDevice(r, it) <==> OnDevice(q, it);
  }

  lemma OnlyDataLog(q: Queue, rq: Rq)
    requires SafeLog(q.log) && Known(q.log, q.used) && FlushCount(q.log, q.flushes, FlushOut(q))
    requires Requests(q) && rq !in q.used
    ensures var log := q.log + [Inserted(rq, {Data})] + [DataQueued(rq)];
      SafeLog(log) && Known(log, q.used + {rq}) && FlushCount(log, q.flushes, FlushOut(q))
  {
    var log := q.log + [Inserted(rq, {Data})];
    EnterLog(q, rq, {Data});
    KnownSnoc(log, q.used + {rq}, DataQueued(rq));
    assert forall p :: Inserted(rq, p) in log ==> p == {Data};
    SafeSnoc(log, DataQueued(rq));
  }

  lemma OnlyDataRequests(q: Queue, rq: Rq, r: Queue)
    requires Requests(q) && rq !in q.used && rq !in q.reqs
    requires r == q.(used := q.used + {rq}, log := q.log + [Inserted(rq, {Data})] + [DataQueued(rq)],
                     queueHead := q.queueHead + [PlainItem(rq)])
    ensures Requests(r)
  {
    assert forall x, p :: Inserted(x, p) in r.log <==> Inserted(x, p) in q.log || (x == rq && p == {Data});
    assert forall x :: HasEnded(r, x) <==> HasEnded(q, x);
    assert forall it :: OnDevice(r, it) <==> OnDevice(q, it) || it == PlainItem(rq);
  }

  /** A request that needs no flush goes straight to the dispatch queue. */
  lemma OnlyDataCore(q: Queue, rq: Rq, r: Queue)
    requires Core(q, {}) && rq !in q.used
    requires r == q.(used := q.used + {rq}, log := q.log + [Inserted(rq, {Data})] + [DataQueued(rq)],
                     queueHead := q.queueHead + [PlainItem(rq)])
    ensures Core(r, {})
  {
    assert !OnDevice(q, PlainItem(rq));
    NoDupSnoc(q.queueHead, PlainItem(rq));
    assert forall it :: OnDevice(r, it) <==> OnDevice(q, it) || it == PlainItem(rq);
    assert ListsOk(r);
  }

  lemma OnlyDataInv(q: Queue, rq: Rq, r: Queue)
    requires Inv(q) && rq !in q.used
    requires r == q.(used := q.used + {rq}, log := q.log + [Inserted(rq, {Data})] + [DataQueued(rq)],
                     queueHead := q.queueHead + [PlainItem(rq)])
    ensures Inv(r)
  {
    hide Core, Requests, Covered, SafeLog, Known, Behind, FlushCount;
    CoreLists(q, {});
    EnterFresh(q, rq);
    OnlyDataCore(q, rq, r);
    OnlyDataLog(q, rq);
    OnlyDataRequests(q, rq, r);
    BehindAll(q, r, {});
    CoveredMono(q, r);
  }

  lemma InsertInv(q: Queue, rq: Rq, cmd: Cmd, caps: Caps, now: nat)
    requires Inv(q) && Enabled(q, Insert(rq, cmd, caps, now))
    ensures Inv(InsertFlush(q, rq, cmd, caps, now))
  {
    var policy := Policy(caps, cmd);
    assert Shaped(q);
    if policy == {} {
      NothingToDoInv(q, rq, InsertFlush(q, rq, cmd, caps, now));
    } else if policy == {Data} {
      OnlyDataInv(q, rq, InsertFlush(q, rq, cmd, caps, now));
    } else {
      SequenceInv(q, rq, policy, now);
    }
  }

  // ---------------------------------------------------- flush completion, entry

  lemma FlushEndEntryCore(q: Queue, ok: bool)
    requires Core(q, {}) && q.flushes > 0 && FlushItem in q.driver
    ensures Core(FlushEndEntry(q, ok), {})
  {
    var r := FlushEndEntry(q, ok);
    assert OnDevice(q, FlushItem);
    assert forall it :: it != FlushItem ==> (OnDevice(r, it) <==> OnDevice(q, it));
    assert ListsOk(r);
  }

  lemma FlushEndEntryRequests(q: Queue, ok: bool)
    requires Shaped(q) && Requests(q) && FlushCount(q.log, q.flushes, FlushOut(q)) && q.flushes > 0
    ensures var r := FlushEndEntry(q, ok); Requests(r) && FlushCount(r.log, r.flushes, FlushOut(r))
  {
    var r := FlushEndEntry(q, ok);
    assert forall it :: it != FlushItem ==> (OnDevice(r, it) <==> OnDevice(q, it));
    assert forall x :: HasEnded(r, x) <==> HasEnded(q, x);
    assert forall x, p :: Inserted(x, p) in r.log <==> Inserted(x, p) in q.log;
    assert FlushEnded(q.flushes - 1, ok) in r.log;
  }

  lemma FlushEndEntryHist(q: Queue, ok: bool)
    requires Shaped(q) && Hist(q, {}) && q.flushes > 0 && q.pendingIdx != q.runningIdx
    ensures Hist(FlushEndEntry(q, ok), {})
  {
    hide Requests, FlushCount, SafeLog, Known, Behind;
    var r := FlushEndEntry(q, ok);
    SafeSnoc(q.log, FlushEnded(q.flushes - 1, ok));
    KnownSnoc(q.log, q.used, FlushEnded(q.flushes - 1, ok));
    BehindAll(q, r, {});
    FlushEndEntryRequests(q, ok);
  }

  lemma FlushEndCovers(q: Queue)
    requires Shaped(q) && Covered(q) && q.flushes > 0 && q.pendingIdx != q.runningIdx
    ensures var r := FlushEndEntry(q, true);
      forall x :: x in q.flushQueue[q.runningIdx] && x in r.reqs ==> FlushedSince(r.log, Since(x, r.reqs[x]))
  {
    var r := FlushEndEntry(q, true);
    forall x | x in q.flushQueue[q.runningIdx] && x in r.reqs
      ensures FlushedSince(r.log, Since(x, r.reqs[x]))
    {
      assert r.log[..|q.log|] == q.log;
      assert r.log[|q.log|] == FlushEnded(q.flushes - 1, true);
      assert IssuedSince(r.log[..|q.log|], Since(x, r.reqs[x]), q.flushes - 1);
    }
  }

  lemma FlushEndInv(q: Queue, ok: bool, clock: nat -> nat)
    requires Inv(q) && FlushItem in q.driver
    ensures q.flushes > 0 && NoDup(q.flushQueue[q.runningIdx])
    ensures forall x :: x in q.flushQueue[q.runningIdx] ==> x in q.reqs
    ensures Inv(FlushEndIo(q, ok, clock))
  {
    hide Core, Hist, WalkInv, NotLost, Buffered;
    StepReady(q, FlushEnd(ok, clock));
    FlushEndWalkInv(q, ok);
    assert q.flushQueue[q.runningIdx] != [];
    WalkAll(FlushEndEntry(q, ok), q.flushQueue[q.runningIdx], ok, clock);
  }

  lemma FlushEndWalkInv(q: Queue, ok: bool)
    requires Inv(q) && FlushItem in q.driver
    ensures q.flushes > 0 && WalkInv(FlushEndEntry(q, ok), q.flushQueue[q.runningIdx], ok)
  {
    StepReady(q, FlushEnd(ok, n => n));
    FlushEndEntryCore(q, ok);
    FlushEndEntryHist(q, ok);
    if ok { FlushEndCovers(q); }
  }

  // ---------------------------------------------------------------------- runs

  lemma NextInv(q: Queue, s: Step)
    requires Inv(q) && Enabled(q, s)
    ensures Inv(Next(q, s))
  {
    StepReady(q, s);
    match s
    case Insert(rq, cmd, caps, now) => InsertInv(q, rq, cmd, caps, now);
    case Start => StartInv(q);
    case Requeue(it) => RequeueInv(q, it);
    case PlainEnd(rq, ok) => PlainEndInv(q, rq, ok);
    case DataEnd(rq, ok, now) => DataEndInv(q, rq, ok, now);
    case FlushEnd(ok, clock) => FlushEndInv(q, ok, clock);
  }

  ghost predicate Legal(q: Queue, steps: seq<Step>)
    requires Shaped(q)
    decreases |steps|
  {
    steps == [] || (Enabled(q, steps[0]) && Legal(Next(q, steps[0]), steps[1..]))
  }

  ghost function Exec(q: Queue, steps: seq<Step>): (r: Queue)
    requires Shaped(q) && Legal(q, steps)
    ensures Shaped(r)
    decreases |steps|
  {
    if steps == [] then q else Exec(Next(q, steps[0]), steps[1..])
  }

  lemma InitInv(timeout: nat)
    ensures Inv(Init(timeout))
  {
    var q := Init(timeout);
    assert forall x :: !Listed(q, x);
    assert forall it :: !OnDevice(q, it);
  }

  lemma {:induction false} ExecInv(q: Queue, steps: seq<Step>)
    requires Inv(q) && Legal(q, steps)
    ensures Inv(Exec(q, steps))
    decreases |steps|
  {
    if steps != [] {
      NextInv(q, steps[0]);
      ExecInv(Next(q, steps[0]), steps[1..]);
    }
  }

  // ------------------------------------------------------------------ theorems

  ghost predicate RunLog(timeout: nat, steps: seq<Step>, log: seq<Event>) {
    Legal(Init(timeout), steps) && log == Exec(Init(timeout), steps).log
  }

  lemma TakeIn(log: seq<Event>, i: nat)
    requires i <= |log|
    ensures forall k :: 0 <= k < i ==> log[k] in log[..i]
  {
    assert forall k :: 0 <= k < i ==> log[..i][k] == log[k];
  }

  lemma InsertedFirst(log: seq<Event>, i: nat, x: Rq, p: set<Stage>)
    requires SafeLog(log) && i < |log| && About(log[i], x) && !log[i].Inserted? && Inserted(x, p) in log
    ensures Inserted(x, p) in log[..i]
  {
    var j :| 0 <= j < |log| && log[j] == Inserted(x, p);
    assert EventOk(log[..j], log[j]);
    TakeIn(log, j);
    TakeIn(log, i);
  }

  /** The three moments that make e durable before position i. */
  lemma FlushedSinceAt(log: seq<Event>, i: nat, e: Event)
    requires i <= |log| && FlushedSince(log[..i], e)
    ensures exists a, b, c, n :: 0 <= a < b < c < i && log[a] == e
              && log[b] == FlushIssued(n) && log[c] == FlushEnded(n, true)
  {
    var past := log[..i];
    var n, c :| 0 <= c < |past| && past[c] == FlushEnded(n, true) && IssuedSince(past[..c], e, n);
    var a, b :| 0 <= a < b < |past[..c]| && past[..c][a] == e && past[..c][b] == FlushIssued(n);
    assert log[a] == e && log[b] == FlushIssued(n) && log[c] == FlushEnded(n, true);
  }

  /** A successful end of a request with DATA and POSTFLUSH is preceded by its data
      completing, then a flush being issued, then that flush completing. */
  lemma PostflushFollowsData(timeout: nat, steps: seq<Step>, log: seq<Event>, i: nat, x: Rq, p: set<Stage>)
    requires RunLog(timeout, steps, log) && i < |log| && log[i] == Ended(x, true)
    requires Inserted(x, p) in log && Data in p && Postflush in p
    ensures exists a, b, c, n :: 0 <= a < b < c < i && log[a] == DataEnded(x, true)
              && log[b] == FlushIssued(n) && log[c] == FlushEnded(n, true)
  {
    InitInv(timeout);
    ExecInv(Init(timeout), steps);
    InsertedFirst(log, i, x, p);
    assert EventOk(log[..i], log[i]);
    FlushedSinceAt(log, i, DataEnded(x, true));
  }

  /** The data of a request with PREFLUSH is started only after its insertion was
      followed by a flush being issued and completing. */
  lemma PreflushPrecedesData(timeout: nat, steps: seq<Step>, log: seq<Event>, i: nat, x: Rq, p: set<Stage>)
    requires RunLog(timeout, steps, log) && i < |log| && log[i] == DataQueued(x)
    requires Inserted(x, p) in log && Preflush in p
    ensures exists a, b, c, n :: 0 <= a < b < c < i && log[a] == Inserted(x, p)
              && log[b] == FlushIssued(n) && log[c] == FlushEnded(n, true)
  {
    InitInv(timeout);
    ExecInv(Init(timeout), steps);
    InsertedFirst(log, i, x, p);
    assert EventOk(log[..i], log[i]);
    FlushedSinceAt(log, i, Inserted(x, p));
  }

  /** A request ends at most once, and successfully only when every stage was done. */
  lemma EndsOnce(timeout: nat, steps: seq<Step>, log: seq<Event>, i: nat, j: nat, x: Rq)
    requires RunLog(timeout, steps, log) && i < |log| && j < |log|
    requires log[i].Ended? && log[i].rq == x && log[j].Ended? && log[j].rq == x
    ensures i == j
    ensures log[i].ok ==> forall p :: Inserted(x, p) in log ==>
              && (Data in p ==> DataEnded(x, true) in log[..i])
              && (Preflush in p ==> FlushedSince(log[..i], Inserted(x, p)))
  {
    InitInv(timeout);
    ExecInv(Init(timeout), steps);
    assert EventOk(log[..i], log[i]) && EventOk(log[..j], log[j]);
    TakeIn(log, j);
    TakeIn(log, i);
    forall p | log[i].ok && Inserted(x, p) in log
      ensures Data in p ==> DataEnded(x, true) in log[..i]
      ensures Preflush in p ==> FlushedSince(log[..i], Inserted(x, p))
    {
      InsertedFirst(log, i, x, p);
    }
  }

  /** C1: a flush is issued only when the one before it has completed. */
  lemma OneFlushAtATime(timeout: nat, steps: seq<Step>, log: seq<Event>, i: nat, n: nat)
    requires RunLog(timeout, steps, log) && i < |log| && log[i] == FlushIssued(n) && n > 0
    ensures FlushEnded(n - 1, true) in log[..i] || FlushEnded(n - 1, false) in log[..i]
  {
    InitInv(timeout);
    ExecInv(Init(timeout), steps);
    assert EventOk(log[..i], log[i]);
  }

  lemma StructureInv(q: Queue)
    requires Inv(q)
    ensures q.pendingIdx != q.runningIdx <==> FlushItem in q.queueHead || FlushItem in q.driver
    ensures forall x :: x in q.reqs ==> CurSeq(q.reqs[x].done) != Done && Placed(q, x)
  {
    assert OnDevice(q, FlushItem) <==> FlushItem in q.queueHead || FlushItem in q.driver;
  }

  /** No BUG_ON fires in any run, and the structure is what the header describes. */
  lemma Structure(timeout: nat, steps: seq<Step>)
    requires Legal(Init(timeout), steps)
    ensures var q := Exec(Init(timeout), steps);
      && Shaped(q) && !q.bug
      && (q.pendingIdx != q.runningIdx <==> FlushItem in q.queueHead || FlushItem in q.driver)
      && (forall x :: x in q.reqs ==> CurSeq(q.reqs[x].done) != Done && Placed(q, x))
      && ListsOk(q)
      && (q.pendingIdx == q.runningIdx && q.flushQueue[q.pendingIdx] != [] ==> q.dataInFlight != [])
  {
    InitInv(timeout);
    ExecInv(Init(timeout), steps);
    StructureInv(Exec(Init(timeout), steps));
  }

  /** No flush is lost: when neither the queue nor the driver holds anything, every
      request ever inserted has ended. */
  lemma Drained(timeout: nat, steps: seq<Step>, x: Rq, p: set<Stage>)
    requires Legal(Init(timeout), steps)
    requires var q := Exec(Init(timeout), steps); q.queueHead == [] && q.driver == {} && Inserted(x, p) in q.log
    ensures var log := Exec(Init(timeout), steps).log; Ended(x, true) in log || Ended(x, false) in log
  {
    InitInv(timeout);
    ExecInv(Init(timeout), steps);
    IdleInv(Exec(Init(timeout), steps));
  }

  lemma NoneIn(s: seq<Rq>)
    ensures (forall x :: x !in s) ==> s == []
  {
    if s != [] {
      assert s[0] in s;
    }
  }

  lemma IdleInv(q: Queue)
    requires Inv(q) && q.queueHead == [] && q.driver == {}
    ensures q.reqs == map[] && forall x, p :: Inserted(x, p) in q.log ==> HasEnded(q, x)
  {
    hide Sequenced, Behind, Covered, SafeLog, FlushCount;
    assert forall it :: !OnDevice(q, it);
    assert forall x :: x !in q.dataInFlight;
    NoneIn(q.dataInFlight);
    assert q.flushQueue[0] == [] && q.flushQueue[1] == [];
    assert forall x :: x !in q.reqs;
  }
}
