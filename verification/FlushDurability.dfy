/** What a submitter gets from a flag, given the caches of the device: runs of the sequencer
    looked at from the commands that were inserted. */
module FlushDurability {
  import opened FlushRuns
  import opened FlushSpec
  import opened Lists

  lemma CompleteGrows(q: Queue, rq: Rq, stages: set<Stage>, ok: bool, now: nat)
    requires Shaped(q) && rq in q.reqs
    ensures q.log <= CompleteSeq(q, rq, stages, ok, now).log
    ensures forall x :: x in q.reqs && x != rq ==> x in CompleteSeq(q, rq, stages, ok, now).reqs
  {
  }

  lemma {:induction false} WalkGrows(q: Queue, list: seq<Rq>, ok: bool, clock: nat -> nat)
    requires Shaped(q) && NoDup(list) && forall x :: x in list ==> x in q.reqs
    ensures q.log <= Walk(q, list, ok, clock).log
    decreases |list|
  {
    hide CompleteSeq;
    if list != [] {
      var stage := CurSeq(q.reqs[list[0]].done);
      var q' := q.(bug := q.bug || (stage != Preflush && stage != Postflush));
      assert list[0] !in list[1..];
      CompleteGrows(q', list[0], {stage}, ok, clock(|list|));
      WalkGrows(CompleteSeq(q', list[0], {stage}, ok, clock(|list|)), list[1..], ok, clock);
    }
  }

  /** Nothing that happened is forgotten, and an insertion shows the stages of its command. */
  lemma StepGrows(q: Queue, s: Step)
    requires Shaped(q) && Enabled(q, s)
    ensures q.log <= Next(q, s).log
    ensures s.Insert? ==> Inserted(s.rq, Policy(s.caps, s.cmd)) in Next(q, s).log
  {
    hide CompleteSeq, Walk, Policy;
    match s
    case Insert(rq, cmd, caps, now) =>
      var policy := Policy(caps, cmd);
      assert Inserted(rq, policy) in q.log + [Inserted(rq, policy)];
      if policy != {} && policy != {Data} {
        CompleteGrows(Enter(q, rq, policy), rq, ACTIONS - policy, true, now);
      }
    case DataEnd(rq, ok, now) =>
      if rq in q.reqs { CompleteGrows(DataEndIo(q, rq, ok), rq, {Data}, ok, now); }
    case FlushEnd(ok, clock) =>
      var l := q.flushQueue[q.runningIdx];
      if q.flushes > 0 && NoDup(l) && forall x :: x in l ==> x in q.reqs {
        WalkGrows(FlushEndEntry(q, ok), l, ok, clock);
      }
    case _ =>
  }

  lemma {:induction false} RunGrows(q: Queue, steps: seq<Step>)
    requires Shaped(q) && Legal(q, steps)
    ensures q.log <= Exec(q, steps).log
    decreases |steps|
  {
    hide Next;
    if steps != [] {
      StepGrows(q, steps[0]);
      RunGrows(Next(q, steps[0]), steps[1..]);
    }
  }

  lemma {:induction false} InsertLogged(q: Queue, steps: seq<Step>, k: nat)
    requires Shaped(q) && Legal(q, steps) && k < |steps| && steps[k].Insert?
    ensures Inserted(steps[k].rq, Policy(steps[k].caps, steps[k].cmd)) in Exec(q, steps).log
    decreases |steps|
  {
    hide Next, Policy;
    StepGrows(q, steps[0]);
    if k == 0 {
      RunGrows(Next(q, steps[0]), steps[1..]);
    } else {
      InsertLogged(Next(q, steps[0]), steps[1..], k - 1);
    }
  }

  // -------------------------------------------------------------------- what a flag buys

  /** The run and, in it, the insertion of x. */
  ghost predicate Inserts(timeout: nat, steps: seq<Step>, log: seq<Event>, k: nat, x: Rq, cmd: Cmd, caps: Caps) {
    RunLog(timeout, steps, log) && k < |steps| && steps[k].Insert? && steps[k].rq == x
    && steps[k].cmd == cmd && steps[k].caps == caps
  }

  /** A forced write on a write-back cache without native FUA ends successfully only after its
      data completed, then a flush was issued, then that flush completed. */
  lemma FuaDurable(timeout: nat, steps: seq<Step>, log: seq<Event>, k: nat, x: Rq, cmd: Cmd, caps: Caps, i: nat)
    requires Inserts(timeout, steps, log, k, x, cmd, caps) && i < |log| && log[i] == Ended(x, true)
    requires caps.flush && !caps.fua && cmd.fua && cmd.sectors > 0
    ensures exists a, b, c, n :: 0 <= a < b < c < i && log[a] == DataEnded(x, true)
              && log[b] == FlushIssued(n) && log[c] == FlushEnded(n, true)
  {
    InsertLogged(Init(timeout), steps, k);
    PostflushFollowsData(timeout, steps, log, i, x, Policy(caps, cmd));
  }

  /** With REQ_FLUSH and a write-back cache neither the data starts nor the request ends
      successfully before a flush issued after the insertion has completed. */
  lemma FlushFirst(timeout: nat, steps: seq<Step>, log: seq<Event>, k: nat, x: Rq, cmd: Cmd, caps: Caps, i: nat)
    requires Inserts(timeout, steps, log, k, x, cmd, caps) && i < |log|
    requires log[i] == DataQueued(x) || log[i] == Ended(x, true)
    requires caps.flush && cmd.flush
    ensures exists a, b, c, n :: 0 <= a < b < c < i && log[a].Inserted? && log[a].rq == x
              && log[b] == FlushIssued(n) && log[c] == FlushEnded(n, true)
  {
    var p := Policy(caps, cmd);
    InsertLogged(Init(timeout), steps, k);
    if log[i] == DataQueued(x) {
      PreflushPrecedesData(timeout, steps, log, i, x, p);
    } else {
      EndsOnce(timeout, steps, log, i, i, x);
      FlushedSinceAt(log, i, Inserted(x, p));
    }
  }

  /** Data is started only for a request that has some, which ends successfully only after it
      completed. */
  lemma DataWhenAny(timeout: nat, steps: seq<Step>, log: seq<Event>, k: nat, x: Rq, cmd: Cmd, caps: Caps, i: nat)
    requires Inserts(timeout, steps, log, k, x, cmd, caps) && i < |log|
    ensures log[i] == DataQueued(x) ==> cmd.sectors > 0
    ensures log[i] == Ended(x, true) && cmd.sectors > 0 ==> DataEnded(x, true) in log[..i]
  {
    var p := Policy(caps, cmd);
    InsertLogged(Init(timeout), steps, k);
    if log[i] == DataQueued(x) {
      InitInv(timeout);
      ExecInv(Init(timeout), steps);
      InsertedFirst(log, i, x, p);
      assert EventOk(log[..i], log[i]);
    } else if log[i] == Ended(x, true) {
      EndsOnce(timeout, steps, log, i, i, x);
    }
  }

  /** Whether the device makes the flags of a command cost a flush. */
  predicate Waits(cmd: Cmd, caps: Caps) {
    caps.flush && (cmd.flush || (cmd.fua && !caps.fua))
  }

  /** Without a write-back cache, or with native FUA and no REQ_FLUSH, a request waits for no
      flush: at its insertion it ends or goes to the driver's queue, and it is never listed. */
  lemma NoFlushNoWait(timeout: nat, steps: seq<Step>, log: seq<Event>, k: nat, x: Rq, cmd: Cmd, caps: Caps)
    requires Inserts(timeout, steps, log, k, x, cmd, caps) && !Waits(cmd, caps)
    ensures var q := Exec(Init(timeout), steps);
      x !in q.reqs && !Listed(q, x) && (OnDevice(q, PlainItem(x)) || HasEnded(q, x))
  {
    InsertLogged(Init(timeout), steps, k);
    InitInv(timeout);
    ExecInv(Init(timeout), steps);
    NotSequenced(Exec(Init(timeout), steps), x, Policy(caps, cmd));
  }

  lemma NotSequenced(q: Queue, x: Rq, p: set<Stage>)
    requires Inv(q) && Inserted(x, p) in q.log && !NeedsFlush(p)
    ensures x !in q.reqs && !Listed(q, x) && (OnDevice(q, PlainItem(x)) || HasEnded(q, x))
  {
    hide Behind, Covered, SafeLog, Known, FlushCount;
    assert Requests(q);
  }

  /** Right at the insertion: nothing to do is over, and plain data is queued behind the rest. */
  lemma NoFlushAtOnce(q: Queue, x: Rq, cmd: Cmd, caps: Caps, now: nat)
    requires Shaped(q) && !Waits(cmd, caps)
    ensures var r := InsertFlush(q, x, cmd, caps, now);
      && r.flushQueue == q.flushQueue && r.dataInFlight == q.dataInFlight && r.reqs == q.reqs
      && (cmd.sectors == 0 ==> r.queueHead == q.queueHead && r.log[|r.log| - 1] == Ended(x, true))
      && (cmd.sectors > 0 ==> r.queueHead == q.queueHead + [PlainItem(x)] && r.log[|r.log| - 1] == DataQueued(x))
  {
    if cmd.sectors > 0 { assert Policy(caps, cmd) == {Data}; } else { assert Policy(caps, cmd) == {}; }
  }

  // ------------------------------------------------------------- when a flush is issued

  ghost predicate Awaits(q: Queue, x: Rq) {
    x in q.reqs && CurSeq(q.reqs[x].done) in {Preflush, Postflush}
  }

  /** C1 to C3 of the header: a flush is issued exactly when none is out, some request waits for
      one, and no request has its data in flight or the wait has lasted for the timeout. It goes
      to the back of the queue and takes every waiting request with it. */
  lemma IssuedWhenDue(q: Queue, now: nat)
    requires Core(q, {}) && Buffered(q)
    ensures var r := KickFlush(q, now);
      && (r != q <==> && !OnDevice(q, FlushItem) && (exists x :: Awaits(q, x))
                      && ((forall x :: x in q.reqs ==> CurSeq(q.reqs[x].done) != Data)
                          || q.pendingSince + q.timeout <= now))
      && (r != q ==>
            && r == q.(pendingIdx := 1 - q.runningIdx, queueHead := q.queueHead + [FlushItem],
                       flushes := q.flushes + 1, log := q.log + [FlushIssued(q.flushes)])
            && forall x :: Awaits(q, x) ==> x in r.flushQueue[r.runningIdx])
  {
    var r := KickFlush(q, now);
    if !OnDevice(q, FlushItem) {
      assert q.pendingIdx == q.runningIdx && q.flushQueue[1 - q.pendingIdx] == [];
      if q.flushQueue[q.pendingIdx] != [] { WaitingHead(q); }
      if q.dataInFlight != [] { DataHead(q); }
      forall x | Awaits(q, x) ensures x in q.flushQueue[q.pendingIdx] {
        assert Placed(q, x);
      }
      forall x | x in q.reqs && CurSeq(q.reqs[x].done) == Data ensures q.dataInFlight != [] {
        assert Placed(q, x);
      }
    }
  }

  lemma WaitingHead(q: Queue)
    requires Core(q, {}) && q.flushQueue[q.pendingIdx] != []
    ensures Awaits(q, q.flushQueue[q.pendingIdx][0])
  {
    var x := q.flushQueue[q.pendingIdx][0];
    assert x in q.flushQueue[q.pendingIdx] && Listed(q, x);
    assert Placed(q, x) && Sequenced(q.reqs[x]);
  }

  lemma DataHead(q: Queue)
    requires Core(q, {}) && q.dataInFlight != []
    ensures var x := q.dataInFlight[0]; x in q.reqs && CurSeq(q.reqs[x].done) == Data
  {
    var x := q.dataInFlight[0];
    assert x in q.dataInFlight && Listed(q, x);
    assert Placed(q, x);
  }

  /** Where a request goes from a stage: to the end of the pending list, which starts the clock
      if nothing waited there, to the front of the queue with its data, or out. */
  lemma MovesOn(q: Queue, rq: Rq, stages: set<Stage>, ok: bool, now: nat)
    requires Shaped(q) && rq in q.reqs && stages <= ACTIONS
    ensures var r, s, p := Advance(q, rq, stages, ok, now), q.reqs[rq], q.pendingIdx;
      var left := ACTIONS - s.done - stages;
      var next := if ok && Preflush in left then Preflush else if ok && Data in left then Data
                  else if ok && Postflush in left then Postflush else Done;
      && (r.reqs == if next == Done then q.reqs - {rq} else q.reqs[rq := Seq(s.policy, s.done + stages)])
      && (next == Data ==> r.queueHead == [DataItem(rq)] + q.queueHead && rq in r.dataInFlight)
      && (next != Data ==> r.queueHead == q.queueHead && rq !in r.dataInFlight)
      && (next in {Preflush, Postflush} ==>
            && r.flushQueue[p] == Without(q.flushQueue[p], rq) + [rq]
            && r.pendingSince == if q.flushQueue[p] == [] then now else q.pendingSince)
      && (next !in {Preflush, Postflush} ==>
            rq !in r.flushQueue[0] && rq !in r.flushQueue[1] && r.pendingSince == q.pendingSince)
      && r.log == q.log + (if next == Data then [DataQueued(rq)] else if next == Done then [Ended(rq, ok)] else [])
  {
  }

  /** The BUG_ONs do look: each one that finds its condition broken is remembered. */
  lemma ChecksLook(q: Queue, rq: Rq, stages: set<Stage>, ok: bool, now: nat)
    requires Shaped(q) && rq in q.reqs
    ensures CompleteSeq(q, rq, stages, ok, now).bug <==>
              || q.bug || q.reqs[rq].done * stages != {}
              || (NextStage(q, rq, stages, ok) == Done && DataItem(rq) in q.queueHead)
    ensures q.flushes > 0 ==> (FlushEndEntry(q, ok).bug <==> q.bug || q.pendingIdx == q.runningIdx)
  {
  }

  /** So does the one in the walk, for a request that waits for no flush. */
  lemma WalkLooks(q: Queue, rq: Rq, ok: bool, clock: nat -> nat)
    requires Shaped(q) && rq in q.reqs && CurSeq(q.reqs[rq].done) !in {Preflush, Postflush}
    ensures Walk(q, [rq], ok, clock).bug
  {
    hide CompleteSeq;
    assert [rq][1..] == [];
    var stage := CurSeq(q.reqs[rq].done);
    ChecksLook(q.(bug := true), rq, {stage}, ok, clock(1));
  }
}
