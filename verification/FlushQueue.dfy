/** The sequencer's handlers as the source runs them: in place, on the queue's own fields. */
module FlushQueue {
  import opened Lists
  import opened FlushSpec
  import opened FlushRuns

  datatype Link = End | To(rq: Rq)

  function First(list: seq<Rq>): Link {
    if list == [] then End else To(list[0])
  }

  /** The entry after x on a list. */
  function After(list: seq<Rq>, x: Rq): Link {
    if list == [] then End
    else if list[0] == x then First(list[1..])
    else After(list[1..], x)
  }

  /** rq taken off its list with the stages recorded. */
  function Marked(q: Queue, rq: Rq, stages: set<Stage>): Queue
    requires Shaped(q) && rq in q.reqs
  {
    Unlink(q, rq).(reqs := q.reqs[rq := q.reqs[rq].(done := q.reqs[rq].done + stages)],
                   bug := q.bug || q.reqs[rq].done * stages != {})
  }

  lemma AdvanceIs(q: Queue, rq: Rq, stages: set<Stage>, ok: bool, now: nat)
    requires Shaped(q) && rq in q.reqs
    ensures var u, p := Marked(q, rq, stages), q.pendingIdx;
      && Shaped(u) && rq in u.reqs && u.pendingIdx == p && u.queueHead == q.queueHead
      && u.pendingSince == q.pendingSince
      && NextStage(q, rq, stages, ok) == (if ok then CurSeq(u.reqs[rq].done) else Done)
      && Advance(q, rq, stages, ok, now) ==
           match NextStage(q, rq, stages, ok)
           case Data =>
             u.(dataInFlight := u.dataInFlight + [rq], queueHead := [DataItem(rq)] + u.queueHead,
                log := u.log + [DataQueued(rq)])
           case Done =>
             u.(reqs := u.reqs - {rq}, log := u.log + [Ended(rq, ok)], bug := u.bug || DataItem(rq) in u.queueHead)
           case _ =>
             u.(pendingSince := if q.flushQueue[p] == [] then now else u.pendingSince,
                flushQueue := u.flushQueue[p := u.flushQueue[p] + [rq]])
  {
  }

  class RequestQueue {
    const timeout: nat
    var flushQueue: seq<seq<Rq>>
    var pendingIdx: nat
    var runningIdx: nat
    var dataInFlight: seq<Rq>
    var pendingSince: nat
    var queueHead: seq<Item>
    var driver: set<Item>
    var reqs: map<Rq, Seq>
    ghost var used: set<Rq>
    ghost var flushes: nat
    ghost var log: seq<Event>
    ghost var bug: bool

    ghost function State(): Queue
      reads this
    {
      Queue(timeout, flushQueue, pendingIdx, runningIdx, dataInFlight, pendingSince,
            queueHead, driver, reqs, used, flushes, log, bug)
    }

    constructor (timeout: nat)
      ensures State() == Init(timeout)
    {
      this.timeout := timeout;
      flushQueue, pendingIdx, runningIdx, dataInFlight, pendingSince := [[], []], 0, 0, [], 0;
      queueHead, driver, reqs := [], {}, map[];
      used, flushes, log, bug := {}, 0, [], false;
    }

    method KickFlush(now: nat) returns (issued: bool)
      requires Shaped(State())
      modifies this
      ensures State() == FlushSpec.KickFlush(old(State()), now)
      ensures issued <==> |queueHead| == |old(queueHead)| + 1
    {
      if pendingIdx != runningIdx || flushQueue[pendingIdx] == [] {
        return false;
      }
      if dataInFlight != [] && now < pendingSince + timeout {
        return false;
      }
      pendingIdx := 1 - pendingIdx;
      queueHead := queueHead + [FlushItem];
      log := log + [FlushIssued(flushes)];
      flushes := flushes + 1;
      return true;
    }

    method Unlink(rq: Rq)
      requires Shaped(State())
      modifies this`flushQueue, this`dataInFlight
      ensures State() == FlushSpec.Unlink(old(State()), rq)
    {
      flushQueue := [Without(flushQueue[0], rq), Without(flushQueue[1], rq)];
      dataInFlight := Without(dataInFlight, rq);
    }

    method StartData(rq: Rq)
      modifies this`dataInFlight, this`queueHead, this`log
      ensures dataInFlight == old(dataInFlight) + [rq]
      ensures queueHead == [DataItem(rq)] + old(queueHead) && log == old(log) + [DataQueued(rq)]
    {
      dataInFlight := dataInFlight + [rq];
      queueHead := [DataItem(rq)] + queueHead;
      log := log + [DataQueued(rq)];
    }

    method Finish(rq: Rq, ok: bool)
      modifies this`reqs, this`log, this`bug
      ensures reqs == old(reqs) - {rq} && log == old(log) + [Ended(rq, ok)]
      ensures bug == (old(bug) || DataItem(rq) in queueHead)
    {
      bug := bug || DataItem(rq) in queueHead;
      reqs := reqs - {rq};
      log := log + [Ended(rq, ok)];
    }

    method Mark(rq: Rq, stages: set<Stage>)
      requires Shaped(State()) && rq in reqs
      modifies this`flushQueue, this`dataInFlight, this`reqs, this`bug
      ensures State() == Marked(old(State()), rq, stages)
    {
      Unlink(rq);
      bug := bug || reqs[rq].done * stages != {};
      reqs := reqs[rq := reqs[rq].(done := reqs[rq].done + stages)];
    }

    /** blk_flush_complete_seq, up to its kick. */
    method AdvanceSeq(rq: Rq, stages: set<Stage>, ok: bool, now: nat) returns (queued: bool)
      requires Shaped(State()) && rq in reqs
      modifies this
      ensures State() == Advance(old(State()), rq, stages, ok, now)
      ensures queued <==> NextStage(old(State()), rq, stages, ok) == Data
    {
      hide Advance, Marked, CurSeq;
      ghost var q := State();
      var p := pendingIdx;
      var wasEmpty := flushQueue[p] == [];
      AdvanceIs(q, rq, stages, ok, now);
      Mark(rq, stages);
      var stage := if ok then CurSeq(reqs[rq].done) else Done;
      queued := stage == Data;
      if stage == Data {
        StartData(rq);
      } else if stage == Done {
        Finish(rq, ok);
      } else {
        if wasEmpty {
          pendingSince := now;
        }
        flushQueue := flushQueue[p := flushQueue[p] + [rq]];
      }
    }

    method CompleteSeq(rq: Rq, stages: set<Stage>, ok: bool, now: nat) returns (queued: bool)
      requires Shaped(State()) && rq in reqs
      modifies this
      ensures State() == FlushSpec.CompleteSeq(old(State()), rq, stages, ok, now)
      ensures |queueHead| >= |old(queueHead)| && (queued <==> |queueHead| > |old(queueHead)|)
    {
      queued := AdvanceSeq(rq, stages, ok, now);
      var issued := KickFlush(now);
      queued := queued || issued;
    }

    method InsertFlush(rq: Rq, cmd: Cmd, caps: Caps, now: nat)
      requires Inv(State()) && Enabled(State(), Insert(rq, cmd, caps, now))
      modifies this
      ensures State() == Next(old(State()), Insert(rq, cmd, caps, now)) && Inv(State())
    {
      hide Inv, FlushSpec.CompleteSeq;
      InvShaped(State());
      InsertInv(State(), rq, cmd, caps, now);
      var policy := Policy(caps, cmd);
      used, log := used + {rq}, log + [Inserted(rq, policy)];
      if policy == {} {
        log := log + [Ended(rq, true)];
        return;
      }
      if Data in policy && Preflush !in policy && Postflush !in policy {
        assert policy == {Data};
        queueHead := queueHead + [PlainItem(rq)];
        log := log + [DataQueued(rq)];
        return;
      }
      reqs := reqs[rq := Seq(policy, {})];
      var queued := CompleteSeq(rq, ACTIONS - policy, true, now);
    }

    method DataEndIo(rq: Rq, ok: bool, now: nat) returns (queued: bool)
      requires Inv(State()) && DataItem(rq) in driver
      modifies this
      ensures State() == Next(old(State()), DataEnd(rq, ok, now)) && Inv(State())
      ensures |queueHead| >= |old(queueHead)| && (queued <==> |queueHead| > |old(queueHead)|)
    {
      hide Inv, FlushSpec.CompleteSeq;
      InvShaped(State());
      StepReady(State(), DataEnd(rq, ok, now));
      DataEndInv(State(), rq, ok, now);
      driver, log := driver - {DataItem(rq)}, log + [DataEnded(rq, ok)];
      queued := CompleteSeq(rq, {Data}, ok, now);
    }

    method FlushEndIo(ok: bool, clock: nat -> nat) returns (queued: bool)
      requires Inv(State()) && FlushItem in driver
      modifies this
      ensures State() == Next(old(State()), FlushEnd(ok, clock)) && Inv(State())
      ensures |queueHead| >= |old(queueHead)| && (queued <==> |queueHead| > |old(queueHead)|)
    {
      hide Inv, WalkInv, NoDup, Walk;
      InvShaped(State());
      ghost var rest := flushQueue[runningIdx];
      FlushEndInv(State(), ok, clock);
      FlushEndWalkInv(State(), ok);
      var running := runningIdx;
      FlushEnter(ok);
      queued := WalkRunning(running, rest, ok, clock);
    }

    /** The walk follows the live list: the next entry is read before the current one
        moves on, and a flush issued on the way turns that list into the pending one. */
    method WalkRunning(running: nat, ghost list: seq<Rq>, ok: bool, clock: nat -> nat) returns (queued: bool)
      requires Shaped(State()) && running == 1 - runningIdx && WalkInv(State(), list, ok)
      requires NoDup(list) && forall x :: x in list ==> x in reqs
      modifies this
      ensures State() == Walk(old(State()), list, ok, clock)
      ensures |queueHead| >= |old(queueHead)| && (queued <==> |queueHead| > |old(queueHead)|)
    {
      hide WalkInv, NoDup, FlushSpec.CompleteSeq, CurSeq;
      WalkListed(State(), list, ok);
      ghost var rest := list;
      queued := false;
      var left := |flushQueue[running]|;
      var rq := First(flushQueue[running]);
      while rq.To?
        invariant Shaped(State()) && WalkInv(State(), rest, ok) && running == 1 - runningIdx
        invariant flushQueue[running] == rest && rq == First(rest) && left == |rest|
        invariant NoDup(rest) && forall x :: x in rest ==> x in reqs
        invariant Walk(State(), rest, ok, clock) == Walk(old(State()), list, ok, clock)
        invariant |queueHead| >= |old(queueHead)| && (queued <==> |queueHead| > |old(queueHead)|)
        decreases left
      {
        var n := After(flushQueue[running], rq.rq);
        var q := WalkTurn(rq.rq, rest, ok, clock(left));
        queued := queued || q;
        rq, rest, left := n, rest[1..], left - 1;
      }
    }

    /** flush_end_io up to its walk. */
    method FlushEnter(ok: bool)
      requires Shaped(State()) && flushes > 0
      modifies this
      ensures State() == FlushEndEntry(old(State()), ok)
    {
      bug := bug || pendingIdx == runningIdx;
      runningIdx := 1 - runningIdx;
      driver := driver - {FlushItem};
      log := log + [FlushEnded(flushes - 1, ok)];
    }

    /** One turn of the walk: rq, the head of the live list, goes on to its next stage. */
    method WalkTurn(rq: Rq, ghost rest: seq<Rq>, ok: bool, now: nat) returns (queued: bool)
      requires Shaped(State()) && WalkInv(State(), rest, ok) && rest != [] && rest[0] == rq && rq in reqs
      modifies this
      ensures State() == FlushSpec.CompleteSeq(old(State()), rq, {CurSeq(old(reqs[rq].done))}, ok, now)
      ensures old(State()) == old(State().(bug := bug || CurSeq(reqs[rq].done) !in {Preflush, Postflush}))
      ensures |queueHead| >= |old(queueHead)| && (queued <==> |queueHead| > |old(queueHead)|)
      ensures runningIdx == old(runningIdx)
      ensures Shaped(State()) && WalkInv(State(), rest[1..], ok)
      ensures flushQueue[1 - runningIdx] == rest[1..]
      ensures NoDup(rest[1..]) && forall x :: x in rest[1..] ==> x in reqs
    {
      hide WalkInv, NoDup, FlushSpec.CompleteSeq;
      var stage := CurSeq(reqs[rq].done);
      WalkNext(State(), rest, ok, now);
      bug := bug || (stage != Preflush && stage != Postflush);
      queued := CompleteSeq(rq, {stage}, ok, now);
      WalkListed(State(), rest[1..], ok);
    }
  }
}
