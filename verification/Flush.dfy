/**
 The FLUSH/FUA sequencer of the block layer as a transition system.

 Every handler that runs under queue_lock is one function from the state of the
 queue to the next state.  The log records, in order, what the submitter and
 the device can observe; it is what the safety properties are stated about.
 A BUG_ON that fires sets `bug`.
 */
module FlushSpec {
  import opened Lists

  type Rq = nat

  datatype Stage = Preflush | Data | Postflush | Done

  const ACTIONS: set<Stage> := {Preflush, Data, Postflush}

  /** q->flush_flags: whether there is a write-back cache, and native FUA. */
  datatype Caps = Caps(flush: bool, fua: bool)

  /** What blk_insert_flush reads of a request: its length and its flags. */
  datatype Cmd = Cmd(sectors: nat, flush: bool, fua: bool)

  /** Entries of queue_head and of the driver. */
  datatype Item = PlainItem(rq: Rq) | DataItem(rq: Rq) | FlushItem

  datatype Event =
    | Inserted(rq: Rq, policy: set<Stage>)
    | DataQueued(rq: Rq)
    | DataEnded(rq: Rq, ok: bool)
    | FlushIssued(n: nat)
    | FlushEnded(n: nat, ok: bool)
    | Ended(rq: Rq, ok: bool)

  /** A sequenced request: the stages it needs and rq->flush.seq, those behind it. */
  datatype Seq = Seq(policy: set<Stage>, done: set<Stage>)

  datatype Queue = Queue(
    timeout: nat,
    flushQueue: seq<seq<Rq>>,
    pendingIdx: nat,
    runningIdx: nat,
    dataInFlight: seq<Rq>,
    pendingSince: nat,
    queueHead: seq<Item>,
    driver: set<Item>,
    reqs: map<Rq, Seq>,
    used: set<Rq>,
    flushes: nat,
    log: seq<Event>,
    bug: bool)

  predicate Shaped(q: Queue) {
    |q.flushQueue| == 2 && q.pendingIdx < 2 && q.runningIdx < 2
  }

  function Init(timeout: nat): Queue {
    Queue(timeout, [[], []], 0, 0, [], 0, [], {}, map[], {}, 0, [], false)
  }

  function Policy(caps: Caps, cmd: Cmd): set<Stage> {
    (if cmd.sectors > 0 then {Data} else {})
    + (if caps.flush && cmd.flush then {Preflush} else {})
    + (if caps.flush && !caps.fua && cmd.fua then {Postflush} else {})
  }

  /** The first stage whose bit is not set. */
  function CurSeq(done: set<Stage>): Stage {
    if Preflush !in done then Preflush
    else if Data !in done then Data
    else if Postflush !in done then Postflush
    else Done
  }

  /** list_del of rq->flush.list, whichever list it is on. */
  function Unlink(q: Queue, rq: Rq): (r: Queue)
    requires Shaped(q)
    ensures Shaped(r)
  {
    q.(flushQueue := [Without(q.flushQueue[0], rq), Without(q.flushQueue[1], rq)],
       dataInFlight := Without(q.dataInFlight, rq))
  }

  function KickFlush(q: Queue, now: nat): (r: Queue)
    requires Shaped(q)
    ensures Shaped(r)
  {
    if q.pendingIdx != q.runningIdx || q.flushQueue[q.pendingIdx] == [] then q
    else if q.dataInFlight != [] && now < q.pendingSince + q.timeout then q
    else q.(pendingIdx := 1 - q.pendingIdx,
            queueHead := q.queueHead + [FlushItem],
            flushes := q.flushes + 1,
            log := q.log + [FlushIssued(q.flushes)])
  }

  /** Record that rq is past the stages given, and file it for its next one. */
  function Advance(q: Queue, rq: Rq, stages: set<Stage>, ok: bool, now: nat): (r: Queue)
    requires Shaped(q) && rq in q.reqs
    ensures Shaped(r)
  {
    var done := q.reqs[rq].done + stages;
    var bug := q.bug || q.reqs[rq].done * stages != {};
    var u := Unlink(q, rq).(reqs := q.reqs[rq := q.reqs[rq].(done := done)], bug := bug);
    match if ok then CurSeq(done) else Done
    case Data =>
      u.(dataInFlight := u.dataInFlight + [rq],
         queueHead := [DataItem(rq)] + u.queueHead,
         log := u.log + [DataQueued(rq)])
    case Done =>
      u.(reqs := u.reqs - {rq},
         log := u.log + [Ended(rq, ok)],
         bug := bug || DataItem(rq) in q.queueHead)
    case _ =>
      var p := q.pendingIdx;
      u.(pendingSince := if q.flushQueue[p] == [] then now else q.pendingSince,
         flushQueue := u.flushQueue[p := u.flushQueue[p] + [rq]])
  }

  function CompleteSeq(q: Queue, rq: Rq, stages: set<Stage>, ok: bool, now: nat): (r: Queue)
    requires Shaped(q) && rq in q.reqs
    ensures Shaped(r)
  {
    KickFlush(Advance(q, rq, stages, ok, now), now)
  }

  /** The walk of flush_end_io over the requests that waited for the flush. */
  function Walk(q: Queue, list: seq<Rq>, ok: bool, clock: nat -> nat): (r: Queue)
    requires Shaped(q) && NoDup(list) && forall x :: x in list ==> x in q.reqs
    ensures Shaped(r)
    decreases |list|
  {
    if list == [] then q
    else
      var rq := list[0];
      var stage := CurSeq(q.reqs[rq].done);
      var q' := q.(bug := q.bug || (stage != Preflush && stage != Postflush));
      Walk(CompleteSeq(q', rq, {stage}, ok, clock(|list|)), list[1..], ok, clock)
  }

  /** blk_insert_flush up to the call of blk_flush_complete_seq. */
  function Enter(q: Queue, rq: Rq, policy: set<Stage>): Queue {
    q.(used := q.used + {rq}, log := q.log + [Inserted(rq, policy)], reqs := q.reqs[rq := Seq(policy, {})])
  }

  function InsertFlush(q: Queue, rq: Rq, cmd: Cmd, caps: Caps, now: nat): (r: Queue)
    requires Shaped(q)
    ensures Shaped(r)
  {
    var policy := Policy(caps, cmd);
    var q' := q.(used := q.used + {rq}, log := q.log + [Inserted(rq, policy)]);
    if policy == {} then q'.(log := q'.log + [Ended(rq, true)])
    else if policy == {Data} then
      q'.(queueHead := q'.queueHead + [PlainItem(rq)], log := q'.log + [DataQueued(rq)])
    else CompleteSeq(Enter(q, rq, policy), rq, ACTIONS - policy, true, now)
  }

  /** A request outside the machinery completes. */
  function PlainEndIo(q: Queue, rq: Rq, ok: bool): Queue {
    q.(driver := q.driver - {PlainItem(rq)}, log := q.log + [DataEnded(rq, ok)] + [Ended(rq, ok)])
  }

  /** flush_data_end_io up to the call of blk_flush_complete_seq. */
  function DataEndIo(q: Queue, rq: Rq, ok: bool): Queue {
    q.(driver := q.driver - {DataItem(rq)}, log := q.log + [DataEnded(rq, ok)])
  }

  /** flush_end_io up to its walk: the flush is accounted as over. */
  function FlushEndEntry(q: Queue, ok: bool): (r: Queue)
    requires Shaped(q) && q.flushes > 0
    ensures Shaped(r)
  {
    q.(bug := q.bug || q.pendingIdx == q.runningIdx,
       runningIdx := 1 - q.runningIdx,
       driver := q.driver - {FlushItem},
       log := q.log + [FlushEnded(q.flushes - 1, ok)])
  }

  function FlushEndIo(q: Queue, ok: bool, clock: nat -> nat): (r: Queue)
    requires Shaped(q) && q.flushes > 0
    requires var l := q.flushQueue[q.runningIdx]; NoDup(l) && forall x :: x in l ==> x in q.reqs
    ensures Shaped(r)
  {
    Walk(FlushEndEntry(q, ok), q.flushQueue[q.runningIdx], ok, clock)
  }
}
