/** How each request came about: every merge in its past was one the rules allowed then. */
module MergeHistory {
  import opened Lists
  import opened Merging
  import opened Options

  datatype History =
    | Arrived(r: Request)
    | BackIn(h: History, b: Bio)
    | FrontIn(h: History, b: Bio)
    | JoinIn(h: History, next: History)

  /** The request that results, as it is while it waits and may be merged. */
  function Made(h: History): Request {
    match h
    case Arrived(r) => r.(mergeable := true, queued := true)
    case BackIn(h', b) => var r := Made(h'); r.(bios := r.bios + [b], dataLen := r.dataLen + b.size)
    case FrontIn(h', b) =>
      var r := Made(h'); r.(bios := [b] + r.bios, sector := b.sector, dataLen := r.dataLen + b.size)
    case JoinIn(h', n) =>
      var r, next := Made(h'), Made(n);
      r.(bios := r.bios + next.bios, dataLen := r.dataLen + next.dataLen)
  }

  ghost predicate Submitted(steps: seq<Step>, b: Bio) {
    exists t :: t in steps && t.Submit? && t.b == b
  }

  /** Its parts were handed in by the steps, and each bio went in and each pair joined with the
      consent of everything that is asked about it, given the request as it then was. */
  ghost predicate Permitted(p: Policy, steps: seq<Step>, h: History) {
    match h
    case Arrived(r) => Add(r) in steps
    case BackIn(h', b) =>
      Permitted(p, steps, h') && Submitted(steps, b) && p.allow(Made(h'), b) && p.fitsBack(Made(h'), b)
    case FrontIn(h', b) =>
      Permitted(p, steps, h') && Submitted(steps, b) && p.allow(Made(h'), b) && p.fitsFront(Made(h'), b)
    case JoinIn(h', n) =>
      && Permitted(p, steps, h') && Permitted(p, steps, n)
      && exists queued :: p.fits(Made(h'), Made(n).(queued := queued))
  }

  predicate Alike(r: Request, t: Request) {
    r.sector == t.sector && r.dataLen == t.dataLen && r.bios == t.bios
  }

  ghost predicate Licensed(p: Policy, steps: seq<Step>, r: Request) {
    exists h :: Permitted(p, steps, h) && Alike(Made(h), r)
  }

  ghost predicate AllLicensed(p: Policy, steps: seq<Step>, reqs: seq<Request>) {
    forall i :: 0 <= i < |reqs| && reqs[i].bios != [] ==> Licensed(p, steps, reqs[i])
  }

  lemma SetLicensed(p: Policy, steps: seq<Step>, reqs: seq<Request>, i: nat, r: Request)
    requires AllLicensed(p, steps, reqs) && i < |reqs| && (r.bios != [] ==> Licensed(p, steps, r))
    ensures AllLicensed(p, steps, reqs[i := r])
  {
    hide Licensed;
  }

  /** What only flags were changed of. */
  lemma FlagsLicensed(p: Policy, steps: seq<Step>, reqs: seq<Request>, i: nat, r: Request)
    requires AllLicensed(p, steps, reqs) && i < |reqs| && Alike(reqs[i], r)
    ensures AllLicensed(p, steps, reqs[i := r])
  {
    if r.bios != [] {
      var h :| Permitted(p, steps, h) && Alike(Made(h), reqs[i]);
      assert Alike(Made(h), r);
    }
    SetLicensed(p, steps, reqs, i, r);
  }

  lemma WaitingMade(h: History, r: Request)
    requires Alike(Made(h), r) && r.mergeable && r.queued
    ensures Made(h) == r
  {
    MadeFlags(h);
  }

  lemma {:induction false} MadeFlags(h: History)
    ensures Made(h).mergeable && Made(h).queued
  {
    match h
    case Arrived(r) =>
    case BackIn(h', b) => MadeFlags(h');
    case FrontIn(h', b) => MadeFlags(h');
    case JoinIn(h', n) => MadeFlags(h');
  }

  lemma BackLicensed(p: Policy, steps: seq<Step>, s: Elevator, i: nat, b: Bio)
    requires AllLicensed(p, steps, s.reqs) && Findable(s, i) && s.reqs[i].bios != []
    requires Submitted(steps, b) && p.allow(s.reqs[i], b) && p.fitsBack(s.reqs[i], b)
    ensures AllLicensed(p, steps, BackMerge(s, i, b).reqs)
  {
    var h :| Permitted(p, steps, h) && Alike(Made(h), s.reqs[i]);
    WaitingMade(h, s.reqs[i]);
    assert Permitted(p, steps, BackIn(h, b)) && Alike(Made(BackIn(h, b)), Appended(s.reqs[i], b));
    SetLicensed(p, steps, s.reqs, i, Appended(s.reqs[i], b));
  }

  lemma FrontLicensed(p: Policy, steps: seq<Step>, s: Elevator, i: nat, b: Bio)
    requires AllLicensed(p, steps, s.reqs) && Findable(s, i) && s.reqs[i].bios != []
    requires Submitted(steps, b) && p.allow(s.reqs[i], b) && p.fitsFront(s.reqs[i], b)
    ensures AllLicensed(p, steps, FrontMerge(s, i, b).reqs)
  {
    var h :| Permitted(p, steps, h) && Alike(Made(h), s.reqs[i]);
    WaitingMade(h, s.reqs[i]);
    assert Permitted(p, steps, FrontIn(h, b)) && Alike(Made(FrontIn(h, b)), Prepended(s.reqs[i], b));
    SetLicensed(p, steps, s.reqs, i, Prepended(s.reqs[i], b));
  }

  lemma JoinedLicensed(p: Policy, steps: seq<Step>, r: Request, next: Request)
    requires Licensed(p, steps, r) && Licensed(p, steps, next) && r.queued && r.mergeable
    requires next.mergeable && p.fits(r, next)
    ensures Licensed(p, steps, Joined(r, next))
  {
    var h :| Permitted(p, steps, h) && Alike(Made(h), r);
    var n :| Permitted(p, steps, n) && Alike(Made(n), next);
    WaitingMade(h, r);
    MadeFlags(n);
    assert Made(n).(queued := next.queued) == next;
    assert Permitted(p, steps, JoinIn(h, n)) && Alike(Made(JoinIn(h, n)), Joined(r, next));
  }

  lemma JoinLicensed(p: Policy, steps: seq<Step>, s: Elevator, i: nat, j: nat)
    requires AllLicensed(p, steps, s.reqs) && Queued(s, i) && j < |s.reqs| && i != j
    requires s.reqs[i].bios != [] && s.reqs[j].bios != [] && CanJoin(p, s.reqs[i], s.reqs[j])
    ensures AllLicensed(p, steps, Join(s, i, j).reqs)
  {
    hide Licensed;
    JoinedLicensed(p, steps, s.reqs[i], s.reqs[j]);
    var reqs := s.reqs[i := Joined(s.reqs[i], s.reqs[j])];
    SetLicensed(p, steps, s.reqs, i, reqs[i]);
    SetLicensed(p, steps, reqs, j, reqs[j].(bios := [], queued := false));
  }

  lemma TryJoinLicensed(p: Policy, steps: seq<Step>, s: Elevator, i: nat, j: nat)
    requires Inv(s) && AllLicensed(p, steps, s.reqs) && Queued(s, i) && j < |s.reqs| && s.reqs[j].bios != []
    ensures AllLicensed(p, steps, TryJoin(p, s, i, j).reqs)
  {
    hide Join, AllLicensed;
    if CanJoin(p, s.reqs[i], s.reqs[j]) {
      NotItself(s, i, j);
      QueuedHasBios(s, i);
      JoinLicensed(p, steps, s, i, j);
    }
  }

  lemma {:induction false} AbsorbLicensed(p: Policy, steps: seq<Step>, s: Elevator, cur: nat)
    requires Inv(s) && AllLicensed(p, steps, s.reqs) && cur < |s.reqs| && s.reqs[cur].bios != []
    ensures AllLicensed(p, steps, Absorb(p, s, cur).0.reqs)
    decreases Alive(s.reqs)
  {
    hide Join, AllLicensed, CanJoin, End;
    var m := FirstMatch(s.reqs, s.live, s.reqs[cur].sector);
    if m.Some? && CanJoin(p, s.reqs[m.value], s.reqs[cur]) {
      JoinFound(p, s, m.value, cur);
      QueuedHasBios(s, m.value);
      JoinLicensed(p, steps, s, m.value, cur);
      AbsorbLicensed(p, steps, Join(s, m.value, cur), m.value);
    }
  }

  lemma InsertMergeLicensed(p: Policy, steps: seq<Step>, s: Elevator, n: nat)
    requires Inv(s) && AllLicensed(p, steps, s.reqs) && n < |s.reqs| && s.reqs[n].bios != []
    ensures AllLicensed(p, steps, InsertMerge(p, s, n).0.reqs)
  {
    hide Join, AllLicensed, CanJoin, Absorb;
    if s.last.Some? && CanJoin(p, s.reqs[s.last.value], s.reqs[n]) {
      JoinFound(p, s, s.last.value, n);
      QueuedHasBios(s, s.last.value);
      JoinLicensed(p, steps, s, s.last.value, n);
    } else {
      AbsorbLicensed(p, steps, s, n);
    }
  }

  lemma ArrivalLicensed(p: Policy, steps: seq<Step>, s: Elevator, r: Request)
    requires AllLicensed(p, steps, s.reqs) && Add(r) in steps
    ensures AllLicensed(p, steps, Allocate(s, r).reqs)
  {
    assert Permitted(p, steps, Arrived(r)) && Alike(Made(Arrived(r)), r.(queued := false));
  }

  lemma AddLicensed(p: Policy, steps: seq<Step>, s: Elevator, r: Request)
    requires Inv(s) && AllLicensed(p, steps, s.reqs) && GapFree(r) && Add(r) in steps
    ensures AllLicensed(p, steps, AddSortMerge(p, s, r).reqs)
  {
    hide InsertMerge, AllLicensed, Inv;
    var a, n := Allocate(s, r), |s.reqs|;
    AllocateInv(s, r);
    ArrivalLicensed(p, steps, s, r);
    InsertMergeLicensed(p, steps, a, n);
    FlagsLicensed(p, steps, a.reqs, n, a.reqs[n].(queued := true));
  }

  lemma SubmitLicensed(p: Policy, steps: seq<Step>, s: Elevator, t: Step)
    requires Inv(s) && AllLicensed(p, steps, s.reqs) && t.Submit? && t in steps && Enabled(p, s, t)
    ensures AllLicensed(p, steps, QueueBio(p, s, t.b, t.candidate, t.neighbour).0.reqs)
  {
    hide AllLicensed, Inv, TryJoin, End, BioEnd;
    var b, n := t.b, t.neighbour;
    assert Submitted(steps, b);
    ElvMergeRight(p, s, b, t.candidate);
    match ElvMerge(p, s, b, t.candidate)
    case NoMerge =>
    case Back(i) =>
      QueuedHasBios(s, i);
      FlagsLicensed(p, steps, s.reqs, i, s.reqs[i].(mergeable := false));
      if p.fitsBack(s.reqs[i], b) {
        BackLicensed(p, steps, s, i, b);
        BackMergeInv(s, i, b);
        if n.Some? && n.value != i { NeighbourJoins(p, steps, s, BackMerge(s, i, b), i, n.value, true); }
      }
    case Front(i) =>
      QueuedHasBios(s, i);
      FlagsLicensed(p, steps, s.reqs, i, s.reqs[i].(mergeable := false));
      if p.fitsFront(s.reqs[i], b) {
        FrontLicensed(p, steps, s, i, b);
        FrontMergeInv(s, i, b);
        if n.Some? && n.value != i { NeighbourJoins(p, steps, s, FrontMerge(s, i, b), i, n.value, false); }
      }
  }

  lemma NeighbourJoins(p: Policy, steps: seq<Step>, s: Elevator, e: Elevator, i: nat, n: nat, back: bool)
    requires Inv(s) && Inv(e) && AllLicensed(p, steps, e.reqs) && i < |s.reqs| && Queued(s, n) && n != i
    requires |e.reqs| == |s.reqs| && e.reqs[n] == s.reqs[n] && Queued(e, i)
    ensures AllLicensed(p, steps, (if back then TryJoin(p, e, i, n) else TryJoin(p, e, n, i)).reqs)
  {
    hide AllLicensed, Inv, TryJoin;
    QueuedHasBios(s, n);
    QueuedHasBios(e, i);
    if back { TryJoinLicensed(p, steps, e, i, n); } else { TryJoinLicensed(p, steps, e, n, i); }
  }

  lemma NextLicensed(p: Policy, steps: seq<Step>, s: Elevator, t: Step)
    requires Inv(s) && AllLicensed(p, steps, s.reqs) && t in steps && Enabled(p, s, t)
    ensures AllLicensed(p, steps, Next(p, s, t).0.reqs)
  {
    hide AllLicensed, Inv, AddSortMerge, QueueBio;
    match t
    case Add(r) => AddLicensed(p, steps, s, r);
    case Submit(b, candidate, neighbour) => SubmitLicensed(p, steps, s, t);
    case Send(i) => FlagsLicensed(p, steps, s.reqs, i, s.reqs[i].(queued := false));
  }

  lemma {:induction false} ExecLicensed(p: Policy, all: seq<Step>, s: Elevator, steps: seq<Step>)
    requires Inv(s) && Legal(p, s, steps) && AllLicensed(p, all, s.reqs) && forall t :: t in steps ==> t in all
    ensures AllLicensed(p, all, Exec(p, s, steps).0.reqs)
    decreases |steps|
  {
    hide Next, AllLicensed, Enabled, Inv;
    if steps != [] {
      assert steps[0] in steps && forall t :: t in steps[1..] ==> t in steps;
      NextInv(p, s, steps[0]);
      NextLicensed(p, all, s, steps[0]);
      ExecLicensed(p, all, Next(p, s, steps[0]).0, steps[1..]);
    }
  }

  /** In every reachable state each request with data is made of requests and bios handed in,
      by merges every one of which was allowed and within the limits at its moment. */
  lemma OnlyPermittedMerges(p: Policy, steps: seq<Step>, i: nat)
    requires Legal(p, IDLE, steps)
    requires var s := Exec(p, IDLE, steps).0; i < |s.reqs| && s.reqs[i].bios != []
    ensures exists h :: Permitted(p, steps, h) && Alike(Made(h), Exec(p, IDLE, steps).0.reqs[i])
  {
    ExecLicensed(p, steps, IDLE, steps);
  }

  // -------------------------------------------------------------- and those do take place

  /** Request j has gone into i, behind it. */
  ghost predicate TakenBy(s: Elevator, e: Elevator, i: nat, j: nat) {
    && i < |s.reqs| == |e.reqs| && j < |s.reqs| && i != j
    && e.reqs[j].bios == [] && e.reqs[i].bios == s.reqs[i].bios + s.reqs[j].bios
  }

  predicate Takes(p: Policy, r: Request, next: Request) {
    r.mergeable && next.mergeable && r.sector + Sectors(r.dataLen) == next.sector && p.fits(r, next)
  }

  /** A merged bio closes the gap to the neighbour named if the two may then join. */
  lemma GapCloses(p: Policy, s: Elevator, b: Bio, candidate: Option<nat>, n: nat)
    requires Inv(s) && BioOk(b) && FrontCandidate(p, s, b, candidate) && Queued(s, n)
    ensures var e := QueueBio(p, s, b, candidate, Some(n)).0;
      match ElvMerge(p, s, b, candidate)
      case NoMerge => e == s
      case Back(i) =>
        i < |s.reqs| && (n != i && p.fitsBack(s.reqs[i], b) && Takes(p, Appended(s.reqs[i], b), s.reqs[n]) ==>
          TakenBy(BackMerge(s, i, b), e, i, n))
      case Front(i) =>
        i < |s.reqs| && (n != i && p.fitsFront(s.reqs[i], b) && Takes(p, s.reqs[n], Prepended(s.reqs[i], b)) ==>
          TakenBy(FrontMerge(s, i, b), e, n, i))
  {
    ElvMergeRight(p, s, b, candidate);
  }

  /** A new request is queued as it is exactly when neither the cached request nor the one found
      where it begins can take it. */
  lemma ArrivalMerges(p: Policy, s: Elevator, r: Request)
    requires Inv(s) && GapFree(r)
    ensures var n, e := r.(queued := false), AddSortMerge(p, s, r);
      && |e.reqs| == |s.reqs| + 1
      && (e.reqs[|s.reqs|].bios == [] <==>
            || (s.last.Some? && Takes(p, s.reqs[s.last.value], n))
            || (FirstMatch(s.reqs, s.live, r.sector).Some?
                && Takes(p, s.reqs[FirstMatch(s.reqs, s.live, r.sector).value], n)))
      && (e.reqs[|s.reqs|].bios != [] ==> e.reqs == s.reqs + [r.(queued := true)])
  {
    hide Inv, Join, FirstMatch;
    AllocateInv(s, r);
    LiveKnown(s);
    var a, k := Allocate(s, r), |s.reqs|;
    SameMatch(s.reqs, a.reqs, s.live, r.sector);
    var m := FirstMatch(a.reqs, a.live, r.sector);
    if s.last.Some? && CanJoin(p, a.reqs[s.last.value], a.reqs[k]) {
      JoinFound(p, a, s.last.value, k);
      JoinEmpties(a, s.last.value, k);
    } else if m.Some? && CanJoin(p, a.reqs[m.value], a.reqs[k]) {
      JoinFound(p, a, m.value, k);
      JoinEmpties(a, m.value, k);
      AbsorbEmpties(p, Join(a, m.value, k), m.value, k);
    }
  }

  lemma JoinEmpties(s: Elevator, i: nat, j: nat)
    requires i < |s.reqs| && j < |s.reqs| && i != j
    ensures Join(s, i, j).reqs[j].bios == []
  {
  }

  lemma {:induction false} SameMatch(reqs: seq<Request>, more: seq<Request>, list: seq<nat>, offset: nat)
    requires reqs <= more && forall x :: x in list ==> x < |reqs|
    ensures FirstMatch(more, list, offset) == FirstMatch(reqs, list, offset)
  {
    if list != [] {
      assert list[0] in list && forall x :: x in list[1..] ==> x in list;
      SameMatch(reqs, more, list[1..], offset);
    }
  }

  /** What has been absorbed stays so. */
  lemma {:induction false} AbsorbEmpties(p: Policy, s: Elevator, cur: nat, k: nat)
    requires Inv(s) && cur < |s.reqs| && s.reqs[cur].bios != [] && k < |s.reqs| && s.reqs[k].bios == []
    ensures var e := Absorb(p, s, cur).0; |e.reqs| == |s.reqs| && e.reqs[k].bios == []
    decreases Alive(s.reqs)
  {
    hide CanJoin, End;
    var m := FirstMatch(s.reqs, s.live, s.reqs[cur].sector);
    if m.Some? && CanJoin(p, s.reqs[m.value], s.reqs[cur]) {
      JoinFound(p, s, m.value, cur);
      QueuedHasBios(s, m.value);
      AbsorbEmpties(p, Join(s, m.value, cur), m.value, k);
    }
  }
}
