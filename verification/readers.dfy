/** The bounded pool of reader connections: single borrowers, and callers that collect every reader one by
    one, interleaved. */
module Readers {
  import opened Text

  /** A reader connection by its number. */
  type Handle = nat

  datatype Borrower =
    | WantsOne
    | HasOne(handle: Handle)
    | Collecting(got: seq<Handle>)
    | HasAll(got: seq<Handle>)
    | Returning(got: seq<Handle>)
    | Gone

  function Held(b: Borrower): seq<Handle> {
    match b
    case WantsOne => []
    case HasOne(h) => [h]
    case Collecting(got) => got
    case HasAll(got) => got
    case Returning(got) => got
    case Gone => []
  }

  /** The idle readers in queue order, and every borrower that ever came. */
  datatype Pool = Pool(idle: seq<Handle>, borrowers: seq<Borrower>)

  /** A timeout happens only when the queue is empty, an exception in the caller's block at any time. */
  datatype Action =
    | BeginOne
    | BeginAll
    | Get(who: nat)
    | TimeOut(who: nat)
    | LeaveBlock(who: nat)
    | PutBack(who: nat)

  function Open(handles: seq<Handle>): Pool {
    Pool(handles, [])
  }

  function Become(p: Pool, who: nat, b: Borrower): Pool
    requires who < |p.borrowers|
  {
    p.(borrowers := p.borrowers[who := b])
  }

  /** One `get`: the handle at the head of the queue. A collector stops after as many as there are readers. */
  function GetStep(p: Pool, capacity: nat, who: nat): Option<Pool>
    requires who < |p.borrowers|
  {
    if p.idle == [] then None
    else
      var q := p.(idle := p.idle[1..]);
      match p.borrowers[who]
      case WantsOne => Some(Become(q, who, HasOne(p.idle[0])))
      case Collecting(got) =>
        if |got| >= capacity then None else Some(Become(q, who, Collecting(got + [p.idle[0]])))
      case _ => None
  }

  function TimeOutStep(p: Pool, capacity: nat, who: nat): Option<Pool>
    requires who < |p.borrowers|
  {
    match p.borrowers[who]
    case WantsOne => if p.idle == [] then Some(Become(p, who, Gone)) else None
    case Collecting(got) => if p.idle == [] && |got| < capacity then Some(Become(p, who, Returning(got))) else None
    case _ => None
  }

  /** A collector enters its block when it has them all, and leaves it. */
  function LeaveStep(p: Pool, capacity: nat, who: nat): Option<Pool>
    requires who < |p.borrowers|
  {
    match p.borrowers[who]
    case Collecting(got) => if |got| == capacity then Some(Become(p, who, HasAll(got))) else None
    case HasAll(got) => Some(Become(p, who, Returning(got)))
    case _ => None
  }

  /** One `put`, which would wait if the queue were full. Collectors give back the last one first. */
  function PutStep(p: Pool, capacity: nat, who: nat): Option<Pool>
    requires who < |p.borrowers|
  {
    match p.borrowers[who]
    case HasOne(h) => if |p.idle| >= capacity then None else Some(Become(p, who, Gone).(idle := p.idle + [h]))
    case Returning(got) =>
      if got == [] then Some(Become(p, who, Gone))
      else if |p.idle| >= capacity then None
      else
        var n := |got| - 1;
        Some(Become(p, who, Returning(got[..n])).(idle := p.idle + [got[n]]))
    case _ => None
  }

  function Step(p: Pool, capacity: nat, a: Action): Option<Pool> {
    match a
    case BeginOne => Some(p.(borrowers := p.borrowers + [WantsOne]))
    case BeginAll => Some(p.(borrowers := p.borrowers + [Collecting([])]))
    case Get(who) => if who < |p.borrowers| then GetStep(p, capacity, who) else None
    case TimeOut(who) => if who < |p.borrowers| then TimeOutStep(p, capacity, who) else None
    case LeaveBlock(who) => if who < |p.borrowers| then LeaveStep(p, capacity, who) else None
    case PutBack(who) => if who < |p.borrowers| then PutStep(p, capacity, who) else None
  }

  function Steps(p: Pool, capacity: nat, actions: seq<Action>): Option<Pool> {
    if actions == [] then Some(p)
    else
      match Steps(p, capacity, actions[..|actions| - 1])
      case None => None
      case Some(q) => Step(q, capacity, actions[|actions| - 1])
  }

  // ---------- Conservation ----------

  function AllHeld(borrowers: seq<Borrower>): seq<Handle> {
    if borrowers == [] then [] else AllHeld(borrowers[..|borrowers| - 1]) + Held(borrowers[|borrowers| - 1])
  }

  lemma {:induction false} HeldBy(borrowers: seq<Borrower>, who: nat, b: Borrower)
    requires who < |borrowers|
    ensures multiset(AllHeld(borrowers[who := b])) + multiset(Held(borrowers[who]))
         == multiset(AllHeld(borrowers)) + multiset(Held(b))
  {
    hide Held;
    var n := |borrowers| - 1;
    var changed := borrowers[who := b];
    if who == n {
      assert changed[..n] == borrowers[..n];
    } else {
      assert changed[..n] == borrowers[..n][who := b];
      HeldBy(borrowers[..n], who, b);
      Exchange(multiset(AllHeld(changed[..n])), multiset(AllHeld(borrowers[..n])), multiset(Held(borrowers[who])),
               multiset(Held(b)), multiset(Held(borrowers[n])));
    }
  }

  lemma Exchange(a: multiset<Handle>, b: multiset<Handle>, was: multiset<Handle>, now: multiset<Handle>, x: multiset<Handle>)
    requires a + was == b + now
    ensures (a + x) + was == (b + x) + now
  {
    assert (a + was) + x == (a + x) + was;
  }

  /** What one borrower takes or gives moves between it and the queue. */
  lemma Moved(p: Pool, q: Pool, handles: seq<Handle>, who: nat)
    requires Conserved(p, handles) && who < |p.borrowers|
    requires |q.borrowers| == |p.borrowers| && q.borrowers == p.borrowers[who := q.borrowers[who]]
    requires multiset(q.idle) + multiset(Held(q.borrowers[who])) == multiset(p.idle) + multiset(Held(p.borrowers[who]))
    ensures Conserved(q, handles)
  {
    hide AllHeld, Held;
    HeldBy(p.borrowers, who, q.borrowers[who]);
    Cancel(multiset(p.idle), multiset(q.idle), multiset(AllHeld(p.borrowers)), multiset(AllHeld(q.borrowers)),
           multiset(Held(p.borrowers[who])), multiset(Held(q.borrowers[who])));
  }

  lemma Cancel(idle: multiset<Handle>, idle': multiset<Handle>, held: multiset<Handle>, held': multiset<Handle>,
               was: multiset<Handle>, now: multiset<Handle>)
    requires held' + was == held + now && idle' + now == idle + was
    ensures idle' + held' == idle + held
  {
    forall h ensures (idle' + held')[h] == (idle + held)[h] {
      assert (held' + was)[h] == (held + now)[h];
      assert (idle' + now)[h] == (idle + was)[h];
    }
  }

  lemma HeldByNewcomer(borrowers: seq<Borrower>, b: Borrower)
    ensures AllHeld(borrowers + [b]) == AllHeld(borrowers) + Held(b)
  {
    assert (borrowers + [b])[..|borrowers|] == borrowers;
  }

  ghost predicate Conserved(p: Pool, handles: seq<Handle>) {
    multiset(p.idle) + multiset(AllHeld(p.borrowers)) == multiset(handles)
  }

  lemma GetConserves(p: Pool, handles: seq<Handle>, who: nat)
    requires who < |p.borrowers| && Conserved(p, handles) && GetStep(p, |handles|, who).Some?
    ensures Conserved(GetStep(p, |handles|, who).value, handles)
  {
    hide Conserved;
    assert p.idle == [p.idle[0]] + p.idle[1..];
    Moved(p, GetStep(p, |handles|, who).value, handles, who);
  }

  lemma PutConserves(p: Pool, handles: seq<Handle>, who: nat)
    requires who < |p.borrowers| && Conserved(p, handles) && PutStep(p, |handles|, who).Some?
    ensures Conserved(PutStep(p, |handles|, who).value, handles)
  {
    hide Conserved;
    var b := p.borrowers[who];
    if b.Returning? && b.got != [] {
      assert b.got == b.got[..|b.got| - 1] + [b.got[|b.got| - 1]];
    }
    Moved(p, PutStep(p, |handles|, who).value, handles, who);
  }

  lemma OtherConserves(p: Pool, handles: seq<Handle>, q: Option<Pool>, who: nat)
    requires who < |p.borrowers| && Conserved(p, handles) && q.Some?
    requires q == LeaveStep(p, |handles|, who) || q == TimeOutStep(p, |handles|, who)
    ensures Conserved(q.value, handles)
  {
    hide Conserved;
    Moved(p, q.value, handles, who);
  }

  lemma StepConserves(p: Pool, handles: seq<Handle>, a: Action)
    requires Conserved(p, handles) && Step(p, |handles|, a).Some?
    ensures Conserved(Step(p, |handles|, a).value, handles)
  {
    hide GetStep, PutStep, LeaveStep, TimeOutStep, AllHeld;
    match a
    case BeginOne => HeldByNewcomer(p.borrowers, WantsOne);
    case BeginAll => HeldByNewcomer(p.borrowers, Collecting([]));
    case Get(who) => GetConserves(p, handles, who);
    case PutBack(who) => PutConserves(p, handles, who);
    case TimeOut(who) => OtherConserves(p, handles, TimeOutStep(p, |handles|, who), who);
    case LeaveBlock(who) => OtherConserves(p, handles, LeaveStep(p, |handles|, who), who);
  }

  /** In every interleaving, timeouts included, the idle readers and the borrowed ones together are the
      configured readers, each as often as it was opened. */
  lemma {:induction false} PoolConserved(handles: seq<Handle>, actions: seq<Action>)
    requires Steps(Open(handles), |handles|, actions).Some?
    ensures Conserved(Steps(Open(handles), |handles|, actions).value, handles)
  {
    hide Step;
    if actions != [] {
      var n := |actions| - 1;
      PoolConserved(handles, actions[..n]);
      StepConserves(Steps(Open(handles), |handles|, actions[..n]).value, handles, actions[n]);
    }
  }

  lemma {:induction false} HeldIsAmong(borrowers: seq<Borrower>, who: nat)
    requires who < |borrowers|
    ensures multiset(Held(borrowers[who])) <= multiset(AllHeld(borrowers))
    ensures |Held(borrowers[who])| <= |AllHeld(borrowers)|
  {
    hide Held;
    if who < |borrowers| - 1 {
      HeldIsAmong(borrowers[..|borrowers| - 1], who);
    }
  }

  lemma {:induction false} HeldApart(borrowers: seq<Borrower>, one: nat, two: nat)
    requires one < two < |borrowers|
    ensures multiset(Held(borrowers[one])) + multiset(Held(borrowers[two])) <= multiset(AllHeld(borrowers))
  {
    hide Held;
    var n := |borrowers| - 1;
    if two == n {
      HeldIsAmong(borrowers[..n], one);
    } else {
      HeldApart(borrowers[..n], one, two);
    }
  }

  predicate DistinctHandles(handles: seq<Handle>) {
    forall i, j | 0 <= i < j < |handles| :: handles[i] != handles[j]
  }

  lemma {:induction false} AtMostOnce(handles: seq<Handle>, h: Handle)
    requires DistinctHandles(handles)
    ensures multiset(handles)[h] <= 1
  {
    if handles != [] {
      var n := |handles| - 1;
      assert handles == handles[..n] + [handles[n]];
      AtMostOnce(handles[..n], h);
      if handles[n] == h {
        assert h !in handles[..n];
      }
    }
  }

  /** No reader is with two borrowers, and none is borrowed while idle. */
  lemma HeldOnce(handles: seq<Handle>, actions: seq<Action>, one: nat, two: nat, h: Handle)
    requires DistinctHandles(handles) && Steps(Open(handles), |handles|, actions).Some?
    requires var p := Steps(Open(handles), |handles|, actions).value;
             one < two < |p.borrowers| && h in Held(p.borrowers[one])
    ensures var p := Steps(Open(handles), |handles|, actions).value;
            h !in Held(p.borrowers[two]) && h !in p.idle
  {
    hide Steps, AllHeld, Held, DistinctHandles;
    var p := Steps(Open(handles), |handles|, actions).value;
    PoolConserved(handles, actions);
    AtMostOnce(handles, h);
    HeldApart(p.borrowers, one, two);
    var a, b, idle := multiset(Held(p.borrowers[one])), multiset(Held(p.borrowers[two])), multiset(p.idle);
    assert (a + b)[h] <= multiset(AllHeld(p.borrowers))[h];
    assert (idle + multiset(AllHeld(p.borrowers)))[h] <= 1;
  }

  /** Giving a reader back never waits. */
  lemma PutNeverWaits(handles: seq<Handle>, actions: seq<Action>, who: nat)
    requires Steps(Open(handles), |handles|, actions).Some?
    requires var p := Steps(Open(handles), |handles|, actions).value;
             who < |p.borrowers| && (p.borrowers[who].HasOne? || p.borrowers[who].Returning?)
    ensures Steps(Open(handles), |handles|, actions + [PutBack(who)]).Some?
  {
    hide AllHeld;
    var p := Steps(Open(handles), |handles|, actions).value;
    PoolConserved(handles, actions);
    HeldIsAmong(p.borrowers, who);
    assert |multiset(p.idle) + multiset(AllHeld(p.borrowers))| == |handles|;
    assert (actions + [PutBack(who)])[..|actions|] == actions;
  }

  lemma {:induction false} NothingHeld(borrowers: seq<Borrower>)
    requires forall i | 0 <= i < |borrowers| :: Held(borrowers[i]) == []
    ensures AllHeld(borrowers) == []
  {
    if borrowers != [] {
      NothingHeld(borrowers[..|borrowers| - 1]);
    }
  }

  /** With every borrower gone the pool is full again. */
  lemma FullAgain(handles: seq<Handle>, actions: seq<Action>)
    requires Steps(Open(handles), |handles|, actions).Some?
    requires var p := Steps(Open(handles), |handles|, actions).value;
             forall i | 0 <= i < |p.borrowers| :: p.borrowers[i].Gone?
    ensures var p := Steps(Open(handles), |handles|, actions).value;
            multiset(p.idle) == multiset(handles) && |p.idle| == |handles|
  {
    hide Steps;
    var p := Steps(Open(handles), |handles|, actions).value;
    PoolConserved(handles, actions);
    NothingHeld(p.borrowers);
    assert |multiset(p.idle)| == |multiset(handles)|;
  }

  predicate Complete(p: Pool, capacity: nat) {
    forall i | 0 <= i < |p.borrowers| && p.borrowers[i].HasAll? :: |p.borrowers[i].got| == capacity
  }

  lemma {:induction false} StepsComplete(handles: seq<Handle>, actions: seq<Action>)
    requires Steps(Open(handles), |handles|, actions).Some?
    ensures Complete(Steps(Open(handles), |handles|, actions).value, |handles|)
  {
    if actions != [] {
      StepsComplete(handles, actions[..|actions| - 1]);
    }
  }

  /** A caller inside its borrow-all block has every reader, and nobody else has one. */
  lemma AllMeansAll(handles: seq<Handle>, actions: seq<Action>, who: nat, other: nat)
    requires Steps(Open(handles), |handles|, actions).Some?
    requires var p := Steps(Open(handles), |handles|, actions).value;
             who < |p.borrowers| && p.borrowers[who].HasAll? && other < |p.borrowers| && other != who
    ensures var p := Steps(Open(handles), |handles|, actions).value;
            && multiset(p.borrowers[who].got) == multiset(handles)
            && p.idle == [] && Held(p.borrowers[other]) == []
  {
    hide Steps, AllHeld;
    var p := Steps(Open(handles), |handles|, actions).value;
    PoolConserved(handles, actions);
    StepsComplete(handles, actions);
    HeldApart(p.borrowers, if who < other then who else other, if who < other then other else who);
    SizesAdd(multiset(p.idle), multiset(AllHeld(p.borrowers)), multiset(Held(p.borrowers[who])),
             multiset(Held(p.borrowers[other])));
    assert |multiset(p.idle) + multiset(AllHeld(p.borrowers))| == |handles|;
    assert multiset(p.idle) == multiset{} && multiset(Held(p.borrowers[other])) == multiset{};
    assert |multiset(p.idle)| == |p.idle|;
  }

  /** Parts as large as the whole leave nothing for the rest. */
  lemma SizesAdd(idle: multiset<Handle>, held: multiset<Handle>, one: multiset<Handle>, two: multiset<Handle>)
    requires one + two <= held
    ensures |idle| + |one| + |two| <= |idle + held|
    ensures |one| == |idle + held| ==> one == idle + held
  {
    var rest := held - (one + two);
    assert held == (one + two) + rest;
    if |one| == |idle + held| {
      assert |two| == 0 && |rest| == 0 && |idle| == 0;
      assert two == multiset{} && rest == multiset{} && idle == multiset{};
    }
  }

  // ---------- Nobody is stuck ----------

  /** Something a borrower can do next: a collector that finds the queue empty gives up. */
  function NextAction(p: Pool, capacity: nat, who: nat): Action
    requires who < |p.borrowers|
  {
    match p.borrowers[who]
    case WantsOne => if p.idle == [] then TimeOut(who) else Get(who)
    case HasOne(_) => PutBack(who)
    case Collecting(got) => if |got| == capacity then LeaveBlock(who) else if p.idle == [] then TimeOut(who) else Get(who)
    case HasAll(_) => LeaveBlock(who)
    case Returning(_) => PutBack(who)
    case Gone => BeginOne
  }

  /** How many steps a borrower is from being gone, at most. */
  function StepsLeft(b: Borrower, capacity: nat): nat {
    match b
    case WantsOne => 2
    case HasOne(_) => 1
    case Collecting(got) => if |got| <= capacity then 2 * capacity + 3 - |got| else 0
    case HasAll(got) => |got| + 2
    case Returning(got) => |got| + 1
    case Gone => 0
  }

  /** A borrower that has so many readers has them from the pool. */
  lemma RoomForHeld(p: Pool, handles: seq<Handle>, who: nat)
    requires Conserved(p, handles) && who < |p.borrowers|
    ensures |p.idle| + |Held(p.borrowers[who])| <= |handles|
  {
    hide AllHeld, Held;
    HeldIsAmong(p.borrowers, who);
    assert |multiset(p.idle) + multiset(AllHeld(p.borrowers))| == |handles|;
  }

  /** Every borrower that is not gone can take a step, which brings it nearer to being gone and changes no other
      borrower. */
  lemma CanMove(p: Pool, handles: seq<Handle>, who: nat)
    requires Conserved(p, handles) && Complete(p, |handles|) && who < |p.borrowers| && !p.borrowers[who].Gone?
    ensures var q := Step(p, |handles|, NextAction(p, |handles|, who));
            && q.Some? && |q.value.borrowers| == |p.borrowers|
            && q.value.borrowers == p.borrowers[who := q.value.borrowers[who]]
            && StepsLeft(q.value.borrowers[who], |handles|) < StepsLeft(p.borrowers[who], |handles|)
  {
    RoomForHeld(p, handles, who);
    hide Conserved;
    if p.borrowers[who].WantsOne? || p.borrowers[who].HasOne? {
      OneMoves(p, |handles|, who);
    } else {
      CollectorMoves(p, |handles|, who);
    }
  }

  lemma OneMoves(p: Pool, capacity: nat, who: nat)
    requires who < |p.borrowers| && (p.borrowers[who].WantsOne? || p.borrowers[who].HasOne?)
    requires |p.idle| + |Held(p.borrowers[who])| <= capacity
    ensures var q := Step(p, capacity, NextAction(p, capacity, who));
            && q.Some? && |q.value.borrowers| == |p.borrowers|
            && q.value.borrowers == p.borrowers[who := q.value.borrowers[who]]
            && StepsLeft(q.value.borrowers[who], capacity) < StepsLeft(p.borrowers[who], capacity)
  {
    hide LeaveStep;
  }

  lemma CollectorMoves(p: Pool, capacity: nat, who: nat)
    requires who < |p.borrowers|
    requires p.borrowers[who].Collecting? || p.borrowers[who].HasAll? || p.borrowers[who].Returning?
    requires |p.idle| + |Held(p.borrowers[who])| <= capacity
    ensures var q := Step(p, capacity, NextAction(p, capacity, who));
            && q.Some? && |q.value.borrowers| == |p.borrowers|
            && q.value.borrowers == p.borrowers[who := q.value.borrowers[who]]
            && StepsLeft(q.value.borrowers[who], capacity) < StepsLeft(p.borrowers[who], capacity)
  {
    match p.borrowers[who]
    case Collecting(got) => hide PutStep;
    case HasAll(got) => hide PutStep, GetStep, TimeOutStep;
    case Returning(got) => hide GetStep, TimeOutStep, LeaveStep;
  }

  /** Readers are lent from the head of the queue and given back at its tail, the last one first. */
  lemma InQueueOrder(p: Pool, capacity: nat, a: Action)
    requires Step(p, capacity, a).Some? && (a.Get? || a.PutBack?) && a.who < |p.borrowers|
    ensures var q := Step(p, capacity, a).value;
            var held, now := Held(p.borrowers[a.who]), Held(q.borrowers[a.who]);
            && (a.Get? ==> p.idle == [p.idle[0]] + q.idle && now == held + [p.idle[0]])
            && (a.PutBack? && held != [] ==> q.idle == p.idle + [held[|held| - 1]] && now == held[..|held| - 1])
  {}

  /** A timeout means that no reader was idle. */
  lemma TimeOutMeansEmpty(p: Pool, capacity: nat, who: nat)
    requires Step(p, capacity, TimeOut(who)).Some?
    ensures p.idle == [] && Held(Step(p, capacity, TimeOut(who)).value.borrowers[who]) == Held(p.borrowers[who])
  {}

  /** Whatever the others do not do, a borrower can always finish. */
  lemma {:induction false} CanFinish(handles: seq<Handle>, actions: seq<Action>, who: nat) returns (more: seq<Action>)
    requires Steps(Open(handles), |handles|, actions).Some?
    requires who < |Steps(Open(handles), |handles|, actions).value.borrowers|
    ensures var q := Steps(Open(handles), |handles|, actions + more);
            var p := Steps(Open(handles), |handles|, actions).value;
            && q.Some? && |q.value.borrowers| == |p.borrowers| && q.value.borrowers == p.borrowers[who := Gone]
    decreases StepsLeft(Steps(Open(handles), |handles|, actions).value.borrowers[who], |handles|)
  {
    hide Step;
    var p := Steps(Open(handles), |handles|, actions).value;
    if p.borrowers[who].Gone? {
      more := [];
      assert actions + more == actions;
      assert p.borrowers[who := Gone] == p.borrowers;
    } else {
      PoolConserved(handles, actions);
      StepsComplete(handles, actions);
      CanMove(p, handles, who);
      var a := NextAction(p, |handles|, who);
      assert (actions + [a])[..|actions|] == actions;
      var rest := CanFinish(handles, actions + [a], who);
      more := [a] + rest;
      assert actions + more == actions + [a] + rest;
    }
  }

  /** So from every state there is a way on which all borrowers are gone and the pool is full. */
  lemma {:induction false} CanFill(handles: seq<Handle>, actions: seq<Action>, n: nat) returns (more: seq<Action>)
    requires Steps(Open(handles), |handles|, actions).Some?
    requires n <= |Steps(Open(handles), |handles|, actions).value.borrowers|
    ensures var q := Steps(Open(handles), |handles|, actions + more);
            && q.Some? && |q.value.borrowers| == |Steps(Open(handles), |handles|, actions).value.borrowers|
            && (forall i | 0 <= i < n :: q.value.borrowers[i].Gone?)
            && (n == |q.value.borrowers| ==> multiset(q.value.idle) == multiset(handles))
  {
    hide Step, Steps;
    if n == 0 {
      more := [];
      assert actions + more == actions;
    } else {
      var some := CanFill(handles, actions, n - 1);
      var last := CanFinish(handles, actions + some, n - 1);
      more := some + last;
      assert actions + more == actions + some + last;
    }
    if n == |Steps(Open(handles), |handles|, actions).value.borrowers| {
      FullAgain(handles, actions + more);
    }
  }

  lemma StepsAppend(p: Pool, capacity: nat, actions: seq<Action>, a: Action)
    ensures Steps(p, capacity, actions + [a])
         == match Steps(p, capacity, actions) case None => None case Some(q) => Step(q, capacity, a)
  {
    assert (actions + [a])[..|actions|] == actions;
  }

  /** A single borrower that comes to an idle reader gets it and is inside its block. */
  lemma OneIsLent(handles: seq<Handle>, actions: seq<Action>)
    requires Steps(Open(handles), |handles|, actions).Some? && Steps(Open(handles), |handles|, actions).value.idle != []
    ensures var p := Steps(Open(handles), |handles|, actions).value;
            var who := |p.borrowers|;
            var q := Steps(Open(handles), |handles|, actions + [BeginOne] + [Get(who)]);
            q.Some? && q.value.borrowers == p.borrowers + [HasOne(p.idle[0])]
  {
    hide Steps;
    var who := |Steps(Open(handles), |handles|, actions).value.borrowers|;
    StepsAppend(Open(handles), |handles|, actions, BeginOne);
    StepsAppend(Open(handles), |handles|, actions + [BeginOne], Get(who));
  }

  /** A collector left alone with the rest of the readers gets into its block with all of them. */
  lemma {:induction false} CanCollect(handles: seq<Handle>, actions: seq<Action>, who: nat) returns (more: seq<Action>)
    requires Steps(Open(handles), |handles|, actions).Some?
    requires var p := Steps(Open(handles), |handles|, actions).value;
             who < |p.borrowers| && p.borrowers[who].Collecting? && |p.borrowers[who].got| + |p.idle| == |handles|
    ensures var q := Steps(Open(handles), |handles|, actions + more);
            var p := Steps(Open(handles), |handles|, actions).value;
            && q.Some? && |q.value.borrowers| == |p.borrowers|
            && q.value.borrowers == p.borrowers[who := HasAll(p.borrowers[who].got + p.idle)] && q.value.idle == []
    decreases |Steps(Open(handles), |handles|, actions).value.idle|
  {
    hide Steps;
    var p := Steps(Open(handles), |handles|, actions).value;
    if p.idle == [] {
      more := [LeaveBlock(who)];
      StepsAppend(Open(handles), |handles|, actions, LeaveBlock(who));
      assert p.borrowers[who].got + p.idle == p.borrowers[who].got;
    } else {
      StepsAppend(Open(handles), |handles|, actions, Get(who));
      assert p.borrowers[who].got + p.idle == (p.borrowers[who].got + [p.idle[0]]) + p.idle[1..];
      var rest := CanCollect(handles, actions + [Get(who)], who);
      more := [Get(who)] + rest;
      assert actions + more == actions + [Get(who)] + rest;
    }
  }
}
