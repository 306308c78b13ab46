/** The single-writer runtime as interleaved atomic steps: clients that enqueue commands under a shared
    lock, one writer loop, readers, and close calls that take the lock exclusively and drain the queue. */
module Runtime {
  import opened Text
  import opened Model
  import opened Sequences
  import opened Schema
  import opened Commands
  import Refinement
  import Ledgers
  import Balancing
  import Audit
  import Loading
  import Queries

  // ---------- State ----------

  /** A queued command with the call whose future it resolves. */
  datatype Request = Request(call: nat, command: Command)

  datatype Writer =
    | TestStop
    | TestEmpty
    | Getting
    | Dispatching(request: Request)
    | Resolving(call: nat, outcome: Outcome)
    | Exited
    | Died

  /** A client call. Of a read, `since` counts the commands dispatched when it took the lock, `at` those
      dispatched when it read the transaction rows, or found no book. */
  datatype Call =
    | Holding(command: Command)
    | Waiting(command: Command)
    | Returned(command: Command, outcome: Outcome)
    | TimedOut(command: Command)
    | Reading(code: string, since: nat, at: nat, query: Queries.Query)
    | Saw(code: string, since: nat, at: nat, loaded: Loading.LoadOutcome)
    | ReadFailed
    | Refused

  datatype Phase = Opening | LockTaken | Stopped | Joining | Joined | Shut | Ended | LockTimedOut

  /** A close call. `at`: the commands enqueued when it got the lock; `finished`: its join saw the writer
      thread end. */
  datatype Closer = Closer(phase: Phase, at: nat, finished: bool)

  datatype State = State(
    db: Db,
    /** The commands dispatched when the store was closed. */
    closedAt: Option<nat>,
    /** None is the sentinel. */
    queue: seq<Option<Request>>,
    stop: bool,
    started: bool,
    writer: Writer,
    futures: map<nat, Outcome>,
    calls: map<nat, Call>,
    closers: map<nat, Closer>,
    /** The shared and the exclusive holders of the lock. */
    readers: set<nat>,
    holder: Option<nat>,
    /** History: all commands put and all commands dispatched, in order. */
    enqueued: seq<Request>,
    dispatched: seq<Request>,
    /** History: how many commands had been put when the stop flag was first set and when the loop ended. */
    stoppedAt: Option<nat>,
    exitedAt: Option<nat>)

  function Start(db: Db): State {
    State(db, None, [], false, true, TestStop, map[], map[], map[], {}, None, [], [], None, None)
  }

  // ---------- Steps ----------

  datatype Action =
    | BeginWrite(call: nat, command: Command)
    | BeginRead(call: nat, code: string)
    | Refuse(call: nat)
    | Put(call: nat)
    | TakeResult(call: nat)
    | GiveUp(call: nat)
    | Look(call: nat)
    | WriterMoves
    | BeginClose(closer: nat)
    | RefuseClose(closer: nat)
    | TakeLock(closer: nat)
    | SetStop(closer: nat)
    | PutSentinel(closer: nat)
    | JoinReturns(closer: nat)
    | JoinTimesOut(closer: nat)
    | CloseStore(closer: nat)
    | ReleaseLock(closer: nat)

  /** What a command meets on a closed store: the checks that need no connection come first. */
  function ClosedOutcome(c: Command): (r: Outcome)
    ensures r.Raised?
  {
    match c
    case CreateBookCommand(b, _) => Raised(if ChartOk(b.accounts) then StoreClosed else ChartRejected)
    case AppendTransactionCommand(_, t, _) =>
      Raised(if t.state != Posted then NotPostedError else if EntriesOk(t.entries) then StoreClosed else EntriesRejected)
    case CreateReversalCommand(_, _, _, _) => Raised(StoreClosed)
    case AppendResultCommand(_, _, _, _, _) => Raised(StoreClosed)
    case SnapshotCommand(_, _) => Raised(StoreClosed)
  }

  function Perform(iso: Iso4217, s: State, c: Command): (Db, Outcome) {
    if s.closedAt.Some? then (s.db, ClosedOutcome(c)) else Apply(iso, s.db, c)
  }

  /** `while not stop.is_set() or not queue.empty()`: two tests, one after the other. */
  function Test(s: State): State {
    if s.writer.TestStop? then s.(writer := if s.stop then TestEmpty else Getting)
    else if s.queue == [] then s.(writer := Exited, exitedAt := Some(|s.enqueued|))
    else s.(writer := Getting)
  }

  /** A poll that finds nothing goes back to the tests, and so does the sentinel. */
  function Get(s: State): State {
    if s.queue == [] then s.(writer := TestStop)
    else s.(queue := s.queue[1..], writer := if s.queue[0].None? then TestStop else Dispatching(s.queue[0].value))
  }

  function Dispatch(iso: Iso4217, s: State, r: Request): State {
    var performed := Perform(iso, s, r.command);
    s.(db := performed.0, writer := Resolving(r.call, performed.1), dispatched := s.dispatched + [r])
  }

  /** A second result on one future would raise in the handler too and end the thread. */
  function Resolve(s: State, call: nat, outcome: Outcome): State {
    if call in s.futures then s.(writer := Died) else s.(writer := TestStop, futures := s.futures[call := outcome])
  }

  function WriterStep(iso: Iso4217, s: State): Option<State> {
    match s.writer
    case TestStop => Some(Test(s))
    case TestEmpty => Some(Test(s))
    case Getting => Some(Get(s))
    case Dispatching(r) => Some(Dispatch(iso, s, r))
    case Resolving(call, outcome) => Some(Resolve(s, call, outcome))
    case Exited => None
    case Died => None
  }

  /** The commands that met an open store. */
  function Reached(s: State): seq<Request> {
    if s.closedAt.Some? && s.closedAt.value <= |s.dispatched| then s.dispatched[..s.closedAt.value] else s.dispatched
  }

  function FirstQuery(s: State, code: string): (c: Call)
    ensures c.Reading?
  {
    Reading(code, |Reached(s)|, |Reached(s)|, Queries.BookQuery)
  }

  /** One query of a load, on the store as it is at that moment; a closed store refuses it. */
  function NextQuery(iso: Iso4217, s: State, c: Call): (r: Call)
    requires c.Reading?
    ensures r.Reading? || r.Saw? || r.ReadFailed?
  {
    if s.closedAt.Some? then ReadFailed
    else
      var at := if Queries.HasSource(c.query) then c.at else |Reached(s)|;
      var q := Queries.Ask(iso, s.db, c.code, c.query);
      if q.Answered? then Saw(c.code, c.since, at, q.outcome) else Reading(c.code, c.since, at, q)
  }

  /** The record of its call after an action of a client, None when the action cannot happen. */
  function NextCall(iso: Iso4217, s: State, a: Action): (r: Option<Call>)
    ensures r.Some? ==> IsClient(a)
  {
    match a
    case BeginWrite(id, command) => if id in s.calls || s.holder.Some? then None else Some(Holding(command))
    case BeginRead(id, code) => if id in s.calls || s.holder.Some? then None else Some(FirstQuery(s, code))
    case Refuse(id) => if id in s.calls then None else Some(Refused)
    case Put(id) => if id in s.calls && s.calls[id].Holding? then Some(Waiting(s.calls[id].command)) else None
    case TakeResult(id) =>
      if id in s.calls && s.calls[id].Waiting? && id in s.futures
      then Some(Returned(s.calls[id].command, s.futures[id])) else None
    case GiveUp(id) => if id in s.calls && s.calls[id].Waiting? then Some(TimedOut(s.calls[id].command)) else None
    case Look(id) => if id in s.calls && s.calls[id].Reading? then Some(NextQuery(iso, s, s.calls[id])) else None
    case _ => None
  }

  predicate HoldsShared(c: Call) { c.Holding? || c.Waiting? || c.Reading? }

  /** A call takes the lock shared when it begins and gives it back when it returns. */
  function WithCall(s: State, id: nat, c: Call): State {
    s.(calls := s.calls[id := c], readers := if HoldsShared(c) then s.readers + {id} else s.readers - {id})
  }

  function Enqueue(s: State, r: Request): State {
    s.(queue := s.queue + [Some(r)], enqueued := s.enqueued + [r])
  }

  function ClientStep(iso: Iso4217, s: State, a: Action): Option<State> {
    match NextCall(iso, s, a)
    case None => None
    case Some(c) =>
      var t := WithCall(s, a.call, c);
      Some(if a.Put? then Enqueue(t, Request(a.call, s.calls[a.call].command)) else t)
  }

  function InPhase(s: State, k: nat, p: Phase): (r: bool)
    ensures r ==> k in s.closers
  {
    k in s.closers && s.closers[k].phase == p
  }

  function ToPhase(s: State, k: nat, p: Phase): State
    requires k in s.closers
  {
    s.(closers := s.closers[k := s.closers[k].(phase := p)])
  }

  function CloserStep(s: State, a: Action): Option<State> {
    match a
    case BeginClose(k) =>
      if k in s.closers then None
      else if s.started then Some(s.(closers := s.closers[k := Closer(Opening, 0, false)]))
      else Some(ShutStore(s).(closers := s.closers[k := Closer(Ended, 0, false)]))
    case RefuseClose(k) => if !InPhase(s, k, Opening) then None else Some(ToPhase(s, k, LockTimedOut))
    case TakeLock(k) =>
      if !InPhase(s, k, Opening) || s.holder.Some? || s.readers != {} then None
      else Some(s.(holder := Some(k), closers := s.closers[k := Closer(LockTaken, |s.enqueued|, false)]))
    case SetStop(k) =>
      if !InPhase(s, k, LockTaken) then None
      else Some(ToPhase(s, k, Stopped).(stop := true, stoppedAt := if s.stop then s.stoppedAt else Some(|s.enqueued|)))
    case PutSentinel(k) =>
      if !InPhase(s, k, Stopped) then None else Some(ToPhase(s, k, Joining).(queue := s.queue + [None]))
    case JoinReturns(k) =>
      if !InPhase(s, k, Joining) || !(s.writer.Exited? || s.writer.Died?) then None
      else Some(s.(closers := s.closers[k := s.closers[k].(phase := Joined, finished := true)]))
    case JoinTimesOut(k) => if !InPhase(s, k, Joining) then None else Some(ToPhase(s, k, Joined))
    case CloseStore(k) => if !InPhase(s, k, Joined) then None else Some(ToPhase(ShutStore(s), k, Shut))
    case ReleaseLock(k) =>
      if !InPhase(s, k, Shut) then None else Some(ToPhase(s, k, Ended).(started := false, holder := None))
    case _ => None
  }

  function ShutStore(s: State): State {
    if s.closedAt.Some? then s else s.(closedAt := Some(|s.dispatched|))
  }

  predicate IsClient(a: Action) {
    a.BeginWrite? || a.BeginRead? || a.Refuse? || a.Put? || a.TakeResult? || a.GiveUp? || a.Look?
  }

  /** The state after an action, None when the action cannot happen. */
  function Step(iso: Iso4217, s: State, a: Action): Option<State> {
    if a.WriterMoves? then WriterStep(iso, s) else if IsClient(a) then ClientStep(iso, s, a) else CloserStep(s, a)
  }

  /** The state after an interleaving, None when it cannot happen. */
  function Steps(iso: Iso4217, s: State, actions: seq<Action>): Option<State> {
    if actions == [] then Some(s)
    else
      match Steps(iso, s, actions[..|actions| - 1])
      case None => None
      case Some(t) => Step(iso, t, actions[|actions| - 1])
  }

  // ---------- The queue keeps the order ----------

  function Requests(queue: seq<Option<Request>>): seq<Request> {
    if queue == [] then [] else (if queue[0].Some? then [queue[0].value] else []) + Requests(queue[1..])
  }

  function InHand(w: Writer): seq<Request> {
    if w.Dispatching? then [w.request] else []
  }

  /** Every command put is dispatched, in hand, or still queued; in the order of the puts. */
  ghost predicate InOrder(s: State) {
    s.enqueued == s.dispatched + InHand(s.writer) + Requests(s.queue)
  }

  lemma {:induction false} RequestsAppend(queue: seq<Option<Request>>, item: Option<Request>)
    ensures Requests(queue + [item]) == Requests(queue) + (if item.Some? then [item.value] else [])
  {
    if queue != [] {
      assert (queue + [item])[1..] == queue[1..] + [item];
      RequestsAppend(queue[1..], item);
    }
  }

  /** What a client step leaves alone, and what it does to its own call. */
  lemma ClientFrame(iso: Iso4217, s: State, a: Action)
    requires ClientStep(iso, s, a).Some?
    ensures var t := ClientStep(iso, s, a).value;
            && t.db == s.db && t.closedAt == s.closedAt && t.writer == s.writer && t.futures == s.futures
            && t.dispatched == s.dispatched && t.stop == s.stop && t.stoppedAt == s.stoppedAt && t.exitedAt == s.exitedAt
            && t.closers == s.closers && t.holder == s.holder && t.started == s.started
    ensures var t := ClientStep(iso, s, a).value;
            && (!a.Put? ==> t.queue == s.queue && t.enqueued == s.enqueued)
            && (a.Put? ==> a.call in s.calls && s.calls[a.call].Holding?)
            && (a.Put? ==> t.queue == s.queue + [Some(Request(a.call, s.calls[a.call].command))])
            && (a.Put? ==> t.enqueued == s.enqueued + [Request(a.call, s.calls[a.call].command)])
    ensures IsClient(a) && NextCall(iso, s, a).Some?
    ensures ClientStep(iso, s, a).value.calls == s.calls[a.call := NextCall(iso, s, a).value]
  {
    hide NextQuery, FirstQuery, HoldsShared;
  }

  /** What a step of a close call leaves alone. */
  lemma CloserFrame(s: State, a: Action)
    requires CloserStep(s, a).Some?
    ensures var t := CloserStep(s, a).value;
            && t.db == s.db && t.writer == s.writer && t.futures == s.futures && t.calls == s.calls
            && t.dispatched == s.dispatched && t.enqueued == s.enqueued && t.exitedAt == s.exitedAt
            && t.readers == s.readers
            && t.queue == s.queue + (if a.PutSentinel? then [None] else [])
            && (!a.SetStop? ==> t.stop == s.stop && t.stoppedAt == s.stoppedAt)
            && (s.closedAt.Some? ==> t.closedAt == s.closedAt)
            && (s.closedAt.None? ==> t.closedAt.None? || t.closedAt == Some(|s.dispatched|))
  {
    assert s.queue + [] == s.queue;
  }

  /** What a step of the writer leaves alone. */
  ghost predicate WriterOnly(s: State, t: State) {
    && t.calls == s.calls && t.closers == s.closers && t.readers == s.readers && t.holder == s.holder
    && t.started == s.started && t.stop == s.stop && t.stoppedAt == s.stoppedAt && t.closedAt == s.closedAt
    && t.enqueued == s.enqueued
  }

  lemma WriterFrame(iso: Iso4217, s: State)
    requires WriterStep(iso, s).Some?
    ensures WriterOnly(s, WriterStep(iso, s).value)
  {
    hide Test, Get, Dispatch, Resolve, Perform, WriterOnly;
    TestFrame(s);
    GetFrame(s);
    if s.writer.Dispatching? { DispatchFrame(iso, s, s.writer.request); }
    if s.writer.Resolving? { ResolveFrame(s, s.writer.call, s.writer.outcome); }
  }

  lemma TestFrame(s: State)
    ensures WriterOnly(s, Test(s))
    ensures Test(s).queue == s.queue && Test(s).dispatched == s.dispatched
    ensures Test(s).futures == s.futures && Test(s).db == s.db
  {}

  lemma GetFrame(s: State)
    ensures WriterOnly(s, Get(s))
    ensures Get(s).dispatched == s.dispatched && Get(s).futures == s.futures && Get(s).db == s.db
    ensures Get(s).exitedAt == s.exitedAt
  {}

  lemma DispatchFrame(iso: Iso4217, s: State, r: Request)
    ensures WriterOnly(s, Dispatch(iso, s, r))
    ensures Dispatch(iso, s, r).futures == s.futures && Dispatch(iso, s, r).queue == s.queue
    ensures Dispatch(iso, s, r).exitedAt == s.exitedAt && Dispatch(iso, s, r).dispatched == s.dispatched + [r]
  {
    hide Perform;
  }

  lemma ResolveFrame(s: State, call: nat, outcome: Outcome)
    ensures WriterOnly(s, Resolve(s, call, outcome))
    ensures Resolve(s, call, outcome).dispatched == s.dispatched && Resolve(s, call, outcome).queue == s.queue
    ensures Resolve(s, call, outcome).db == s.db && Resolve(s, call, outcome).exitedAt == s.exitedAt
    ensures forall id | id in s.futures :: id in Resolve(s, call, outcome).futures
                                        && Resolve(s, call, outcome).futures[id] == s.futures[id]
  {}

  lemma WriterInOrder(iso: Iso4217, s: State)
    requires InOrder(s) && WriterStep(iso, s).Some?
    ensures InOrder(WriterStep(iso, s).value)
  {
    hide Perform, Requests, Get, Dispatch, Resolve;
    match s.writer
    case Getting => GetInOrder(s);
    case Dispatching(r) => DispatchInOrder(iso, s, r);
    case Resolving(call, outcome) => ResolveFrame(s, call, outcome); ResolvedWriter(s, call, outcome);
    case _ =>
  }

  lemma ResolvedWriter(s: State, call: nat, outcome: Outcome)
    ensures Resolve(s, call, outcome).writer in {TestStop, Died}
  {}

  lemma GetInOrder(s: State)
    requires InOrder(s) && s.writer.Getting?
    ensures InOrder(Get(s))
  {
    if s.queue != [] {
      hide Requests;
      NextRequest(s.queue);
    }
  }

  lemma DispatchInOrder(iso: Iso4217, s: State, r: Request)
    requires InOrder(s) && s.writer == Dispatching(r)
    ensures InOrder(Dispatch(iso, s, r))
  {
    hide Perform, Requests;
  }

  lemma NextRequest(queue: seq<Option<Request>>)
    requires queue != []
    ensures Requests(queue) == (if queue[0].Some? then [queue[0].value] else []) + Requests(queue[1..])
  {}

  lemma StepInOrder(iso: Iso4217, s: State, a: Action)
    requires InOrder(s) && Step(iso, s, a).Some?
    ensures InOrder(Step(iso, s, a).value)
  {
    hide WriterStep, CloserStep;
    if a.WriterMoves? {
      WriterInOrder(iso, s);
    } else if IsClient(a) {
      hide Reached;
      ClientFrame(iso, s, a);
      if a.Put? {
        RequestsAppend(s.queue, Some(Request(a.call, s.calls[a.call].command)));
      }
    } else {
      CloserFrame(s, a);
      RequestsAppend(s.queue, None);
      assert s.queue + [] == s.queue;
    }
  }

  // ---------- The lock ----------

  predicate Critical(c: Closer) {
    c.phase == LockTaken || c.phase == Stopped || c.phase == Joining || c.phase == Joined || c.phase == Shut
  }

  /** The holders are the calls inside their `with` blocks, and an exclusive holder is alone. */
  ghost predicate Exclusion(s: State) {
    && (s.holder.Some? ==> s.readers == {} && s.holder.value in s.closers)
    && (forall id :: id in s.readers <==> id in s.calls && HoldsShared(s.calls[id]))
    && (forall k | k in s.closers :: Critical(s.closers[k]) <==> s.holder == Some(k))
  }

  /** A call gets the lock only when nobody holds it exclusively. */
  lemma SharesWhenFree(iso: Iso4217, s: State, a: Action)
    requires NextCall(iso, s, a).Some? && HoldsShared(NextCall(iso, s, a).value)
    ensures s.holder.None? || (a.call in s.calls && HoldsShared(s.calls[a.call]))
  {
    hide NextQuery, FirstQuery;
  }

  lemma ClientExclusion(iso: Iso4217, s: State, a: Action)
    requires Exclusion(s) && ClientStep(iso, s, a).Some?
    ensures Exclusion(ClientStep(iso, s, a).value)
  {
    hide NextCall, HoldsShared, Critical;
    if HoldsShared(NextCall(iso, s, a).value) { SharesWhenFree(iso, s, a); }
  }

  lemma CloserExclusion(s: State, a: Action)
    requires Exclusion(s) && CloserStep(s, a).Some?
    ensures Exclusion(CloserStep(s, a).value)
  {
    var t := CloserStep(s, a).value;
    CloserFrame(s, a);
    forall k | k in t.closers ensures Critical(t.closers[k]) <==> t.holder == Some(k) {
      CriticalHolds(s, a, k);
    }
    HolderAlone(s, a);
    hide CloserStep;
  }

  lemma CriticalHolds(s: State, a: Action, k: nat)
    requires Exclusion(s) && CloserStep(s, a).Some? && k in CloserStep(s, a).value.closers
    ensures Critical(CloserStep(s, a).value.closers[k]) <==> CloserStep(s, a).value.holder == Some(k)
  {
    if k in s.closers { assert Critical(s.closers[k]) <==> s.holder == Some(k); }
  }

  lemma HolderAlone(s: State, a: Action)
    requires Exclusion(s) && CloserStep(s, a).Some?
    ensures var t := CloserStep(s, a).value; t.holder.Some? ==> t.readers == {} && t.holder.value in t.closers
  {}

  lemma WriterExclusion(iso: Iso4217, s: State)
    requires Exclusion(s) && WriterStep(iso, s).Some?
    ensures Exclusion(WriterStep(iso, s).value)
  {
    hide WriterStep;
    WriterFrame(iso, s);
  }

  lemma StepExclusion(iso: Iso4217, s: State, a: Action)
    requires Exclusion(s) && Step(iso, s, a).Some?
    ensures Exclusion(Step(iso, s, a).value)
  {
    hide WriterStep, ClientStep, CloserStep, Exclusion;
    if a.WriterMoves? {
      WriterExclusion(iso, s);
    } else if IsClient(a) {
      ClientExclusion(iso, s, a);
    } else {
      CloserExclusion(s, a);
    }
  }

  // ---------- Nothing is taken back ----------

  /** Later states extend earlier ones: the histories grow at the end and no resolved future changes. */
  ghost predicate Extends(s: State, t: State) {
    && s.enqueued <= t.enqueued && s.dispatched <= t.dispatched
    && (forall id | id in s.futures :: id in t.futures && t.futures[id] == s.futures[id])
    && (s.closedAt.Some? ==> t.closedAt == s.closedAt)
    && (s.closedAt.None? && t.closedAt.Some? ==> |s.dispatched| <= t.closedAt.value)
  }

  lemma WriterExtends(iso: Iso4217, s: State)
    requires WriterStep(iso, s).Some?
    ensures Extends(s, WriterStep(iso, s).value)
  {
    hide Test, Get, Dispatch, Resolve;
    TestFrame(s);
    GetFrame(s);
    if s.writer.Dispatching? { DispatchFrame(iso, s, s.writer.request); }
    if s.writer.Resolving? { ResolveFrame(s, s.writer.call, s.writer.outcome); }
  }

  lemma StepExtends(iso: Iso4217, s: State, a: Action)
    requires Step(iso, s, a).Some?
    ensures Extends(s, Step(iso, s, a).value)
  {
    hide WriterStep, CloserStep;
    if a.WriterMoves? {
      hide Extends;
      WriterExtends(iso, s);
    } else if IsClient(a) {
      hide Reached;
      ClientFrame(iso, s, a);
    } else {
      CloserFrame(s, a);
    }
  }

  lemma ExtendsTransitive(r: State, s: State, t: State)
    requires Extends(r, s) && Extends(s, t)
    ensures Extends(r, t)
  {}

  // ---------- The store follows the dispatched commands ----------

  function CommandOf(r: Request): Command { r.command }

  /** The database after commands applied one after the other. */
  function After(iso: Iso4217, first: Db, requests: seq<Request>): Db {
    Run(iso, first, MapSeq(requests, CommandOf))
  }

  lemma AfterOneMore(iso: Iso4217, first: Db, requests: seq<Request>, r: Request)
    ensures After(iso, first, requests + [r]) == Apply(iso, After(iso, first, requests), r.command).0
  {
    hide MapSeq, Apply, Run;
    MapSeqAppend(requests, r, CommandOf);
    RunAppend(iso, first, MapSeq(requests, CommandOf), r.command);
  }

  ghost predicate Sequential(iso: Iso4217, first: Db, s: State) {
    && (s.closedAt.Some? ==> s.closedAt.value <= |s.dispatched|)
    && s.db == After(iso, first, Reached(s))
  }

  /** What the i-th dispatched command does to the state its predecessors left. */
  function OutcomeAt(iso: Iso4217, first: Db, s: State, i: nat): Outcome
    requires i < |s.dispatched|
  {
    if i < |Reached(s)| then Apply(iso, After(iso, first, s.dispatched[..i]), s.dispatched[i].command).1
    else ClosedOutcome(s.dispatched[i].command)
  }

  /** An outcome, once due, stays the same. */
  lemma OutcomeStays(iso: Iso4217, first: Db, s: State, t: State, i: nat)
    requires Extends(s, t) && Sequential(iso, first, s) && i < |s.dispatched|
    ensures OutcomeAt(iso, first, t, i) == OutcomeAt(iso, first, s, i)
  {
    hide After, Apply, ClosedOutcome;
    assert t.dispatched[i] == s.dispatched[i];
    assert t.dispatched[..i] == s.dispatched[..i];
  }

  lemma DispatchSequential(iso: Iso4217, first: Db, s: State, r: Request)
    requires Sequential(iso, first, s)
    ensures var t := Dispatch(iso, s, r);
            Sequential(iso, first, t) && t.writer == Resolving(r.call, OutcomeAt(iso, first, t, |s.dispatched|))
  {
    hide After, Apply, ClosedOutcome;
    var t := Dispatch(iso, s, r);
    assert t.dispatched[..|s.dispatched|] == s.dispatched;
    if s.closedAt.None? {
      AfterOneMore(iso, first, s.dispatched, r);
    } else {
      assert Reached(t) == Reached(s);
    }
  }

  lemma WriterSequential(iso: Iso4217, first: Db, s: State)
    requires Sequential(iso, first, s) && WriterStep(iso, s).Some?
    ensures Sequential(iso, first, WriterStep(iso, s).value)
  {
    hide Test, Get, Dispatch, Resolve, After;
    TestFrame(s);
    GetFrame(s);
    if s.writer.Dispatching? { DispatchSequential(iso, first, s, s.writer.request); }
    if s.writer.Resolving? { ResolveFrame(s, s.writer.call, s.writer.outcome); }
  }

  lemma StepSequential(iso: Iso4217, first: Db, s: State, a: Action)
    requires Sequential(iso, first, s) && Step(iso, s, a).Some?
    ensures Sequential(iso, first, Step(iso, s, a).value)
  {
    hide WriterStep, CloserStep, ClientStep, After;
    if a.WriterMoves? {
      hide Sequential;
      WriterSequential(iso, first, s);
    } else if IsClient(a) {
      ClientFrame(iso, s, a);
    } else {
      CloserFrame(s, a);
      assert Reached(Step(iso, s, a).value) == Reached(s);
    }
  }

  // ---------- Every call has one command and one result ----------

  predicate Submitted(c: Call) { c.Waiting? || c.Returned? || c.TimedOut? }

  /** Every queued command belongs to its own call, and no call returns anything but its future's result. */
  ghost predicate Owned(s: State) {
    && (forall i | 0 <= i < |s.enqueued| ::
          var r := s.enqueued[i]; r.call in s.calls && Submitted(s.calls[r.call]) && s.calls[r.call].command == r.command)
    && (forall i, j | 0 <= i < j < |s.enqueued| :: s.enqueued[i].call != s.enqueued[j].call)
    && (forall id | id in s.calls && Submitted(s.calls[id]) :: Request(id, s.calls[id].command) in s.enqueued)
    && (forall id | id in s.calls && s.calls[id].Returned? :: id in s.futures && s.futures[id] == s.calls[id].outcome)
  }

  /** A submitted call stays submitted with its command, and only a put makes one. */
  lemma CallKeepsCommand(iso: Iso4217, s: State, a: Action)
    requires NextCall(iso, s, a).Some?
    ensures var c := NextCall(iso, s, a).value;
            var was := a.call in s.calls && Submitted(s.calls[a.call]);
            && (Submitted(c) <==> was || a.Put?)
            && (was ==> c.command == s.calls[a.call].command && !a.Put?)
            && (a.Put? ==> c.command == s.calls[a.call].command && !c.Returned?)
            && (c.Returned? ==> a.call in s.futures && s.futures[a.call] == c.outcome)
  {
    hide NextQuery, FirstQuery;
  }

  lemma ClientOwned(iso: Iso4217, s: State, a: Action)
    requires Owned(s) && ClientStep(iso, s, a).Some?
    ensures Owned(ClientStep(iso, s, a).value)
  {
    hide ClientStep, NextCall, Submitted;
    ClientFrame(iso, s, a);
    CallKeepsCommand(iso, s, a);
    if a.Put? {
      hide Owned;
      PutOwned(iso, s, a, ClientStep(iso, s, a).value);
    }
  }

  lemma PutOwned(iso: Iso4217, s: State, a: Action, t: State)
    requires Owned(s) && a.Put? && a.call in s.calls && !Submitted(s.calls[a.call])
    requires t.futures == s.futures && t.calls.Keys == s.calls.Keys && Submitted(t.calls[a.call])
    requires !t.calls[a.call].Returned? && forall id | id in s.calls && id != a.call :: t.calls[id] == s.calls[id]
    requires t.enqueued == s.enqueued + [Request(a.call, t.calls[a.call].command)]
    ensures Owned(t)
  {
    forall i | 0 <= i < |s.enqueued| ensures s.enqueued[i].call != a.call && t.enqueued[i] == s.enqueued[i] {}
    assert t.enqueued[|s.enqueued|] == Request(a.call, t.calls[a.call].command);
    forall x | x in t.calls && Submitted(t.calls[x]) ensures Request(x, t.calls[x].command) in t.enqueued {
      if x != a.call { assert Request(x, s.calls[x].command) in s.enqueued; }
    }
  }

  lemma StepOwned(iso: Iso4217, s: State, a: Action)
    requires Owned(s) && Step(iso, s, a).Some?
    ensures Owned(Step(iso, s, a).value)
  {
    hide WriterStep, CloserStep, ClientStep;
    if a.WriterMoves? {
      WriterFrame(iso, s);
      WriterExtends(iso, s);
    } else if IsClient(a) {
      hide Owned;
      ClientOwned(iso, s, a);
    } else {
      CloserFrame(s, a);
    }
  }

  // ---------- Futures ----------

  /** The dispatched commands whose futures have been resolved. */
  function Resolved(s: State): nat {
    if s.writer.Resolving? && s.dispatched != [] then |s.dispatched| - 1 else |s.dispatched|
  }

  ghost predicate Pending(iso: Iso4217, first: Db, s: State) {
    s.writer.Resolving? ==>
      && s.dispatched != []
      && s.writer.call == s.dispatched[|s.dispatched| - 1].call
      && s.writer.outcome == OutcomeAt(iso, first, s, |s.dispatched| - 1)
  }

  ghost predicate HasOutcome(iso: Iso4217, first: Db, s: State, i: nat)
    requires i < |s.dispatched|
  {
    var call := s.dispatched[i].call;
    call in s.futures && s.futures[call] == OutcomeAt(iso, first, s, i)
  }

  /** Exactly the dispatched commands have results, each its own, but for the one just being resolved; the
      thread has not died. */
  ghost predicate Answered(iso: Iso4217, first: Db, s: State) {
    && !s.writer.Died?
    && Pending(iso, first, s)
    && (forall i | 0 <= i < Resolved(s) :: HasOutcome(iso, first, s, i))
    && (forall id | id in s.futures :: exists i :: 0 <= i < Resolved(s) && s.dispatched[i].call == id)
  }

  /** A step that changes neither the futures nor the dispatched commands. */
  lemma AnsweredStays(iso: Iso4217, first: Db, s: State, t: State)
    requires Answered(iso, first, s) && Extends(s, t) && Sequential(iso, first, s)
    requires t.dispatched == s.dispatched && t.futures == s.futures && !t.writer.Died?
    requires t.writer == s.writer || (!s.writer.Resolving? && !t.writer.Resolving?)
    ensures Answered(iso, first, t)
  {
    hide OutcomeAt, Extends, Sequential;
    forall i | 0 <= i < |s.dispatched| ensures OutcomeAt(iso, first, t, i) == OutcomeAt(iso, first, s, i) {
      OutcomeStays(iso, first, s, t, i);
    }
    forall i | 0 <= i < Resolved(t) ensures HasOutcome(iso, first, t, i) {
      assert HasOutcome(iso, first, s, i);
    }
  }

  lemma DispatchAnswered(iso: Iso4217, first: Db, s: State)
    requires Answered(iso, first, s) && Sequential(iso, first, s) && s.writer.Dispatching?
    ensures Answered(iso, first, Dispatch(iso, s, s.writer.request))
  {
    hide OutcomeAt, Extends, Sequential, Dispatch, WriterStep;
    var r := s.writer.request;
    var t := Dispatch(iso, s, r);
    DispatchFrame(iso, s, r);
    DispatchSequential(iso, first, s, r);
    DispatchExtends(iso, s, r);
    forall i | 0 <= i < Resolved(t) ensures HasOutcome(iso, first, t, i) {
      OutcomeStays(iso, first, s, t, i);
      assert HasOutcome(iso, first, s, i);
    }
    forall id | id in t.futures ensures exists i :: 0 <= i < Resolved(t) && t.dispatched[i].call == id {
      var i :| 0 <= i < Resolved(s) && s.dispatched[i].call == id;
      assert t.dispatched[i] == s.dispatched[i];
    }
  }

  lemma DispatchExtends(iso: Iso4217, s: State, r: Request)
    ensures Extends(s, Dispatch(iso, s, r))
  {
    hide Dispatch;
    DispatchFrame(iso, s, r);
  }

  lemma ResolveAnswered(iso: Iso4217, first: Db, s: State)
    requires Answered(iso, first, s) && Sequential(iso, first, s) && Owned(s) && InOrder(s) && s.writer.Resolving?
    ensures Answered(iso, first, Resolve(s, s.writer.call, s.writer.outcome))
  {
    hide OutcomeAt, Extends, Sequential, HasOutcome;
    var last := |s.dispatched| - 1;
    var t := Resolve(s, s.writer.call, s.writer.outcome);
    FirstResult(iso, first, s);
    ResolveFrame(s, s.writer.call, s.writer.outcome);
    ResolveExtends(s);
    forall i | 0 <= i < Resolved(t) ensures HasOutcome(iso, first, t, i) {
      if i < last { assert HasOutcome(iso, first, s, i); }
      OutcomeKept(iso, first, s, t, i);
    }
    assert t.dispatched[last].call == s.writer.call;
  }

  lemma FirstResult(iso: Iso4217, first: Db, s: State)
    requires Answered(iso, first, s) && Owned(s) && InOrder(s) && s.writer.Resolving?
    ensures s.writer.call !in s.futures
  {
    hide OutcomeAt, HasOutcome, Owned, InOrder;
    DistinctDispatched(s);
  }

  lemma OutcomeKept(iso: Iso4217, first: Db, s: State, t: State, i: nat)
    requires Extends(s, t) && Sequential(iso, first, s) && i < |s.dispatched| && t.dispatched == s.dispatched
    ensures HasOutcome(iso, first, s, i) ==> HasOutcome(iso, first, t, i)
    ensures s.dispatched[i].call in t.futures && t.futures[s.dispatched[i].call] == OutcomeAt(iso, first, s, i)
        ==> HasOutcome(iso, first, t, i)
  {
    hide OutcomeAt, Sequential;
    OutcomeStays(iso, first, s, t, i);
  }

  lemma ResolveExtends(s: State)
    requires s.writer.Resolving?
    ensures Extends(s, Resolve(s, s.writer.call, s.writer.outcome))
  {
    hide Resolve;
    ResolveFrame(s, s.writer.call, s.writer.outcome);
  }

  /** No command is dispatched twice. */
  lemma DistinctDispatched(s: State)
    requires Owned(s) && InOrder(s)
    ensures forall i, j | 0 <= i < j < |s.dispatched| :: s.dispatched[i].call != s.dispatched[j].call
  {
    assert forall i | 0 <= i < |s.dispatched| :: s.dispatched[i] == s.enqueued[i];
  }

  lemma WriterAnswered(iso: Iso4217, first: Db, s: State)
    requires Answered(iso, first, s) && Sequential(iso, first, s) && Owned(s) && InOrder(s) && WriterStep(iso, s).Some?
    ensures Answered(iso, first, WriterStep(iso, s).value)
  {
    hide Answered, Sequential, Owned, InOrder, Extends, Dispatch, Resolve;
    if s.writer.Dispatching? {
      DispatchAnswered(iso, first, s);
    } else if s.writer.Resolving? {
      ResolveAnswered(iso, first, s);
    } else {
      WriterExtends(iso, s);
      TestFrame(s);
      GetFrame(s);
      AnsweredStays(iso, first, s, WriterStep(iso, s).value);
    }
  }

  lemma StepAnswered(iso: Iso4217, first: Db, s: State, a: Action)
    requires Answered(iso, first, s) && Sequential(iso, first, s) && Owned(s) && InOrder(s) && Step(iso, s, a).Some?
    ensures Answered(iso, first, Step(iso, s, a).value)
  {
    hide Answered, Sequential, Owned, InOrder, Extends, WriterStep, ClientStep, CloserStep;
    if a.WriterMoves? {
      WriterAnswered(iso, first, s);
    } else {
      StepExtends(iso, s, a);
      AnsweredAlive(iso, first, s);
      if IsClient(a) { ClientFrame(iso, s, a); } else { CloserFrame(s, a); }
      AnsweredStays(iso, first, s, Step(iso, s, a).value);
    }
  }

  lemma AnsweredAlive(iso: Iso4217, first: Db, s: State)
    requires Answered(iso, first, s)
    ensures !s.writer.Died?
  {}

  // ---------- Reads ----------

  /** The store after the first `n` commands that met it open. */
  function Prefix(iso: Iso4217, first: Db, s: State, n: nat): Db
    requires n <= |Reached(s)|
  {
    After(iso, first, Reached(s)[..n])
  }

  /** A finished read has the load of one earlier store; an unfinished one has answers that agree with it. */
  ghost predicate SawPrefix(iso: Iso4217, first: Db, s: State, c: Call) {
    && (c.ReadFailed? ==> s.closedAt.Some?)
    && (c.Reading? || c.Saw? ==> c.since <= c.at <= |Reached(s)|)
    && (c.Reading? ==>
          && c.at <= |Reached(s)| && Queries.Unfinished(c.query)
          && Queries.Consistent(iso, Prefix(iso, first, s, c.at), s.db, c.code, c.query))
    && (c.Saw? ==>
          c.at <= |Reached(s)| && c.loaded == Loading.Load(iso, Prefix(iso, first, s, c.at), c.code))
  }

  ghost predicate ReadsOk(iso: Iso4217, first: Db, s: State) {
    forall id | id in s.calls :: SawPrefix(iso, first, s, s.calls[id])
  }

  lemma ReachedGrows(iso: Iso4217, first: Db, s: State, t: State)
    requires Extends(s, t) && Sequential(iso, first, s)
    ensures Reached(s) <= Reached(t)
  {
    hide After;
  }

  lemma SamePrefix(iso: Iso4217, first: Db, s: State, t: State, n: nat)
    requires Reached(s) <= Reached(t) && n <= |Reached(s)|
    ensures Prefix(iso, first, t, n) == Prefix(iso, first, s, n)
  {
    hide After, Reached;
    assert Reached(t)[..n] == Reached(s)[..n];
  }

  /** No step takes rows that a read may rely on from the store. */
  lemma StepKeepsRows(iso: Iso4217, s: State, a: Action, code: string)
    requires Step(iso, s, a).Some?
    ensures Queries.Keeps(s.db, Step(iso, s, a).value.db, code)
  {
    hide ClientStep, CloserStep, Resolve, Queries.Keeps, Apply, ClosedOutcome;
    Queries.KeepsSame(s.db, code);
    if a.WriterMoves? {
      TestFrame(s);
      GetFrame(s);
      if s.writer.Dispatching? { Queries.ApplyKeeps(iso, s.db, s.writer.request.command, code); }
      if s.writer.Resolving? { ResolveFrame(s, s.writer.call, s.writer.outcome); }
    } else if IsClient(a) {
      ClientFrame(iso, s, a);
    } else {
      CloserFrame(s, a);
    }
  }

  lemma SawStays(iso: Iso4217, first: Db, s: State, t: State, c: Call)
    requires SawPrefix(iso, first, s, c) && Reached(s) <= Reached(t) && (s.closedAt.Some? ==> t.closedAt.Some?)
    requires c.Reading? ==> Queries.Keeps(s.db, t.db, c.code)
    ensures SawPrefix(iso, first, t, c)
  {
    hide Prefix, Reached, Queries.Consistent, Queries.Keeps, Loading.Load;
    if c.Reading? || c.Saw? { SamePrefix(iso, first, s, t, c.at); }
    if c.Reading? { Queries.CommitKeepsAnswers(iso, Prefix(iso, first, s, c.at), s.db, t.db, c.code, c.query); }
  }

  lemma StaysClosed(s: State, t: State)
    requires Extends(s, t)
    ensures s.closedAt.Some? ==> t.closedAt.Some?
  {}

  lemma WholePrefix(iso: Iso4217, first: Db, s: State)
    requires Sequential(iso, first, s)
    ensures Prefix(iso, first, s, |Reached(s)|) == s.db
  {
    hide After, Reached;
    assert Reached(s)[..|Reached(s)|] == Reached(s);
  }

  /** A query on the present store agrees with what was read before. */
  lemma NextQueryOk(iso: Iso4217, first: Db, s: State, c: Call)
    requires Sequential(iso, first, s) && SawPrefix(iso, first, s, c) && c.Reading?
    ensures SawPrefix(iso, first, s, NextQuery(iso, s, c))
  {
    hide Prefix, Reached, Queries.Ask, Sequential, Loading.Load, Queries.Keeps, HasBook, Select;
    WholePrefix(iso, first, s);
    if s.closedAt.None? {
      Queries.AskConsistent(iso, Prefix(iso, first, s, c.at), s.db, c.code, c.query);
      Queries.AskProgress(iso, s.db, c.code, c.query);
    }
  }

  lemma FirstQueryOk(iso: Iso4217, first: Db, s: State, code: string)
    requires Sequential(iso, first, s)
    ensures SawPrefix(iso, first, s, FirstQuery(s, code))
  {
    hide Prefix, Reached, Queries.Consistent, Sequential;
    WholePrefix(iso, first, s);
    Queries.NothingAsked(iso, s.db, code);
  }

  lemma StepReads(iso: Iso4217, first: Db, s: State, a: Action)
    requires ReadsOk(iso, first, s) && Sequential(iso, first, s) && Step(iso, s, a).Some?
    ensures ReadsOk(iso, first, Step(iso, s, a).value)
  {
    hide SawPrefix, Step, Reached, Sequential, Extends;
    var t := Step(iso, s, a).value;
    StepExtends(iso, s, a);
    ReachedGrows(iso, first, s, t);
    forall id | id in t.calls ensures SawPrefix(iso, first, t, t.calls[id]) {
      CallMoves(iso, first, s, a, id);
      if t.calls[id].Reading? { StepKeepsRows(iso, s, a, t.calls[id].code); }
      StaysClosed(s, t);
      SawStays(iso, first, s, t, t.calls[id]);
    }
  }

  /** The record that a call has after a step is right for the state before it. */
  lemma CallMoves(iso: Iso4217, first: Db, s: State, a: Action, id: nat)
    requires Sequential(iso, first, s) && ReadsOk(iso, first, s) && Step(iso, s, a).Some?
    requires id in Step(iso, s, a).value.calls
    ensures SawPrefix(iso, first, s, Step(iso, s, a).value.calls[id])
  {
    hide WriterStep, CloserStep, SawPrefix, Sequential, Reached, NextQuery, FirstQuery;
    if a.WriterMoves? {
      WriterFrame(iso, s);
    } else if !IsClient(a) {
      CloserFrame(s, a);
    } else {
      if a.BeginRead? { FirstQueryOk(iso, first, s, a.code); }
      if id in s.calls && s.calls[id].Reading? { NextQueryOk(iso, first, s, s.calls[id]); }
      NotReading(iso, first, s, ClientStep(iso, s, a).value.calls[id]);
    }
  }

  lemma NotReading(iso: Iso4217, first: Db, s: State, c: Call)
    ensures !c.Reading? && !c.Saw? && !c.ReadFailed? ==> SawPrefix(iso, first, s, c)
  {}

  // ---------- Stopping ----------

  ghost predicate CloserOk(s: State, c: Closer) {
    && (Critical(c) ==> c.at == |s.enqueued| && (c.phase != LockTaken ==> s.stop))
    && (c.finished ==> s.writer.Exited?)
  }

  /** The loop ends only after the flag was set, with nothing queued at that moment. */
  ghost predicate Draining(s: State) {
    && (s.stop <==> s.stoppedAt.Some?)
    && (s.stoppedAt.Some? ==> s.stoppedAt.value <= |s.enqueued|)
    && (s.writer.TestEmpty? || s.writer.Exited? ==> s.stop)
    && (s.writer.Exited? <==> s.exitedAt.Some?)
    && (s.exitedAt.Some? ==>
          s.stoppedAt.value <= s.exitedAt.value <= |s.enqueued| && s.dispatched == s.enqueued[..s.exitedAt.value])
    && (forall k | k in s.closers :: CloserOk(s, s.closers[k]))
  }

  lemma TestDraining(s: State)
    requires Draining(s) && InOrder(s) && (s.writer.TestStop? || s.writer.TestEmpty?)
    ensures Draining(Test(s))
  {
    var t := Test(s);
    if t.writer.Exited? {
      assert Requests(s.queue) == [] && InHand(s.writer) == [];
      assert s.enqueued == s.dispatched && t.dispatched == t.enqueued[..|t.enqueued|];
    }
    forall k | k in t.closers ensures CloserOk(t, t.closers[k]) {
      assert CloserOk(s, s.closers[k]);
    }
  }

  lemma OtherWriterDraining(s: State, t: State)
    requires Draining(s) && WriterOnly(s, t) && t.exitedAt == s.exitedAt && s.exitedAt.None?
    requires !t.writer.Exited? && !t.writer.TestEmpty?
    ensures Draining(t)
  {
    forall k | k in t.closers ensures CloserOk(t, t.closers[k]) {
      assert CloserOk(s, s.closers[k]);
    }
  }

  lemma WriterDraining(iso: Iso4217, s: State)
    requires Draining(s) && InOrder(s) && WriterStep(iso, s).Some?
    ensures Draining(WriterStep(iso, s).value)
  {
    if s.writer.TestStop? || s.writer.TestEmpty? {
      hide Draining, Test;
      TestDraining(s);
    } else {
      hide Test, Perform, WriterOnly, InOrder;
      GetFrame(s);
      if s.writer.Dispatching? { DispatchFrame(iso, s, s.writer.request); }
      if s.writer.Resolving? { ResolveFrame(s, s.writer.call, s.writer.outcome); }
      OtherWriterDraining(s, WriterStep(iso, s).value);
    }
  }

  lemma ClientDraining(iso: Iso4217, s: State, a: Action)
    requires Draining(s) && Exclusion(s) && ClientStep(iso, s, a).Some?
    ensures Draining(ClientStep(iso, s, a).value)
  {
    hide ClientStep, NextCall, Critical;
    var t := ClientStep(iso, s, a).value;
    ClientFrame(iso, s, a);
    if a.Put? { PutNeedsSharing(s, a); }
    forall k | k in t.closers ensures CloserOk(t, t.closers[k]) {
      assert CloserOk(s, s.closers[k]);
    }
  }

  /** Nothing is put while the lock is held exclusively. */
  lemma PutNeedsSharing(s: State, a: Action)
    requires Exclusion(s) && a.Put? && a.call in s.calls && s.calls[a.call].Holding?
    ensures forall k | k in s.closers :: !Critical(s.closers[k])
  {
    hide Critical;
    assert a.call in s.readers;
  }

  lemma CloserDraining(s: State, a: Action)
    requires Draining(s) && Exclusion(s) && !s.writer.Died? && CloserStep(s, a).Some?
    ensures Draining(CloserStep(s, a).value)
  {
    var t := CloserStep(s, a).value;
    CloserFrame(s, a);
    forall k | k in t.closers ensures CloserOk(t, t.closers[k]) {
      CloserKept(s, a, k);
    }
  }

  lemma CloserKept(s: State, a: Action, k: nat)
    requires Draining(s) && Exclusion(s) && !s.writer.Died? && CloserStep(s, a).Some?
    requires k in CloserStep(s, a).value.closers
    ensures CloserOk(CloserStep(s, a).value, CloserStep(s, a).value.closers[k])
  {
    CloserFrame(s, a);
    if k in s.closers { assert CloserOk(s, s.closers[k]); }
  }

  lemma StepDraining(iso: Iso4217, s: State, a: Action)
    requires Draining(s) && InOrder(s) && Exclusion(s) && !s.writer.Died? && Step(iso, s, a).Some?
    ensures Draining(Step(iso, s, a).value)
  {
    hide WriterStep, CloserStep, ClientStep, Draining, InOrder, Exclusion;
    if a.WriterMoves? {
      WriterDraining(iso, s);
    } else if IsClient(a) {
      ClientDraining(iso, s, a);
    } else {
      CloserDraining(s, a);
    }
  }

  // ---------- Every interleaving ----------

  ghost predicate Invariant(iso: Iso4217, first: Db, s: State) {
    && InOrder(s) && Exclusion(s) && Sequential(iso, first, s) && Owned(s) && Answered(iso, first, s)
    && ReadsOk(iso, first, s) && Draining(s)
  }

  lemma StepInvariant(iso: Iso4217, first: Db, s: State, a: Action)
    requires Invariant(iso, first, s) && Step(iso, s, a).Some?
    ensures Invariant(iso, first, Step(iso, s, a).value)
  {
    hide Step, InOrder, Exclusion, Sequential, Owned, Answered, ReadsOk, Draining;
    StepInOrder(iso, s, a);
    StepExclusion(iso, s, a);
    StepSequential(iso, first, s, a);
    StepOwned(iso, s, a);
    StepAnswered(iso, first, s, a);
    StepReads(iso, first, s, a);
    AnsweredAlive(iso, first, s);
    StepDraining(iso, s, a);
  }

  lemma StartInvariant(iso: Iso4217, first: Db)
    ensures Invariant(iso, first, Start(first))
  {
    hide Sequential, Answered, ReadsOk, Draining, Owned, Exclusion, Critical;
    StartSequential(iso, first);
    StartAnswered(iso, first);
    StartQuiet(iso, first);
  }

  lemma StartSequential(iso: Iso4217, first: Db)
    ensures Sequential(iso, first, Start(first))
  {
    hide MapSeq;
    MapSeqEmpty<Request, Command>([], CommandOf);
  }

  lemma StartAnswered(iso: Iso4217, first: Db)
    ensures Answered(iso, first, Start(first))
  {
    hide OutcomeAt;
  }

  lemma StartQuiet(iso: Iso4217, first: Db)
    ensures ReadsOk(iso, first, Start(first)) && Draining(Start(first)) && Owned(Start(first)) && Exclusion(Start(first))
  {
    hide SawPrefix, CloserOk;
  }

  lemma {:induction false} StepsInvariant(iso: Iso4217, first: Db, actions: seq<Action>)
    requires Steps(iso, Start(first), actions).Some?
    ensures Invariant(iso, first, Steps(iso, Start(first), actions).value)
  {
    hide Invariant, Step;
    if actions == [] {
      StartInvariant(iso, first);
    } else {
      var n := |actions| - 1;
      StepsInvariant(iso, first, actions[..n]);
      StepInvariant(iso, first, Steps(iso, Start(first), actions[..n]).value, actions[n]);
    }
  }

  lemma StepsAppend(iso: Iso4217, s: State, actions: seq<Action>, a: Action)
    ensures Steps(iso, s, actions + [a])
         == match Steps(iso, s, actions) case None => None case Some(t) => Step(iso, t, a)
  {
    assert (actions + [a])[..|actions|] == actions;
  }

  lemma {:induction false} StepsConcat(iso: Iso4217, s: State, a: seq<Action>, b: seq<Action>)
    ensures Steps(iso, s, a + b) == match Steps(iso, s, a) case None => None case Some(t) => Steps(iso, t, b)
  {
    hide Step;
    if b == [] {
      assert a + b == a;
    } else {
      var n := |b| - 1;
      StepsConcat(iso, s, a, b[..n]);
      assert a + b == (a + b[..n]) + [b[n]];
      StepsAppend(iso, s, a + b[..n], b[n]);
    }
  }

  lemma {:induction false} StepsExtend(iso: Iso4217, s: State, actions: seq<Action>)
    requires Steps(iso, s, actions).Some?
    ensures Extends(s, Steps(iso, s, actions).value)
  {
    hide Step, Extends;
    if actions == [] {
      ExtendsSame(s);
    } else {
      var n := |actions| - 1;
      StepsExtend(iso, s, actions[..n]);
      StepExtends(iso, Steps(iso, s, actions[..n]).value, actions[n]);
      ExtendsTransitive(s, Steps(iso, s, actions[..n]).value, Steps(iso, s, actions).value);
    }
  }

  lemma ExtendsSame(s: State)
    ensures Extends(s, s)
  {}

  /** In every interleaving the store is the one after the dispatched commands, one at a time and in the order
      of the puts; no call is dispatched twice; the writer thread is alive until it ends. */
  lemma WritesAreSequential(iso: Iso4217, first: Db, actions: seq<Action>)
    requires Steps(iso, Start(first), actions).Some?
    ensures var s := Steps(iso, Start(first), actions).value;
            && s.enqueued == s.dispatched + InHand(s.writer) + Requests(s.queue)
            && (forall i, j | 0 <= i < j < |s.enqueued| :: s.enqueued[i].call != s.enqueued[j].call)
            && s.db == Run(iso, first, MapSeq(Reached(s), CommandOf))
            && (s.closedAt.None? ==> Reached(s) == s.dispatched)
            && !s.writer.Died?
  {
    hide Steps, Exclusion, ReadsOk, Draining, Run, MapSeq, Requests;
    StepsInvariant(iso, first, actions);
  }

  /** A call that returns has the result of its own command at its own place in that order, store errors
      included; and each dispatched command but the one in progress has its result. */
  lemma ResultsAreOwn(iso: Iso4217, first: Db, actions: seq<Action>)
    requires Steps(iso, Start(first), actions).Some?
    ensures var s := Steps(iso, Start(first), actions).value;
            && (forall id | id in s.calls && s.calls[id].Returned? ::
                  exists i :: 0 <= i < |s.dispatched| && s.dispatched[i] == Request(id, s.calls[id].command)
                           && s.calls[id].outcome == OutcomeAt(iso, first, s, i))
            && (forall i | 0 <= i < |s.dispatched| && !s.writer.Resolving? :: HasOutcome(iso, first, s, i))
  {
    hide Steps, Exclusion, ReadsOk, Draining, Sequential, OutcomeAt;
    StepsInvariant(iso, first, actions);
    var s := Steps(iso, Start(first), actions).value;
    forall id | id in s.calls && s.calls[id].Returned?
      ensures exists i :: 0 <= i < |s.dispatched| && s.dispatched[i] == Request(id, s.calls[id].command)
                       && s.calls[id].outcome == OutcomeAt(iso, first, s, i)
    {
      var i := ReturnedPlace(iso, first, s, id);
    }
  }

  /** A call that had returned before another began writing comes first in the order, and no future is
      resolved twice. */
  lemma RealTimeOrder(iso: Iso4217, first: Db, before: seq<Action>, later: seq<Action>, one: nat, two: nat, i: nat, j: nat)
    requires Steps(iso, Start(first), before).Some? && Steps(iso, Start(first), before + later).Some?
    requires var s := Steps(iso, Start(first), before).value; one in s.calls && s.calls[one].Returned? && two !in s.calls
    requires var t := Steps(iso, Start(first), before + later).value;
             i < |t.dispatched| && j < |t.dispatched| && t.dispatched[i].call == one && t.dispatched[j].call == two
    ensures i < j
    ensures var s := Steps(iso, Start(first), before).value;
            var t := Steps(iso, Start(first), before + later).value;
            one in s.futures && one in t.futures && t.futures[one] == s.futures[one]
  {
    hide Steps, Exclusion, ReadsOk, Draining, Sequential, HasOutcome, Pending;
    var s := Steps(iso, Start(first), before).value;
    var t := Steps(iso, Start(first), before + later).value;
    StepsInvariant(iso, first, before);
    StepsInvariant(iso, first, before + later);
    StepsConcat(iso, Start(first), before, later);
    StepsExtend(iso, s, later);
    DistinctDispatched(t);
    var k :| 0 <= k < Resolved(s) && s.dispatched[k].call == one;
    assert t.dispatched[k] == s.dispatched[k] && i == k;
    DispatchedIsPut(s);
    assert forall n | 0 <= n < |s.dispatched| :: t.dispatched[n] == s.dispatched[n];
  }

  lemma DispatchedIsPut(s: State)
    requires Owned(s) && InOrder(s)
    ensures forall n | 0 <= n < |s.dispatched| :: s.dispatched[n].call in s.calls
  {
    assert forall n | 0 <= n < |s.dispatched| :: s.dispatched[n] == s.enqueued[n];
  }

  /** A finished read has the load of the store after some number of dispatched commands, no fewer than
      were dispatched when it took the lock, however many were dispatched between its queries. */
  lemma ReadsAreLoads(iso: Iso4217, first: Db, actions: seq<Action>, id: nat)
    requires Steps(iso, Start(first), actions).Some?
    requires var s := Steps(iso, Start(first), actions).value; id in s.calls && s.calls[id].Saw?
    ensures var s := Steps(iso, Start(first), actions).value;
            var c := s.calls[id];
            && c.since <= c.at <= |Reached(s)|
            && c.loaded == Loading.Load(iso, Run(iso, first, MapSeq(Reached(s)[..c.at], CommandOf)), c.code)
  {
    hide Steps, Exclusion, InOrder, Owned, Answered, Draining, Sequential, Run, MapSeq, Loading.Load, Queries.Consistent;
    StepsInvariant(iso, first, actions);
    var s := Steps(iso, Start(first), actions).value;
    assert SawPrefix(iso, first, s, s.calls[id]);
  }

  /** A read that began since `s` took the lock after what `s` had dispatched, and met an open store. */
  ghost predicate NewRead(s: State, c: Call) {
    && (c.Reading? || c.Saw? ==> |Reached(s)| <= c.since)
    && (c.Saw? ==> s.closedAt.None?)
  }

  ghost predicate NewReads(s: State, t: State) {
    forall id | id in t.calls && id !in s.calls :: NewRead(s, t.calls[id])
  }

  lemma StepNewReads(iso: Iso4217, first: Db, s: State, t: State, a: Action)
    requires NewReads(s, t) && Extends(s, t) && Sequential(iso, first, s) && Step(iso, t, a).Some?
    ensures NewReads(s, Step(iso, t, a).value)
  {
    hide WriterStep, CloserStep, Reached, Sequential, Queries.Ask;
    ReachedGrows(iso, first, s, t);
    if a.WriterMoves? {
      WriterFrame(iso, t);
    } else if !IsClient(a) {
      CloserFrame(t, a);
    }
  }

  lemma {:induction false} StepsNewReads(iso: Iso4217, first: Db, s: State, later: seq<Action>)
    requires Sequential(iso, first, s) && Steps(iso, s, later).Some?
    ensures NewReads(s, Steps(iso, s, later).value)
  {
    hide Step, Sequential, NewRead, Extends;
    if later != [] {
      var n := |later| - 1;
      StepsNewReads(iso, first, s, later[..n]);
      StepsExtend(iso, s, later[..n]);
      StepNewReads(iso, first, s, Steps(iso, s, later[..n]).value, later[n]);
    }
  }

  /** A read sees every write that had returned before the read began: the write comes before the cut whose
      load the read has. */
  lemma ReadsSeeEarlierWrites(
    iso: Iso4217, first: Db, before: seq<Action>, later: seq<Action>, write: nat, read: nat)
    returns (i: nat)
    requires Steps(iso, Start(first), before).Some? && Steps(iso, Start(first), before + later).Some?
    requires var s := Steps(iso, Start(first), before).value; write in s.calls && s.calls[write].Returned? && read !in s.calls
    requires var t := Steps(iso, Start(first), before + later).value; read in t.calls && t.calls[read].Saw?
    ensures var s := Steps(iso, Start(first), before).value;
            var t := Steps(iso, Start(first), before + later).value;
            && i < t.calls[read].at <= |Reached(t)|
            && Reached(t)[i] == Request(write, s.calls[write].command)
            && s.calls[write].outcome == OutcomeAt(iso, first, t, i)
  {
    hide Steps, Invariant, Reached, Sequential, OutcomeAt;
    var s := Steps(iso, Start(first), before).value;
    var t := Steps(iso, Start(first), before + later).value;
    StepsInvariant(iso, first, before);
    StepsConcat(iso, Start(first), before, later);
    StepsExtend(iso, s, later);
    InvariantParts(iso, first, s);
    StepsNewReads(iso, first, s, later);
    ReachedGrows(iso, first, s, t);
    ReadsAreLoads(iso, first, before + later, read);
    assert NewRead(s, t.calls[read]);
    i := ReturnedPlace(iso, first, s, write);
    OpenReached(s);
    OutcomeStays(iso, first, s, t, i);
  }

  lemma InvariantParts(iso: Iso4217, first: Db, s: State)
    requires Invariant(iso, first, s)
    ensures InOrder(s) && Owned(s) && Answered(iso, first, s) && Sequential(iso, first, s)
  {
    hide InOrder, Exclusion, Sequential, Owned, Answered, ReadsOk, Draining;
  }

  lemma OpenReached(s: State)
    ensures s.closedAt.None? ==> Reached(s) == s.dispatched
  {}

  /** The place in the order of a call that returned. */
  lemma ReturnedPlace(iso: Iso4217, first: Db, s: State, id: nat) returns (i: nat)
    requires Answered(iso, first, s) && Owned(s) && InOrder(s) && id in s.calls && s.calls[id].Returned?
    ensures i < |s.dispatched| && s.dispatched[i] == Request(id, s.calls[id].command)
    ensures s.calls[id].outcome == OutcomeAt(iso, first, s, i)
  {
    hide OutcomeAt;
    i :| 0 <= i < Resolved(s) && s.dispatched[i].call == id;
    assert HasOutcome(iso, first, s, i);
    assert s.enqueued[i] == s.dispatched[i];
  }

  // ---------- Closing ----------

  /** `t` follows a state `s` in which the close call `k` had just got the lock. */
  ghost predicate SinceLock(s: State, t: State, k: nat) {
    && k in t.closers && t.closers[k].phase != Opening && t.closers[k].at == |s.enqueued|
    && (s.exitedAt.Some? ==> t.exitedAt == s.exitedAt)
    && (s.exitedAt.None? && t.exitedAt.Some? ==> |s.enqueued| <= t.exitedAt.value)
  }

  lemma WriterSinceLock(iso: Iso4217, s: State, t: State, k: nat)
    requires SinceLock(s, t, k) && |s.enqueued| <= |t.enqueued| && Draining(t) && WriterStep(iso, t).Some?
    ensures SinceLock(s, WriterStep(iso, t).value, k)
  {
    hide Test, Get, Dispatch, Resolve, CloserOk;
    WriterFrame(iso, t);
    EndsNow(t);
    GetFrame(t);
    if t.writer.Dispatching? { DispatchFrame(iso, t, t.writer.request); }
    if t.writer.Resolving? { ResolveFrame(t, t.writer.call, t.writer.outcome); }
  }

  lemma EndsNow(t: State)
    ensures Test(t).exitedAt == t.exitedAt || Test(t).exitedAt == Some(|t.enqueued|)
  {}

  lemma CloserSinceLock(s: State, t: State, k: nat, a: Action)
    requires SinceLock(s, t, k) && CloserStep(t, a).Some?
    ensures SinceLock(s, CloserStep(t, a).value, k)
  {
    CloserFrame(t, a);
  }

  lemma StepSinceLock(iso: Iso4217, s: State, t: State, k: nat, a: Action)
    requires SinceLock(s, t, k) && Extends(s, t) && Draining(t) && Step(iso, t, a).Some?
    ensures SinceLock(s, Step(iso, t, a).value, k)
  {
    hide WriterStep, ClientStep, CloserStep, Draining;
    if a.WriterMoves? {
      WriterSinceLock(iso, s, t, k);
    } else if IsClient(a) {
      ClientFrame(iso, t, a);
    } else {
      CloserSinceLock(s, t, k, a);
    }
  }

  lemma {:induction false} StepsSinceLock(iso: Iso4217, first: Db, s: State, k: nat, later: seq<Action>)
    requires Invariant(iso, first, s) && SinceLock(s, s, k) && Steps(iso, s, later).Some?
    ensures SinceLock(s, Steps(iso, s, later).value, k) && Invariant(iso, first, Steps(iso, s, later).value)
  {
    hide Step, SinceLock, Extends, Invariant;
    if later != [] {
      var n := |later| - 1;
      var t := Steps(iso, s, later[..n]).value;
      StepsSinceLock(iso, first, s, k, later[..n]);
      StepsExtend(iso, s, later[..n]);
      InvariantDrains(iso, first, t);
      StepSinceLock(iso, s, t, k, later[n]);
      StepInvariant(iso, first, t, later[n]);
    }
  }

  lemma InvariantDrains(iso: Iso4217, first: Db, s: State)
    requires Invariant(iso, first, s)
    ensures Draining(s) && InOrder(s)
  {
    hide InOrder, Exclusion, Sequential, Owned, Answered, ReadsOk, Draining;
  }

  predicate OnlySentinelsIn(queue: seq<Option<Request>>) {
    forall i | 0 <= i < |queue| :: queue[i].None?
  }

  /** A close call whose join sees the thread end leaves every command dispatched, those whose clients gave up
      included, if and only if at the moment it got the lock the thread was still running or the queue held
      only sentinels. When the stop flag was clear at that moment the thread was still running. */
  lemma JoinDrains(iso: Iso4217, first: Db, before: seq<Action>, k: nat, later: seq<Action>)
    requires Steps(iso, Start(first), before).Some?
    requires Steps(iso, Start(first), before + [TakeLock(k)] + later).Some?
    requires var t := Steps(iso, Start(first), before + [TakeLock(k)] + later).value;
             k in t.closers && Critical(t.closers[k]) && t.closers[k].finished
    ensures var s := Steps(iso, Start(first), before).value;
            var t := Steps(iso, Start(first), before + [TakeLock(k)] + later).value;
            && (t.dispatched == t.enqueued <==> !s.writer.Exited? || OnlySentinelsIn(s.queue))
            && (t.dispatched == t.enqueued <==> OnlySentinelsIn(t.queue))
            && (!s.stop ==> !s.writer.Exited?)
  {
    hide Steps, Invariant, Extends, SinceLock, Draining, InOrder, Critical;
    StepsConcat(iso, Start(first), before + [TakeLock(k)], later);
    StepsAppend(iso, Start(first), before, TakeLock(k));
    var s := Steps(iso, Start(first), before).value;
    var u := Steps(iso, Start(first), before + [TakeLock(k)]).value;
    var t := Steps(iso, Start(first), before + [TakeLock(k)] + later).value;
    StepsInvariant(iso, first, before);
    StepsInvariant(iso, first, before + [TakeLock(k)]);
    InvariantDrains(iso, first, s);
    LockTakenAt(iso, s, k);
    StepsSinceLock(iso, first, u, k, later);
    StepsExtend(iso, u, later);
    InvariantDrains(iso, first, t);
    JoinedSinceLock(s, u, t, k);
  }

  lemma LockTakenAt(iso: Iso4217, s: State, k: nat)
    requires Step(iso, s, TakeLock(k)).Some?
    ensures var u := Step(iso, s, TakeLock(k)).value;
            && SinceLock(u, u, k)
            && u.enqueued == s.enqueued && u.exitedAt == s.exitedAt
  {
    hide WriterStep, ClientStep, Reached;
  }

  lemma JoinedSinceLock(s: State, u: State, t: State, k: nat)
    requires Draining(s) && InOrder(s) && Draining(t) && InOrder(t) && SinceLock(u, t, k) && Extends(u, t)
    requires u.enqueued == s.enqueued && u.exitedAt == s.exitedAt
    requires k in t.closers && Critical(t.closers[k]) && t.closers[k].finished
    ensures t.dispatched == t.enqueued <==> !s.writer.Exited? || OnlySentinelsIn(s.queue)
    ensures t.dispatched == t.enqueued <==> OnlySentinelsIn(t.queue)
    ensures !s.stop ==> !s.writer.Exited?
  {
    hide Requests;
    assert CloserOk(t, t.closers[k]);
    OnlySentinels(s.queue);
    OnlySentinels(t.queue);
    assert t.enqueued == s.enqueued;
    var m := t.exitedAt.value;
    assert t.dispatched == t.enqueued[..m];
    if s.writer.Exited? {
      assert s.dispatched == s.enqueued[..m];
      assert |Requests(s.queue)| == |s.enqueued| - m;
    }
  }

  lemma {:induction false} OnlySentinels(queue: seq<Option<Request>>)
    ensures Requests(queue) == [] <==> OnlySentinelsIn(queue)
  {
    if queue != [] {
      OnlySentinels(queue[1..]);
      assert forall i | 1 <= i < |queue| :: queue[i] == queue[1..][i - 1];
    }
  }

  // ---------- What every runtime serves ----------

  predicate HasCommand(c: Call) { c.Holding? || Submitted(c) }

  /** The commands that callers hand over went through their constructors. */
  predicate ActionsOk(iso: Iso4217, actions: seq<Action>) {
    forall i | 0 <= i < |actions| && actions[i].BeginWrite? :: CommandOk(iso, actions[i].command)
  }

  ghost predicate CallsOk(iso: Iso4217, s: State) {
    forall id | id in s.calls && HasCommand(s.calls[id]) :: CommandOk(iso, s.calls[id].command)
  }

  lemma StepCallsOk(iso: Iso4217, s: State, a: Action)
    requires CallsOk(iso, s) && Step(iso, s, a).Some? && (a.BeginWrite? ==> CommandOk(iso, a.command))
    ensures CallsOk(iso, Step(iso, s, a).value)
  {
    hide WriterStep, CloserStep, CommandOk, Reached;
    if a.WriterMoves? {
      WriterFrame(iso, s);
    } else if !IsClient(a) {
      CloserFrame(s, a);
    }
  }

  lemma {:induction false} StepsCallsOk(iso: Iso4217, first: Db, actions: seq<Action>)
    requires ActionsOk(iso, actions) && Steps(iso, Start(first), actions).Some?
    ensures CallsOk(iso, Steps(iso, Start(first), actions).value)
  {
    hide Step, CommandOk;
    if actions != [] {
      var n := |actions| - 1;
      StepsCallsOk(iso, first, actions[..n]);
      StepCallsOk(iso, Steps(iso, Start(first), actions[..n]).value, actions[n]);
    }
  }

  lemma ReachedOk(iso: Iso4217, s: State)
    requires CallsOk(iso, s) && Owned(s) && InOrder(s)
    ensures CommandsOk(iso, MapSeq(Reached(s), CommandOf))
  {
    hide CommandOk;
    forall i | 0 <= i < |Reached(s)| ensures CommandOk(iso, MapSeq(Reached(s), CommandOf)[i]) {
      assert s.enqueued[i] == Reached(s)[i];
    }
  }

  /** Whatever the interleaving, a runtime over an empty store holds a ledger every book of which is valid and
      balanced, and its audit log replays to its tables. */
  lemma RuntimeSound(iso: Iso4217, actions: seq<Action>)
    requires ActionsOk(iso, actions) && Steps(iso, Start(EMPTY), actions).Some?
    ensures var db := Steps(iso, Start(EMPTY), actions).value.db;
            exists ledger: Ledgers.Ledger ::
              && Ledgers.Represents(db, ledger) && Ledgers.LedgerOk(iso, ledger)
              && (forall code, currency | code in ledger :: Balancing.BookNet(ledger[code].transactions, currency) == 0.0)
    ensures Audit.Faithful(Steps(iso, Start(EMPTY), actions).value.db)
  {
    hide Steps, Ledgers.Represents, Ledgers.LedgerOk, Balancing.BookNet, Audit.Faithful, CommandsOk, Run, Exclusion, Draining,
         Answered, ReadsOk, CallsOk, Owned, InOrder, MapSeq;
    var s := Steps(iso, Start(EMPTY), actions).value;
    StepsInvariant(iso, EMPTY, actions);
    StepsCallsOk(iso, EMPTY, actions);
    ReachedOk(iso, s);
    var commands := MapSeq(Reached(s), CommandOf);
    Refinement.RunRefines(iso, commands);
    Audit.RunFaithful(iso, commands);
    var ledger := Refinement.LedgerRun(commands);
    forall code, currency | code in ledger ensures Balancing.BookNet(ledger[code].transactions, currency) == 0.0 {
      Refinement.StoreBalanced(iso, commands, code, currency);
    }
  }
}
