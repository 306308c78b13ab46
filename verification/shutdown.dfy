/** How long the writer loop runs on after the stop flag, and a close that drains too little. */
module Shutdown {
  import opened Text
  import opened Model
  import opened Schema
  import opened Commands
  import opened Runtime

  // ---------- The loop ends ----------

  /** The steps the writer can still take once the flag is set, if nothing more is put. */
  function Rank(s: State): (r: nat)
    ensures r <= 5 * |s.queue| + 4
    ensures r == 0 <==> s.writer.Exited? || s.writer.Died?
  {
    match s.writer
    case TestStop => 5 * |s.queue| + 2
    case TestEmpty => 5 * |s.queue| + 1
    case Getting => if s.queue == [] then 3 else 5 * |s.queue|
    case Dispatching(_) => 5 * |s.queue| + 4
    case Resolving(_, _) => 5 * |s.queue| + 3
    case Exited => 0
    case Died => 0
  }

  predicate Puts(a: Action) { a.Put? || a.PutSentinel? }

  function CountPuts(actions: seq<Action>): nat {
    if actions == [] then 0 else CountPuts(actions[..|actions| - 1]) + (if Puts(actions[|actions| - 1]) then 1 else 0)
  }

  function CountMoves(actions: seq<Action>): nat {
    if actions == [] then 0
    else CountMoves(actions[..|actions| - 1]) + (if actions[|actions| - 1].WriterMoves? then 1 else 0)
  }

  /** Until it has ended the writer can always move. */
  lemma WriterNeverStuck(iso: Iso4217, first: Db, actions: seq<Action>)
    requires Steps(iso, Start(first), actions).Some?
    ensures Steps(iso, Start(first), actions + [WriterMoves]).Some?
       <==> !Steps(iso, Start(first), actions).value.writer.Exited?
  {
    hide Steps, Get, Dispatch, Resolve, Test;
    StepsAppend(iso, Start(first), actions, WriterMoves);
    WritesAreSequential(iso, first, actions);
  }

  lemma WriterProgress(iso: Iso4217, s: State)
    requires s.stop && WriterStep(iso, s).Some?
    ensures Rank(WriterStep(iso, s).value) < Rank(s) && WriterStep(iso, s).value.stop
  {
    hide Perform;
  }

  lemma RankOfLonger(s: State, t: State)
    requires t.writer == s.writer && |t.queue| <= |s.queue| + 1
    ensures Rank(t) <= Rank(s) + (if |t.queue| > |s.queue| then 5 else 0)
  {}

  lemma OtherStepsCost(iso: Iso4217, s: State, a: Action)
    requires s.stop && Step(iso, s, a).Some? && !a.WriterMoves?
    ensures Rank(Step(iso, s, a).value) <= Rank(s) + (if Puts(a) then 5 else 0)
    ensures Step(iso, s, a).value.stop
  {
    hide WriterStep, ClientStep, Rank;
    if IsClient(a) {
      hide CloserStep;
      ClientFrame(iso, s, a);
    } else {
      CloserFrame(s, a);
      StaysStopped(s, a);
    }
    RankOfLonger(s, Step(iso, s, a).value);
  }

  lemma StaysStopped(s: State, a: Action)
    requires s.stop && CloserStep(s, a).Some?
    ensures CloserStep(s, a).value.stop
  {}

  /** Each move of the writer pays one; each put brings five. */
  lemma {:induction false} MovesAreBounded(iso: Iso4217, s: State, actions: seq<Action>)
    requires s.stop && Steps(iso, s, actions).Some?
    ensures var t := Steps(iso, s, actions).value;
            t.stop && CountMoves(actions) + Rank(t) <= Rank(s) + 5 * CountPuts(actions)
  {
    hide Step, Rank;
    if actions != [] {
      var n := |actions| - 1;
      MovesAreBounded(iso, s, actions[..n]);
      var t := Steps(iso, s, actions[..n]).value;
      if actions[n].WriterMoves? {
        StepIsWriter(iso, t);
        WriterProgress(iso, t);
      } else {
        OtherStepsCost(iso, t, actions[n]);
      }
    }
  }

  lemma StepIsWriter(iso: Iso4217, s: State)
    ensures Step(iso, s, WriterMoves) == WriterStep(iso, s)
  {}

  /** Once the flag is set the writer moves at most five times for each item queued then or put later, and four
      times more; a writer that has moved so often has ended. */
  lemma LoopEndsInBound(iso: Iso4217, first: Db, before: seq<Action>, later: seq<Action>)
    requires Steps(iso, Start(first), before).Some? && Steps(iso, Start(first), before).value.stop
    requires Steps(iso, Start(first), before + later).Some?
    ensures var bound := 5 * (|Steps(iso, Start(first), before).value.queue| + CountPuts(later)) + 4;
            && CountMoves(later) <= bound
            && (CountMoves(later) == bound ==> Steps(iso, Start(first), before + later).value.writer.Exited?)
  {
    hide Steps, Rank;
    StepsConcat(iso, Start(first), before, later);
    MovesAreBounded(iso, Steps(iso, Start(first), before).value, later);
    WritesAreSequential(iso, first, before + later);
  }

  // ---------- What closing leaves ----------

  /** A closed store refuses every command that a constructor would let through, but for a draft, which is
      refused for being one. */
  lemma ClosedRefuses(iso: Iso4217, c: Command)
    requires CommandOk(iso, c)
    ensures ClosedOutcome(c)
         == Raised(if c.AppendTransactionCommand? && c.transaction.state != Posted then NotPostedError else StoreClosed)
  {
    hide ChartOk, EntriesOk, EntryOk, PeriodsOk, PostedToChart, PeriodsKnown;
  }

  lemma StepWhenClosed(iso: Iso4217, s: State, a: Action)
    requires s.closedAt.Some? && Step(iso, s, a).Some?
    ensures Step(iso, s, a).value.closedAt == s.closedAt && Step(iso, s, a).value.db == s.db
  {
    hide Apply, ClosedOutcome, ClientStep, CloserStep;
    if IsClient(a) {
      ClientFrame(iso, s, a);
    } else if a.WriterMoves? {
      WriterFrame(iso, s);
    } else {
      CloserFrame(s, a);
    }
  }

  /** Nothing reaches a closed store. */
  lemma {:induction false} ClosedStoreStays(iso: Iso4217, s: State, later: seq<Action>)
    requires s.closedAt.Some? && Steps(iso, s, later).Some?
    ensures Steps(iso, s, later).value.closedAt == s.closedAt && Steps(iso, s, later).value.db == s.db
  {
    hide Step;
    if later != [] {
      ClosedStoreStays(iso, s, later[..|later| - 1]);
      StepWhenClosed(iso, Steps(iso, s, later[..|later| - 1]).value, later[|later| - 1]);
    }
  }

  /** A close call that is over, and a runtime that is not started, have a closed store. */
  ghost predicate OverIsClosed(s: State) {
    && (!s.started ==> s.closedAt.Some?)
    && forall k | k in s.closers && (s.closers[k].phase == Shut || s.closers[k].phase == Ended) :: s.closedAt.Some?
  }

  lemma StepOverIsClosed(iso: Iso4217, s: State, a: Action)
    requires OverIsClosed(s) && Step(iso, s, a).Some?
    ensures OverIsClosed(Step(iso, s, a).value)
  {
    hide WriterStep, ClientStep;
    if a.WriterMoves? {
      WriterFrame(iso, s);
    } else if IsClient(a) {
      ClientFrame(iso, s, a);
    }
  }

  lemma {:induction false} CloseCloses(iso: Iso4217, first: Db, actions: seq<Action>)
    requires Steps(iso, Start(first), actions).Some?
    ensures OverIsClosed(Steps(iso, Start(first), actions).value)
  {
    hide Step;
    if actions != [] {
      CloseCloses(iso, first, actions[..|actions| - 1]);
      StepOverIsClosed(iso, Steps(iso, Start(first), actions[..|actions| - 1]).value, actions[|actions| - 1]);
    }
  }

  // ---------- Closing can be done ----------

  lemma CanTakeLock(iso: Iso4217, s: State, k: nat)
    requires InPhase(s, k, Opening) && s.holder.None? && s.readers == {}
    ensures var t := Step(iso, s, TakeLock(k));
            t.Some? && InPhase(t.value, k, LockTaken) && t.value.writer == s.writer
  {
    hide WriterStep, ClientStep;
  }

  lemma CanSetFlag(iso: Iso4217, s: State, k: nat)
    requires InPhase(s, k, LockTaken)
    ensures var t := Step(iso, s, SetStop(k));
            t.Some? && InPhase(t.value, k, Stopped) && t.value.stop && t.value.writer == s.writer
  {
    hide WriterStep, ClientStep;
  }

  lemma CanPutSentinel(iso: Iso4217, s: State, k: nat)
    requires InPhase(s, k, Stopped) && s.stop
    ensures var t := Step(iso, s, PutSentinel(k));
            t.Some? && InPhase(t.value, k, Joining) && t.value.stop && t.value.writer == s.writer
  {
    hide WriterStep, ClientStep;
  }

  lemma CanJoinAndShut(iso: Iso4217, s: State, k: nat)
    requires InPhase(s, k, Joining) && s.writer.Exited?
    ensures var t := Step(iso, s, JoinReturns(k));
            && t.Some? && InPhase(t.value, k, Joined) && t.value.closers[k].finished
            && var u := Step(iso, t.value, CloseStore(k));
               u.Some? && InPhase(u.value, k, Shut) && u.value.closers[k].finished && u.value.closedAt.Some?
  {
    hide WriterStep, ClientStep;
  }

  lemma CanRelease(iso: Iso4217, s: State, k: nat)
    requires InPhase(s, k, Shut) && s.closers[k].finished && s.closedAt.Some?
    ensures var t := Step(iso, s, ReleaseLock(k));
            && t.Some? && InPhase(t.value, k, Ended) && t.value.closers[k].finished
            && t.value.closedAt.Some? && !t.value.started && t.value.holder.None?
  {
    hide WriterStep, ClientStep;
  }

  /** With the flag set the writer alone can go on to its end. */
  lemma {:induction false} CanDrain(iso: Iso4217, first: Db, actions: seq<Action>) returns (more: seq<Action>)
    requires Steps(iso, Start(first), actions).Some? && Steps(iso, Start(first), actions).value.stop
    ensures var t := Steps(iso, Start(first), actions + more);
            && t.Some? && t.value.writer.Exited?
            && t.value.closers == Steps(iso, Start(first), actions).value.closers
    decreases Rank(Steps(iso, Start(first), actions).value)
  {
    hide Steps, Step, WriterStep, Rank;
    var s := Steps(iso, Start(first), actions).value;
    WritesAreSequential(iso, first, actions);
    if s.writer.Exited? {
      more := [];
      assert actions + more == actions;
    } else {
      WriterNeverStuck(iso, first, actions);
      StepsAppend(iso, Start(first), actions, WriterMoves);
      StepIsWriter(iso, s);
      WriterProgress(iso, s);
      WriterFrame(iso, s);
      var rest := CanDrain(iso, first, actions + [WriterMoves]);
      more := [WriterMoves] + rest;
      assert actions + more == actions + [WriterMoves] + rest;
    }
  }

  /** A close call that can get the lock can close: it waits for the writer to drain, closes the store, ends the
      runtime and gives the lock back. */
  lemma CanClose(iso: Iso4217, first: Db, actions: seq<Action>, k: nat) returns (more: seq<Action>)
    requires Steps(iso, Start(first), actions).Some?
    requires var s := Steps(iso, Start(first), actions).value; InPhase(s, k, Opening) && s.holder.None? && s.readers == {}
    ensures var t := Steps(iso, Start(first), actions + more);
            && t.Some? && InPhase(t.value, k, Ended) && t.value.closers[k].finished
            && t.value.closedAt.Some? && !t.value.started && t.value.holder.None? && t.value.writer.Exited?
  {
    hide Steps, Step, InPhase, Invariant;
    var s := Steps(iso, Start(first), actions).value;
    var locked := actions + [TakeLock(k)];
    var stopped := locked + [SetStop(k)];
    var put := stopped + [PutSentinel(k)];
    CanTakeLock(iso, s, k);
    StepsAppend(iso, Start(first), actions, TakeLock(k));
    CanSetFlag(iso, Steps(iso, Start(first), locked).value, k);
    StepsAppend(iso, Start(first), locked, SetStop(k));
    CanPutSentinel(iso, Steps(iso, Start(first), stopped).value, k);
    StepsAppend(iso, Start(first), stopped, PutSentinel(k));
    var drain := CanDrain(iso, first, put);
    more := CloseDrained(iso, first, put + drain, k, Steps(iso, Start(first), put).value);
    more := [TakeLock(k), SetStop(k), PutSentinel(k)] + drain + more;
    assert actions + more == put + drain + [JoinReturns(k), CloseStore(k), ReleaseLock(k)];
  }

  lemma CloseDrained(iso: Iso4217, first: Db, drained: seq<Action>, k: nat, before: State) returns (more: seq<Action>)
    requires Steps(iso, Start(first), drained).Some? && Steps(iso, Start(first), drained).value.writer.Exited?
    requires InPhase(before, k, Joining) && Steps(iso, Start(first), drained).value.closers == before.closers
    ensures more == [JoinReturns(k), CloseStore(k), ReleaseLock(k)]
    ensures var t := Steps(iso, Start(first), drained + more);
            && t.Some? && InPhase(t.value, k, Ended) && t.value.closers[k].finished
            && t.value.closedAt.Some? && !t.value.started && t.value.holder.None? && t.value.writer.Exited?
  {
    more := [JoinReturns(k), CloseStore(k), ReleaseLock(k)];
    SameCloser(before, Steps(iso, Start(first), drained).value, k);
    hide Steps, Step, InPhase;
    var s := Steps(iso, Start(first), drained).value;
    CanJoinAndShut(iso, s, k);
    StepsAppend(iso, Start(first), drained, JoinReturns(k));
    StepsAppend(iso, Start(first), drained + [JoinReturns(k)], CloseStore(k));
    StepsAppend(iso, Start(first), drained + [JoinReturns(k)] + [CloseStore(k)], ReleaseLock(k));
    var shut := Steps(iso, Start(first), drained + [JoinReturns(k)] + [CloseStore(k)]).value;
    CanRelease(iso, shut, k);
    StaysExited(iso, s, JoinReturns(k));
    StaysExited(iso, Step(iso, s, JoinReturns(k)).value, CloseStore(k));
    StaysExited(iso, shut, ReleaseLock(k));
    assert drained + more == drained + [JoinReturns(k)] + [CloseStore(k)] + [ReleaseLock(k)];
  }

  lemma SameCloser(s: State, t: State, k: nat)
    requires InPhase(s, k, Joining) && t.closers == s.closers
    ensures InPhase(t, k, Joining)
  {}

  lemma StaysExited(iso: Iso4217, s: State, a: Action)
    requires Step(iso, s, a).Some? && !a.WriterMoves? && !IsClient(a)
    ensures Step(iso, s, a).value.writer == s.writer
  {
    hide CloserStep, ClientStep, WriterStep;
    CloserFrame(s, a);
  }

  // ---------- A second close ----------

  /** Two calls pass the check that the runtime is started; the first closes it. */
  const FIRST_CLOSE: seq<Action> := [
    BeginClose(1), BeginClose(2), TakeLock(1), SetStop(1), WriterMoves, WriterMoves, PutSentinel(1), JoinReturns(1),
    CloseStore(1), ReleaseLock(1)]

  /** A client still gets its command in and gives up; then the second call goes through. */
  function SecondClose(c: Command): seq<Action> {
    [BeginWrite(3, c), Put(3), GiveUp(3), TakeLock(2), SetStop(2), PutSentinel(2), JoinReturns(2)]
  }

  /** No call has been made; two close calls passed the check. */
  function Closing(first: Db, one: Closer, holder: Option<nat>): State {
    Start(first).(closers := map[1 := one, 2 := Closer(Opening, 0, false)], holder := holder)
  }

  function Stopping(first: Db, one: Closer, queue: seq<Option<Request>>): State {
    Closing(first, one, Some(1)).(stop := true, stoppedAt := Some(0), writer := Exited, exitedAt := Some(0), queue := queue)
  }

  function AfterFirstClose(first: Db): State {
    Stopping(first, Closer(Ended, 0, true), [None]).(closedAt := Some(0), started := false, holder := None)
  }

  lemma OpenBoth(iso: Iso4217, first: Db)
    ensures Steps(iso, Start(first), [BeginClose(1), BeginClose(2)])
         == Some(Closing(first, Closer(Opening, 0, false), None))
  {
    hide WriterStep, ClientStep, Steps;
    TwoSteps(iso, Start(first), BeginClose(1), BeginClose(2));
  }

  lemma Restate(x: Closer, y: Closer, z: Closer)
    ensures map[1 := x, 2 := y][1 := z] == map[1 := z, 2 := y]
    ensures map[1 := x, 2 := y][2 := z] == map[1 := x, 2 := z]
  {}

  lemma LockAndStop(iso: Iso4217, first: Db)
    ensures Steps(iso, Closing(first, Closer(Opening, 0, false), None), [TakeLock(1), SetStop(1)])
         == Some(Closing(first, Closer(Stopped, 0, false), Some(1)).(stop := true, stoppedAt := Some(0)))
  {
    hide WriterStep, ClientStep, Steps;
    var waiting := Closer(Opening, 0, false);
    TwoSteps(iso, Closing(first, waiting, None), TakeLock(1), SetStop(1));
    Restate(waiting, waiting, Closer(LockTaken, 0, false));
    Restate(Closer(LockTaken, 0, false), waiting, Closer(Stopped, 0, false));
  }

  lemma LoopEnds(iso: Iso4217, first: Db)
    ensures Steps(iso, Closing(first, Closer(Stopped, 0, false), Some(1)).(stop := true, stoppedAt := Some(0)),
                  [WriterMoves, WriterMoves])
         == Some(Stopping(first, Closer(Stopped, 0, false), []))
  {
    hide CloserStep, ClientStep, Steps, Get, Dispatch, Resolve;
    TwoSteps(iso, Closing(first, Closer(Stopped, 0, false), Some(1)).(stop := true, stoppedAt := Some(0)),
             WriterMoves, WriterMoves);
  }

  /** One step of the first close call, from one phase to the next. */
  lemma FirstPhase(iso: Iso4217, s: State, one: Closer, next: Closer, a: Action)
    requires s.closers == map[1 := one, 2 := Closer(Opening, 0, false)]
    requires (a == PutSentinel(1) && one.phase == Stopped && next == one.(phase := Joining))
          || (a == JoinReturns(1) && one.phase == Joining && s.writer.Exited? && next == one.(phase := Joined, finished := true))
          || (a == CloseStore(1) && one.phase == Joined && next == one.(phase := Shut))
          || (a == ReleaseLock(1) && one.phase == Shut && next == one.(phase := Ended))
    ensures Step(iso, s, a) == CloserStep(s, a) && CloserStep(s, a).Some?
    ensures CloserStep(s, a).value.closers == map[1 := next, 2 := Closer(Opening, 0, false)]
  {
    Restate(one, Closer(Opening, 0, false), next);
  }

  lemma JoinFirst(iso: Iso4217, first: Db)
    ensures Steps(iso, Stopping(first, Closer(Stopped, 0, false), []), [PutSentinel(1), JoinReturns(1)])
         == Some(Stopping(first, Closer(Joined, 0, true), [None]))
  {
    hide Step, Steps;
    var s := Stopping(first, Closer(Stopped, 0, false), []);
    var t := Stopping(first, Closer(Joining, 0, false), [None]);
    TwoSteps(iso, s, PutSentinel(1), JoinReturns(1));
    assert [] + [Option<Request>.None] == [None];
    FirstPhase(iso, s, Closer(Stopped, 0, false), Closer(Joining, 0, false), PutSentinel(1));
    assert Step(iso, s, PutSentinel(1)) == Some(t);
    FirstPhase(iso, t, Closer(Joining, 0, false), Closer(Joined, 0, true), JoinReturns(1));
  }

  lemma LeaveFirst(iso: Iso4217, first: Db)
    ensures Steps(iso, Stopping(first, Closer(Joined, 0, true), [None]), [CloseStore(1), ReleaseLock(1)])
         == Some(AfterFirstClose(first))
  {
    hide Step, Steps;
    var s := Stopping(first, Closer(Joined, 0, true), [None]);
    var t := Stopping(first, Closer(Shut, 0, true), [None]).(closedAt := Some(0));
    TwoSteps(iso, s, CloseStore(1), ReleaseLock(1));
    FirstPhase(iso, s, Closer(Joined, 0, true), Closer(Shut, 0, true), CloseStore(1));
    assert Step(iso, s, CloseStore(1)) == Some(t);
    FirstPhase(iso, t, Closer(Shut, 0, true), Closer(Ended, 0, true), ReleaseLock(1));
  }

  lemma FirstCloseRuns(iso: Iso4217, first: Db)
    ensures Steps(iso, Start(first), FIRST_CLOSE) == Some(AfterFirstClose(first))
  {
    hide Steps, Step;
    OpenBoth(iso, first);
    LockAndStop(iso, first);
    LoopEnds(iso, first);
    JoinFirst(iso, first);
    LeaveFirst(iso, first);
    var begun := [BeginClose(1), BeginClose(2)];
    var stopped := begun + [TakeLock(1), SetStop(1)];
    var ended := stopped + [WriterMoves, WriterMoves];
    var joined := ended + [PutSentinel(1), JoinReturns(1)];
    StepsConcat(iso, Start(first), begun, [TakeLock(1), SetStop(1)]);
    StepsConcat(iso, Start(first), stopped, [WriterMoves, WriterMoves]);
    StepsConcat(iso, Start(first), ended, [PutSentinel(1), JoinReturns(1)]);
    StepsConcat(iso, Start(first), joined, [CloseStore(1), ReleaseLock(1)]);
    assert FIRST_CLOSE == joined + [CloseStore(1), ReleaseLock(1)];
  }

  lemma TwoSteps(iso: Iso4217, s: State, a: Action, b: Action)
    ensures Steps(iso, s, [a, b])
         == match Step(iso, s, a) case None => None case Some(t) => Step(iso, t, b)
  {
    hide Step;
    assert [a] + [b] == [a, b] && [] + [a] == [a];
    StepsAppend(iso, s, [a], b);
    StepsAppend(iso, s, [], a);
  }

  function Overdue(first: Db, c: Command, call: Call, second: Closer): State {
    AfterFirstClose(first).(
      calls := map[3 := call], queue := [None, Some(Request(3, c))], enqueued := [Request(3, c)],
      closers := map[1 := Closer(Ended, 0, true), 2 := second])
  }

  lemma PutLate(iso: Iso4217, first: Db, c: Command)
    ensures Steps(iso, AfterFirstClose(first), [BeginWrite(3, c), Put(3)])
         == Some(Overdue(first, c, Waiting(c), Closer(Opening, 0, false)).(readers := {3}))
  {
    hide WriterStep, CloserStep, Steps;
    TwoSteps(iso, AfterFirstClose(first), BeginWrite(3, c), Put(3));
    assert map[3 := Holding(c)][3 := Waiting(c)] == map[3 := Waiting(c)] && {} + {3} == {3};
    assert [None] + [Some(Request(3, c))] == [None, Some(Request(3, c))] && [] + [Request(3, c)] == [Request(3, c)];
  }

  lemma GiveUpLate(iso: Iso4217, first: Db, c: Command)
    ensures var s := Overdue(first, c, Waiting(c), Closer(Opening, 0, false));
            Step(iso, s.(readers := {3}), GiveUp(3)) == Some(s.(calls := map[3 := TimedOut(c)]))
  {
    hide WriterStep, CloserStep, NextQuery, FirstQuery;
    assert map[3 := Waiting(c)][3 := TimedOut(c)] == map[3 := TimedOut(c)] && {3} - {3} == {};
  }

  lemma GiveUpAndLock(iso: Iso4217, first: Db, c: Command)
    ensures Steps(iso, Overdue(first, c, Waiting(c), Closer(Opening, 0, false)).(readers := {3}),
                  [GiveUp(3), TakeLock(2)])
         == Some(Overdue(first, c, TimedOut(c), Closer(LockTaken, 1, false)).(holder := Some(2)))
  {
    hide WriterStep, ClientStep, Steps;
    var s := Overdue(first, c, Waiting(c), Closer(Opening, 0, false)).(readers := {3});
    GiveUpLate(iso, first, c);
    TwoSteps(iso, s, GiveUp(3), TakeLock(2));
    Restate(Closer(Ended, 0, true), Closer(Opening, 0, false), Closer(LockTaken, 1, false));
  }

  lemma StopAgain(iso: Iso4217, first: Db, c: Command)
    ensures var s := Overdue(first, c, TimedOut(c), Closer(LockTaken, 1, false)).(holder := Some(2));
            var t := Overdue(first, c, TimedOut(c), Closer(Joining, 1, false)).(holder := Some(2));
            Steps(iso, s, [SetStop(2), PutSentinel(2)]) == Some(t.(queue := t.queue + [None]))
  {
    hide WriterStep, ClientStep, Steps;
    var s := Overdue(first, c, TimedOut(c), Closer(LockTaken, 1, false)).(holder := Some(2));
    TwoSteps(iso, s, SetStop(2), PutSentinel(2));
    Restate(Closer(Ended, 0, true), Closer(LockTaken, 1, false), Closer(Stopped, 1, false));
    Restate(Closer(Ended, 0, true), Closer(Stopped, 1, false), Closer(Joining, 1, false));
  }

  /** The second close call joins at once, with a command in the queue that nobody will dispatch. */
  lemma SecondCloseLosesCommand(iso: Iso4217, first: Db, c: Command)
    ensures var end := Steps(iso, Start(first), FIRST_CLOSE + SecondClose(c));
            && end.Some? && end.value.writer.Exited? && 2 in end.value.closers
            && Critical(end.value.closers[2]) && end.value.closers[2].finished
            && end.value.enqueued == [Request(3, c)] && end.value.dispatched == []
  {
    hide Steps, WriterStep, ClientStep;
    FirstCloseRuns(iso, first);
    PutLate(iso, first, c);
    GiveUpAndLock(iso, first, c);
    StopAgain(iso, first, c);
    var put := FIRST_CLOSE + [BeginWrite(3, c), Put(3)];
    var locked := put + [GiveUp(3), TakeLock(2)];
    var stopped := locked + [SetStop(2), PutSentinel(2)];
    StepsConcat(iso, Start(first), FIRST_CLOSE, [BeginWrite(3, c), Put(3)]);
    StepsConcat(iso, Start(first), put, [GiveUp(3), TakeLock(2)]);
    StepsConcat(iso, Start(first), locked, [SetStop(2), PutSentinel(2)]);
    StepsAppend(iso, Start(first), stopped, JoinReturns(2));
    assert FIRST_CLOSE + SecondClose(c) == stopped + [JoinReturns(2)];
  }

  // ---------- Closing can time out ----------

  /** A close call can fail to get the lock, which changes nothing else; and its join can time out, after which it
      still closes the store. */
  lemma CloseCanTimeOut(iso: Iso4217, s: State, k: nat)
    ensures InPhase(s, k, Opening) ==> Step(iso, s, RefuseClose(k)) == Some(ToPhase(s, k, LockTimedOut))
    ensures InPhase(s, k, Joining) ==>
              var t := Step(iso, s, JoinTimesOut(k));
              && t == Some(ToPhase(s, k, Joined))
              && var u := Step(iso, t.value, CloseStore(k));
                 u.Some? && u.value.closedAt.Some? && u.value.writer == s.writer && InPhase(u.value, k, Shut)
  {
    hide WriterStep, ClientStep;
  }
}
