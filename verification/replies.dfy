/** What callers get: results that are there are returned, waiting calls can return, and commands are those
    that callers handed in. */
module Replies {
  import opened Text
  import opened Model
  import opened Schema
  import opened Runtime
  import opened Shutdown

  // ---------- Taking a result ----------

  /** A waiting call whose future is resolved returns, with the outcome of its own command at its own place in
      the order. */
  lemma ResolvedCallReturns(iso: Iso4217, first: Db, actions: seq<Action>, id: nat) returns (i: nat)
    requires Steps(iso, Start(first), actions).Some?
    requires var s := Steps(iso, Start(first), actions).value; id in s.calls && s.calls[id].Waiting? && id in s.futures
    ensures var s := Steps(iso, Start(first), actions).value;
            var t := Steps(iso, Start(first), actions + [TakeResult(id)]);
            && i < |s.dispatched| && s.dispatched[i] == Request(id, s.calls[id].command)
            && t.Some? && id in t.value.calls
            && t.value.calls[id] == Returned(s.calls[id].command, OutcomeAt(iso, first, s, i))
  {
    hide Steps, Step, Invariant, OutcomeAt;
    var s := Steps(iso, Start(first), actions).value;
    StepsInvariant(iso, first, actions);
    InvariantParts(iso, first, s);
    StepsAppend(iso, Start(first), actions, TakeResult(id));
    TakesResult(iso, s, id);
    i := ResolvedPlace(iso, first, s, id);
  }

  lemma TakesResult(iso: Iso4217, s: State, id: nat)
    requires id in s.calls && s.calls[id].Waiting? && id in s.futures
    ensures var t := Step(iso, s, TakeResult(id));
            t.Some? && id in t.value.calls && t.value.calls[id] == Returned(s.calls[id].command, s.futures[id])
  {
    hide WriterStep, CloserStep;
  }

  /** The place in the order of a resolved future. */
  lemma ResolvedPlace(iso: Iso4217, first: Db, s: State, id: nat) returns (i: nat)
    requires Answered(iso, first, s) && Owned(s) && InOrder(s) && id in s.calls && Submitted(s.calls[id]) && id in s.futures
    ensures i < |s.dispatched| && s.dispatched[i] == Request(id, s.calls[id].command)
    ensures s.futures[id] == OutcomeAt(iso, first, s, i)
  {
    hide OutcomeAt;
    i :| 0 <= i < Resolved(s) && s.dispatched[i].call == id;
    assert HasOutcome(iso, first, s, i);
    assert s.enqueued[i] == s.dispatched[i];
  }

  /** Only giving up makes a call time out, only taking its result makes it return, and only a query of its
      own ends a read. */
  lemma CallEnds(iso: Iso4217, s: State, a: Action, id: nat)
    requires Step(iso, s, a).Some? && id in Step(iso, s, a).value.calls
    ensures var c := Step(iso, s, a).value.calls[id];
            id !in s.calls || c != s.calls[id] ==>
              && (c.TimedOut? ==> a == GiveUp(id))
              && (c.Returned? ==> a == TakeResult(id))
              && (c.Saw? || c.ReadFailed? ==> a == Look(id))
              && (c.Refused? ==> a == Refuse(id))
  {
    hide WriterStep, CloserStep, NextQuery;
    if a.WriterMoves? {
      WriterFrame(iso, s);
    } else if IsClient(a) {
      ClientFrame(iso, s, a);
    } else {
      CloserFrame(s, a);
    }
  }

  // ---------- Commands are the callers' own ----------

  /** What a call carries is what its caller began it with. */
  ghost predicate Begun(c: Call, id: nat, actions: seq<Action>) {
    && (HasCommand(c) ==> BeginWrite(id, c.command) in actions)
    && (c.Reading? || c.Saw? ==> BeginRead(id, c.code) in actions)
  }

  lemma StepBegun(iso: Iso4217, s: State, a: Action, id: nat, actions: seq<Action>)
    requires Step(iso, s, a).Some? && id in Step(iso, s, a).value.calls
    requires id in s.calls ==> Begun(s.calls[id], id, actions)
    ensures Begun(Step(iso, s, a).value.calls[id], id, actions + [a])
  {
    hide WriterStep, CloserStep, Queries.Ask, Reached;
    if a.WriterMoves? {
      WriterFrame(iso, s);
    } else if IsClient(a) {
      ClientFrame(iso, s, a);
    } else {
      CloserFrame(s, a);
    }
  }

  lemma {:induction false} CallsAreBegun(iso: Iso4217, first: Db, actions: seq<Action>, id: nat)
    requires Steps(iso, Start(first), actions).Some? && id in Steps(iso, Start(first), actions).value.calls
    ensures Begun(Steps(iso, Start(first), actions).value.calls[id], id, actions)
  {
    hide Step, Begun;
    if actions != [] {
      var n := |actions| - 1;
      var s := Steps(iso, Start(first), actions[..n]).value;
      if id in s.calls { CallsAreBegun(iso, first, actions[..n], id); }
      StepBegun(iso, s, actions[n], id, actions[..n]);
      assert actions == actions[..n] + [actions[n]];
    }
  }

  /** Every command dispatched was handed in by the caller whose future it resolves. */
  lemma DispatchedAsBegun(iso: Iso4217, first: Db, actions: seq<Action>, i: nat)
    requires Steps(iso, Start(first), actions).Some? && i < |Steps(iso, Start(first), actions).value.dispatched|
    ensures var r := Steps(iso, Start(first), actions).value.dispatched[i]; BeginWrite(r.call, r.command) in actions
  {
    hide Steps, Invariant;
    var s := Steps(iso, Start(first), actions).value;
    StepsInvariant(iso, first, actions);
    InvariantParts(iso, first, s);
    assert s.dispatched[i] == s.enqueued[i];
    CallsAreBegun(iso, first, actions, s.dispatched[i].call);
  }

  // ---------- Waiting calls can return ----------

  lemma DispatchedIsResolved(iso: Iso4217, first: Db, s: State)
    requires Answered(iso, first, s) && !s.writer.Resolving?
    ensures forall r | r in s.dispatched :: r.call in s.futures
  {
    hide OutcomeAt;
    forall i | 0 <= i < |s.dispatched| ensures s.dispatched[i].call in s.futures {
      assert HasOutcome(iso, first, s, i);
    }
  }

  /** A call that waits without a result has its command queued, in hand or being resolved. */
  lemma WaitingHasWork(iso: Iso4217, first: Db, s: State, id: nat)
    requires Invariant(iso, first, s) && id in s.calls && s.calls[id].Waiting? && id !in s.futures
    ensures s.writer.Dispatching? || s.writer.Resolving? || s.queue != []
  {
    hide Exclusion, Sequential, ReadsOk, Draining, Answered;
    if !s.writer.Resolving? { DispatchedIsResolved(iso, first, s); }
    assert Request(id, s.calls[id].command) in s.enqueued;
  }

  /** While there is work every step of the writer counts, flag or no flag. */
  lemma WorkProgress(iso: Iso4217, s: State)
    requires s.writer.Dispatching? || s.writer.Resolving? || s.queue != []
    requires !s.writer.Exited? && !s.writer.Died?
    ensures WriterStep(iso, s).Some? && Rank(WriterStep(iso, s).value) < Rank(s)
    ensures !WriterStep(iso, s).value.writer.Exited?
  {
    hide Perform;
  }

  /** A call that waits for a writer that has not ended can return: after some further steps of the writer
      alone it takes its result. */
  lemma {:induction false} WaitingCanReturn(iso: Iso4217, first: Db, actions: seq<Action>, id: nat) returns (more: seq<Action>)
    requires Steps(iso, Start(first), actions).Some?
    requires var s := Steps(iso, Start(first), actions).value;
             id in s.calls && s.calls[id].Waiting? && (id in s.futures || !s.writer.Exited?)
    ensures var t := Steps(iso, Start(first), actions + more);
            t.Some? && id in t.value.calls && t.value.calls[id].Returned?
    decreases Rank(Steps(iso, Start(first), actions).value)
  {
    hide Steps, Invariant, WriterStep, CloserStep, Rank;
    var s := Steps(iso, Start(first), actions).value;
    if id in s.futures {
      var i := ResolvedCallReturns(iso, first, actions, id);
      more := [TakeResult(id)];
    } else {
      StepsInvariant(iso, first, actions);
      WaitingHasWork(iso, first, s, id);
      Alive(iso, first, s);
      WorkProgress(iso, s);
      WriterFrame(iso, s);
      StepsAppend(iso, Start(first), actions, WriterMoves);
      var rest := WaitingCanReturn(iso, first, actions + [WriterMoves], id);
      more := [WriterMoves] + rest;
      assert actions + more == actions + [WriterMoves] + rest;
    }
  }

  lemma Alive(iso: Iso4217, first: Db, s: State)
    requires Invariant(iso, first, s)
    ensures !s.writer.Died?
  {
    hide InOrder, Exclusion, Sequential, Owned, ReadsOk, Draining, Pending, HasOutcome;
  }

  lemma StepAfterExit(iso: Iso4217, s: State, a: Action)
    requires s.writer.Exited? && Step(iso, s, a).Some?
    ensures Step(iso, s, a).value.writer.Exited? && Step(iso, s, a).value.futures == s.futures
  {
    hide ClientStep, CloserStep;
    if IsClient(a) {
      ClientFrame(iso, s, a);
    } else if !a.WriterMoves? {
      CloserFrame(s, a);
    }
  }

  /** Once the writer has ended no future is resolved any more, so a call without a result never returns. */
  lemma {:induction false} NoResultAfterExit(iso: Iso4217, s: State, later: seq<Action>)
    requires s.writer.Exited? && Steps(iso, s, later).Some?
    ensures Steps(iso, s, later).value.writer.Exited? && Steps(iso, s, later).value.futures == s.futures
  {
    hide Step;
    if later != [] {
      NoResultAfterExit(iso, s, later[..|later| - 1]);
      StepAfterExit(iso, Steps(iso, s, later[..|later| - 1]).value, later[|later| - 1]);
    }
  }

  /** An unfinished read on an open store can finish, query by query. */
  lemma {:induction false} ReadCanFinish(iso: Iso4217, first: Db, actions: seq<Action>, id: nat) returns (more: seq<Action>)
    requires Steps(iso, Start(first), actions).Some?
    requires var s := Steps(iso, Start(first), actions).value; id in s.calls && s.calls[id].Reading? && s.closedAt.None?
    ensures var s := Steps(iso, Start(first), actions).value;
            var t := Steps(iso, Start(first), actions + more);
            t.Some? && id in t.value.calls && t.value.calls[id].Saw? && t.value.calls[id].code == s.calls[id].code
    decreases var s := Steps(iso, Start(first), actions).value;
              Queries.QueriesLeft(s.db, s.calls[id].code, s.calls[id].query)
  {
    hide Steps, Invariant, WriterStep, CloserStep, Queries.QueriesLeft, Queries.Ask, Reached;
    var s := Steps(iso, Start(first), actions).value;
    StepsInvariant(iso, first, actions);
    ReadIsUnfinished(iso, first, s, id);
    var c := s.calls[id];
    Queries.AskProgress(iso, s.db, c.code, c.query);
    StepsAppend(iso, Start(first), actions, Look(id));
    ClientFrame(iso, s, Look(id));
    if Queries.Ask(iso, s.db, c.code, c.query).Answered? {
      more := [Look(id)];
    } else {
      var rest := ReadCanFinish(iso, first, actions + [Look(id)], id);
      more := [Look(id)] + rest;
      assert actions + more == actions + [Look(id)] + rest;
    }
  }

  lemma ReadIsUnfinished(iso: Iso4217, first: Db, s: State, id: nat)
    requires Invariant(iso, first, s) && id in s.calls
    ensures s.calls[id].Reading? ==> Queries.Unfinished(s.calls[id].query)
    ensures s.calls[id].ReadFailed? ==> s.closedAt.Some?
  {
    hide InOrder, Exclusion, Sequential, Owned, Answered, Draining, Queries.Consistent, Queries.Unfinished;
    assert SawPrefix(iso, first, s, s.calls[id]);
  }

  /** Only a closed store makes a read fail. */
  lemma FailedReadsMetClosedStore(iso: Iso4217, first: Db, actions: seq<Action>, id: nat)
    requires Steps(iso, Start(first), actions).Some?
    requires var s := Steps(iso, Start(first), actions).value; id in s.calls && s.calls[id].ReadFailed?
    ensures Steps(iso, Start(first), actions).value.closedAt.Some?
  {
    hide Steps, Invariant;
    StepsInvariant(iso, first, actions);
    ReadIsUnfinished(iso, first, Steps(iso, Start(first), actions).value, id);
  }

  // ---------- Timeouts ----------

  /** A caller can fail to get the lock, and can give up waiting; nothing else changes but its hold on the lock. */
  lemma CallsCanTimeOut(iso: Iso4217, s: State, id: nat)
    ensures id !in s.calls ==>
              Step(iso, s, Refuse(id)) == Some(s.(calls := s.calls[id := Refused], readers := s.readers - {id}))
    ensures id in s.calls && s.calls[id].Waiting? ==>
              Step(iso, s, GiveUp(id))
              == Some(s.(calls := s.calls[id := TimedOut(s.calls[id].command)], readers := s.readers - {id}))
  {
    hide WriterStep, CloserStep, NextQuery, FirstQuery;
  }
}
