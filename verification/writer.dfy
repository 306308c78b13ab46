/** The writer thread's own code over the store object, run to its end with the lock held by `close`. */
module Writer {
  import opened Text
  import opened Model
  import opened Sequences
  import opened Schema
  import opened Commands
  import opened Runtime
  import opened Store

  /** What the i-th of a list of commands does to the store its predecessors left. */
  function OutcomeOf(iso: Iso4217, db: Db, requests: seq<Request>, i: nat): Outcome
    requires i < |requests|
  {
    Apply(iso, After(iso, db, requests[..i]), requests[i].command).1
  }

  predicate DistinctCalls(requests: seq<Request>) {
    forall i, j | 0 <= i < j < |requests| :: requests[i].call != requests[j].call
  }

  /** `futures` is `old` with the outcome of every request added, and nothing else. */
  ghost predicate Answers(
    iso: Iso4217, db: Db, requests: seq<Request>, before: map<nat, Outcome>, futures: map<nat, Outcome>)
  {
    && (forall i | 0 <= i < |requests| ::
          requests[i].call in futures && futures[requests[i].call] == OutcomeOf(iso, db, requests, i))
    && (forall id | id in before :: id in futures && futures[id] == before[id])
    && (forall id | id in futures :: id in before || exists i :: 0 <= i < |requests| && requests[i].call == id)
  }

  lemma OneMoreAnswer(
    iso: Iso4217, db: Db, requests: seq<Request>, r: Request, before: map<nat, Outcome>, futures: map<nat, Outcome>)
    requires Answers(iso, db, requests, before, futures) && r.call !in before && DistinctCalls(requests + [r])
    ensures Answers(iso, db, requests + [r], before,
                    futures[r.call := Apply(iso, After(iso, db, requests), r.command).1])
  {
    hide Apply, After;
    var all := requests + [r];
    forall i | 0 <= i < |requests| ensures OutcomeOf(iso, db, all, i) == OutcomeOf(iso, db, requests, i) {
      assert all[..i] == requests[..i];
    }
    assert all[..|requests|] == requests;
    assert forall i | 0 <= i < |requests| :: all[i] == requests[i] && all[i].call != all[|requests|].call;
    assert all[|requests|] == r;
  }

  class LedgerRuntime {
    const store: SqliteLedgerStore
    var queue: seq<Option<Request>>
    var stop: bool
    var started: bool
    var futures: map<nat, Outcome>

    constructor (iso: Iso4217)
      ensures store.iso == iso && store.Idle() && store.committed == EMPTY && fresh(store)
      ensures queue == [] && !stop && started && futures == map[]
    {
      store := new SqliteLedgerStore(iso);
      queue, stop, started, futures := [], false, true, map[];
    }

    /** The queue is unbounded, so a put never waits. */
    method Put(item: Option<Request>)
      modifies this`queue
      ensures queue == old(queue) + [item]
      ensures Requests(queue) == Requests(old(queue)) + if item.Some? then [item.value] else []
    {
      RequestsAppend(queue, item);
      queue := queue + [item];
    }

    /** Whatever the store operation does, the future gets its result or its error. */
    method DispatchCommand(r: Request)
      requires store.Idle()
      modifies this`futures, store
      ensures store.Idle() && store.auditState == old(store.auditState)
      ensures store.committed == Apply(store.iso, old(store.committed), r.command).0
      ensures futures == old(futures)[r.call := Apply(store.iso, old(store.committed), r.command).1]
    {
      hide Apply;
      var outcome := store.Dispatch(r.command);
      futures := futures[r.call := outcome];
    }

    /** Once the flag is set nobody puts; until then `arrivals` says what other threads put before each round of
        the loop, nothing being a poll that times out. The loop takes every item, applies every command in order,
        and answers each with its own outcome. */
    method WriterLoop(arrivals: seq<seq<Option<Request>>>)
      requires store.Idle() && (stop ==> arrivals == [])
      requires var all := Requests(queue + Arriving(arrivals));
               DistinctCalls(all) && forall i | 0 <= i < |all| :: all[i].call !in futures
      modifies this`queue, this`futures, this`stop, store
      ensures stop && queue == [] && store.Idle() && store.auditState == old(store.auditState)
      ensures store.committed == After(store.iso, old(store.committed), Requests(old(queue) + Arriving(arrivals)))
      ensures Answers(store.iso, old(store.committed), Requests(old(queue) + Arriving(arrivals)), old(futures), futures)
    {
      hide Apply, Requests, After, Answers, ParentsStored, Arriving, DistinctCalls;
      ghost var all, first, before := Requests(queue + Arriving(arrivals)), store.committed, futures;
      ghost var served: seq<Request> := [];
      var round := 0;
      NoneServed(store.iso, first, before);
      assert arrivals[0..] == arrivals;
      while !stop || queue != []
        invariant store.Idle() && store.auditState == old(store.auditState)
        invariant round <= |arrivals| && (stop ==> round == |arrivals|)
        invariant served + Requests(queue + Arriving(arrivals[round..])) == all
        invariant store.committed == After(store.iso, first, served)
        invariant Answers(store.iso, first, served, before, futures)
        decreases |arrivals| - round, if stop then 0 else 1, |queue|
      {
        if round < |arrivals| {
          ArrivingNext(queue, arrivals, round);
          queue := queue + arrivals[round];
          round := round + 1;
        } else {
          stop := true;
        }
        if queue == [] {
          continue;
        }
        var command := queue[0];
        ghost var coming := Arriving(arrivals[round..]);
        TakeNext(queue, coming, served, all);
        queue := queue[1..];
        if command.None? {
          continue;
        }
        var r := command.value;
        ServeNext(store.iso, first, served, r, queue + coming, all, before, futures);
        DispatchCommand(r);
        served := served + [r];
      }
      NothingArriving(queue, arrivals[round..]);
      assert served == all;
    }

    /** Sets the flag, puts the sentinel and waits for the loop: every command put before is answered. */
    method Close()
      requires started && store.Idle()
      requires DistinctCalls(Requests(queue)) && forall i | 0 <= i < |Requests(queue)| :: Requests(queue)[i].call !in futures
      modifies this, store
      ensures !started && stop && queue == []
      ensures store.committed == After(store.iso, old(store.committed), Requests(old(queue)))
      ensures Answers(store.iso, old(store.committed), Requests(old(queue)), old(futures), futures)
    {
      hide Requests, After, Answers, Arriving;
      stop := true;
      Put(None);
      NoArrivals(queue);
      assert Requests(queue + Arriving([])) == Requests(old(queue));
      WriterLoop([]);
      started := false;
    }
  }

  /** All that arrives, in order. */
  function Arriving(arrivals: seq<seq<Option<Request>>>): seq<Option<Request>> {
    if arrivals == [] then [] else arrivals[0] + Arriving(arrivals[1..])
  }

  lemma ArrivingNext(queue: seq<Option<Request>>, arrivals: seq<seq<Option<Request>>>, round: nat)
    requires round < |arrivals|
    ensures queue + Arriving(arrivals[round..]) == (queue + arrivals[round]) + Arriving(arrivals[round + 1..])
  {
    assert arrivals[round..][1..] == arrivals[round + 1..];
  }

  /** The head of the queue is the next command to serve, or a sentinel. */
  lemma TakeNext(queue: seq<Option<Request>>, coming: seq<Option<Request>>, served: seq<Request>, all: seq<Request>)
    requires queue != [] && served + Requests(queue + coming) == all
    ensures queue[0].None? ==> served + Requests(queue[1..] + coming) == all
    ensures queue[0].Some? ==> (served + [queue[0].value]) + Requests(queue[1..] + coming) == all
  {
    hide Requests;
    NextRequest(queue + coming);
    assert (queue + coming)[1..] == queue[1..] + coming;
    var rest := Requests(queue[1..] + coming);
    if queue[0].Some? {
      assert served + ([queue[0].value] + rest) == (served + [queue[0].value]) + rest;
    } else {
      assert [] + rest == rest;
    }
  }

  /** Serving it keeps every answer right. */
  lemma ServeNext(
    iso: Iso4217, db: Db, served: seq<Request>, r: Request, rest: seq<Option<Request>>, all: seq<Request>,
    before: map<nat, Outcome>, futures: map<nat, Outcome>)
    requires (served + [r]) + Requests(rest) == all && DistinctCalls(all)
    requires forall i | 0 <= i < |all| :: all[i].call !in before
    requires Answers(iso, db, served, before, futures)
    ensures Answers(iso, db, served + [r], before, futures[r.call := Apply(iso, After(iso, db, served), r.command).1])
    ensures After(iso, db, served + [r]) == Apply(iso, After(iso, db, served), r.command).0
  {
    hide Apply, Requests, After, Answers;
    assert forall i | 0 <= i < |served + [r]| :: (served + [r])[i] == all[i];
    assert all[|served|] == r;
    OneMoreAnswer(iso, db, served, r, before, futures);
    AfterOneMore(iso, db, served, r);
  }

  lemma NothingArriving(queue: seq<Option<Request>>, arrivals: seq<seq<Option<Request>>>)
    ensures queue == [] && arrivals == [] ==> Requests(queue + Arriving(arrivals)) == []
  {}

  lemma NoArrivals(queue: seq<Option<Request>>)
    ensures queue + Arriving([]) == queue
  {}

  lemma NoneServed(iso: Iso4217, db: Db, futures: map<nat, Outcome>)
    ensures After(iso, db, []) == db && Answers(iso, db, [], futures, futures)
  {
    assert MapSeq<Request, Command>([], CommandOf) == [];
  }
}
