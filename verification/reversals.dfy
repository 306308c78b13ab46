/** Reversal links: within a book they form disjoint finite chains, and along a chain the effects on
    every account cancel in pairs. */
module Reversals {
  import opened Text
  import opened Decimals
  import opened Model
  import opened Sequences
  import opened Mapping
  import opened Commands
  import opened Ledgers
  import opened Refinement

  // ---------- Links ----------

  /** Every link points to an earlier transaction of the book. */
  ghost predicate PointsBack(ts: seq<JournalTransaction>) {
    forall i | 0 <= i < |ts| && ts[i].reversalOf.Some? ::
      exists j | 0 <= j < i :: ts[j].reference == ts[i].reversalOf.value
  }

  /** No transaction is reversed twice. */
  ghost predicate ReversedOnce(ts: seq<JournalTransaction>) {
    forall i, j | 0 <= i < j < |ts| && ts[i].reversalOf.Some? :: ts[i].reversalOf != ts[j].reversalOf
  }

  ghost predicate Linked(ts: seq<JournalTransaction>) {
    PointsBack(ts) && ReversedOnce(ts)
  }

  ghost predicate AllLinked(ledger: Ledger) {
    forall code | code in ledger :: Linked(ledger[code].transactions)
  }

  /** A link a caller may set: to a transaction the book has and has not reversed. */
  predicate FreeTarget(ts: seq<JournalTransaction>, reversalOf: Option<string>) {
    reversalOf.Some? ==> reversalOf.value in References(ts) && !Reverses(ts, reversalOf.value)
  }

  lemma PointsBackAppend(ts: seq<JournalTransaction>, t: JournalTransaction)
    requires PointsBack(ts)
    ensures PointsBack(ts + [t]) <==> (t.reversalOf.Some? ==> t.reversalOf.value in References(ts))
  {
    var all := ts + [t];
    if t.reversalOf.Some? && t.reversalOf.value in References(ts) {
      var k :| 0 <= k < |ts| && ts[k].reference == t.reversalOf.value;
      assert all[k].reference == t.reversalOf.value;
    }
    forall i | 0 <= i < |ts| && ts[i].reversalOf.Some?
      ensures exists j | 0 <= j < i :: all[j].reference == all[i].reversalOf.value
    {
      var j :| 0 <= j < i && ts[j].reference == ts[i].reversalOf.value;
      assert all[j].reference == all[i].reversalOf.value;
    }
    if PointsBack(all) && t.reversalOf.Some? {
      assert all[|ts|].reversalOf.Some?;
      var j :| 0 <= j < |ts| && all[j].reference == t.reversalOf.value;
      assert ts[j] in ts;
    }
  }

  lemma ReversedOnceAppend(ts: seq<JournalTransaction>, t: JournalTransaction)
    requires ReversedOnce(ts)
    ensures ReversedOnce(ts + [t]) <==> (t.reversalOf.Some? ==> !Reverses(ts, t.reversalOf.value))
  {
    var all := ts + [t];
    if ReversedOnce(all) && t.reversalOf.Some? {
      forall i | 0 <= i < |ts| ensures ts[i].reversalOf != t.reversalOf {
        if ts[i].reversalOf.Some? { assert all[i].reversalOf != all[|ts|].reversalOf; }
      }
    }
  }

  /** Appending keeps the links in order exactly when the new link is free. */
  lemma LinkedAppend(ts: seq<JournalTransaction>, t: JournalTransaction)
    requires Linked(ts)
    ensures Linked(ts + [t]) <==> FreeTarget(ts, t.reversalOf)
  {
    PointsBackAppend(ts, t);
    ReversedOnceAppend(ts, t);
  }

  // ---------- Which commands keep the links in order ----------

  /** What a caller can check before the call. */
  ghost predicate LinksFree(ledger: Ledger, c: Command) {
    match c
    case CreateBookCommand(b, _) => Linked(b.transactions)
    case AppendTransactionCommand(book, t, _) => book in ledger ==> FreeTarget(ledger[book].transactions, t.reversalOf)
    case CreateReversalCommand(_, _, _, _) => true
    case AppendResultCommand(_, _, _, _, _) => true
    case SnapshotCommand(_, _) => true
  }

  lemma AllLinkedUpdate(ledger: Ledger, code: string, b: Book)
    requires AllLinked(ledger)
    ensures AllLinked(ledger[code := b]) <==> Linked(b.transactions)
  {
    hide Linked;
    var after := ledger[code := b];
    if AllLinked(after) { assert code in after; }
  }

  lemma PostLinked(ledger: Ledger, code: string, t: JournalTransaction)
    requires AllLinked(ledger) && code in ledger && LedgerPost(ledger, code, t).1 == Done
    ensures AllLinked(LedgerPost(ledger, code, t).0) <==> FreeTarget(ledger[code].transactions, t.reversalOf)
  {
    hide Linked, References, FreeTarget;
    var b := ledger[code].(transactions := ledger[code].transactions + [t]);
    AllLinkedUpdate(ledger, code, b);
    assert Linked(ledger[code].transactions);
    LinkedAppend(ledger[code].transactions, t);
  }

  /** A reversal that goes through names a transaction that is there and not reversed. */
  lemma TargetFree(ledger: Ledger, code: string, originalRef: string, reversalRef: string)
    requires LedgerReverse(ledger, code, originalRef, reversalRef).1 == Done
    ensures var post := ReversalPost(ledger, code, originalRef, reversalRef);
            code in ledger && post.Some? && FreeTarget(ledger[code].transactions, post.value.reversalOf)
  {
    hide LedgerPost, Reverses, RequireText, MapSeq;
  }

  lemma ReverseLinked(ledger: Ledger, code: string, originalRef: string, reversalRef: string)
    requires AllLinked(ledger) && LedgerReverse(ledger, code, originalRef, reversalRef).1 == Done
    ensures AllLinked(LedgerReverse(ledger, code, originalRef, reversalRef).0)
  {
    TargetFree(ledger, code, originalRef, reversalRef);
    hide Linked, LedgerPost, ReversalRefusal, ReversalPost, AllLinked, FreeTarget;
    PostLinked(ledger, code, ReversalPost(ledger, code, originalRef, reversalRef).value);
  }

  /** From links in order, a successful command leaves them in order exactly when the link it carries is
      free: append_reversal always does, append_transaction and create_book check nothing. */
  lemma StepLinked(ledger: Ledger, c: Command)
    requires AllLinked(ledger) && LedgerApply(ledger, c).1 == Done
    ensures AllLinked(LedgerApply(ledger, c).0) <==> LinksFree(ledger, c)
  {
    hide Linked, LedgerPost, LedgerReverse, FreeTarget, EntryOk, DistinctReferences, AllLinked;
    match c
    case CreateBookCommand(b, _) => AllLinkedUpdate(ledger, b.code, b);
    case AppendTransactionCommand(book, t, _) => PostLinked(ledger, book, t);
    case CreateReversalCommand(book, original, reversal, _) => ReverseLinked(ledger, book, original, reversal);
    case AppendResultCommand(_, _, _, _, _) =>
    case SnapshotCommand(_, _) =>
  }

  // ---------- Chains ----------

  /** Every link is one that append_reversal made. */
  ghost predicate Mirrored(ts: seq<JournalTransaction>) {
    forall i | 0 <= i < |ts| && ts[i].reversalOf.Some? ::
      exists j | 0 <= j < i :: ts[i] == ContraOf(ts[j], ts[i].reference)
  }

  ghost predicate Chained(ts: seq<JournalTransaction>) {
    Mirrored(ts) && ReversedOnce(ts) && DistinctReferences(ts)
  }

  ghost predicate AllChained(ledger: Ledger) {
    forall code | code in ledger :: Chained(ledger[code].transactions)
  }

  lemma MirroredAppend(ts: seq<JournalTransaction>, t: JournalTransaction)
    requires Mirrored(ts)
    requires t.reversalOf.Some? ==> exists j | 0 <= j < |ts| :: t == ContraOf(ts[j], t.reference)
    ensures Mirrored(ts + [t])
  {
    hide ContraOf;
    var all := ts + [t];
    forall i | 0 <= i < |all| && all[i].reversalOf.Some?
      ensures exists j | 0 <= j < i :: all[i] == ContraOf(all[j], all[i].reference)
    {
      if i < |ts| {
        var j :| 0 <= j < i && ts[i] == ContraOf(ts[j], ts[i].reference);
        assert all[i] == ContraOf(all[j], all[i].reference);
      } else {
        var j :| 0 <= j < |ts| && t == ContraOf(ts[j], t.reference);
        assert all[i] == ContraOf(all[j], all[i].reference);
      }
    }
  }

  lemma ChainedAppend(ts: seq<JournalTransaction>, t: JournalTransaction)
    requires Chained(ts) && t.reference !in References(ts)
    requires t.reversalOf.Some? ==>
               !Reverses(ts, t.reversalOf.value) && exists j | 0 <= j < |ts| :: t == ContraOf(ts[j], t.reference)
    ensures Chained(ts + [t])
  {
    hide Mirrored, ReversedOnce, DistinctReferences, References, Reverses;
    MirroredAppend(ts, t);
    ReversedOnceAppend(ts, t);
    DistinctAppend(ts, t);
  }

  lemma UnlinkedChained(ts: seq<JournalTransaction>)
    requires DistinctReferences(ts) && forall i | 0 <= i < |ts| :: ts[i].reversalOf.None?
    ensures Chained(ts)
  {}

  /** Only append_reversal sets links. */
  predicate NoOutsideLinks(c: Command) {
    && (c.CreateBookCommand? ==> forall i | 0 <= i < |c.newBook.transactions| :: c.newBook.transactions[i].reversalOf.None?)
    && (c.AppendTransactionCommand? ==> c.transaction.reversalOf.None?)
  }

  lemma PostChained(ledger: Ledger, code: string, t: JournalTransaction)
    requires AllChained(ledger) && code in ledger
    requires var ts := ledger[code].transactions;
             t.reversalOf.Some? ==>
               !Reverses(ts, t.reversalOf.value) && exists j | 0 <= j < |ts| :: t == ContraOf(ts[j], t.reference)
    ensures AllChained(LedgerPost(ledger, code, t).0)
  {
    hide Chained, References, Reverses, ContraOf;
    if t.reference !in References(ledger[code].transactions) {
      assert Chained(ledger[code].transactions);
      ChainedAppend(ledger[code].transactions, t);
    }
  }

  lemma ReverseChained(ledger: Ledger, code: string, originalRef: string, reversalRef: string)
    requires AllChained(ledger)
    ensures AllChained(LedgerReverse(ledger, code, originalRef, reversalRef).0)
  {
    hide AllChained, LedgerPost, References, Reverses, RequireText;
    if code in ledger && Find(ledger[code].transactions, originalRef).Some? {
      var ts := ledger[code].transactions;
      var t := Find(ts, originalRef).value;
      var j :| 0 <= j < |ts| && ts[j] == t;
      if !Reverses(ts, originalRef) && RequireText(reversalRef).Some? {
        var r := RequireText(reversalRef).value;
        assert ContraOf(t, r) == ContraOf(ts[j], ContraOf(t, r).reference);
        PostChained(ledger, code, ContraOf(t, r));
      }
    }
  }

  lemma StepChained(ledger: Ledger, c: Command)
    requires AllChained(ledger) && NoOutsideLinks(c)
    ensures AllChained(LedgerApply(ledger, c).0)
  {
    hide LedgerPost, LedgerReverse, EntryOk, Chained, DistinctReferences;
    match c
    case CreateBookCommand(b, _) => if DistinctReferences(b.transactions) { UnlinkedChained(b.transactions); }
    case AppendTransactionCommand(book, t, _) => if book in ledger { PostChained(ledger, book, t); }
    case CreateReversalCommand(book, original, reversal, _) => ReverseChained(ledger, book, original, reversal);
    case AppendResultCommand(_, _, _, _, _) =>
    case SnapshotCommand(_, _) =>
  }

  /** In every run where only append_reversal sets links, each book's links are reversals of earlier
      transactions, and no transaction is reversed twice. */
  lemma {:induction false} RunChained(commands: seq<Command>)
    requires forall i | 0 <= i < |commands| :: NoOutsideLinks(commands[i])
    ensures AllChained(LedgerRun(commands))
  {
    hide NoOutsideLinks, LedgerApply, Chained;
    if commands != [] {
      RunChained(commands[..|commands| - 1]);
      StepChained(LedgerRun(commands[..|commands| - 1]), commands[|commands| - 1]);
    }
  }

  // ---------- Walking a chain ----------

  /** The earlier transaction that the i-th one reverses. */
  ghost function Target(ts: seq<JournalTransaction>, i: nat): (j: nat)
    requires Mirrored(ts) && i < |ts| && ts[i].reversalOf.Some?
    ensures j < i && ts[i] == ContraOf(ts[j], ts[i].reference)
  {
    var j :| 0 <= j < i && ts[i] == ContraOf(ts[j], ts[i].reference);
    j
  }

  /** How many reversals lead from the chain's first transaction to this one. */
  ghost function Depth(ts: seq<JournalTransaction>, i: nat): nat
    requires Mirrored(ts) && i < |ts|
    decreases i
  {
    if ts[i].reversalOf.None? then 0 else 1 + Depth(ts, Target(ts, i))
  }

  /** The chain's first transaction. */
  ghost function Root(ts: seq<JournalTransaction>, i: nat): (r: nat)
    requires Mirrored(ts) && i < |ts|
    ensures r <= i && ts[r].reversalOf.None?
    decreases i
  {
    if ts[i].reversalOf.None? then i else Root(ts, Target(ts, i))
  }

  /** Chains are disjoint lines: a place in a chain belongs to one transaction only. */
  lemma {:induction false} ChainsAreLines(ts: seq<JournalTransaction>, i: nat, j: nat)
    requires Chained(ts) && i < |ts| && j < |ts|
    requires Root(ts, i) == Root(ts, j) && Depth(ts, i) == Depth(ts, j)
    ensures i == j
    decreases i
  {
    hide ContraOf, DistinctReferences;
    if ts[i].reversalOf.Some? {
      ChainsAreLines(ts, Target(ts, i), Target(ts, j));
      SameTarget(ts, i, j);
    }
  }

  lemma SameTarget(ts: seq<JournalTransaction>, i: nat, j: nat)
    requires Chained(ts) && i < |ts| && j < |ts| && ts[i].reversalOf.Some? && ts[j].reversalOf.Some?
    requires Target(ts, i) == Target(ts, j)
    ensures i == j
  {
    hide Mirrored, DistinctReferences;
    assert ts[i].reversalOf == Some(ts[Target(ts, i)].reference) == ts[j].reversalOf;
  }

  // ---------- Effects ----------

  /** Debits less credits of one account in one currency. */
  function Effect(entries: seq<LedgerEntry>, account: string, currency: string): real {
    if entries == [] then 0.0
    else
      var e := entries[|entries| - 1];
      Effect(entries[..|entries| - 1], account, currency)
      + if e.accountCode == account && e.currency == currency then (if e.side == Debit then Value(e.amount) else -Value(e.amount))
        else 0.0
  }

  function Mirror(e: LedgerEntry): LedgerEntry {
    Invert(CanonicalEntry(e))
  }

  lemma {:induction false} MirroredEffect(entries: seq<LedgerEntry>, account: string, currency: string)
    ensures Effect(MapSeq(entries, Mirror), account, currency) == -Effect(entries, account, currency)
  {
    hide MapSeq, Value, Canonical;
    if entries == [] {
      MapSeqEmpty(entries, Mirror);
    } else {
      var n := |entries| - 1;
      MirroredEffect(entries[..n], account, currency);
      CanonicalKeeps(entries[n].amount);
      MapSeqInit(entries, Mirror);
    }
  }

  lemma ReversalMirrors(t: JournalTransaction, reference: string)
    ensures ContraOf(t, reference).entries == MapSeq(t.entries, Mirror)
  {}

  lemma ReversalEffect(t: JournalTransaction, reference: string, account: string, currency: string)
    ensures Effect(ContraOf(t, reference).entries, account, currency) == -Effect(t.entries, account, currency)
  {
    hide ContraOf, Effect, MapSeq;
    ReversalMirrors(t, reference);
    MirroredEffect(t.entries, account, currency);
  }

  /** Reversing a reversal posts the original entries again. */
  lemma ReversedReversal(t: JournalTransaction, first: string, second: string)
    ensures ContraOf(ContraOf(t, first), second).entries == MapSeq(t.entries, CanonicalEntry)
  {
    hide Canonical, Value, FractionDigits;
    var r := ContraOf(t, first);
    ReversalMirrors(t, first);
    ReversalMirrors(r, second);
    forall i | 0 <= i < |t.entries|
      ensures Mirror(Mirror(t.entries[i])) == CanonicalEntry(t.entries[i])
    {
      CanonicalKeeps(t.entries[i].amount);
      if t.entries[i].taxRate.Some? { CanonicalKeeps(t.entries[i].taxRate.value); }
    }
  }

  /** The joint effect of a transaction and everything it leads back to. */
  ghost function ChainEffect(ts: seq<JournalTransaction>, i: nat, account: string, currency: string): real
    requires Mirrored(ts) && i < |ts|
    decreases i
  {
    Effect(ts[i].entries, account, currency)
    + if ts[i].reversalOf.None? then 0.0 else ChainEffect(ts, Target(ts, i), account, currency)
  }

  /** Along a chain the joint effect on every account and currency is the original's after an even
      number of reversals and zero after an odd one. */
  lemma {:induction false} ChainCancels(ts: seq<JournalTransaction>, i: nat, account: string, currency: string)
    requires Mirrored(ts) && i < |ts|
    ensures var original := Effect(ts[Root(ts, i)].entries, account, currency);
            && ChainEffect(ts, i, account, currency) == (if Depth(ts, i) % 2 == 0 then original else 0.0)
            && Effect(ts[i].entries, account, currency) == (if Depth(ts, i) % 2 == 0 then original else -original)
    decreases i
  {
    hide ContraOf, Effect, Mirrored;
    if ts[i].reversalOf.Some? {
      var j := Target(ts, i);
      ChainCancels(ts, j, account, currency);
      ReversalEffect(ts[j], ts[i].reference, account, currency);
    }
  }

  /** In every run where only append_reversal sets links: the links of a book are disjoint finite chains
      and the effects along each cancel in pairs. */
  lemma ReversalsInRuns(commands: seq<Command>, code: string, i: nat, j: nat, account: string, currency: string)
    requires forall k | 0 <= k < |commands| :: NoOutsideLinks(commands[k])
    requires code in LedgerRun(commands) && i < |LedgerRun(commands)[code].transactions| && j < |LedgerRun(commands)[code].transactions|
    ensures Chained(LedgerRun(commands)[code].transactions)
    ensures var ts := LedgerRun(commands)[code].transactions;
            && (Root(ts, i) == Root(ts, j) && Depth(ts, i) == Depth(ts, j) ==> i == j)
            && ChainEffect(ts, i, account, currency)
               == (if Depth(ts, i) % 2 == 0 then Effect(ts[Root(ts, i)].entries, account, currency) else 0.0)
  {
    hide NoOutsideLinks, LedgerRun, Effect, Mirrored, ReversedOnce, DistinctReferences, ChainEffect, Depth, Root;
    RunChained(commands);
    var ts := LedgerRun(commands)[code].transactions;
    assert Chained(ts);
    ChainCancels(ts, i, account, currency);
    if Root(ts, i) == Root(ts, j) && Depth(ts, i) == Depth(ts, j) { ChainsAreLines(ts, i, j); }
  }
}
