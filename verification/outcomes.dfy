/** When each outcome of an operation on a ledger occurs, and what a reversal looks like. */
module Outcomes {
  import opened Text
  import opened Decimals
  import opened Model
  import opened Sequences
  import opened Commands
  import opened Ledgers
  import opened Refinement

  lemma CreateOutcomes(ledger: Ledger, b: Book)
    ensures var (after, outcome) := LedgerCreate(ledger, b);
            && outcome in {Done, Raised(Constraint)}
            && (outcome == Done <==> b.code !in ledger && DistinctReferences(b.transactions))
            && after.Keys == ledger.Keys + (if outcome == Done then {b.code} else {})
            && (outcome == Done ==> after[b.code] == b)
            && forall code | code in ledger :: after[code] == ledger[code]
  {}

  /** Is there anything to post to? */
  predicate Usable(ledger: Ledger, code: string) {
    code in ledger && ledger[code].accounts != []
  }

  predicate Fits(ledger: Ledger, code: string, t: JournalTransaction) {
    Usable(ledger, code) && forall e | e in t.entries :: e.accountCode in Codes(ledger[code].accounts)
  }

  /** The refusals of append_transaction, in their order. */
  lemma AppendOutcomes(ledger: Ledger, code: string, t: JournalTransaction)
    ensures LedgerAppend(ledger, code, t).1 == Raised(NotPostedError) <==> t.state != Posted
    ensures LedgerAppend(ledger, code, t).1 == Raised(UnknownBook) <==> t.state == Posted && !Usable(ledger, code)
    ensures forall account :: LedgerAppend(ledger, code, t).1 == Raised(UnknownAccountCode(account)) <==> (
              t.state == Posted && Usable(ledger, code) && FirstStranger(t.entries, Codes(ledger[code].accounts), account))
    ensures LedgerAppend(ledger, code, t).1 == Raised(Constraint) <==> (
              t.state == Posted && Fits(ledger, code, t) && Used(ledger, code, t.reference))
    ensures LedgerAppend(ledger, code, t).1 == Done <==> (
              t.state == Posted && Fits(ledger, code, t) && !Used(ledger, code, t.reference))
  {
    hide FirstUnknown, Codes;
    if Usable(ledger, code) {
      var codes := Codes(ledger[code].accounts);
      forall account ensures FirstUnknown(t.entries, codes) == Some(account) <==> FirstStranger(t.entries, codes, account) {
        FirstUnknownIs(t.entries, codes, account);
      }
    }
  }

  /** A taken transaction comes last in its book, and nothing else changes. */
  lemma AppendAdds(ledger: Ledger, code: string, t: JournalTransaction)
    ensures var (after, outcome) := LedgerAppend(ledger, code, t);
            && (outcome != Done ==> after == ledger)
            && (outcome == Done ==>
                  && after.Keys == ledger.Keys
                  && (forall other | other in ledger && other != code :: after[other] == ledger[other])
                  && after[code].transactions == ledger[code].transactions + [t]
                  && after[code] == ledger[code].(transactions := after[code].transactions))
  {
    hide FirstUnknown, Codes, References;
  }

  /** Nothing stands in the way of reversing `originalRef` in a book, but perhaps its new reference. */
  predicate Reversible(ledger: Ledger, code: string, originalRef: string) {
    && code in ledger
    && (exists t | t in ledger[code].transactions :: t.reference == originalRef)
    && forall t | t in ledger[code].transactions :: t.reversalOf != Some(originalRef)
  }

  predicate Used(ledger: Ledger, code: string, reference: string)
    requires code in ledger
  {
    exists t | t in ledger[code].transactions :: t.reference == reference
  }

  /** Reversible, under a reference that is not in use as it is given. */
  predicate Open(ledger: Ledger, code: string, originalRef: string, reversalRef: string) {
    Reversible(ledger, code, originalRef) && !Used(ledger, code, reversalRef)
  }

  /** The refusals of append_reversal that the ledger decides. */
  lemma ReverseRefusals(ledger: Ledger, code: string, originalRef: string, reversalRef: string)
    ensures LedgerReverse(ledger, code, originalRef, reversalRef).1 == Raised(UnknownBook) <==> code !in ledger
    ensures LedgerReverse(ledger, code, originalRef, reversalRef).1 == Raised(UnknownTransaction) <==> (
              code in ledger && !Used(ledger, code, originalRef))
    ensures LedgerReverse(ledger, code, originalRef, reversalRef).1 == Raised(AlreadyReversed) <==> (
              code in ledger && Used(ledger, code, originalRef) && !Reversible(ledger, code, originalRef))
    ensures LedgerReverse(ledger, code, originalRef, reversalRef).1 == Raised(ReferenceInUse) <==> (
              Reversible(ledger, code, originalRef) && Used(ledger, code, reversalRef))
  {
    hide Strip, ContraOf;
    if code in ledger { ReversesMeans(ledger[code].transactions, originalRef); }
  }

  /** The new reference is looked up as given, then trimmed, and only then must be there, be another one and be
      free. */
  lemma ReverseOutcomes(ledger: Ledger, code: string, originalRef: string, reversalRef: string)
    requires Open(ledger, code, originalRef, reversalRef)
    ensures var outcome, trimmed := LedgerReverse(ledger, code, originalRef, reversalRef).1, Strip(reversalRef);
            outcome == if trimmed == "" then Raised(Rejected(ValueError(BlankText)))
                       else if trimmed == originalRef then Raised(Rejected(ValueError(SelfReversal)))
                       else if Used(ledger, code, trimmed) then Raised(Constraint)
                       else Done
    ensures LedgerReverse(ledger, code, originalRef, reversalRef).1 == Done ==>
              exists t | t in ledger[code].transactions ::
                && t.reference == originalRef
                && LedgerReverse(ledger, code, originalRef, reversalRef).0
                   == WithTransaction(ledger, code, ContraOf(t, Strip(reversalRef)))
  {
    hide Strip, MapSeq;
    ReversesMeans(ledger[code].transactions, originalRef);
  }

  lemma ReversesMeans(transactions: seq<JournalTransaction>, reference: string)
    ensures Reverses(transactions, reference) <==> exists t | t in transactions :: t.reversalOf == Some(reference)
  {
    if Reverses(transactions, reference) {
      var i :| 0 <= i < |transactions| && transactions[i].reversalOf == Some(reference);
      assert transactions[i] in transactions;
    }
  }

  /** The other side, and nothing else but the form of the decimals. */
  predicate Opposes(e: LedgerEntry, original: LedgerEntry) {
    && e.side != original.side
    && e.accountCode == original.accountCode && e.currency == original.currency && e.description == original.description
    && Value(e.amount) == Value(original.amount) && FractionDigits(e.amount) == FractionDigits(original.amount)
    && (e.taxRate.Some? <==> original.taxRate.Some?)
    && (e.taxRate.Some? ==> Value(e.taxRate.value) == Value(original.taxRate.value))
  }

  /** A reversal is posted at the same moment and in the same period, names its original in its link and its
      description, and opposes each entry in turn. */
  lemma ReversalShape(t: JournalTransaction, reference: string)
    ensures var r := ContraOf(t, reference);
            && r.reference == reference && r.postedAt == t.postedAt && r.period == t.period && r.state == Posted
            && r.reversalOf == Some(t.reference) && r.description == "Reversal of " + t.reference
            && |r.entries| == |t.entries|
            && forall i | 0 <= i < |t.entries| :: Opposes(r.entries[i], t.entries[i])
  {
    hide Value, FractionDigits, Canonical;
    var r := ContraOf(t, reference);
    forall i | 0 <= i < |t.entries| ensures Opposes(r.entries[i], t.entries[i]) {
      CanonicalKeeps(t.entries[i].amount);
      if t.entries[i].taxRate.Some? { CanonicalKeeps(t.entries[i].taxRate.value); }
    }
  }
}
