/** Inputs that the store takes although a book cannot hold them. */
module Witnesses {
  import opened Text
  import opened Decimals
  import opened Model
  import opened Schema
  import opened Commands
  import opened Refinement
  import opened Loading
  import opened Reversals

  const CONTEXT := AuditContext("clerk", "posting", None)

  /** A book with one account, no periods and no transactions. */
  function SmallBook(currency: string): Book {
    Book("B", "Small book", currency, 1, "lv.standard.2026",
         [Account("1000", "Cash", Debit, currency, None, true, true)], [], [])
  }

  /** One unit in and out of that account. */
  function SmallTransaction(currency: string, period: Option<FiscalPeriod>, reversalOf: Option<string>): JournalTransaction {
    JournalTransaction(
      "T", "2026-01-01T00:00:00", "In and out",
      [LedgerEntry("1000", Debit, Dec(1, 0), currency, None, None), LedgerEntry("1000", Credit, Dec(1, 0), currency, None, None)],
      period, Posted, reversalOf)
  }

  function CreateAndAppend(currency: string, t: JournalTransaction): seq<Command> {
    [CreateBookCommand(SmallBook(currency), CONTEXT), AppendTransactionCommand("B", t, CONTEXT)]
  }

  lemma SmallBookOk(iso: Iso4217, currency: string)
    requires CurrencyOk(iso, currency)
    ensures BookOk(iso, SmallBook(currency)) && Codes(SmallBook(currency).accounts) == {"1000"}
  {
    hide CurrencyOk;
    var accounts := SmallBook(currency).accounts;
    assert Codes(accounts) == {"1000"};
    assert ParentsOf(accounts) == map["1000" := None];
  }

  lemma SmallTransactionOk(iso: Iso4217, currency: string, period: Option<FiscalPeriod>, reversalOf: Option<string>)
    requires CurrencyOk(iso, currency) && (period.Some? ==> FiscalPeriodOk(period.value))
    requires OptionalNonBlank(reversalOf) && reversalOf != Some("T")
    ensures TransactionOk(iso, SmallTransaction(currency, period, reversalOf))
  {
    hide Upper, Value, Total;
    var t := SmallTransaction(currency, period, reversalOf);
    var debit, credit := t.entries[0], t.entries[1];
    assert t.entries == ([] + [debit]) + [credit];
    forall side ensures Total(t.entries, side, currency) == Value(Dec(1, 0)) {
      NoTotal(side, currency);
      Balancing.TotalAppend([], debit, side, currency);
      Balancing.TotalAppend([] + [debit], credit, side, currency);
    }
  }

  lemma NoTotal(side: PostingSide, currency: string)
    ensures Total([], side, currency) == 0.0
  {}

  lemma SmallRun(iso: Iso4217, currency: string, t: JournalTransaction)
    requires CurrencyOk(iso, currency) && TransactionOk(iso, t) && t.state == Posted && KnownAccounts(t, {"1000"})
    ensures CommandsOk(iso, CreateAndAppend(currency, t))
    ensures LedgerRun(CreateAndAppend(currency, t)[..1]) == map["B" := SmallBook(currency)]
    ensures LedgerApply(LedgerRun(CreateAndAppend(currency, t)[..1]), CreateAndAppend(currency, t)[1]).1 == Done
    ensures LedgerRun(CreateAndAppend(currency, t)) == map["B" := SmallBook(currency).(transactions := [t])]
  {
    hide BookOk, TransactionOk, CurrencyOk, Codes;
    SmallBookOk(iso, currency);
    var commands := CreateAndAppend(currency, t);
    assert commands[..1][..0] == [] && commands[..1][0] == commands[0];
    assert LedgerRun(commands[..1]) == map["B" := SmallBook(currency)];
    assert [] + [t] == [t];
    assert map["B" := SmallBook(currency)]["B" := SmallBook(currency).(transactions := [t])]
        == map["B" := SmallBook(currency).(transactions := [t])];
  }

  /** A stored book that does not load: append_transaction took a transaction in a period the book lacks. */
  lemma UnloadableBook(iso: Iso4217, currency: string)
    requires CurrencyOk(iso, currency)
    ensures var commands := CreateAndAppend(currency, SmallTransaction(currency, Some(FiscalPeriod(2026, 1, 1)), None));
            && CommandsOk(iso, commands) && !PeriodsNamed(commands)
            && Load(iso, Run(iso, EMPTY, commands), "B") == IntegrityError(ValueError(UnknownPeriod))
  {
    hide CurrencyOk, TransactionOk, CommandsOk, Load, Run, LedgerRun;
    var t := SmallTransaction(currency, Some(FiscalPeriod(2026, 1, 1)), None);
    SmallTransactionOk(iso, currency, t.period, None);
    SmallRun(iso, currency, t);
    LoadAfterRun(iso, CreateAndAppend(currency, t), "B");
  }

  /** A link to nothing: append_transaction took a transaction that claims to reverse one the book lacks, and
      from then on the links of the book are out of order. */
  lemma DanglingLink(iso: Iso4217, currency: string)
    requires CurrencyOk(iso, currency)
    ensures var commands := CreateAndAppend(currency, SmallTransaction(currency, None, Some("R")));
            && CommandsOk(iso, commands)
            && AllLinked(LedgerRun(commands[..1])) && !LinksFree(LedgerRun(commands[..1]), commands[1])
            && LedgerApply(LedgerRun(commands[..1]), commands[1]).1 == Done
            && !AllLinked(LedgerRun(commands))
  {
    hide CurrencyOk, TransactionOk, CommandsOk, LedgerRun, LedgerApply;
    var t := SmallTransaction(currency, None, Some("R"));
    SmallTransactionOk(iso, currency, None, t.reversalOf);
    SmallRun(iso, currency, t);
    assert [t][0].reversalOf.Some? && !Linked([t]);
  }
}
