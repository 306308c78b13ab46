# A model of the FinestVX ledger

FinestVX is a double-entry ledger: immutable books of accounts, fiscal periods and posted transactions, kept in
an append-only SQLite store with an audit log, written by one thread, and exchanged as mappings and as XML. This
project models that behaviour in Dafny and proves what the system is built to keep. `dafny verify dfyconfig.toml`
checks all of it.

How the modules fit together:

- `Text`, `Decimals`, `Dates`, `Sorting`, `Sequences`: texts and their order, fixed-point decimal text, calendar
  dates, stable sorting. A decimal is a coefficient and an exponent; `Value` is the number it denotes.
- `Model`, `Constructors`: accounts, periods, entries, transactions and books, with the rules of their constructors. A
  predicate such as `BookOk` says what a constructed value satisfies, `MakeBook` is the constructor.
- `Charts`, `Balancing`, `Periods`: the validation loops, as methods, and what they decide.
- `Mapping`, `Payloads`, `Xml`, `XmlSchema`: the two codecs, the faults of incomplete mappings, and the XML schema.
- `Schema`, `Integrity`: the five tables, the audit log, what an insert demands and what its trigger records.
- `Commands`: each store operation as a function from database to database and outcome. `Store` is the store object
  whose methods run statement by statement over a committed and a pending database; every write method's
  postcondition is that its whole effect is that function, and that the audit state is put back.
- `Ledgers`, `Refinement`, `Outcomes`: the plain ledger (a map from book code to book) that the tables represent,
  the proof that every command does to the tables what the plain operation does to the ledger, and when each
  outcome of an operation occurs.
- `Loading`, `Queries`, `Audit`, `Reversals`: reading a book back from one database and query by query among commits,
  the audit log and its pages, and reversal chains, over whole runs. `Witnesses` has inputs for what can go wrong.
- `Runtime`, `Replies`, `Shutdown`, `Writer`: the single-writer runtime. `Runtime` is a state machine whose steps
  are the atomic actions of clients, readers, the writer thread and close calls, in any interleaving; `Replies` is
  about what callers get and `Shutdown` about draining and closing; `Writer` is the loop's own code over the store
  object.
- `Readers`: the pool of reader connections under any interleaving of borrowers.
- `Rounding`, `Reports`: rounding to cents, currency conversion checks, and the report forms of the core checks.

Where the code decides something its documentation leaves open, the model follows the code:

- `append_transaction` looks at neither the period nor `reversal_of`, so a stored book can fail to load
  (`Loading.EveryBookLoads` says exactly when, `Witnesses.UnloadableBook` has an input) and links can be out of order
  (`Reversals.StepLinked` says exactly when, `Witnesses.DanglingLink` has an input).
- A book whose chart is empty is reported as unknown by `append_transaction`.
- A book does not check that its transaction references are distinct; the primary key does, so `create_book`
  succeeds exactly when the code is new and the references are distinct (`Refinement.CreateRefines`).
- `append_reversal` looks up its new reference before trimming it and stores the trimmed one.
- The audit log has no triggers against updates and deletes; it only grows because no operation does anything
  else to it.
- `load_book` opens no transaction around its queries. It still gives one moment's book, because no command changes
  rows that an earlier query read (`Queries.LoadsAcrossCommits`).
- Draining at close is guaranteed to the close call that finds the stop flag clear. A second call that was already
  waiting for the lock can join a thread that has ended while a command is still queued
  (`Runtime.JoinDrains`, `Shutdown.SecondCloseLosesCommand`).

## Model

| member | source | states |
|---|---|---|
| Decimals.FixedTextRoundTrip | src/finestvx/core/serialization.py:63-68 | Fixed-point text of any non-negative decimal, whatever its exponent, is non-empty and unsigned, and reads back with the same value and the same count of fractional digits. |
| Decimals.SignedRoundTrip | src/finestvx/core/serialization.py:95-99 | The same for decimals of either sign: printing and reading give the canonical form. |
| Decimals.CanonicalKeeps | src/finestvx/core/models.py:363-373 | The canonical form has the value and the fractional digits of the original, so an amount that passed the currency-digits check passes it again. |
| Decimals.FixedTextUnique | src/finestvx/core/serialization.py:95-99 | No other text without leading zeros, and with a point only before digits, reads back as the number, so the printed text is the only one of its form. |
| Decimals.ReadMagnitudeExact | src/finestvx/core/serialization.py:63-68 | Decimal text without a sign is digits, at least one, with at most one point; any other text is refused. |
| Text.OneSpelling | src/finestvx/export/service.py:104-123 | A whole number has one spelling without leading zeros; printed integers have none. |
| Text.TextLeIsLexicographic | src/finestvx/persistence/store.py:412-447 | The order of texts is decided by the first difference, a beginning coming first. |
| Dates.DateTextRoundTrip | src/finestvx/core/serialization.py:46-51 | Every date's text reads back as that date. |
| Dates.ReadDateExact | src/finestvx/core/serialization.py:46-51 | No other text reads as the date. |
| Dates.CalendarDays | src/finestvx/core/serialization.py:46-51 | Which days there are, leap years included. |
| Dates.DateTextOrder | src/finestvx/persistence/store.py:425-434 | Fixed-width date texts compare as text exactly as the dates compare in the calendar (section 4.1.2.2 of ISO 8601:2004). |
| Charts.FindAccountCycle | src/finestvx/core/models.py:119-148 | The ancestor walk ends; it returns None exactly when the chain of parents ends at a root, else a closed list of parent links with distinct nodes apart from the ends, reachable from the start. |
| Charts.RepeatNeverEnds | src/finestvx/core/models.py:130-148 | A chain that meets one code twice never reaches a root. |
| Charts.EndsWithinSize | src/finestvx/core/models.py:126-148 | With every parent on file, a chain that ends does so in fewer steps than there are accounts. |
| Charts.CollectCodes | src/finestvx/core/models.py:151-168 | The first loop returns the codes and the parent map, or the first repeated code. |
| Charts.SearchCycles | src/finestvx/core/models.py:176-181 | Trying start codes in any order finds a cycle exactly when some chain does not end. |
| Charts.ValidateAccountCollection | src/finestvx/core/models.py:151-181 | Accepts exactly the well-formed charts; otherwise names the first repeated code, the first missing parent, or a cycle. |
| Charts.ChartOkMeans | src/finestvx/core/models.py:151-181 | A chart is well formed exactly when codes are unique, parents exist and every account reaches a root in fewer than n steps. |
| Charts.ChartPermuted | src/finestvx/core/models.py:151-181 | The verdict on a chart does not depend on the order of its accounts. |
| Periods.NeighboursSuffice | src/finestvx/core/models.py:201-210 | If each neighbour follows its predecessor, any two do. |
| Periods.NeighbourCheckDecides | src/finestvx/core/models.py:195-210 | Checking only neighbours after sorting by (start, end) is checking all pairs of the list as given for disjoint ranges. |
| Periods.FindDuplicate | src/finestvx/core/models.py:184-194 | Finds the first repeated fiscal period exactly when there is one. |
| Periods.FindOverlap | src/finestvx/core/models.py:201-210 | Finds the first neighbours that overlap exactly when there are some. |
| Periods.ValidatePeriodCollection | src/finestvx/core/models.py:184-210 | Accepts exactly the lists of distinct fiscal periods with pairwise disjoint ranges; otherwise names the first repeat, or else the first overlapping neighbours in date order. |
| Periods.PeriodsPermuted | src/finestvx/core/models.py:184-210 | The verdict does not depend on the order of the periods. |
| Balancing.TotalsByCurrency | src/finestvx/core/models.py:213-226 | The accumulation loop holds the filtered sum of every currency it met and of no other. |
| Balancing.ValidateTransactionEntries | src/finestvx/core/models.py:229-252 | Accepts exactly lists of two or more entries balanced in every currency; otherwise names, ascending, exactly the currencies with a non-zero signed sum. |
| Balancing.EntriesOkMeans | src/finestvx/core/models.py:229-252 | Accepted means at least two entries and signed sum zero in every currency there is, met or not. |
| Balancing.TotalPermuted | src/finestvx/core/models.py:213-226 | Totals do not depend on entry order. |
| Balancing.BalancePermuted | src/finestvx/core/models.py:229-252 | Acceptance does not depend on entry order. |
| Balancing.BookBalanced | src/finestvx/core/models.py:403-438 | A list of posted transactions has equal debits and credits per currency as a whole. |
| Text.StripTrims | src/finestvx/core/models.py:293-294 | Trimming removes exactly the whitespace at both ends. |
| Text.TrimIsUnique | src/finestvx/core/models.py:293-294 | No other text is the trimmed one. |
| Constructors.UpperLetters | src/finestvx/core/models.py:45-51 | Upper-casing maps the small letters onto the capitals and nothing else. |
| Constructors.AccountDecides | src/finestvx/core/models.py:291-309 | The constructor gives the account with texts trimmed and its currency in capitals exactly when that satisfies the rules; a refusal's reason is true of the arguments. |
| Constructors.EntryDecides | src/finestvx/core/models.py:346-383 | The same for entries: sign, currency, currency digits and tax rate. |
| Constructors.TransactionDecides | src/finestvx/core/models.py:403-438 | The same for transactions: no self-reversal, and balance when posted. |
| Constructors.BookDecides | src/finestvx/core/models.py:488-525 | The same for books: chart, periods, posted state, known accounts and known periods. |
| Model.MakeBook | src/finestvx/core/models.py:488-525 | A book whose only fault is an unknown period is refused for that. |
| Mapping.EntryRoundTrip | src/finestvx/core/serialization.py:90-114 | Decoding an entry's mapping gives the entry with canonical decimals, optional fields present or absent. |
| Mapping.TransactionRoundTrip | src/finestvx/core/serialization.py:117-145 | The same for transactions. |
| Mapping.AccountRoundTrip | src/finestvx/core/serialization.py:148-172 | The same for accounts. |
| Mapping.BookPeriodRoundTrip | src/finestvx/core/serialization.py:175-193 | The same for book periods. |
| Mapping.CanonicalBookOk | src/finestvx/core/models.py:488-525 | A valid book is still valid with its decimals in canonical form. |
| Mapping.BookMappingDecodes | src/finestvx/core/serialization.py:196-239 | Decoding the mapping of a book gives the canonical book, or the unknown-period fault exactly when a transaction names a period the book lacks. |
| Mapping.BookRoundTrip | src/finestvx/core/serialization.py:196-239 | Every valid book survives the mapping codec. |
| Payloads.MappingKeys | src/finestvx/core/serialization.py:90-207 | Every mapping has its keys and no others. |
| Payloads.EntryNeedsKey | src/finestvx/core/serialization.py:102-114 | An entry mapping that lacks a required key raises KeyError, one with None under it TypeError. |
| Payloads.EntryWithoutOptional | src/finestvx/core/serialization.py:102-114 | Without an optional key the entry comes back without that field. |
| Payloads.AccountNeedsKey | src/finestvx/core/serialization.py:161-172 | The same for accounts. |
| Payloads.AccountWithoutOptional | src/finestvx/core/serialization.py:161-172 | Without a parent there is none; without a flag it is true. |
| Payloads.TruthMeans | src/finestvx/core/serialization.py:170-171 | A flag is false only for None and empty or zero values. |
| Payloads.TransactionNeedsKey | src/finestvx/core/serialization.py:130-145 | The same for transactions. |
| Payloads.TransactionWithoutOptional | src/finestvx/core/serialization.py:130-145 | Without a period or a link there is none. |
| Payloads.BookPeriodNeedsKey | src/finestvx/core/serialization.py:185-193 | The same for book periods. |
| Payloads.BookNeedsKey | src/finestvx/core/serialization.py:210-239 | The same for books, every key of which is required. |
| Payloads.OnlyMappings | src/finestvx/core/serialization.py:30-35 | Whatever is no mapping raises TypeError. |
| Payloads.EnumsExact | src/finestvx/core/serialization.py:102-193 | Sides and states read from their own texts only; any other text is a value error. |
| Sequences.DecodeAllFails | src/finestvx/core/serialization.py:136-139 | A list of items fails with the fault of the first item that fails. |
| Xml.ToXml | src/finestvx/export/service.py:97-151 | Setting attributes and appending children in loops builds exactly the book's element tree. |
| Xml.EntryXmlRoundTrip | src/finestvx/export/service.py:223-233 | Parsing an entry's element gives the entry with canonical decimals. |
| Xml.TransactionXmlRoundTrip | src/finestvx/export/service.py:236-253 | The same for transactions, with and without period and reversal link. |
| Xml.AccountXmlRoundTrip | src/finestvx/export/service.py:256-275 | The same for accounts. |
| Xml.BookXmlRoundTrip | src/finestvx/export/service.py:256-313 | Every valid book survives the XML codec. |
| Xml.CodecsAgree | src/finestvx/export/service.py:97-151 | Both codecs give the same book back. |
| XmlSchema.ExportValid | src/finestvx/export/service.py:97-152 | Whatever the book, the exported tree is valid against the schema: sections in schema order, items of their sections' tags, required attributes there, no attribute beyond the optional ones, whole numbers where it wants them; and exactly the optional attributes of fields that are there. |
| XmlSchema.BookConforms | src/finestvx/export/ledger.xsd:1-77 | The same of the tree as a value. |
| XmlSchema.AbsentReadsAsDefault | src/finestvx/export/service.py:223-275 | An absent attribute reads as its default. |
| XmlSchema.AbsentStartMonth | src/finestvx/export/service.py:256-258 | An absent start month reads as January. |
| XmlSchema.IntegersAreRead | src/finestvx/export/service.py:236-290 | Every whole number without a plus sign is read; any other text is a value error. |
| Sorting.SortKeepsSorted | src/finestvx/persistence/store.py:401-503 | ORDER BY leaves rows that are in order as they are. |
| Sequences.SortMapped | src/finestvx/persistence/store.py:401-503 | Sorting rows by their text is sorting the values they stand for. |
| Store.SqliteLedgerStore.Execute | src/finestvx/persistence/schema.py:31-117 | One INSERT adds the row and its log row, or, when a key, check or link is violated, changes nothing. |
| Integrity.AdmittedIffSound | src/finestvx/persistence/schema.py:31-117 | In sound tables an insert is admitted if and only if the tables with its row satisfy every primary key, immediate foreign key and check. |
| Integrity.RunSound | src/finestvx/persistence/schema.py:31-117 | After every run, whatever values its commands carry, the tables satisfy every key, link and check, parent links included. |
| Audit.AppendFaithful | src/finestvx/persistence/schema.py:162-389 | An insert with its trigger adds one log row under the writer's context, numbered without a gap, and the log still rebuilds the tables. |
| Store.SqliteLedgerStore.Leave | src/finestvx/persistence/store.py:1048-1064 | A write commits when all rows went in and the deferred parent links hold; otherwise everything is rolled back. |
| Store.SqliteLedgerStore.InsertTransactionRows | src/finestvx/persistence/store.py:1182-1238 | The row and its numbered lines go in exactly when the whole statement list does. |
| Store.SqliteLedgerStore.CreateBook | src/finestvx/persistence/store.py:1066-1143 | The new committed database and the outcome are those of the specification from the old one, and the audit state is restored on success and on failure. |
| Store.SqliteLedgerStore.AppendTransaction | src/finestvx/persistence/store.py:1145-1180 | The same for appended transactions, with every refusal in its order; a refusal for an unknown account names the account code of the first entry on one. |
| Store.SqliteLedgerStore.WriteTransaction | src/finestvx/persistence/store.py:1173-1180 | The audit context is swapped in, the write is all or nothing, and the previous state is back on both paths. |
| Store.SqliteLedgerStore.AppendReversal | src/finestvx/persistence/store.py:1240-1374 | The same for reversals: original looked up, refused when unknown, already reversed or the reference is in use, else read back, inverted and written. |
| Store.SqliteLedgerStore.AppendLegislativeResult | src/finestvx/persistence/store.py:1444-1500 | One log row is added and no table changes. |
| Store.SqliteLedgerStore.Dispatch | src/finestvx/runtime/service.py:213-290 | Each command has exactly the effect and outcome of its specification; whether the file system takes a snapshot is an input. |
| Store.SqliteLedgerStore.LoadBook | src/finestvx/persistence/store.py:401-459 | One SELECT after the other, then the lines of one transaction after the other, read the book that the specification loads. |
| Store.SearchUnknown | src/finestvx/persistence/store.py:1168-1171 | Names a code exactly when it is the account code of an entry on no known account, all earlier entries being on known ones. |
| Commands.FirstUnknownIs | src/finestvx/persistence/store.py:1168-1171 | The same of the specification. |
| Ledgers.TransactionStep | src/finestvx/persistence/store.py:1182-1238 | In tables that represent a ledger, a postable transaction goes in with all its lines exactly when its reference is new to the book. |
| Ledgers.ParentsAreStored | src/finestvx/persistence/schema.py:57-59 | Charts without dangling parents pass the deferred link check at commit. |
| Refinement.BookRun | src/finestvx/persistence/store.py:1066-1143 | All rows of a new book go in exactly when its transaction references are distinct, for any account order. |
| Refinement.CreateRefines | src/finestvx/persistence/store.py:1066-1143 | Creating a valid book succeeds exactly when its code is new and its references are distinct; the tables then represent the ledger with that book, and otherwise the database is unchanged. |
| Outcomes.CreateOutcomes | src/finestvx/persistence/store.py:1066-1143 | Which books create_book takes, and that it touches no other book. |
| Outcomes.AppendOutcomes | src/finestvx/persistence/store.py:1153-1180 | When each refusal of append_transaction occurs, and exactly when it succeeds. |
| Outcomes.AppendAdds | src/finestvx/persistence/store.py:1182-1238 | A taken transaction comes last in its book and nothing else changes; a refused one changes nothing. |
| Outcomes.ReverseRefusals | src/finestvx/persistence/store.py:1270-1310 | When append_reversal says the book or transaction is unknown, already reversed, or the reference is in use. |
| Outcomes.ReverseOutcomes | src/finestvx/persistence/store.py:1298-1374 | Otherwise the trimmed reference decides; on success the reversal of the named transaction is added. |
| Outcomes.ReversalShape | src/finestvx/persistence/store.py:1347-1366 | A reversal has its original's moment and period, names it in link and description, and has each entry on the other side with everything else kept. |
| Refinement.AppendRefines | src/finestvx/persistence/store.py:1145-1180 | Appending to the tables is appending to the ledger, with the same refusals; a refused write changes nothing. |
| Refinement.PostRefines | src/finestvx/persistence/store.py:1173-1180 | One transaction in one SQL transaction fails only on a reference in use. |
| Refinement.ReverseRefines | src/finestvx/persistence/store.py:1240-1374 | Reversing through the rows is appending the mirrored transaction to the ledger, with the same refusals. |
| Refinement.ReversalRead | src/finestvx/persistence/store.py:1298-1366 | A stored original always reads back, and its reversal is built from what was read. |
| Refinement.TransactionPayloads | src/finestvx/persistence/store.py:1325-1346 | The rows of a stored transaction read as exactly the mapping it serializes to. |
| Refinement.InvertedBalance | src/finestvx/persistence/store.py:1347-1357 | Swapping sides negates the net of every currency, so balanced entries stay balanced. |
| Refinement.InvertTwice | src/finestvx/persistence/store.py:1347-1357 | Inverting twice gives the entries back. |
| Refinement.ApplyRefines | src/finestvx/runtime/service.py:213-290 | Every command refines the plain operation in effect and outcome; a refused one leaves tables and log as they were. |
| Refinement.RunRefines | src/finestvx/persistence/store.py:1048-1238 | After every run, failed commands included, the tables represent the run's ledger and every book in it satisfies its invariants. |
| Refinement.StoreBalanced | src/finestvx/persistence/store.py:1153-1156 | In every reachable store every transaction and every whole book has equal debits and credits per currency. |
| Loading.PayloadIsMapping | src/finestvx/persistence/store.py:323-398 | The rows of a stored book make exactly the mapping of that book with its parts in order. |
| Loading.LoadsStored | src/finestvx/persistence/store.py:401-503 | From tables that represent a ledger, loading gives the stored book; it fails only for an absent book or an unknown period, and says which. |
| Loading.LoadAfterRun | src/finestvx/persistence/store.py:401-503 | After every run, load_book succeeds exactly on the created books whose transactions name no period or one of the book's, and returns the created book with everything appended. |
| Loading.LoadIsSafe | src/finestvx/persistence/store.py:462-503 | Whatever is in the tables, a loaded book satisfies every rule of a book, the checks after decoding never find anything, and exactly type and value errors become integrity errors. |
| Loading.StepPeriods | src/finestvx/persistence/store.py:1145-1374 | After a successful command every book names known periods if and only if every book did before and an appended transaction names no period or one of its book; create_book and append_reversal always do. |
| Loading.EveryBookLoads | src/finestvx/persistence/store.py:401-503 | Every book of a run's store loads if and only if every append that succeeded named no period or one of its book. |
| Witnesses.UnloadableBook | src/finestvx/persistence/store.py:1153-1172 | A run after which load_book raises an integrity error: an appended transaction names a period the book lacks. |
| Queries.ApplyKeeps | src/finestvx/persistence/store.py:1048-1374 | No command touches the book, account and period rows of a book that is there or the lines of a transaction that is there, and transaction rows are only added. |
| Queries.AcrossConsistent | src/finestvx/persistence/store.py:401-459 | After any number of a load's queries, each on the store as it is then, the answers agree with the store that gave the transaction rows. |
| Queries.LoadsAcrossCommits | src/finestvx/persistence/store.py:401-459 | Whatever is committed between the queries of one load, it takes four queries and one for each transaction, and gives the load of the whole store as of the transactions query; or no book, when there was none at the first. |
| Loading.LoadedInOrder | src/finestvx/persistence/store.py:412-459 | No part of a loaded book is lost or added. |
| Loading.OrderedInLoadOrder | src/finestvx/persistence/store.py:412-459 | Accounts come by code, periods by start and end, transactions by posted_at text and reference. |
| Loading.OrderedOk | src/finestvx/core/models.py:488-525 | The rules of a book do not depend on the order of its parts. |
| Loading.TextOrderOfDates | src/finestvx/persistence/store.py:425-434 | The store's text order of periods is the calendar order. |
| Audit.ExecuteAllFaithful | src/finestvx/persistence/schema.py:162-389 | Statements that all go in leave one log row each, in order, under the writer's context, and the log still rebuilds the tables. |
| Audit.ApplyFaithful | src/finestvx/persistence/store.py:1048-1064 | Every command keeps the old log as a prefix and adds only rows of its own context; a command that raises leaves tables and log as they were. |
| Audit.RunFaithful | src/finestvx/persistence/schema.py:118-131 | In every reachable store, replaying the INSERT rows rebuilds all five tables exactly, and seq runs from 1 without a gap. |
| Audit.EarlierLogIsPrefix | src/finestvx/persistence/schema.py:118-131 | Each earlier log is a prefix of every later one. |
| Audit.EveryRowAttributed | src/finestvx/persistence/store.py:984-1000 | Every log row carries the actor, reason and session of the one successful command that wrote it. |
| Audit.ResultsInRuns | src/finestvx/persistence/store.py:1444-1500 | The RESULT rows of the log are the legislative results handed in, all of them, in order, under their own contexts. |
| Audit.IterAuditLogPages | src/finestvx/persistence/store.py:1410-1442 | With commits between queries, the pages hold in order, without repeat or gap, the rows beyond start_seq of the log the last query met; pages are non-empty and within the size; without commits it ends after ceil(n / size) + 1 queries. |
| Audit.PagesOfRun | src/finestvx/persistence/store.py:1410-1442 | The same while a run of commands commits between the queries: the pages are the log's rows from start_seq on as of the last query. |
| Reversals.LinkedAppend | src/finestvx/persistence/store.py:1270-1374 | Appending keeps links injective and backward exactly when the new link is free. |
| Reversals.StepLinked | src/finestvx/persistence/store.py:1145-1374 | A successful command keeps links in order if and only if the link it carries is free; append_reversal always does. |
| Witnesses.DanglingLink | src/finestvx/persistence/store.py:1153-1172 | A run in which append_transaction takes a link to a transaction the book lacks, after which links are out of order. |
| Reversals.RunChained | src/finestvx/persistence/store.py:1270-1374 | In runs where only append_reversal sets links, each link is a mirror of an earlier transaction of the book and none is reversed twice. |
| Reversals.ChainsAreLines | src/finestvx/persistence/store.py:1289-1298 | Chains are disjoint finite lines: a root and a depth belong to one transaction. |
| Reversals.ReversalEffect | src/finestvx/persistence/store.py:1347-1366 | A reversal has the opposite effect on every account and currency. |
| Reversals.ReversedReversal | src/finestvx/persistence/store.py:1347-1366 | Reversing a reversal posts the original entries again. |
| Reversals.ChainCancels | src/finestvx/persistence/store.py:1347-1366 | Along a chain the joint effect is the original's after an even number of reversals and zero after an odd one. |
| Reversals.ReversalsInRuns | src/finestvx/persistence/store.py:1270-1374 | The same for every book of every such run. |
| Runtime.StepInOrder | src/finestvx/runtime/service.py:292-312 | Every step keeps: commands put are those dispatched, then the one in hand, then the queue. |
| Runtime.StepExclusion | src/finestvx/runtime/service.py:197-203 | Every step keeps: the holders of the lock are the calls inside their blocks, and a close call holds it alone. |
| Runtime.StepOwned | src/finestvx/runtime/service.py:303-312 | Every step keeps: each queued command belongs to one call, and a call returns only its own future's result. |
| Runtime.StepAnswered | src/finestvx/runtime/service.py:213-290 | Every step keeps: exactly the dispatched commands are resolved, each with its own outcome, and the thread has not died. |
| Runtime.StepReads | src/finestvx/runtime/service.py:375-378 | Every step keeps: what a read has gathered so far agrees with one earlier store, whatever the writer commits between its queries. |
| Runtime.StepDraining | src/finestvx/runtime/service.py:292-302 | Every step keeps: the loop has ended only after the stop flag, with all commands put by then dispatched. |
| Runtime.StepsInvariant | src/finestvx/runtime/service.py:158-312 | All of these hold in every state of every interleaving. |
| Runtime.WritesAreSequential | src/finestvx/runtime/service.py:292-302 | In every interleaving the store is the one after the dispatched commands one at a time, in the order of the puts; no call is dispatched twice. |
| Runtime.ResultsAreOwn | src/finestvx/runtime/service.py:213-290 | A call that returns has the outcome of its own command at its own place in the order, store errors included. |
| Runtime.RealTimeOrder | src/finestvx/runtime/service.py:303-312 | A call that returned before another began comes before it in the order, and no future is resolved twice. |
| Runtime.ReadsAreLoads | src/finestvx/runtime/service.py:375-378 | A finished read, query by query among the writer's steps, has the load of the store after some number of dispatched commands, no fewer than when it took the lock. |
| Runtime.ReadsSeeEarlierWrites | src/finestvx/runtime/service.py:375-378 | A write that had returned before a read began comes, with its outcome, before the cut whose load the read has. |
| Replies.ResolvedCallReturns | src/finestvx/runtime/service.py:303-312 | A waiting call whose future is resolved returns with the outcome of its own command at its own place in the order. |
| Replies.CallEnds | src/finestvx/runtime/service.py:303-312 | Only giving up times a call out, only taking its result returns it, only its own query ends a read. |
| Replies.DispatchedAsBegun | src/finestvx/runtime/service.py:314-330 | Every dispatched command is the one its caller handed in. |
| Replies.WaitingCanReturn | src/finestvx/runtime/service.py:292-312 | While the writer has not ended, a waiting call can return after steps of the writer alone. |
| Replies.NoResultAfterExit | src/finestvx/runtime/service.py:292-312 | Once the writer has ended no future is resolved any more. |
| Replies.ReadCanFinish | src/finestvx/runtime/service.py:375-378 | A read on an open store can finish, query by query. |
| Replies.FailedReadsMetClosedStore | src/finestvx/runtime/service.py:375-378 | Only a closed store makes a read fail. |
| Replies.CallsCanTimeOut | src/finestvx/runtime/service.py:303-312 | A caller can fail to get the lock and can give up waiting, and nothing but its own record and its hold on the lock changes. |
| Runtime.JoinDrains | src/finestvx/runtime/service.py:193-203 | A close call whose join did not time out has every command dispatched, and only sentinels queued, if and only if when it got the lock the thread was still running or the queue held only sentinels; with the stop flag clear it was still running. |
| Runtime.RuntimeSound | src/finestvx/runtime/service.py:158-312 | Under any interleaving the served store represents a valid, balanced ledger, and its log replays to its tables. |
| Shutdown.WriterNeverStuck | src/finestvx/runtime/service.py:292-302 | The writer can move in every reachable state until it has ended: no failing command stops it. |
| Shutdown.MovesAreBounded | src/finestvx/runtime/service.py:292-302 | After the stop flag each writer step pays one of a rank, and each put brings at most five. |
| Shutdown.LoopEndsInBound | src/finestvx/runtime/service.py:292-302 | After the stop flag the writer moves at most 5 (queued + put later) + 4 times, and has ended when it has moved so often. |
| Shutdown.CanClose | src/finestvx/runtime/service.py:193-203 | A close call that can get the lock can drain the writer, close the store, end the runtime and give the lock back. |
| Shutdown.CloseCloses | src/finestvx/runtime/service.py:193-203 | A close call that is over, and a runtime that is not started, have a closed store. |
| Shutdown.ClosedStoreStays | src/finestvx/persistence/store.py:828-834 | Nothing reaches a closed store. |
| Shutdown.ClosedRefuses | src/finestvx/persistence/store.py:828-834 | On a closed store every valid command fails for that, a draft for being one. |
| Shutdown.CloseCanTimeOut | src/finestvx/runtime/service.py:193-203 | A close call can fail to get the lock, which changes nothing else; after a join that times out it still closes the store. |
| Shutdown.SecondCloseLosesCommand | src/finestvx/runtime/service.py:193-203 | A run in which a second close call joins with a command queued that nobody dispatches. |
| Writer.LedgerRuntime.DispatchCommand | src/finestvx/runtime/service.py:213-290 | The store changes as the command says and the future gets its result or its error. |
| Writer.LedgerRuntime.WriterLoop | src/finestvx/runtime/service.py:292-302 | With whatever other threads put between its rounds until the flag is set, the loop empties the queue, applies every command in order and answers each with its own outcome; other futures keep theirs. |
| Writer.LedgerRuntime.Close | src/finestvx/runtime/service.py:193-203 | Setting the flag and joining answers every command put before. |
| Readers.PoolConserved | src/finestvx/persistence/store.py:1002-1031 | In every interleaving, timeouts included, idle and held readers together are the configured readers. |
| Readers.HeldOnce | src/finestvx/persistence/store.py:1002-1013 | No reader is with two borrowers, nor borrowed while idle. |
| Readers.PutNeverWaits | src/finestvx/persistence/store.py:1013-1031 | Giving a reader back never overfills the queue. |
| Readers.FullAgain | src/finestvx/persistence/store.py:1015-1031 | With no borrower left the pool is full again. |
| Readers.AllMeansAll | src/finestvx/persistence/store.py:1015-1031 | A caller inside its borrow-all block has every reader and nobody else has any. |
| Readers.CanMove | src/finestvx/persistence/store.py:1002-1031 | Every borrower that is not gone can take a step that brings it nearer to being gone and touches no other. |
| Readers.CanFinish | src/finestvx/persistence/store.py:1002-1031 | From every state every borrower can finish. |
| Readers.CanFill | src/finestvx/persistence/store.py:1002-1031 | From every state there is a way on which all borrowers are gone and the pool is full. |
| Readers.CanCollect | src/finestvx/persistence/store.py:1015-1028 | A collector left alone with the rest of the readers gets into its block with all of them. |
| Readers.OneIsLent | src/finestvx/persistence/store.py:1002-1011 | A single borrower that comes to an idle reader gets the one at the head of the queue. |
| Readers.InQueueOrder | src/finestvx/persistence/store.py:1015-1031 | Readers are lent from the head and given back at the tail, the last one first. |
| Readers.TimeOutMeansEmpty | src/finestvx/persistence/store.py:1005-1027 | A timeout means that no reader was idle. |
| Rounding.RoundEurIsHalfUp | src/finestvx/legislation/lv/standard_2026.py:51-63 | The decimal algorithm computes half-up rounding of the value, with exactly two fractional digits. |
| Rounding.RoundEurIdempotent | src/finestvx/legislation/lv/standard_2026.py:51-63 | Rounding twice is rounding once. |
| Rounding.RoundEurLaws | src/finestvx/legislation/lv/standard_2026.py:51-63 | Rounding is within half a cent, monotone and odd. |
| Rounding.RoundedShares | src/finestvx/legislation/lv/standard_2026.py:51-63 | Rounding each of n shares moves their sum by at most n half cents. |
| Rounding.RoundedSharesTo | src/finestvx/legislation/lv/standard_2026.py:51-63 | The same for half-up rounding to any number of digits. |
| Rounding.RoundToCents | src/finestvx/legislation/lv/standard_2026.py:51-63 | To two digits it is rounding to cents. |
| Reports.ValidateTransaction | src/finestvx/validation/service.py:81-106 | The balance fault alone exactly when the entries do not balance; otherwise one finding for each entry on no known account, in ascending position, naming its code. |
| Reports.ValidateBook | src/finestvx/validation/service.py:54-78 | One block for each transaction in order, its own findings and then its unknown accounts under its reference; empty exactly when chart, balances and account references are all in order. |
| Reports.EveryFaultShows | src/finestvx/validation/service.py:54-78 | Every unbalanced transaction and every entry on an unknown account shows in the book's report. |
| Reports.BookOkIsClean | src/finestvx/validation/service.py:54-78 | A constructed book draws no finding. |
| Reports.ValidateFxConversion | src/finestvx/validation/service.py:238-311 | No finding exactly when the rate is positive and finite, both totals are non-zero and base times rate is within one last-digit unit of the counter total; otherwise exactly the faults there are. |
| Reports.RateOkMeans | src/finestvx/validation/service.py:261-270 | The rates that pass are the positive finite ones. |
| Reports.ToleranceIsUnit | src/finestvx/validation/service.py:296-298 | The tolerance is one unit of the counter currency's last digit, for any number of digits. |
| Reports.TwoSharesAccepted | src/finestvx/validation/service.py:294-298 | A counter total made of one or two shares, each rounded half-up to the counter currency's own digits, is always accepted. |
| Reports.TwoCentSharesAccepted | src/finestvx/validation/service.py:294-298 | So is one made of shares rounded to cents, for currencies of at most two digits. |
| Reports.MoreSharesCanFail | src/finestvx/validation/service.py:294-298 | For every larger number of shares and every pair of currencies, whatever the counter currency's digits, there is a valid transaction whose counter total is that many rounded shares and which is refused. |

## Left out

- SQLite itself: WAL, pragmas, reserve bytes, VACUUM, snapshots' files and compression. Kept are atomic commit and rollback, key, link and check rules, trigger firing, and queries that see the data committed when they run.
- FTLLexEngine's own checks: required text is trimmed, refused with a value error when blank and with a type error when it is no text, optional text may be absent but not blank, quarters are 1 to 4, months and start months 1 to 12. The currency table is a parameter. `RWLock` is a shared and exclusive lock without a preference.
- Timestamps are their ISO text; reading an arbitrary timestamp text is not modelled.
- Decimals: no NaN, infinity, negative zero or exponent notation, and totals are exact, so the 28-digit context is not modelled. Only canonical texts of dates are read, and of integers only digits after at most a minus sign. Upper-casing covers ASCII letters.
- Audit rows: the key text, the clock value and the BLAKE2 signature, which are functions of the row or of the clock; the row's JSON text is the row itself. Write receipts and their changesets.
- The width of SQL integers: row ids and years are unbounded.
- Update and delete triggers: no modelled operation updates or deletes.
- Async readers, replicas, telemetry, trace and profile buffers, debug snapshots: observability, or duplicates of the read path.
- Routing over several runtimes, the service facade, the pack registry and the VAT rule: one-branch checks.
- CSV and PDF export, the XSD, and the text layer of XML and JSON; element, attribute and key names are constructors of enumerations.
- FTL resource validation and localization.
- Writer.LedgerRuntime.WriterLoop: what other threads put is an argument that arrives before each round; steps of clients inside a round are those of `Runtime`, where commands and results live in values and not in shared objects.
- Writer.LedgerRuntime.Close: no join timeout and no closed state of the store object; a join that times out, a closed store and what commands meet on it are in `Runtime`.
- Runtime.JoinDrains: closing a store that is closed already succeeds in the model; the code first runs a pragma on the closed connection (src/finestvx/persistence/store.py:830-832), which APSW may refuse, so that a second close call raises. The lock is released and the store is closed either way.
- Runtime.StepsInvariant: a result and the release of the lock are one step of a client, and so are the last query of a read and the release; a put never waits, since the queue is unbounded. Reads other than load_book are single queries and have no steps of their own.
- Reports.ValidateTransaction: findings carry their codes and subjects, not message texts, severity or source.
