# Ticket creation and report engine, modelled in Dafny

This project models the two pieces of the accounting back end that make
decisions.

**Ticket creation** (`TicketsController.create` and `buildTicketDto`):
- each ticket type fixes a category, a primary role and an optional fallback role;
- the company's users holding those roles are fetched newest first;
- an address change is refused while one is already open;
- the assignee is chosen with the "no user" and "several users" conflicts;
- a strike-off resolves every open ticket of the company and inserts the new ticket in one transaction.

The ticket table is the `tickets` field of the class `Tickets.TicketsController`. `Create` changes it exactly as `StoreAfterCreate` describes, or leaves it untouched on a conflict.

**The report engine** (`ReportsService`):
- the `states` and `metrics` tables with `state` and `getMetrics`;
- the transitions of a run: start, a progress update after each file, completion, failure;
- the file loop each report runs, including the blank-line skip of the line reader;
- the three row handlers: balance per account, Cash per year, and the fixed 20-account financial statement;
- the output builders with their running totals.

The state tables are fields of the class `ReportsService.ReportsService`. The line handlers, the folds over lines and files, and the text of each report are functions in `ReportRows`. The JavaScript behaviour the reports depend on is in `Text`:
- `split(',')` and `trim()`;
- `String(n)` for the year keys;
- the default `sort()` order;
- the order `Object.entries` lists the keys of a plain object.

Modelling choices:
- **Amounts.** Amounts are integers, for example cents. The three number conversions are the fields of a `Codec` value:
  - `parseFloat` of a non-empty field;
  - `toFixed(2)`;
  - the year `new Date(s).getFullYear()` gives, or none where that is NaN.
- **Inputs of a run.** These are parameters:
  - clock readings;
  - the listing of `tmp/`, with each entry's lines or its read error;
  - the outcome of the final write.
- **Run results.** A run returns the lines of the report it writes. The file holds those lines joined by newlines (`Text.Join`). Splitting that text at the newlines gives the lines back when no line holds a newline (`Text.JoinSplit`); joining the fields of any split gives back the string (`Text.SplitJoin`).
- **Users.** Users carry a `createdAt` rank, and the newest-first order is a stable insertion sort on it.

Where the code and its surrounding documentation differ, the model follows the code:
- **Accounts order.** The accounts report lists accounts in `Object.entries` order, not plainly first-seen. Account names that look like array indices (`"1000"`) come first, ascending, and the others follow in first-seen order (`Text.IndexKeyListedFirst`, `Text.JsOwnKeyOrderShape`).
- **filesProcessed.** `metrics.filesProcessed` counts every `.csv` entry of `tmp/`, including `yearly.csv` and `fs.csv`, which two of the reports skip (`ReportsService.CsvCount`).
- **Start is unguarded.** A run may start from any state, including one that is already processing.
- **The balance line.** The statement's final line prints total assets beside total liabilities plus total equity. Every balance is debit − credit, so on a balanced ledger the two sides differ unless total assets equal −(total expenses). For example, Cash debited 100 and Common Stock credited 100 prints `100 = -100` (`ReportRows.BalanceLineCounterexample`). In general the right side is −(total assets) − 2·(total expenses) (`ReportRows.BalanceLineSides`). The code does not claim the two sides are equal, so this is stated as behaviour, not as a defect.

## Model

| member | source | states |
|---|---|---|
| Tickets.CandidateUsers | src/tickets/tickets.controller.ts:56-64 | the fetched users are exactly the company's users holding the primary or the fallback role, with multiplicity, ordered newest first |
| Tickets.PolicyFor | src/tickets/tickets.controller.ts:41-52 | only an address change has a stand-in role, the director, which differs from its primary role; only a management report files under accounting |
| Tickets.ErrorMessage | src/tickets/tickets.controller.ts:87-126 | the three conflict texts (87-89, 113-115, 124-126); the role text of a "no user" message and the role of a "several users" message read back from the message |
| Tickets.ExistingTickets | src/tickets/tickets.controller.ts:65-77 | no tickets for a management report; otherwise exactly the company's open tickets, narrowed to address changes for an address change |
| Tickets.WithRole | src/tickets/tickets.controller.ts:94-105 | the role filter keeps exactly the users with that role and keeps newest-first order |
| Tickets.CompanyUsers | src/tickets/tickets.controller.ts:58-62 | the reference set of the company's users with one role, as a multiset of the user table |
| Tickets.NewerFirstIsTotal | src/tickets/tickets.controller.ts:63 | ordering by `createdAt` descending is a total preorder, so the sort is well defined |
| Tickets.CandidatesWithRole | src/tickets/tickets.controller.ts:56-64 | narrowing the fetched users to one policy role gives the company's users of that role (same multiset and count), and the first of them is the most recently created |
| Tickets.DuplicateDetection | src/tickets/tickets.controller.ts:82-91 | `create` fails as a duplicate if and only if the type is an address change and the company already has an open one; the check comes before any assignee check |
| Tickets.IsDuplicate | src/tickets/tickets.controller.ts:82-91 | the duplicate check on the fetched tickets holds exactly when an address change is requested and the company already has an open one in the table |
| Tickets.ChooseAssignee | src/tickets/tickets.controller.ts:93-129 | the decision from the fetched users never reports a duplicate, and a chosen assignee is one of those users and holds the primary or the stand-in role |
| Tickets.Assignment | src/tickets/tickets.controller.ts:82-129 | a chosen assignee is a user of the table, belongs to the ticket's company and holds the type's primary or stand-in role |
| Tickets.ManagementReportAssignment | src/tickets/tickets.controller.ts:94-129 | with no accountant it fails with "no user, role accountant"; otherwise it succeeds with the newest accountant and never fails on multiplicity |
| Tickets.AddressChangeAssignment | src/tickets/tickets.controller.ts:98-127 | one corporate secretary gets it; several is a multiple-users conflict; a director stands in only when there is no secretary (one director succeeds, several conflict); with neither it fails with "corporateSecretary or director" |
| Tickets.StrikeOffAssignment | src/tickets/tickets.controller.ts:108-127 | a strike-off needs exactly one director: none fails with "director", several is a multiple-users conflict, one is assigned |
| Tickets.ResolveIds | src/tickets/tickets.controller.ts:138-146 | the bulk status update keeps the table's length |
| Tickets.ResolvedIdsAreTargets | src/tickets/tickets.controller.ts:137-146 | with unique ids, resolving by the ids of the company's open tickets cannot hit any other ticket |
| Tickets.StrikeOffCascade | src/tickets/tickets.controller.ts:132-163 | after a strike-off each of the company's open tickets is resolved, every other ticket is unchanged, none is removed, the new ticket is appended, and it is the company's only open ticket |
| Tickets.CreateAppendsTicket | src/tickets/tickets.controller.ts:149-173 | a successful create appends one open ticket with the next id, the requested type, the chosen assignee and the category of its type (accounting, management or corporate); outside a strike-off the earlier tickets are unchanged |
| Tickets.NewTicket | src/tickets/tickets.controller.ts:150-159 | the inserted row is open, carries the given id, type, company and assignee, and files under its type's category |
| Tickets.StoreAfterCreate | src/tickets/tickets.controller.ts:132-173 | the table grows by exactly the new ticket, at the end; every earlier ticket is unchanged, except that a strike-off may mark it resolved |
| Tickets.BuildTicketDto | src/tickets/tickets.controller.ts:178-187 | the response carries every column of the stored row, so the row can be read back from it |
| Tickets.CreatePreservesInvariant | src/tickets/tickets.controller.ts:82-173 | every successful create keeps ids unique and below the counter, categories matching their types, and at most one open address change per company |
| Tickets.AppendPreservesInvariant | src/tickets/tickets.controller.ts:167-173 | inserting a ticket with the next id keeps the table invariant unless it would be a second open address change |
| Tickets.ResolvePreservesInvariant | src/tickets/tickets.controller.ts:138-146 | resolving tickets changes statuses only, so the table invariant holds afterwards |
| Tickets.TicketsController.Create | src/tickets/tickets.controller.ts:33-187 | on a conflict from `Assignment` the same error is returned and the table and counter are unchanged; otherwise the table becomes `StoreAfterCreate`, the counter advances by one, the returned DTO carries the stored ticket's fields, and the table invariant is kept |
| ReportRows.EntryLines | src/reports/reports.service.ts:96-99 | one `name,amount` line per key, in key order, each showing that key's balance or 0 |
| ReportRows.RowKey | src/reports/reports.service.ts:75-233 | one key function for the three line handlers (75-84, 129-140, 227-233): a booked row has an account field; the accounts and statement reports key it by that field, the statement only when its table already holds that account, and the yearly report books only `Cash` rows |
| ReportRows.Book | src/reports/reports.service.ts:77-83 | booking adds `delta` to that key's balance (an unseen key starting at 0), adds the key to the table, counts one more record, and leaves the key order alone for a key already held |
| ReportRows.HandleLine | src/reports/reports.service.ts:74-85 | one line books at most one record |
| ReportRows.StreamLine | src/reports/reports.service.ts:377-382 | skipping a blank line gives the same accumulator as handing it to the report's handler |
| ReportRows.FoldLines | src/reports/reports.service.ts:71-86 | reading lines books at most one record per line |
| ReportRows.FoldFiles | src/reports/reports.service.ts:71-93 | reading the files never lowers the record count |
| ReportRows.BlankHasNoComma | src/reports/reports.service.ts:380 | a line that trims to empty contains no comma |
| ReportRows.BlankLinesAreInert | src/reports/reports.service.ts:377-382 | skipping blank lines changes no report, because no handler books a blank line |
| ReportRows.StatementAccountsDistinct | src/reports/reports.service.ts:170-200 | the statement's taxonomy names 20 distinct accounts |
| ReportRows.InitialConsistent | src/reports/reports.service.ts:202-209 | each report starts well formed with no records: the accounts and yearly tables are empty, the statement's holds exactly its 20 accounts, in taxonomy order, each at 0 |
| ReportRows.FoldLinesAppend | src/reports/reports.service.ts:71-86 | reading lines `a` then `b` is reading `a + b`, for the handlers and for the reference postings |
| ReportRows.FoldFilesConcat | src/reports/reports.service.ts:71-93 | reading the files one after another is reading their concatenated lines |
| ReportRows.StreamLineBooksPosting | src/reports/reports.service.ts:74-85 | one line changes a well-formed accumulator by exactly the posting the reference gives that line, and keeps it well formed |
| ReportRows.FoldLinesMatchesPostings | src/reports/reports.service.ts:71-86 | over any lines, each key's balance grows by the sum of its postings, the record count by the number of postings, and the key order by the newly seen keys in order of first appearance |
| ReportRows.RunTotals | src/reports/reports.service.ts:71-93 | after a run, each key's balance is Σ(debit − credit) over the rows booked under it, `totalRecords` is the number of booked rows, and the keys are the booked keys in first-seen order, each once |
| ReportRows.RunConservesAmounts | src/reports/reports.service.ts:80-82 | nothing booked is lost or counted twice: the balances of all held keys add up to Σ(debit − credit) over every booked row |
| ReportRows.AppendNewFirstSeen | src/reports/reports.service.ts:77-79 | every accumulated key was booked, and the keys appear in the order of their first booking |
| ReportRows.AccountsRowKey | src/reports/reports.service.ts:75-84 | an accounts row is booked exactly when its account field exists and is not blank; it is keyed by the untrimmed field, with debit − credit and missing fields counted as 0 |
| ReportRows.EntryLinesShowTotals | src/reports/reports.service.ts:96-99 | when every balance is its key's posting total, each printed line shows that total |
| ReportRows.AccountsReportContents | src/reports/reports.service.ts:95-99 | the accounts output is the header and then one line per booked account, each once, in `Object.entries` order of the first-seen keys, each with the sum of its rows |
| ReportRows.AccountsReport | src/reports/reports.service.ts:95-99 | the header and one line per created account, with a line showing each account's balance |
| ReportRows.YearlyRowKey | src/reports/reports.service.ts:129-141 | a yearly row is booked exactly when its account is `Cash`, its date is non-empty and yields a year; the key is that year's decimal spelling |
| ReportRows.StatementRowKey | src/reports/reports.service.ts:227-233 | a statement row is booked exactly when its account field is one of the 20 accounts; the key is that field and the amount debit − credit |
| ReportRows.YearsSorted | src/reports/reports.service.ts:154-155 | `Object.keys(...).sort()` gives the same keys, sorted character by character (code-point order) |
| ReportRows.YearlyReportOrder | src/reports/reports.service.ts:153-158 | the yearly report lists exactly the booked year keys, each once, ascending |
| ReportRows.YearlyReportContents | src/reports/reports.service.ts:152-158 | each yearly line after the header shows a year with the sum of its Cash rows |
| ReportRows.YearlyReport | src/reports/reports.service.ts:152-158 | the header and one line per created year, with a line showing each year's balance |
| ReportRows.StatementKeysFixed | src/reports/reports.service.ts:202-233 | the statement never holds keys other than its 20 accounts, and their order stays the taxonomy order |
| ReportRows.StatementPostingsKnown | src/reports/reports.service.ts:227-233 | every row the statement books is under one of its 20 accounts |
| ReportRows.StatementListsEveryAccount | src/reports/reports.service.ts:245-297 | the statement has 37 lines and prints every one of its 20 accounts, zero balances included |
| ReportRows.StatementReport | src/reports/reports.service.ts:244-297 | the statement always has 37 lines |
| ReportRows.BalanceLineSides | src/reports/reports.service.ts:289-297 | on a balanced ledger, total liabilities plus the printed total equity (equity plus net income) is −(total assets) − 2·(total expenses) |
| ReportRows.BalanceLineCounterexample | src/reports/reports.service.ts:295-297 | a balanced two-row ledger prints `Assets = Liabilities + Equity, 100 = -100` |
| Text.Split | src/reports/reports.service.ts:75 | `split(',')` returns at least one field, and no field contains a comma |
| Text.SplitJoin | src/reports/reports.service.ts:101 | joining the fields of a split with the separator gives back the original string |
| Text.JoinSplit | src/reports/reports.service.ts:101 | splitting fields joined with a separator that none of them contains gives back the fields |
| Text.NatToDecimal | src/reports/reports.service.ts:133 | `String(n)` is a non-empty string of digits with no leading zero |
| Text.IntToDecimalRoundTrip | src/reports/reports.service.ts:133 | the decimal spelling of a year reads back as that year |
| Text.IntToDecimalInjective | src/reports/reports.service.ts:133 | distinct years get distinct keys |
| Text.CodePointOrderIsTotal | src/reports/reports.service.ts:155 | the default `sort()` order is a total preorder |
| Text.CodePointLeAntisymmetric | src/reports/reports.service.ts:155 | two strings that each sort no later than the other are equal |
| Text.JsOwnKeyOrderPermutation | src/reports/reports.service.ts:97 | `Object.entries` lists each key exactly once |
| Text.JsOwnKeyOrderShape | src/reports/reports.service.ts:97 | array-index keys come first in ascending numeric order, then every other key in creation order |
| Text.NamedKeysKeepCreationOrder | src/reports/reports.service.ts:97 | when no key looks like an array index, keys are listed in creation order |
| Text.IndexKeyListedFirst | src/reports/reports.service.ts:97 | an array-index key created after `Cash` is still listed before it |
| ReportsService.RoundHalfUp | src/reports/reports.service.ts:401 | `Math.round` returns the integer within one half of its argument, halves rounding up |
| ReportsService.RoundHalfUpMonotone | src/reports/reports.service.ts:401 | rounding never reverses order |
| ReportsService.ProgressMonotone | src/reports/reports.service.ts:88-89 | the progress after file i of n is at most the progress after file j for i ≤ j |
| ReportsService.ProgressRange | src/reports/reports.service.ts:88-89 | the progress stays within 0..100 and is 100 after the last file |
| ReportsService.ProgressedAgain | src/reports/reports.service.ts:399-406 | a later progress update overrides the progress and record count of an earlier one |
| ReportsService.Progressed | src/reports/reports.service.ts:399-406 | an update sets the progress to `Math.round` of the percentage and, when one is given, the record count, and changes nothing else; a percentage in 0..100 gives a progress in 0..100 |
| ReportsService.Started | src/reports/reports.service.ts:308-313 | a started run is processing at progress 0 with 0 records from the start time, with no end time and no error |
| ReportsService.Finished | src/reports/reports.service.ts:327-334 | a completed run is at 100 with its start and end times, their difference as duration, its record count and no error |
| ReportsService.Failed | src/reports/reports.service.ts:345-351 | a failed run is at 0 with the message and the end time, and keeps no start time or record count |
| ReportsService.Inputs | src/reports/reports.service.ts:211-213 | the files a report reads are exactly the listed entries ending in `.csv`, minus the report's own output name for yearly and fs |
| ReportsService.InputsKeepListingOrder | src/reports/reports.service.ts:211-213 | the input files keep the listing's order: the inputs of two listings laid end to end are the first one's followed by the second one's, and one entry is kept exactly when it is an input |
| ReportsService.CsvCount | src/reports/reports.service.ts:340 | `filesProcessed` is the number of `.csv` entries, which is exactly the number of files the accounts report reads and at least the number each other report reads |
| ReportsService.FailureIndex | src/reports/reports.service.ts:223-235 | a loop stops at the first unreadable file: every earlier file is readable |
| ReportsService.LoopEndsAtFullProgress | src/reports/reports.service.ts:71-93 | a loop that reads every file ends processing, at progress 100 if there were files, with `recordsProcessed` the number of booked rows |
| ReportsService.RunResultWritten | src/reports/reports.service.ts:319-343 | a run writes its report exactly when every input file was read and the write succeeded; it then reports the rows of all files and counts each booked row once |
| ReportsService.RunResult | src/reports/reports.service.ts:303-362 | a listing error aborts with its message, a write error aborts the run, and a written run read every input with the accumulator of the file loop |
| ReportsService.ReportsService.constructor | src/reports/reports.service.ts:29-35 | `accounts`, `yearly` and `fs` start idle at progress 0; every name reads as idle and no name has metrics |
| ReportsService.ReportsService.State | src/reports/reports.service.ts:37-39 | the recorded state of a name, or idle at 0 for a name without one |
| ReportsService.ReportsService.GetMetrics | src/reports/reports.service.ts:41-43 | a name's metrics if it has any, otherwise none (`null`) |
| ReportsService.ReportsService.Start | src/reports/reports.service.ts:308-313 | whatever the prior state, the report is processing at progress 0 with 0 records from the start time, with no error or end time; metrics unchanged |
| ReportsService.ReportsService.UpdateProgress | src/reports/reports.service.ts:399-406 | a known name gets the rounded progress and, if one is given, the record count; an unknown name changes nothing |
| ReportsService.ReportsService.Complete | src/reports/reports.service.ts:327-343 | completed at 100 with start, end and elapsed time; `recordsProcessed` is the count from the last progress update, and the metrics entry records the same count and the `.csv` count of the listing |
| ReportsService.ReportsService.Fail | src/reports/reports.service.ts:345-351 | error at progress 0 with the message and the end time; metrics unchanged |
| ReportsService.ReportsService.ProcessFiles | src/reports/reports.service.ts:71-93 | the file loop ends with the accumulator of all files read, or the first read error; the state is the one after a progress update per file read |
| ReportsService.StreamFile | src/reports/reports.service.ts:364-397 | streaming one file applies the report's handler to each non-blank line in order |
| ReportsService.ReportsService.ProcessListed | src/reports/reports.service.ts:223-243 | a read error puts the report in the error state; otherwise the state holds the number of booked rows |
| ReportsService.ReportsService.Finish | src/reports/reports.service.ts:321-351 | after all files were read: a failed write ends in the error state; otherwise the report's lines are written and the run completes with the booked-row count |
| ReportsService.ReportsService.Run | src/reports/reports.service.ts:303-362 | a whole run ends as `RunResult` says: aborted with the listing, read or write error in the error state, or completed with the report of all rows written and the metrics recorded |
| ReportsService.PushGroup | src/reports/reports.service.ts:251-255 | the push loop appends one line per account of the group and returns the group's total |
| ReportsService.BuildIncomeStatement | src/reports/reports.service.ts:245-262 | the income statement's lines, and net income = revenues − expenses |
| ReportsService.BuildBalanceSheet | src/reports/reports.service.ts:263-297 | the balance sheet's lines with total equity = equity accounts + net income, and the balance line |
| ReportsService.BuildStatement | src/reports/reports.service.ts:244-297 | the statement's output is exactly `StatementReport` |
| ReportsService.BuildReport | src/reports/reports.service.ts:95-99 | each report's output is exactly its `Report` lines: the accounts or yearly header with one line per key, or the statement |

## Left out

- **The HTTP layer.** Routing, the `findAll` listing with eager loading, and the report controller are not part of this model.
- **Database mechanics.** The Sequelize queries, the parallel `Promise.all` fetch and the transaction are left out. The strike-off cascade is one atomic update of the ticket table. The auto-increment id is the `nextId` counter.
- **Concurrency.** The race between concurrent creates is not modelled, and neither are two runs of a report that overlap. The background `setImmediate` body and the `sleep` between files are modelled as sequential steps.
- **Floating point and dates.**
  - Amounts are integers.
  - `parseFloat`, `toFixed(2)` and the date-to-year conversion are abstract `Codec` functions.
  - NaN amounts and the rounding of float ratios are not modelled. `FilePercent` and `RoundHalfUp` work on exact reals.
- **Timing and memory.**
  - Clock readings are parameters, and the two readings at a run's start are one instant.
  - `duration` holds the elapsed time, not the formatted `"x.xxs"` string.
  - `totalExecutionTime` is the elapsed time, not `parseFloat` of the rounded seconds.
  - `memoryUsage` and `averageRecordsPerSecond` are not modelled.
- **File system.** `readdirSync`, `mkdirSync`, the read streams and `writeFile` are inputs and outcomes given to `Run`:
  - the listing of `tmp/`;
  - each entry's lines or read error;
  - the write error, if any.
- **Partial reads.** A file whose read fails part-way is modelled as failing before any of its lines. A handler exception inside the line reader cannot arise with total codec functions.
- **The metrics listing.** The listing used for `filesProcessed` is the same listing the run read.
- **getAllStates.** It only returns the two tables and is not modelled.
- **JavaScript objects.** Lookups that reach `Object.prototype` are not modelled: a key such as `constructor` or `__proto__` behaves as an ordinary key. Strings are sequences of Unicode code points, compared one by one.
- Tickets.ManagementReportAssignment: the conflicts are stated as error values, not as the message texts. `Tickets.ErrorMessage` holds the exact texts.
- Tickets.AddressChangeAssignment: the conflicts are stated as error values, with the role text "corporateSecretary or director" carried in the error. The full sentence is in `Tickets.ErrorMessage`.
- Tickets.StrikeOffAssignment: the conflicts are stated as error values, not as the message texts.
- Text.CodePointLe: it compares code points, where `sort()` compares UTF-16 code units. The orders differ only on characters outside the Basic Multilingual Plane: `"\u{FF61}"` sorts before `"\u{1F600}"` here, after it in JavaScript. Year keys are digits and `-`, so the yearly report is unaffected.
- ReportsService.ReportsService.Run: it returns the report's lines. Joining them with newlines into the file's content is left to the write, which is outside the model.
