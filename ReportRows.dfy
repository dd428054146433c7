/**
 * The per-line logic of the three reports: which rows a report books, under
 * which key and by how much; the folds over the lines of the input files; and
 * the text of each report. Numbers are whole amounts (say cents), and the three
 * number conversions the reports use are left abstract in a `Codec`.
 */
module ReportRows {
  import opened Wrappers
  import opened Seqs
  import opened Text

  datatype ReportKind = Accounts | Yearly | FinancialStatement

  /** The report's scope name: the key of its state and metrics entries. */
  function ScopeName(kind: ReportKind): string {
    match kind
    case Accounts => "accounts"
    case Yearly => "yearly"
    case FinancialStatement => "fs"
  }

  /** Whether a report reads the file `name` of `tmp/`: a `.csv`, but not the report's own output name. */
  predicate IsInput(kind: ReportKind, name: string) {
    && EndsWith(name, ".csv")
    && match kind
       case Accounts => true
       case Yearly => name != "yearly.csv"
       case FinancialStatement => name != "fs.csv"
  }

  /**
   * The number conversions, abstract: `parseFloat` of a non-empty amount field,
   * `toFixed(2)` of an amount, and the year `new Date(s).getFullYear()` yields
   * (None where it is NaN).
   */
  datatype Codec = Codec(parseAmount: string -> int, formatAmount: int -> string, yearOf: string -> Option<int>)

  // ----- one row -----

  /** The i-th element of a destructured `line.split(',')`; None is `undefined`. */
  function Field(fields: seq<string>, i: nat): Option<string> {
    if i < |fields| then Some(fields[i]) else None
  }

  /** `parseFloat(String(field || 0))`: a missing or empty field counts as 0. */
  function Amount(codec: Codec, field: Option<string>): int {
    if field.None? || field.value == "" then 0 else codec.parseAmount(field.value)
  }

  /** debit − credit of a row (fields 3 and 4). */
  function Delta(codec: Codec, fields: seq<string>): int {
    Amount(codec, Field(fields, 3)) - Amount(codec, Field(fields, 4))
  }

  const Revenues: seq<string> := ["Sales Revenue"]
  const Expenses: seq<string> := ["Cost of Goods Sold", "Salaries Expense", "Rent Expense",
                                  "Utilities Expense", "Interest Expense", "Tax Expense"]
  const Assets: seq<string> := ["Cash", "Accounts Receivable", "Inventory", "Fixed Assets", "Prepaid Expenses"]
  const Liabilities: seq<string> := ["Accounts Payable", "Loan Payable", "Sales Tax Payable",
                                     "Accrued Liabilities", "Unearned Revenue", "Dividends Payable"]
  const Equity: seq<string> := ["Common Stock", "Retained Earnings"]

  /** The financial statement's accounts, in the order its table is initialised. */
  const StatementAccounts: seq<string> := Revenues + Expenses + Assets + Liabilities + Equity

  /**
   * The key a row is booked under, or None when the report ignores it. For the
   * financial statement `balances` is the table the row is tested against
   * (`balances.hasOwnProperty(account)`); the other reports do not look at it.
   */
  function RowKey(kind: ReportKind, codec: Codec, balances: map<string, int>, fields: seq<string>): (r: Option<string>)
    ensures r.Some? ==> |fields| > 1
    ensures r.Some? && kind != Yearly ==> r.value == fields[1]
    ensures r.Some? && kind == Yearly ==> fields[1] == "Cash"
    ensures r.Some? && kind == FinancialStatement ==> r.value in balances
  {
    match kind
    case Accounts =>
      if |fields| > 1 && !IsBlank(fields[1]) then Some(fields[1]) else None
    case Yearly =>
      if |fields| > 1 && fields[1] == "Cash" && fields[0] != "" then
        match codec.yearOf(fields[0])
        case Some(year) => Some(IntToDecimal(year))
        case None => None
      else None
    case FinancialStatement =>
      if |fields| > 1 && fields[1] in balances then Some(fields[1]) else None
  }

  /**
   * What a report has accumulated: the balance per key, the keys in the order
   * they were created, and the number of rows booked (`totalRecords`).
   */
  datatype Acc = Acc(balances: map<string, int>, order: seq<string>, records: nat)

  /** `balances[key] || 0`. */
  function BalanceOf(balances: map<string, int>, key: string): int {
    if key in balances then balances[key] else 0
  }

  /** Books `delta` under `key`, creating the key with 0 first if it is new. */
  function Book(acc: Acc, key: string, delta: int): (r: Acc)
    ensures forall k :: BalanceOf(r.balances, k) == BalanceOf(acc.balances, k) + (if k == key then delta else 0)
    ensures r.balances.Keys == acc.balances.Keys + {key}
    ensures r.records == acc.records + 1
    ensures key in acc.balances ==> r.order == acc.order
  {
    Acc(acc.balances[key := BalanceOf(acc.balances, key) + delta],
        if key in acc.balances then acc.order else acc.order + [key],
        acc.records + 1)
  }

  /** The report's line processor, applied to one line. */
  function HandleLine(kind: ReportKind, codec: Codec, acc: Acc, line: string): (r: Acc)
    ensures acc.records <= r.records <= acc.records + 1
  {
    var fields := Split(line, ',');
    match RowKey(kind, codec, acc.balances, fields)
    case Some(key) => Book(acc, key, Delta(codec, fields))
    case None => acc
  }

  /** A line as the file reader passes it on: lines that `trim()` to empty are skipped. */
  function StreamLine(kind: ReportKind, codec: Codec, acc: Acc, line: string): (r: Acc)
    ensures r == HandleLine(kind, codec, acc, line)
  {
    if IsBlank(line) then
      BlankLinesAreInert(kind, codec, acc, line);
      acc
    else HandleLine(kind, codec, acc, line)
  }

  function FoldLines(kind: ReportKind, codec: Codec, acc: Acc, lines: seq<string>): (r: Acc)
    ensures acc.records <= r.records <= acc.records + |lines|
    decreases |lines|
  {
    if lines == [] then acc
    else StreamLine(kind, codec, FoldLines(kind, codec, acc, lines[..|lines| - 1]), lines[|lines| - 1])
  }

  /** The accumulator after reading `files` (each a sequence of lines) in order. */
  function FoldFiles(kind: ReportKind, codec: Codec, acc: Acc, files: seq<seq<string>>): (r: Acc)
    ensures acc.records <= r.records
    decreases |files|
  {
    if files == [] then acc
    else FoldLines(kind, codec, FoldFiles(kind, codec, acc, files[..|files| - 1]), files[|files| - 1])
  }

  /** The table before the first file: empty, or every statement account at 0. */
  function Initial(kind: ReportKind): Acc {
    match kind
    case FinancialStatement => Acc(map k | k in StatementAccounts :: 0, StatementAccounts, 0)
    case _ => Acc(map[], [], 0)
  }

  // ----- the report texts -----

  /** `${name},${value.toFixed(2)}`. */
  function AmountLine(codec: Codec, name: string, value: int): string {
    name + "," + codec.formatAmount(value)
  }

  /** One amount line per key. */
  function EntryLines(codec: Codec, balances: map<string, int>, keys: seq<string>): (r: seq<string>)
    ensures |r| == |keys|
    ensures forall i :: 0 <= i < |keys| ==> r[i] == AmountLine(codec, keys[i], BalanceOf(balances, keys[i]))
    decreases |keys|
  {
    if keys == [] then []
    else EntryLines(codec, balances, keys[..|keys| - 1]) + [AmountLine(codec, keys[|keys| - 1], BalanceOf(balances, keys[|keys| - 1]))]
  }

  /** The sum of a group's balances. */
  function GroupTotal(balances: map<string, int>, group: seq<string>): int
    decreases |group|
  {
    if group == [] then 0 else GroupTotal(balances, group[..|group| - 1]) + BalanceOf(balances, group[|group| - 1])
  }

  /** The keys in the order `Object.entries(accountBalances)` lists them. */
  function AccountsOrder(acc: Acc): seq<string> {
    JsOwnKeyOrder(acc.order)
  }

  /** `Object.keys(cashByYear).sort()`. */
  function YearsOrder(acc: Acc): seq<string> {
    InsertionSort(JsOwnKeyOrder(acc.order), CodePointLe)
  }

  /** The header, then a line for each created key. */
  function AccountsReport(codec: Codec, acc: Acc): (r: seq<string>)
    ensures |r| == |acc.order| + 1
    ensures forall k :: k in acc.order ==> AmountLine(codec, k, BalanceOf(acc.balances, k)) in r
  {
    KeyOrderLines(codec, acc.balances, acc.order, AccountsOrder(acc));
    ["Account,Balance"] + EntryLines(codec, acc.balances, AccountsOrder(acc))
  }

  function YearlyReport(codec: Codec, acc: Acc): (r: seq<string>)
    ensures |r| == |acc.order| + 1
    ensures forall k :: k in acc.order ==> AmountLine(codec, k, BalanceOf(acc.balances, k)) in r
  {
    JsOwnKeyOrderPermutation(acc.order);
    KeyOrderLines(codec, acc.balances, acc.order, YearsOrder(acc));
    ["Financial Year,Cash Balance"] + EntryLines(codec, acc.balances, YearsOrder(acc))
  }

  /** Lines for a rearrangement of `keys` show each key once per occurrence. */
  lemma KeyOrderLines(codec: Codec, balances: map<string, int>, keys: seq<string>, listed: seq<string>)
    requires multiset(listed) == multiset(keys) || multiset(listed) == multiset(JsOwnKeyOrder(keys))
    ensures |EntryLines(codec, balances, listed)| == |keys|
    ensures forall k :: k in keys ==> AmountLine(codec, k, BalanceOf(balances, k)) in EntryLines(codec, balances, listed)
  {
    JsOwnKeyOrderPermutation(keys);
    assert |listed| == |multiset(listed)| == |multiset(keys)| == |keys|;
    var out := EntryLines(codec, balances, listed);
    forall k | k in keys ensures AmountLine(codec, k, BalanceOf(balances, k)) in out {
      assert k in multiset(keys);
      assert k in multiset(listed);
      var i :| 0 <= i < |listed| && listed[i] == k;
      assert out[i] == AmountLine(codec, k, BalanceOf(balances, k));
    }
  }

  function NetIncome(balances: map<string, int>): int {
    GroupTotal(balances, Revenues) - GroupTotal(balances, Expenses)
  }

  /** The printed total equity: the equity accounts plus net income. */
  function TotalEquity(balances: map<string, int>): int {
    GroupTotal(balances, Equity) + NetIncome(balances)
  }

  function BalanceLine(codec: Codec, balances: map<string, int>): string {
    "Assets = Liabilities + Equity, " + codec.formatAmount(GroupTotal(balances, Assets))
      + " = " + codec.formatAmount(GroupTotal(balances, Liabilities) + TotalEquity(balances))
  }

  /** The statement's first part: the income statement and net income. */
  function IncomeStatement(codec: Codec, balances: map<string, int>): seq<string> {
    ["Basic Financial Statement", "", "Income Statement"]
    + EntryLines(codec, balances, Revenues) + EntryLines(codec, balances, Expenses)
    + [AmountLine(codec, "Net Income", NetIncome(balances)), ""]
  }

  /** The statement's second part: the balance sheet and the closing balance line. */
  function BalanceSheet(codec: Codec, balances: map<string, int>): seq<string> {
    ["Balance Sheet", "Assets"]
    + EntryLines(codec, balances, Assets)
    + [AmountLine(codec, "Total Assets", GroupTotal(balances, Assets)), "", "Liabilities"]
    + EntryLines(codec, balances, Liabilities)
    + [AmountLine(codec, "Total Liabilities", GroupTotal(balances, Liabilities)), "", "Equity"]
    + EntryLines(codec, balances, Equity)
    + [AmountLine(codec, "Retained Earnings (Net Income)", NetIncome(balances)),
       AmountLine(codec, "Total Equity", TotalEquity(balances)), "",
       BalanceLine(codec, balances)]
  }

  function StatementReport(codec: Codec, balances: map<string, int>): (r: seq<string>)
    ensures |r| == 37
  {
    IncomeStatement(codec, balances) + BalanceSheet(codec, balances)
  }

  /** The lines a report writes for what it accumulated. */
  function Report(kind: ReportKind, codec: Codec, acc: Acc): seq<string> {
    match kind
    case Accounts => AccountsReport(codec, acc)
    case Yearly => YearlyReport(codec, acc)
    case FinancialStatement => StatementReport(codec, acc.balances)
  }

  // ----- a reference: the postings the rows make -----

  /** A booked row: its key and its debit − credit. */
  datatype Posting = Posting(key: string, delta: int)

  /** The posting a line makes, judged against the report's initial table. */
  function PostingOf(kind: ReportKind, codec: Codec, line: string): seq<Posting> {
    var fields := Split(line, ',');
    if IsBlank(line) then []
    else match RowKey(kind, codec, Initial(kind).balances, fields)
      case Some(key) => [Posting(key, Delta(codec, fields))]
      case None => []
  }

  function Postings(kind: ReportKind, codec: Codec, lines: seq<string>): seq<Posting>
    decreases |lines|
  {
    if lines == [] then []
    else Postings(kind, codec, lines[..|lines| - 1]) + PostingOf(kind, codec, lines[|lines| - 1])
  }

  /** The lines of all files, one after the other. */
  function Concat(files: seq<seq<string>>): seq<string>
    decreases |files|
  {
    if files == [] then [] else Concat(files[..|files| - 1]) + files[|files| - 1]
  }

  function KeysOf(ps: seq<Posting>): (r: seq<string>)
    ensures |r| == |ps| && forall i :: 0 <= i < |ps| ==> r[i] == ps[i].key
  {
    seq(|ps|, i requires 0 <= i < |ps| => ps[i].key)
  }

  /** The sum of the postings made under `key`. */
  function KeyTotal(ps: seq<Posting>, key: string): int
    decreases |ps|
  {
    if ps == [] then 0
    else KeyTotal(ps[..|ps| - 1], key) + (if ps[|ps| - 1].key == key then ps[|ps| - 1].delta else 0)
  }

  /** The sum of all postings. */
  function TotalDelta(ps: seq<Posting>): int
    decreases |ps|
  {
    if ps == [] then 0 else TotalDelta(ps[..|ps| - 1]) + ps[|ps| - 1].delta
  }

  /** `seen` followed by the keys of `ks` not seen before, each once, in order of first appearance. */
  function AppendNew(seen: seq<string>, ks: seq<string>): seq<string>
    decreases |ks|
  {
    if ks == [] then seen
    else
      var r := AppendNew(seen, ks[..|ks| - 1]);
      if ks[|ks| - 1] in r then r else r + [ks[|ks| - 1]]
  }

  /** The position of the first `x` in `ks`. */
  function FirstIndex(ks: seq<string>, x: string): (i: nat)
    requires x in ks
    ensures i < |ks| && ks[i] == x && forall j :: 0 <= j < i ==> ks[j] != x
  {
    if ks[0] == x then 0 else 1 + FirstIndex(ks[1..], x)
  }

  predicate Distinct(ks: seq<string>) {
    forall i, j :: 0 <= i < j < |ks| ==> ks[i] != ks[j]
  }

  /** The accumulator is well formed: `order` lists its keys once each, and the statement's keys are fixed. */
  ghost predicate Consistent(kind: ReportKind, acc: Acc) {
    && Distinct(acc.order)
    && (forall k :: k in acc.balances <==> k in acc.order)
    && (kind == FinancialStatement ==> acc.balances.Keys == Initial(FinancialStatement).balances.Keys)
  }

  // ----- lemmas -----

  /** A character `trim()` strips is not the field separator. */
  lemma BlankHasNoComma(line: string)
    requires IsBlank(line)
    ensures ',' !in line
  {
    forall i | 0 <= i < |line| ensures line[i] != ',' {
      assert IsJsWhitespace(line[i]);
    }
  }

  /**
   * The blank-line skip changes no report: a line that trims to empty has a
   * single field, so no handler books it.
   */
  lemma BlankLinesAreInert(kind: ReportKind, codec: Codec, acc: Acc, line: string)
    requires IsBlank(line)
    ensures HandleLine(kind, codec, acc, line) == acc
  {
    BlankHasNoComma(line);
    SplitWithoutSeparator(line, ',');
  }

  lemma StatementAccountsDistinct()
    ensures Distinct(StatementAccounts) && |StatementAccounts| == 20
  {
  }

  /**
   * Every report starts from a well-formed table with no records: the accounts
   * and yearly tables are empty, the statement's holds its 20 accounts at 0.
   */
  lemma InitialConsistent(kind: ReportKind)
    ensures Consistent(kind, Initial(kind))
    ensures Initial(kind).records == 0
    ensures kind != FinancialStatement ==> Initial(kind).balances == map[] && Initial(kind).order == []
    ensures kind == FinancialStatement ==>
      && Initial(kind).order == StatementAccounts
      && (forall k :: k in Initial(kind).balances <==> k in StatementAccounts)
      && (forall k :: BalanceOf(Initial(kind).balances, k) == 0)
  {
    StatementAccountsDistinct();
  }

  lemma AppendNewMembers(seen: seq<string>, ks: seq<string>)
    ensures forall x :: x in AppendNew(seen, ks) <==> x in seen || x in ks
    decreases |ks|
  {
    if ks != [] {
      AppendNewMembers(seen, ks[..|ks| - 1]);
      assert ks == ks[..|ks| - 1] + [ks[|ks| - 1]];
    }
  }

  lemma {:induction false} AppendNewDistinct(seen: seq<string>, ks: seq<string>)
    requires Distinct(seen)
    ensures Distinct(AppendNew(seen, ks))
    decreases |ks|
  {
    if ks != [] {
      AppendNewDistinct(seen, ks[..|ks| - 1]);
    }
  }

  /** Keys already seen add nothing to the order. */
  lemma {:induction false} AppendNewKnown(seen: seq<string>, ks: seq<string>)
    requires forall i :: 0 <= i < |ks| ==> ks[i] in seen
    ensures AppendNew(seen, ks) == seen
    decreases |ks|
  {
    if ks != [] {
      AppendNewKnown(seen, ks[..|ks| - 1]);
    }
  }

  /** Reading `a` then `b` is reading `a + b`. */
  lemma {:induction false} FoldLinesAppend(kind: ReportKind, codec: Codec, acc: Acc, a: seq<string>, b: seq<string>)
    ensures FoldLines(kind, codec, acc, a + b) == FoldLines(kind, codec, FoldLines(kind, codec, acc, a), b)
    ensures Postings(kind, codec, a + b) == Postings(kind, codec, a) + Postings(kind, codec, b)
    decreases |b|
  {
    if b == [] {
      assert a + b == a;
    } else {
      var b' := b[..|b| - 1];
      assert (a + b)[..|a + b| - 1] == a + b';
      assert (a + b)[|a + b| - 1] == b[|b| - 1];
      FoldLinesAppend(kind, codec, acc, a, b');
    }
  }

  /** Reading the files one after the other is reading their concatenated lines. */
  lemma {:induction false} FoldFilesConcat(kind: ReportKind, codec: Codec, acc: Acc, files: seq<seq<string>>)
    ensures FoldFiles(kind, codec, acc, files) == FoldLines(kind, codec, acc, Concat(files))
    decreases |files|
  {
    if files != [] {
      var prefix := files[..|files| - 1];
      FoldFilesConcat(kind, codec, acc, prefix);
      FoldLinesAppend(kind, codec, acc, Concat(prefix), files[|files| - 1]);
    }
  }

  /**
   * One line, for a well-formed accumulator: it books exactly the posting the
   * reference says, and keeps the accumulator well formed.
   */
  lemma StreamLineBooksPosting(kind: ReportKind, codec: Codec, acc: Acc, line: string)
    requires Consistent(kind, acc)
    ensures var r, ps := StreamLine(kind, codec, acc, line), PostingOf(kind, codec, line);
      && Consistent(kind, r)
      && (ps == [] ==> r == acc)
      && (ps != [] ==> r == Book(acc, ps[0].key, ps[0].delta))
  {
    var fields := Split(line, ',');
    if !IsBlank(line) {
      assert RowKey(kind, codec, acc.balances, fields) == RowKey(kind, codec, Initial(kind).balances, fields);
      match RowKey(kind, codec, acc.balances, fields)
      case None =>
      case Some(key) =>
        var r := Book(acc, key, Delta(codec, fields));
        if key !in acc.balances {
          forall i, j | 0 <= i < j < |r.order| ensures r.order[i] != r.order[j] {
            if j == |acc.order| {
              assert r.order[i] in acc.order;
            }
          }
        }
    }
  }

  /**
   * What the handlers accumulate over any lines equals the reference: the
   * balance of every key grows by the sum of its postings, the record count by
   * the number of postings, and the order by the keys not seen before, in order
   * of first appearance.
   */
  lemma {:induction false} FoldLinesMatchesPostings(kind: ReportKind, codec: Codec, acc: Acc, lines: seq<string>)
    requires Consistent(kind, acc)
    ensures Consistent(kind, FoldLines(kind, codec, acc, lines))
    ensures FoldLines(kind, codec, acc, lines).records == acc.records + |Postings(kind, codec, lines)|
    ensures forall k ::
      BalanceOf(FoldLines(kind, codec, acc, lines).balances, k) == BalanceOf(acc.balances, k) + KeyTotal(Postings(kind, codec, lines), k)
    ensures FoldLines(kind, codec, acc, lines).order == AppendNew(acc.order, KeysOf(Postings(kind, codec, lines)))
    decreases |lines|
  {
    if lines != [] {
      var prefix, last := lines[..|lines| - 1], lines[|lines| - 1];
      FoldLinesMatchesPostings(kind, codec, acc, prefix);
      var mid, before := FoldLines(kind, codec, acc, prefix), Postings(kind, codec, prefix);
      StreamLineBooksPosting(kind, codec, mid, last);
      assert FoldLines(kind, codec, acc, lines) == StreamLine(kind, codec, mid, last);
      var p := PostingOf(kind, codec, last);
      if p != [] {
        assert Postings(kind, codec, lines) == before + [p[0]];
        BookMatches(kind, acc, mid, before, p[0]);
      } else {
        assert Postings(kind, codec, lines) == before;
      }
    }
  }

  /** Booking one more posting keeps an accumulator in step with the reference. */
  lemma BookMatches(kind: ReportKind, acc: Acc, mid: Acc, before: seq<Posting>, post: Posting)
    requires Consistent(kind, mid)
    requires mid.records == acc.records + |before|
    requires forall k :: BalanceOf(mid.balances, k) == BalanceOf(acc.balances, k) + KeyTotal(before, k)
    requires mid.order == AppendNew(acc.order, KeysOf(before))
    ensures var r := Book(mid, post.key, post.delta);
      && r.records == acc.records + |before + [post]|
      && (forall k :: BalanceOf(r.balances, k) == BalanceOf(acc.balances, k) + KeyTotal(before + [post], k))
      && r.order == AppendNew(acc.order, KeysOf(before + [post]))
  {
    PostingStep(before, post);
  }

  /** One more posting: how the sums and the key list grow. */
  lemma PostingStep(before: seq<Posting>, post: Posting)
    ensures forall k :: KeyTotal(before + [post], k) == KeyTotal(before, k) + (if post.key == k then post.delta else 0)
    ensures KeysOf(before + [post]) == KeysOf(before) + [post.key]
    ensures TotalDelta(before + [post]) == TotalDelta(before) + post.delta
  {
    assert (before + [post])[..|before + [post]| - 1] == before;
  }

  /** The accumulator after a whole run over `files`. */
  function RunOf(kind: ReportKind, codec: Codec, files: seq<seq<string>>): Acc {
    FoldFiles(kind, codec, Initial(kind), files)
  }

  /** The postings of a whole run over `files`. */
  function RunPostings(kind: ReportKind, codec: Codec, files: seq<seq<string>>): seq<Posting> {
    Postings(kind, codec, Concat(files))
  }

  /**
   * Over the files of a run, from the initial table: each key's balance is the
   * sum of debit − credit over the rows booked under it, the record count is
   * the number of booked rows, and the keys are the booked keys in order of first
   * appearance, each once.
   */
  lemma RunTotals(kind: ReportKind, codec: Codec, files: seq<seq<string>>)
    ensures RunOf(kind, codec, files).records == |RunPostings(kind, codec, files)|
    ensures forall k ::
      BalanceOf(RunOf(kind, codec, files).balances, k) == BalanceOf(Initial(kind).balances, k) + KeyTotal(RunPostings(kind, codec, files), k)
    ensures RunOf(kind, codec, files).order == AppendNew(Initial(kind).order, KeysOf(RunPostings(kind, codec, files)))
    ensures Distinct(RunOf(kind, codec, files).order)
    ensures forall k :: k in RunOf(kind, codec, files).balances <==> k in RunOf(kind, codec, files).order
  {
    InitialConsistent(kind);
    FoldFilesConcat(kind, codec, Initial(kind), files);
    FoldLinesMatchesPostings(kind, codec, Initial(kind), Concat(files));
  }

  /** Every accumulated key is a booked key, and its first posting is where it entered the order. */
  lemma {:induction false} AppendNewFirstSeen(ks: seq<string>)
    ensures var r := AppendNew([], ks);
      && Distinct(r)
      && (forall x :: x in r <==> x in ks)
      && (forall i, j :: 0 <= i < j < |r| ==> FirstIndex(ks, r[i]) < FirstIndex(ks, r[j]))
    decreases |ks|
  {
    AppendNewDistinct([], ks);
    AppendNewMembers([], ks);
    if ks != [] {
      var prefix, last := ks[..|ks| - 1], ks[|ks| - 1];
      AppendNewFirstSeen(prefix);
      var p := AppendNew([], prefix);
      AppendNewMembers([], prefix);
      forall x | x in prefix ensures FirstIndex(ks, x) == FirstIndex(prefix, x) {
        FirstIndexOfPrefix(ks, x);
      }
      var r := AppendNew([], ks);
      forall i, j | 0 <= i < j < |r| ensures FirstIndex(ks, r[i]) < FirstIndex(ks, r[j]) {
        assert r[i] in p;
        if j < |p| {
          assert r[j] in p;
        } else {
          assert r[j] == last && last !in prefix;
        }
      }
    }
  }

  lemma {:induction false} FirstIndexOfPrefix(ks: seq<string>, x: string)
    requires |ks| > 0 && x in ks[..|ks| - 1]
    ensures FirstIndex(ks, x) == FirstIndex(ks[..|ks| - 1], x)
    decreases |ks|
  {
    if ks[0] != x {
      assert ks[1..][..|ks[1..]| - 1] == ks[..|ks| - 1][1..];
      FirstIndexOfPrefix(ks[1..], x);
    }
  }

  /** Report lines over `keys` show, for each key, the sum of its postings. */
  lemma EntryLinesShowTotals(codec: Codec, balances: map<string, int>, keys: seq<string>, ps: seq<Posting>)
    requires forall k :: BalanceOf(balances, k) == KeyTotal(ps, k)
    ensures forall i :: 0 <= i < |keys| ==>
      EntryLines(codec, balances, keys)[i] == AmountLine(codec, keys[i], KeyTotal(ps, keys[i]))
  {
  }

  /**
   * The accounts report lists each booked account once, in the order
   * `Object.entries` gives its first-seen keys, with the sum of its rows.
   */
  lemma AccountsReportContents(codec: Codec, files: seq<seq<string>>)
    ensures AccountsOrder(RunOf(Accounts, codec, files)) == JsOwnKeyOrder(AppendNew([], KeysOf(RunPostings(Accounts, codec, files))))
    ensures multiset(AccountsOrder(RunOf(Accounts, codec, files))) == multiset(RunOf(Accounts, codec, files).order)
    ensures var out, keys := AccountsReport(codec, RunOf(Accounts, codec, files)), AccountsOrder(RunOf(Accounts, codec, files));
      && |out| == 1 + |keys| && out[0] == "Account,Balance"
      && forall i :: 0 <= i < |keys| ==> out[1 + i] == AmountLine(codec, keys[i], KeyTotal(RunPostings(Accounts, codec, files), keys[i]))
  {
    var acc, ps := RunOf(Accounts, codec, files), RunPostings(Accounts, codec, files);
    RunTotals(Accounts, codec, files);
    JsOwnKeyOrderPermutation(acc.order);
    EntryLinesShowTotals(codec, acc.balances, AccountsOrder(acc), ps);
  }

  /** The yearly report lists each booked year key once, ascending in the default sort order. */
  lemma YearlyReportOrder(codec: Codec, files: seq<seq<string>>)
    ensures SortedBy(YearsOrder(RunOf(Yearly, codec, files)), CodePointLe)
    ensures multiset(YearsOrder(RunOf(Yearly, codec, files))) == multiset(RunOf(Yearly, codec, files).order)
    ensures forall k :: k in YearsOrder(RunOf(Yearly, codec, files)) <==> k in KeysOf(RunPostings(Yearly, codec, files))
  {
    RunTotals(Yearly, codec, files);
    AppendNewMembers([], KeysOf(RunPostings(Yearly, codec, files)));
    YearsSorted(RunOf(Yearly, codec, files));
  }

  /** Each line of the yearly report shows a year with the sum of its Cash rows. */
  lemma YearlyReportContents(codec: Codec, files: seq<seq<string>>)
    ensures var out, keys := YearlyReport(codec, RunOf(Yearly, codec, files)), YearsOrder(RunOf(Yearly, codec, files));
      && |out| == 1 + |keys| && out[0] == "Financial Year,Cash Balance"
      && forall i :: 0 <= i < |keys| ==> out[1 + i] == AmountLine(codec, keys[i], KeyTotal(RunPostings(Yearly, codec, files), keys[i]))
  {
    var acc, ps := RunOf(Yearly, codec, files), RunPostings(Yearly, codec, files);
    RunTotals(Yearly, codec, files);
    EntryLinesShowTotals(codec, acc.balances, YearsOrder(acc), ps);
  }

  /** `Object.keys(...).sort()` orders the keys and keeps each of them. */
  lemma YearsSorted(acc: Acc)
    ensures SortedBy(YearsOrder(acc), CodePointLe)
    ensures multiset(YearsOrder(acc)) == multiset(acc.order)
    ensures forall k :: k in YearsOrder(acc) <==> k in acc.order
  {
    JsOwnKeyOrderPermutation(acc.order);
    CodePointOrderIsTotal();
    SortIsSorted(JsOwnKeyOrder(acc.order), CodePointLe);
    var keys := YearsOrder(acc);
    forall k ensures k in keys <==> k in acc.order {
      assert k in keys <==> k in multiset(keys);
      assert k in acc.order <==> k in multiset(acc.order);
    }
  }

  /**
   * An accounts row is booked exactly when its account field is present and not
   * blank; the key is the field as written, the amount debit − credit.
   */
  lemma AccountsRowKey(codec: Codec, line: string)
    requires !IsBlank(line)
    ensures var fields := Split(line, ',');
      PostingOf(Accounts, codec, line) != [] <==> |fields| > 1 && !IsBlank(fields[1])
    ensures var fields := Split(line, ',');
      PostingOf(Accounts, codec, line) != [] ==>
        PostingOf(Accounts, codec, line) == [Posting(fields[1], Amount(codec, Field(fields, 3)) - Amount(codec, Field(fields, 4)))]
  {
  }

  /** A yearly row is booked exactly when its account is `Cash` and its date yields a year; the key is that year. */
  lemma YearlyRowKey(codec: Codec, line: string)
    requires !IsBlank(line)
    ensures var fields := Split(line, ',');
      PostingOf(Yearly, codec, line) != [] <==>
        |fields| > 1 && fields[1] == "Cash" && fields[0] != "" && codec.yearOf(fields[0]).Some?
    ensures var fields := Split(line, ',');
      PostingOf(Yearly, codec, line) != [] ==>
        PostingOf(Yearly, codec, line) == [Posting(IntToDecimal(codec.yearOf(fields[0]).value), Delta(codec, fields))]
  {
  }

  /**
   * A statement row is booked exactly when its account field names one of the
   * twenty accounts; the key is that field, the amount debit − credit.
   */
  lemma StatementRowKey(codec: Codec, line: string)
    requires !IsBlank(line)
    ensures var fields := Split(line, ',');
      PostingOf(FinancialStatement, codec, line) != [] <==> |fields| > 1 && fields[1] in StatementAccounts
    ensures var fields := Split(line, ',');
      PostingOf(FinancialStatement, codec, line) != [] ==>
        PostingOf(FinancialStatement, codec, line) == [Posting(fields[1], Delta(codec, fields))]
  {
    InitialConsistent(FinancialStatement);
  }

  /** The financial statement only ever holds its twenty accounts, in their fixed order. */
  lemma StatementKeysFixed(codec: Codec, files: seq<seq<string>>)
    ensures RunOf(FinancialStatement, codec, files).order == StatementAccounts
    ensures forall k :: k in RunOf(FinancialStatement, codec, files).balances <==> k in StatementAccounts
  {
    var ps := RunPostings(FinancialStatement, codec, files);
    RunTotals(FinancialStatement, codec, files);
    StatementPostingsKnown(codec, Concat(files));
    AppendNewKnown(StatementAccounts, KeysOf(ps));
  }

  lemma {:induction false} StatementPostingsKnown(codec: Codec, lines: seq<string>)
    ensures forall i :: 0 <= i < |Postings(FinancialStatement, codec, lines)| ==>
      Postings(FinancialStatement, codec, lines)[i].key in StatementAccounts
    decreases |lines|
  {
    if lines != [] {
      StatementPostingsKnown(codec, lines[..|lines| - 1]);
    }
  }

  /** Every statement account gets its line, zero balances included. */
  lemma StatementListsEveryAccount(codec: Codec, balances: map<string, int>)
    ensures var out := StatementReport(codec, balances);
      && |out| == 37
      && (forall i :: 0 <= i < |StatementAccounts| ==>
            AmountLine(codec, StatementAccounts[i], BalanceOf(balances, StatementAccounts[i])) in out)
  {
    IncomeStatementListsAccounts(codec, balances);
    BalanceSheetListsAccounts(codec, balances);
  }

  /** The income statement prints each revenue and expense account. */
  lemma IncomeStatementListsAccounts(codec: Codec, balances: map<string, int>)
    ensures forall i :: 0 <= i < 7 ==>
      AmountLine(codec, StatementAccounts[i], BalanceOf(balances, StatementAccounts[i])) in IncomeStatement(codec, balances)
  {
    var out := IncomeStatement(codec, balances);
    forall i | 0 <= i < 7
      ensures AmountLine(codec, StatementAccounts[i], BalanceOf(balances, StatementAccounts[i])) in out
    {
      assert out[3 + i] == AmountLine(codec, StatementAccounts[i], BalanceOf(balances, StatementAccounts[i]));
    }
  }

  /** The balance sheet prints each asset, liability and equity account. */
  lemma BalanceSheetListsAccounts(codec: Codec, balances: map<string, int>)
    ensures forall i :: 7 <= i < 20 ==>
      AmountLine(codec, StatementAccounts[i], BalanceOf(balances, StatementAccounts[i])) in BalanceSheet(codec, balances)
  {
    var out := BalanceSheet(codec, balances);
    forall i | 7 <= i < 20
      ensures AmountLine(codec, StatementAccounts[i], BalanceOf(balances, StatementAccounts[i])) in out
    {
      var line := AmountLine(codec, StatementAccounts[i], BalanceOf(balances, StatementAccounts[i]));
      if i < 12 {
        assert out[2 + (i - 7)] == line;
      } else if i < 18 {
        assert out[10 + (i - 12)] == line;
      } else {
        assert out[19 + (i - 18)] == line;
      }
    }
  }

  /**
   * The balance line's right-hand side: on a balanced ledger (all the
   * statement's balances add up to zero) total liabilities plus printed total
   * equity come to −(total assets) − 2·(total expenses), so the two printed sides
   * agree only when total assets equal the total expenses made negative.
   */
  lemma BalanceLineSides(balances: map<string, int>)
    requires GroupTotal(balances, StatementAccounts) == 0
    ensures GroupTotal(balances, Liabilities) + TotalEquity(balances)
      == -GroupTotal(balances, Assets) - 2 * GroupTotal(balances, Expenses)
  {
    GroupTotalAppend(balances, Revenues + Expenses + Assets + Liabilities, Equity);
    GroupTotalAppend(balances, Revenues + Expenses + Assets, Liabilities);
    GroupTotalAppend(balances, Revenues + Expenses, Assets);
    GroupTotalAppend(balances, Revenues, Expenses);
  }

  lemma {:induction false} GroupTotalAppend(balances: map<string, int>, a: seq<string>, b: seq<string>)
    ensures GroupTotal(balances, a + b) == GroupTotal(balances, a) + GroupTotal(balances, b)
    decreases |b|
  {
    if b == [] {
      assert a + b == a;
    } else {
      assert (a + b)[..|a + b| - 1] == a + b[..|b| - 1];
      GroupTotalAppend(balances, a, b[..|b| - 1]);
    }
  }

  /** A balanced entry (Cash debited 100, Common Stock credited 100) prints `100 = -100`. */
  lemma BalanceLineCounterexample(codec: Codec)
    ensures var balances := map["Cash" := 100, "Common Stock" := -100];
      && GroupTotal(balances, StatementAccounts) == 0
      && BalanceLine(codec, balances)
         == "Assets = Liabilities + Equity, " + codec.formatAmount(100) + " = " + codec.formatAmount(-100)
  {
    var balances := map["Cash" := 100, "Common Stock" := -100];
    GroupTotalAbsent(balances, Expenses);
    GroupTotalAbsent(balances, Liabilities);
    GroupTotalAbsent(balances, Assets[1..]);
    GroupTotalAppend(balances, Assets[..1], Assets[1..]);
    assert Assets[..1] + Assets[1..] == Assets;
    GroupTotalAppend(balances, Revenues + Expenses + Assets + Liabilities, Equity);
    GroupTotalAppend(balances, Revenues + Expenses + Assets, Liabilities);
    GroupTotalAppend(balances, Revenues + Expenses, Assets);
    GroupTotalAppend(balances, Revenues, Expenses);
  }

  lemma {:induction false} GroupTotalAbsent(balances: map<string, int>, group: seq<string>)
    requires forall i :: 0 <= i < |group| ==> BalanceOf(balances, group[i]) == 0
    ensures GroupTotal(balances, group) == 0
    decreases |group|
  {
    if group != [] {
      GroupTotalAbsent(balances, group[..|group| - 1]);
    }
  }

  // ----- nothing is lost: the balances add up to all booked amounts -----

  /** The sum over `keys` of each key's postings. */
  function SumTotals(ps: seq<Posting>, keys: seq<string>): int
    decreases |keys|
  {
    if keys == [] then 0 else SumTotals(ps, keys[..|keys| - 1]) + KeyTotal(ps, keys[|keys| - 1])
  }

  /** One more posting adds its amount to the sum over distinct keys once if its key is listed. */
  lemma {:induction false} SumTotalsStep(before: seq<Posting>, post: Posting, keys: seq<string>)
    requires Distinct(keys)
    ensures SumTotals(before + [post], keys) == SumTotals(before, keys) + (if post.key in keys then post.delta else 0)
    decreases |keys|
  {
    PostingStep(before, post);
    if keys != [] {
      var prefix, last := keys[..|keys| - 1], keys[|keys| - 1];
      assert keys == prefix + [last];
      SumTotalsStep(before, post, prefix);
      assert post.key in keys <==> post.key in prefix || post.key == last;
      assert last !in prefix;
    }
  }

  /** Summing the totals of distinct keys that cover every posting counts each posting once. */
  lemma {:induction false} SumOverCover(ps: seq<Posting>, keys: seq<string>)
    requires Distinct(keys)
    requires forall i :: 0 <= i < |ps| ==> ps[i].key in keys
    ensures SumTotals(ps, keys) == TotalDelta(ps)
    decreases |ps|
  {
    if ps == [] {
      SumTotalsOfNothing(keys);
    } else {
      var before, post := ps[..|ps| - 1], ps[|ps| - 1];
      assert ps == before + [post];
      SumOverCover(before, keys);
      SumTotalsStep(before, post, keys);
      PostingStep(before, post);
    }
  }

  lemma {:induction false} SumTotalsOfNothing(keys: seq<string>)
    ensures SumTotals([], keys) == 0
    decreases |keys|
  {
    if keys != [] {
      SumTotalsOfNothing(keys[..|keys| - 1]);
    }
  }

  /** A table that is `base` plus the postings sums to `base`'s sum plus the postings' totals. */
  lemma {:induction false} GroupTotalSplit(balances: map<string, int>, base: map<string, int>, ps: seq<Posting>, keys: seq<string>)
    requires forall k :: BalanceOf(balances, k) == BalanceOf(base, k) + KeyTotal(ps, k)
    ensures GroupTotal(balances, keys) == GroupTotal(base, keys) + SumTotals(ps, keys)
    decreases |keys|
  {
    if keys != [] {
      GroupTotalSplit(balances, base, ps, keys[..|keys| - 1]);
    }
  }

  /**
   * Nothing booked is lost or counted twice: after a run, the balances of the
   * keys the report holds add up to the sum of debit − credit over every booked row.
   */
  lemma RunConservesAmounts(kind: ReportKind, codec: Codec, files: seq<seq<string>>)
    ensures GroupTotal(RunOf(kind, codec, files).balances, RunOf(kind, codec, files).order)
      == TotalDelta(RunPostings(kind, codec, files))
  {
    var r, ps := RunOf(kind, codec, files), RunPostings(kind, codec, files);
    RunTotals(kind, codec, files);
    AppendNewMembers(Initial(kind).order, KeysOf(ps));
    GroupTotalSplit(r.balances, Initial(kind).balances, ps, r.order);
    GroupTotalAbsent(Initial(kind).balances, r.order);
    forall i | 0 <= i < |ps| ensures ps[i].key in r.order {
      assert KeysOf(ps)[i] == ps[i].key;
    }
    SumOverCover(ps, r.order);
  }
}
