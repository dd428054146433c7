/**
 * The report engine: the table of per-report processing states and metrics,
 * the transitions a run makes (start, progress after each file, completion,
 * failure), the file loop each report runs, and the output builders.
 * Clock readings, the directory listing and the outcome of the final write are
 * parameters.
 */
module ReportsService {
  import opened Wrappers
  import opened Seqs
  import opened Text
  import opened ReportRows

  datatype Status = Idle | Processing | Completed | Error

  /**
   * The state of one report. `duration` holds the elapsed clock time the service
   * formats as seconds; `totalRecords` is declared but never set.
   */
  datatype ProcessingState = ProcessingState(
    status: Status,
    progress: int,
    startTime: Option<int>,
    endTime: Option<int>,
    duration: Option<int>,
    error: Option<string>,
    recordsProcessed: Option<nat>,
    totalRecords: Option<nat>)

  /** `totalExecutionTime` is the elapsed clock time of the run. */
  datatype ProcessingMetrics = ProcessingMetrics(totalExecutionTime: int, recordsProcessed: nat, filesProcessed: nat)

  /** `{ status: 'idle', progress: 0 }`. */
  const IdleState: ProcessingState := ProcessingState(Idle, 0, None, None, None, None, None, None)

  /** The state a run starts in, whatever came before. */
  function Started(now: int): (r: ProcessingState)
    ensures r.status == Processing && r.progress == 0 && r.startTime == Some(now)
    ensures r.recordsProcessed == Some(0) && r.endTime.None? && r.error.None?
  {
    ProcessingState(Processing, 0, Some(now), None, None, None, Some(0), None)
  }

  /** A completed run: at 100, with its clock readings, elapsed time and record count. */
  function Finished(startTime: int, endTime: int, records: nat): (r: ProcessingState)
    ensures r.status == Completed && r.progress == 100 && r.error.None?
    ensures r.startTime == Some(startTime) && r.endTime == Some(endTime)
    ensures r.duration == Some(endTime - startTime) && r.recordsProcessed == Some(records)
  {
    ProcessingState(Completed, 100, Some(startTime), Some(endTime), Some(endTime - startTime), None, Some(records), None)
  }

  /** A failed run: at 0 with the message; the start time and counts are dropped. */
  function Failed(message: string, endTime: Option<int>): (r: ProcessingState)
    ensures r.status == Error && r.progress == 0 && r.error == Some(message) && r.endTime == endTime
    ensures r.startTime.None? && r.recordsProcessed.None?
  {
    ProcessingState(Error, 0, None, endTime, None, Some(message), None, None)
  }

  // ----- progress -----

  /** `Math.round`: halves round up. */
  function RoundHalfUp(x: real): (r: int)
    ensures x - 0.5 < r as real <= x + 0.5
  {
    (x + 0.5).Floor
  }

  /** `(processedFiles / totalFiles) * 100`. */
  function FilePercent(processed: nat, total: nat): real
    requires total > 0
  {
    (processed as real / total as real) * 100.0
  }

  /** `updateProgress`'s change to an existing state. */
  function Progressed(s: ProcessingState, progress: real, recordsProcessed: Option<nat>): (r: ProcessingState)
    ensures r.status == s.status && r.startTime == s.startTime && r.endTime == s.endTime
    ensures r.duration == s.duration && r.error == s.error && r.totalRecords == s.totalRecords
    ensures r.progress == RoundHalfUp(progress)
    ensures 0.0 <= progress <= 100.0 ==> 0 <= r.progress <= 100
    ensures recordsProcessed.Some? ==> r.recordsProcessed == recordsProcessed
    ensures recordsProcessed.None? ==> r.recordsProcessed == s.recordsProcessed
  {
    s.(progress := RoundHalfUp(progress),
       recordsProcessed := if recordsProcessed.Some? then recordsProcessed else s.recordsProcessed)
  }

  /** The state after `done` of `total` files, each followed by a progress update. */
  function AfterFiles(s: ProcessingState, done: nat, total: nat, records: nat): ProcessingState
    requires done <= total
  {
    if done == 0 then s else Progressed(s, FilePercent(done, total), Some(records))
  }

  /** A later update overrides an earlier one. */
  lemma ProgressedAgain(s: ProcessingState, x: real, y: real, records: nat, later: nat)
    ensures Progressed(Progressed(s, x, Some(records)), y, Some(later)) == Progressed(s, y, Some(later))
  {
  }

  lemma RoundHalfUpMonotone(x: real, y: real)
    requires x <= y
    ensures RoundHalfUp(x) <= RoundHalfUp(y)
  {
  }

  /** Progress never goes down from one file to the next. */
  lemma ProgressMonotone(i: nat, j: nat, total: nat)
    requires total > 0 && i <= j
    ensures RoundHalfUp(FilePercent(i, total)) <= RoundHalfUp(FilePercent(j, total))
  {
    assert i as real / total as real <= j as real / total as real;
    RoundHalfUpMonotone(FilePercent(i, total), FilePercent(j, total));
  }

  /** Progress stays within 0..100 and reaches 100 with the last file. */
  lemma ProgressRange(done: nat, total: nat)
    requires 0 < total && done <= total
    ensures 0 <= RoundHalfUp(FilePercent(done, total)) <= 100
    ensures done == total ==> RoundHalfUp(FilePercent(done, total)) == 100
  {
    ProgressMonotone(0, done, total);
    ProgressMonotone(done, total, total);
    AllFilesIsHundred(total);
  }

  lemma AllFilesIsHundred(total: nat)
    requires total > 0
    ensures FilePercent(total, total) == 100.0
  {
    var t := total as real;
    assert t > 0.0;
    assert t / t == 1.0;
  }

  // ----- the input directory -----

  /** An entry of `tmp/`: its lines, or the error reading it raises. */
  datatype DirEntry = DirEntry(name: string, content: Result<seq<string>, string>)

  /** The files a report reads, in listing order. */
  function Inputs(kind: ReportKind, listing: seq<DirEntry>): (r: seq<DirEntry>)
    ensures forall e :: e in r <==> e in listing && IsInput(kind, e.name)
  {
    FilterMembers(listing, (e: DirEntry) => IsInput(kind, e.name));
    Filter(listing, (e: DirEntry) => IsInput(kind, e.name))
  }

  /**
   * `Inputs` keeps the listing order: the inputs of two listings laid end to
   * end are the first one's followed by the second one's, and a single entry
   * is kept exactly when its name marks it as an input.
   */
  lemma InputsKeepListingOrder(kind: ReportKind, a: seq<DirEntry>, b: seq<DirEntry>, e: DirEntry)
    ensures Inputs(kind, a + b) == Inputs(kind, a) + Inputs(kind, b)
    ensures Inputs(kind, [e]) == if IsInput(kind, e.name) then [e] else []
  {
    FilterAppend(a, b, (e: DirEntry) => IsInput(kind, e.name));
    assert [e][1..] == [];
  }

  /**
   * The number of `.csv` entries; the metrics count these, excluded ones included.
   * The accounts report excludes none, so this is the number of files it reads.
   */
  function CsvCount(listing: seq<DirEntry>): (r: nat)
    ensures r <= |listing|
    ensures |Inputs(Accounts, listing)| <= r && |Inputs(Yearly, listing)| <= r && |Inputs(FinancialStatement, listing)| <= r
    ensures r == |Inputs(Accounts, listing)|
    decreases |listing|
  {
    if listing == [] then 0
    else
      var init, last := listing[..|listing| - 1], listing[|listing| - 1];
      assert listing == init + [last];
      InputsKeepListingOrder(Accounts, init, [last], last);
      InputsKeepListingOrder(Yearly, init, [last], last);
      InputsKeepListingOrder(FinancialStatement, init, [last], last);
      CsvCount(init) + (if EndsWith(last.name, ".csv") then 1 else 0)
  }

  /** The position of the first entry that cannot be read, or the number of entries. */
  function FailureIndex(inputs: seq<DirEntry>): (n: nat)
    ensures n <= |inputs|
    ensures forall i :: 0 <= i < n ==> inputs[i].content.Success?
    ensures n < |inputs| ==> inputs[n].content.Failure?
    decreases |inputs|
  {
    if inputs == [] then 0
    else if inputs[0].content.Failure? then 0
    else 1 + FailureIndex(inputs[1..])
  }

  /** The lines of each readable entry. */
  function ReadLines(entries: seq<DirEntry>): (r: seq<seq<string>>)
    ensures |r| == |entries|
  {
    seq(|entries|, i requires 0 <= i < |entries| =>
      match entries[i].content
      case Success(lines) => lines
      case Failure(_) => [])
  }

  /** The files a report reads before it stops: all of them, or those before the first unreadable one. */
  function ReadFiles(inputs: seq<DirEntry>): seq<seq<string>> {
    ReadLines(inputs[..FailureIndex(inputs)])
  }

  /** What a report's file loop ends with: the accumulator, or the message of the first read error. */
  function ProcessOutcome(kind: ReportKind, codec: Codec, inputs: seq<DirEntry>): Result<Acc, string> {
    var n := FailureIndex(inputs);
    if n < |inputs| then Failure(inputs[n].content.error) else Success(RunOf(kind, codec, ReadFiles(inputs)))
  }

  /** The state after a run's file loop, from the state it started with. */
  function StateAfterLoop(kind: ReportKind, codec: Codec, s: ProcessingState, inputs: seq<DirEntry>): ProcessingState {
    AfterFiles(s, FailureIndex(inputs), |inputs|, RunOf(kind, codec, ReadFiles(inputs)).records)
  }

  /**
   * A run that reads every file ends its loop at progress 100 with the number of
   * booked rows; one without files keeps the start state.
   */
  lemma LoopEndsAtFullProgress(kind: ReportKind, codec: Codec, now: int, inputs: seq<DirEntry>)
    requires FailureIndex(inputs) == |inputs|
    ensures StateAfterLoop(kind, codec, Started(now), inputs).status == Processing
    ensures |inputs| > 0 ==> StateAfterLoop(kind, codec, Started(now), inputs).progress == 100
    ensures StateAfterLoop(kind, codec, Started(now), inputs).recordsProcessed == Some(RunOf(kind, codec, ReadFiles(inputs)).records)
    ensures RunOf(kind, codec, ReadFiles(inputs)).records == |RunPostings(kind, codec, ReadFiles(inputs))|
  {
    RunTotals(kind, codec, ReadFiles(inputs));
    if |inputs| > 0 {
      ProgressRange(|inputs|, |inputs|);
    } else {
      assert ReadFiles(inputs) == [];
    }
  }

  /** How a run ends: the report of the rows it booked written, or the error that stopped it. */
  datatype RunEnd = Written(acc: Acc) | Aborted(message: string)

  /**
   * The end of a run: the listing error, the first read error, the write error,
   * or the lines of the report.
   */
  function RunResult(kind: ReportKind, codec: Codec, listing: Result<seq<DirEntry>, string>, writeError: Option<string>): (r: RunEnd)
    ensures listing.Failure? ==> r == Aborted(listing.error)
    ensures listing.Success? && writeError.Some? ==> r.Aborted?
    ensures r.Written? ==> listing.Success? && ProcessOutcome(kind, codec, Inputs(kind, listing.value)) == Success(r.acc)
  {
    match listing
    case Failure(message) => Aborted(message)
    case Success(entries) =>
      match ProcessOutcome(kind, codec, Inputs(kind, entries))
      case Failure(message) => Aborted(message)
      case Success(acc) =>
        if writeError.Some? then Aborted(writeError.value) else Written(acc)
  }

  /**
   * A run that ends with its report written read every input file, wrote the
   * report of all their rows, and counted each booked row once.
   */
  lemma RunResultWritten(kind: ReportKind, codec: Codec, entries: seq<DirEntry>, writeError: Option<string>)
    ensures var inputs := Inputs(kind, entries);
      RunResult(kind, codec, Success(entries), writeError).Written? <==>
        FailureIndex(inputs) == |inputs| && writeError.None?
    ensures var inputs := Inputs(kind, entries);
      RunResult(kind, codec, Success(entries), writeError).Written? ==>
        && RunResult(kind, codec, Success(entries), writeError).acc == RunOf(kind, codec, ReadLines(inputs))
        && RunResult(kind, codec, Success(entries), writeError).acc.records
           == |RunPostings(kind, codec, ReadLines(inputs))|
  {
    var inputs := Inputs(kind, entries);
    assert inputs[..|inputs|] == inputs;
    RunTotals(kind, codec, ReadLines(inputs));
  }

  /**
   * The report service's tables: a state for every report it has heard of, and
   * the metrics of the runs that completed.
   */
  class ReportsService {
    var states: map<string, ProcessingState>
    var metrics: map<string, ProcessingMetrics>

    /** The three reports always have a state. */
    ghost predicate Valid()
      reads this
    {
      forall kind :: ScopeName(kind) in states
    }

    constructor ()
      ensures Valid()
      ensures states == map["accounts" := IdleState, "yearly" := IdleState, "fs" := IdleState]
      ensures metrics == map[]
      ensures forall scope :: State(scope) == IdleState && GetMetrics(scope) == None
    {
      states := map["accounts" := IdleState, "yearly" := IdleState, "fs" := IdleState];
      metrics := map[];
    }

    /** `state(scope)`: the recorded state, or idle at 0 for a name without one. */
    function State(scope: string): (s: ProcessingState)
      reads this
      ensures scope !in states ==> s == IdleState
      ensures scope in states ==> s == states[scope]
    {
      if scope in states then states[scope] else IdleState
    }

    /** `getMetrics(scope)`: None stands for `null`. */
    function GetMetrics(scope: string): (m: Option<ProcessingMetrics>)
      reads this
      ensures m.Some? <==> scope in metrics
      ensures m.Some? ==> m.value == metrics[scope]
    {
      if scope in metrics then Some(metrics[scope]) else None
    }

    /** The synchronous part of `processReportAsync`: the report is processing from `now`. */
    method Start(kind: ReportKind, now: int)
      requires Valid()
      modifies this
      ensures Valid()
      ensures states == old(states)[ScopeName(kind) := Started(now)]
      ensures metrics == old(metrics)
    {
      states := states[ScopeName(kind) := Started(now)];
    }

    /** `updateProgress`: rounds and stores the progress and the record count; an unknown name is ignored. */
    method UpdateProgress(scope: string, progress: real, recordsProcessed: Option<nat>)
      modifies this
      ensures scope in old(states) ==> states == old(states)[scope := Progressed(old(states)[scope], progress, recordsProcessed)]
      ensures scope !in old(states) ==> states == old(states)
      ensures metrics == old(metrics)
    {
      if scope in states {
        var s := states[scope];
        s := s.(progress := RoundHalfUp(progress));
        if recordsProcessed.Some? {
          s := s.(recordsProcessed := recordsProcessed);
        }
        states := states[scope := s];
      }
    }

    /**
     * The end of a successful run: completed at 100, keeping the record count
     * of the last progress update, and the same count in the metrics.
     */
    method Complete(kind: ReportKind, startTime: int, endTime: int, listing: seq<DirEntry>)
      requires Valid()
      modifies this
      ensures Valid()
      ensures var records := old(states)[ScopeName(kind)].recordsProcessed.GetOr(0);
        && states == old(states)[ScopeName(kind) := Finished(startTime, endTime, records)]
        && metrics == old(metrics)[ScopeName(kind) := ProcessingMetrics(endTime - startTime, records, CsvCount(listing))]
    {
      var name := ScopeName(kind);
      var records := states[name].recordsProcessed.GetOr(0);
      states := states[name := Finished(startTime, endTime, records)];
      metrics := metrics[name := ProcessingMetrics(endTime - startTime, states[name].recordsProcessed.GetOr(0), CsvCount(listing))];
    }

    /** The end of a failed run: error at 0 with the message; the metrics are untouched. */
    method Fail(kind: ReportKind, message: string, endTime: Option<int>)
      requires Valid()
      modifies this
      ensures Valid()
      ensures states == old(states)[ScopeName(kind) := Failed(message, endTime)]
      ensures metrics == old(metrics)
    {
      states := states[ScopeName(kind) := Failed(message, endTime)];
    }

    /**
     * A report's file loop: streams the lines of each input file through the
     * report's handler, skipping blank lines, and updates the progress after
     * each file. It stops at the first file that cannot be read.
     */
    method ProcessFiles(kind: ReportKind, codec: Codec, inputs: seq<DirEntry>) returns (outcome: Result<Acc, string>)
      requires Valid()
      modifies this
      ensures Valid()
      ensures outcome == ProcessOutcome(kind, codec, inputs)
      ensures states == old(states)[ScopeName(kind) := StateAfterLoop(kind, codec, old(states)[ScopeName(kind)], inputs)]
      ensures metrics == old(metrics)
    {
      var name := ScopeName(kind);
      var acc := Initial(kind);
      var totalFiles := |inputs|;
      var processedFiles := 0;
      assert inputs[..0] == [];
      while processedFiles < totalFiles
        invariant Valid() && metrics == old(metrics)
        invariant processedFiles <= FailureIndex(inputs)
        invariant acc == RunOf(kind, codec, ReadLines(inputs[..processedFiles]))
        invariant states == old(states)[name := AfterFiles(old(states)[name], processedFiles, totalFiles, acc.records)]
      {
        var entry := inputs[processedFiles];
        if entry.content.Failure? {
          LoopStopped(kind, codec, inputs, processedFiles);
          return Failure(entry.content.error);
        }
        RunOfNextFile(kind, codec, inputs, processedFiles);
        ghost var records := acc.records;
        acc := StreamFile(kind, codec, acc, entry.content.value);
        AfterNextFile(old(states), name, old(states)[name], processedFiles, totalFiles, records, acc.records);
        processedFiles := processedFiles + 1;
        UpdateProgress(name, FilePercent(processedFiles, totalFiles), Some(acc.records));
      }
      LoopStopped(kind, codec, inputs, processedFiles);
      return Success(acc);
    }

    /**
     * A whole run of one report: start, the file loop, the output and the
     * write, then completion; any error ends the run in the error state instead.
     * `listing` is `readdirSync('tmp')` or its error, `writeError` the failure of
     * the final write if there is one. The lines the report file holds are returned;
     * the file is those lines joined by newlines.
     */
    method Run(kind: ReportKind, codec: Codec, listing: Result<seq<DirEntry>, string>, writeError: Option<string>,
               startTime: int, endTime: int) returns (written: Option<seq<string>>)
      requires Valid()
      modifies this
      ensures Valid()
      ensures match RunResult(kind, codec, listing, writeError)
        case Aborted(message) =>
          && written == None
          && states == old(states)[ScopeName(kind) := Failed(message, Some(endTime))]
          && metrics == old(metrics)
        case Written(acc) =>
          && written == Some(Report(kind, codec, acc))
          && states == old(states)[ScopeName(kind) := Finished(startTime, endTime, acc.records)]
          && metrics == old(metrics)[ScopeName(kind) := ProcessingMetrics(endTime - startTime, acc.records, CsvCount(listing.value))]
    {
      Start(kind, startTime);
      if listing.Failure? {
        Fail(kind, listing.error, Some(endTime));
        return None;
      }
      ghost var name := ScopeName(kind);
      ghost var before := old(states);
      var outcome := ProcessListed(kind, codec, listing.value, startTime, endTime);
      if outcome.Failure? {
        UpdateAgain(before, name, Started(startTime), Failed(outcome.error, Some(endTime)));
        return None;
      }
      ghost var looped := states;
      UpdateAgain(before, name, Started(startTime), looped[name]);
      written := Finish(kind, codec, outcome.value, listing.value, writeError, startTime, endTime);
      if writeError.Some? {
        UpdateAgain(before, name, looped[name], Failed(writeError.value, Some(endTime)));
      } else {
        UpdateAgain(before, name, looped[name], Finished(startTime, endTime, outcome.value.records));
      }
    }

    /**
     * The file loop of a run that listed `entries`; a read error ends the run
     * in the error state, otherwise the state holds the number of booked rows.
     */
    method ProcessListed(kind: ReportKind, codec: Codec, entries: seq<DirEntry>, startTime: int, endTime: int)
      returns (outcome: Result<Acc, string>)
      requires Valid() && states[ScopeName(kind)] == Started(startTime)
      modifies this
      ensures Valid()
      ensures outcome == ProcessOutcome(kind, codec, Inputs(kind, entries))
      ensures outcome.Failure? ==> states == old(states)[ScopeName(kind) := Failed(outcome.error, Some(endTime))]
      ensures outcome.Success? ==>
        states == old(states)[ScopeName(kind) := StateAfterLoop(kind, codec, Started(startTime), Inputs(kind, entries))]
      ensures outcome.Success? ==> states[ScopeName(kind)].recordsProcessed == Some(outcome.value.records)
      ensures metrics == old(metrics)
    {
      var inputs := Inputs(kind, entries);
      outcome := ProcessFiles(kind, codec, inputs);
      if outcome.Failure? {
        Fail(kind, outcome.error, Some(endTime));
        return;
      }
      LoopEndsAtFullProgress(kind, codec, startTime, inputs);
    }

    /** The end of a run whose files were all read: build the output, write it, complete. */
    method Finish(kind: ReportKind, codec: Codec, acc: Acc, entries: seq<DirEntry>, writeError: Option<string>,
                  startTime: int, endTime: int) returns (written: Option<seq<string>>)
      requires Valid() && states[ScopeName(kind)].recordsProcessed == Some(acc.records)
      modifies this
      ensures Valid()
      ensures writeError.Some? ==>
        && written == None
        && states == old(states)[ScopeName(kind) := Failed(writeError.value, Some(endTime))]
        && metrics == old(metrics)
      ensures writeError.None? ==>
        && written == Some(Report(kind, codec, acc))
        && states == old(states)[ScopeName(kind) := Finished(startTime, endTime, acc.records)]
        && metrics == old(metrics)[ScopeName(kind) := ProcessingMetrics(endTime - startTime, acc.records, CsvCount(entries))]
    {
      var output := BuildReport(kind, codec, acc);
      if writeError.Some? {
        Fail(kind, writeError.value, Some(endTime));
        return None;
      }
      Complete(kind, startTime, endTime, entries);
      written := Some(output);
    }
  }

  /** Streams the lines of one file through the report's handler, skipping blank lines. */
  method StreamFile(kind: ReportKind, codec: Codec, acc: Acc, lines: seq<string>) returns (result: Acc)
    ensures result == FoldLines(kind, codec, acc, lines)
  {
    result := acc;
    var j := 0;
    while j < |lines|
      invariant j <= |lines|
      invariant result == FoldLines(kind, codec, acc, lines[..j])
    {
      if !IsBlank(lines[j]) {
        result := HandleLine(kind, codec, result, lines[j]);
      }
      assert lines[..j + 1][..j] == lines[..j];
      j := j + 1;
    }
    assert lines[..j] == lines;
  }

  /** A second update of the same key replaces the first. */
  lemma UpdateAgain<K, V>(m: map<K, V>, k: K, a: V, b: V)
    ensures m[k := a][k := b] == m[k := b]
  {
  }

  /** The progress update after file `k + 1` turns the state after `k` files into the state after `k + 1`. */
  lemma AfterNextFile(m: map<string, ProcessingState>, name: string, s: ProcessingState, k: nat, total: nat, records: nat, later: nat)
    requires k < total
    ensures var before := m[name := AfterFiles(s, k, total, records)];
      before[name := Progressed(before[name], FilePercent(k + 1, total), Some(later))]
        == m[name := AfterFiles(s, k + 1, total, later)]
  {
    var before := m[name := AfterFiles(s, k, total, records)];
    if k > 0 {
      ProgressedAgain(s, FilePercent(k, total), FilePercent(k + 1, total), records, later);
    }
    UpdateAgain(m, name, AfterFiles(s, k, total, records), AfterFiles(s, k + 1, total, later));
  }

  /** A loop that read `k` files and stops there has read exactly the files `ReadFiles` names. */
  lemma LoopStopped(kind: ReportKind, codec: Codec, inputs: seq<DirEntry>, k: nat)
    requires k <= FailureIndex(inputs)
    requires k == |inputs| || inputs[k].content.Failure?
    ensures k == FailureIndex(inputs)
    ensures ReadFiles(inputs) == ReadLines(inputs[..k])
    ensures k == |inputs| ==> inputs[..k] == inputs
  {
  }

  /** Reading one more file extends the files read by its lines. */
  lemma NextFile(inputs: seq<DirEntry>, k: nat)
    requires k < FailureIndex(inputs)
    ensures ReadLines(inputs[..k + 1]) == ReadLines(inputs[..k]) + [inputs[k].content.value]
  {
  }

  /** The accumulator after one more file is the previous one with that file's lines read. */
  lemma RunOfNextFile(kind: ReportKind, codec: Codec, inputs: seq<DirEntry>, k: nat)
    requires k < FailureIndex(inputs)
    ensures RunOf(kind, codec, ReadLines(inputs[..k + 1]))
      == FoldLines(kind, codec, RunOf(kind, codec, ReadLines(inputs[..k])), inputs[k].content.value)
  {
    NextFile(inputs, k);
    var files := ReadLines(inputs[..k + 1]);
    assert files[..|files| - 1] == ReadLines(inputs[..k]);
  }

  // ----- the output builders -----

  /** Pushes one amount line per key and returns the lines with the keys' total. */
  method PushGroup(codec: Codec, output: seq<string>, balances: map<string, int>, group: seq<string>)
    returns (out: seq<string>, total: int)
    ensures out == output + EntryLines(codec, balances, group)
    ensures total == GroupTotal(balances, group)
  {
    out, total := output, 0;
    var i := 0;
    while i < |group|
      invariant i <= |group|
      invariant out == output + EntryLines(codec, balances, group[..i])
      invariant total == GroupTotal(balances, group[..i])
    {
      var value := BalanceOf(balances, group[i]);
      out := out + [AmountLine(codec, group[i], value)];
      total := total + value;
      assert group[..i + 1][..i] == group[..i];
      i := i + 1;
    }
    assert group[..i] == group;
  }

  /** The financial statement's output, built line by line with running totals. */
  method BuildStatement(codec: Codec, balances: map<string, int>) returns (output: seq<string>)
    ensures output == StatementReport(codec, balances)
  {
    var netIncome;
    output, netIncome := BuildIncomeStatement(codec, balances);
    output := BuildBalanceSheet(codec, balances, output, netIncome);
  }

  /** The income statement's lines and the net income they end with. */
  method BuildIncomeStatement(codec: Codec, balances: map<string, int>) returns (output: seq<string>, netIncome: int)
    ensures output == IncomeStatement(codec, balances)
    ensures netIncome == NetIncome(balances)
  {
    output := ["Basic Financial Statement", "", "Income Statement"];
    var totalRevenue, totalExpenses;
    output, totalRevenue := PushGroup(codec, output, balances, Revenues);
    output, totalExpenses := PushGroup(codec, output, balances, Expenses);
    netIncome := totalRevenue - totalExpenses;
    output := output + [AmountLine(codec, "Net Income", netIncome), ""];
  }

  /** The balance sheet's lines after `output`, with equity including the net income. */
  method BuildBalanceSheet(codec: Codec, balances: map<string, int>, output: seq<string>, netIncome: int)
    returns (out: seq<string>)
    requires netIncome == NetIncome(balances)
    ensures out == output + BalanceSheet(codec, balances)
  {
    out := output + ["Balance Sheet", "Assets"];
    var totalAssets, totalLiabilities, totalEquity;
    out, totalAssets := PushGroup(codec, out, balances, Assets);
    out := out + [AmountLine(codec, "Total Assets", totalAssets), "", "Liabilities"];
    out, totalLiabilities := PushGroup(codec, out, balances, Liabilities);
    out := out + [AmountLine(codec, "Total Liabilities", totalLiabilities), "", "Equity"];
    out, totalEquity := PushGroup(codec, out, balances, Equity);
    totalEquity := totalEquity + netIncome;
    out := out + [AmountLine(codec, "Retained Earnings (Net Income)", netIncome),
                  AmountLine(codec, "Total Equity", totalEquity), "",
                  "Assets = Liabilities + Equity, " + codec.formatAmount(totalAssets)
                  + " = " + codec.formatAmount(totalLiabilities + totalEquity)];
  }

  /** The report's output lines: a header and one line per key, or the statement. */
  method BuildReport(kind: ReportKind, codec: Codec, acc: Acc) returns (output: seq<string>)
    ensures output == Report(kind, codec, acc)
  {
    match kind {
      case FinancialStatement =>
        output := BuildStatement(codec, acc.balances);
      case Accounts =>
        var total;
        output, total := PushGroup(codec, ["Account,Balance"], acc.balances, AccountsOrder(acc));
      case Yearly =>
        var total;
        output, total := PushGroup(codec, ["Financial Year,Cash Balance"], acc.balances, YearsOrder(acc));
    }
  }
}
