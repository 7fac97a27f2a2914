/**
 * The end of main: process the selected files, display the summary, export the report.
 * File selection, the console and the output file are outside the model.
 */
module Pipeline {
  import opened Wrappers
  import opened Seqs
  import opened Decimal
  import opened Schema
  import opened Classifier
  import opened DateOrder
  import opened Buckets
  import opened Process
  import opened Export

  /**
   * What display_results computes besides the text it prints: the subcategory sums and then the
   * overall sum, each of which raises on the first amount float() rejects.
   */
  function DisplayResults(g: Categorized): Result<int, Failure> {
    SumAmounts(GroupEntries(g))
  }

  /** display_results raises exactly when export_to_csv would, on the same amount. */
  lemma DisplayFailsLikeExport(g: Categorized, paths: seq<string>)
    ensures DisplayResults(g).Failure? <==> Exported(g, paths).Failure?
    ensures DisplayResults(g).Failure? ==> DisplayResults(g).error == Exported(g, paths).error
    ensures DisplayResults(g).Success? ==> DisplayResults(g).value == SumOf(GroupEntries(g), Cents)
  {
    SumAmountsSuccess(GroupEntries(g));
  }

  /** The paths of the selected files, in selection order. */
  function Paths(files: seq<SourceFile>): (ps: seq<string>)
    ensures |ps| == |files| && forall i :: 0 <= i < |files| ==> ps[i] == files[i].path
  {
    seq(|files|, i requires 0 <= i < |files| => files[i].path)
  }

  /** The outcome of main once the files are chosen: the report rows, or the error that ends the run. */
  function Ran(files: seq<SourceFile>, parseDate: DateParser, oracle: Oracle): Result<seq<ReportRow>, Failure> {
    match Processed(files, parseDate, oracle)
    case Failure(e) => Failure(e)
    case Success(g) =>
      match DisplayResults(g)
      case Failure(e) => Failure(e)
      case Success(_) => Exported(g, Paths(files))
  }

  /** process_multiple_files, display_results, export_to_csv, in that order. */
  method Run(files: seq<SourceFile>, parseDate: DateParser, oracle: Oracle) returns (res: Result<seq<ReportRow>, Failure>)
    ensures res == Ran(files, parseDate, oracle)
  {
    var categorized := ProcessMultipleFiles(files, parseDate, oracle);
    if categorized.Failure? {
      return Failure(categorized.error);
    }
    var shown := DisplayResults(categorized.value);
    if shown.Failure? {
      return Failure(shown.error);
    }
    res := ExportToCsv(categorized.value, Paths(files));
  }

  /** Processing keeps every transaction of the files: each becomes exactly one grouped entry. */
  lemma ProcessedCount(files: seq<SourceFile>, parseDate: DateParser, oracle: Oracle)
    requires Processed(files, parseDate, oracle).Success?
    ensures |GroupEntries(Processed(files, parseDate, oracle).value)| == |AllTransactions(files)|
  {
    var all := AllTransactions(files);
    var sorted := DateSorted(all, parseDate);
    RunAllSuccess(sorted, Classify(oracle));
    var cs := ClassifyAll(sorted, oracle).value;
    GroupAllEntries(cs);
    DateSortedPermutation(all, parseDate);
    assert |GroupEntries(GroupAll(cs))| == |multiset(GroupEntries(GroupAll(cs)))| == |multiset(EntriesOf(cs))|;
    assert |sorted| == |multiset(sorted)| == |multiset(all)| == |all|;
  }

  /**
   * Once processing succeeds, the report is written iff every transaction's Amount reads with
   * float() as it stands. The report then has one row per transaction plus the frame rows, and
   * its last row is the overall total of the files' amounts in the format_amount form, whatever
   * order the sort and the classifier left them in.
   */
  lemma RunOutcome(files: seq<SourceFile>, parseDate: DateParser, oracle: Oracle)
    requires Processed(files, parseDate, oracle).Success?
    ensures Ran(files, parseDate, oracle).Success? <==> All(AllTransactions(files), RowAmountParses)
    ensures Ran(files, parseDate, oracle).Success? ==>
      var g := Processed(files, parseDate, oracle).value;
      var rows := Ran(files, parseDate, oracle).value;
      && |rows| == 3 + 2 * |g| + 2 * SumOf(g, SubCount) + |AllTransactions(files)|
      && rows[0] == FilesRow(Paths(files))
      && rows[|rows| - 1] == OverallRow(SumOf(AllTransactions(files), RowCents))
      && rows[|rows| - 1].amount == FormatCents(SumOf(AllTransactions(files), RowCents))
  {
    var g := Processed(files, parseDate, oracle).value;
    ProcessedAmounts(files, parseDate, oracle);
    ProcessedCount(files, parseDate, oracle);
    DisplayFailsLikeExport(g, Paths(files));
    ExportedOutcome(g, Paths(files));
    ReportShape(g, Paths(files));
  }

  /**
   * An amount written as "$1,200.00" gets through the classifier, which retries without '$'
   * and ',', but the totals read the stored text with float() and the run fails there.
   */
  lemma CurrencyTextFailsTotals(files: seq<SourceFile>, parseDate: DateParser, oracle: Oracle, k: nat)
    requires Processed(files, parseDate, oracle).Success?
    requires k < |AllTransactions(files)| && Get(AllTransactions(files)[k], "Amount", "") == "$1,200.00"
    ensures Ran(files, parseDate, oracle).Failure?
  {
    DollarsAndCommasStripped();
    assert !RowAmountParses(AllTransactions(files)[k]);
    RunOutcome(files, parseDate, oracle);
  }
}
