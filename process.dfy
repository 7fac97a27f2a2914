/**
 * process_multiple_files: combine the files' transactions, sort them by date when every date
 * parses, then classify them one by one and file each under categorized[main][sub].
 */
module Process {
  import opened Wrappers
  import opened Seqs
  import opened Decimal
  import opened Schema
  import opened Classifier
  import opened DateOrder
  import opened Buckets

  /**
   * One iteration of the processing loop: the progress line reads Description and Account,
   * then Amount and Transaction Date are read (each a KeyError when missing), then the
   * transaction is classified and its entry built.
   */
  function ClassifyOne(index: nat, t: Row, oracle: Oracle): Result<Classified, Failure>
  {
    if "Description" !in t then Failure(MissingField("Description"))
    else if "Account" !in t then Failure(MissingField("Account"))
    else if "Amount" !in t then Failure(MissingField("Amount"))
    else if "Transaction Date" !in t then Failure(MissingField("Transaction Date"))
    else
      match Categorize(index, t, oracle)
      case Failure(e) => Failure(e)
      case Success(pair) =>
        var entry := Entry(t["Transaction Date"], t["Description"], t["Amount"], t["Account"], Get(t, "Category", ""));
        Success(Classified(entry, pair.0, pair.1))
  }

  /**
   * The keys are read in the order the loop reads them, the first missing one being the error;
   * a transaction that has them all and whose amount parses becomes an entry carrying its raw
   * fields, filed under the pair the classifier returned.
   */
  lemma ClassifyOneOutcome(index: nat, t: Row, oracle: Oracle)
    ensures "Description" !in t ==> ClassifyOne(index, t, oracle) == Failure(MissingField("Description"))
    ensures "Description" in t && "Account" !in t ==> ClassifyOne(index, t, oracle) == Failure(MissingField("Account"))
    ensures "Description" in t && "Account" in t && "Amount" !in t ==> ClassifyOne(index, t, oracle) == Failure(MissingField("Amount"))
    ensures "Description" in t && "Account" in t && "Amount" in t && "Transaction Date" !in t ==>
      ClassifyOne(index, t, oracle) == Failure(MissingField("Transaction Date"))
    ensures ClassifyOne(index, t, oracle).Success? <==>
      && "Description" in t && "Account" in t && "Amount" in t && "Transaction Date" in t
      && ParseAmountField(t["Amount"]).Some?
    ensures ClassifyOne(index, t, oracle).Success? ==>
      && ClassifyOne(index, t, oracle).value.entry == Entry(t["Transaction Date"], t["Description"], t["Amount"], t["Account"], Get(t, "Category", ""))
      && Categorize(index, t, oracle) == Success((ClassifyOne(index, t, oracle).value.main, ClassifyOne(index, t, oracle).value.sub))
  {
  }

  /** The loop body as a step function for call number i. */
  function Classify(oracle: Oracle): (nat, Row) -> Result<Classified, Failure> {
    (i: nat, t: Row) => ClassifyOne(i, t, oracle)
  }

  /** The processing loop over `ts`, stopping at the first transaction that raises. */
  function ClassifyAll(ts: seq<Row>, oracle: Oracle): Result<seq<Classified>, Failure> {
    RunAll(ts, Classify(oracle))
  }

  /**
   * The loop classifies every transaction iff each one classifies on its own, keeping their
   * order; otherwise the run ends with the error of the first one that raises.
   */
  lemma ClassifyAllOutcome(ts: seq<Row>, oracle: Oracle)
    ensures ClassifyAll(ts, oracle).Success? <==> forall i :: 0 <= i < |ts| ==> ClassifyOne(i, ts[i], oracle).Success?
    ensures ClassifyAll(ts, oracle).Success? ==>
      && |ClassifyAll(ts, oracle).value| == |ts|
      && forall i :: 0 <= i < |ts| ==> ClassifyAll(ts, oracle).value[i] == ClassifyOne(i, ts[i], oracle).value
    ensures ClassifyAll(ts, oracle).Failure? ==>
      exists i :: 0 <= i < |ts| && ClassifyOne(i, ts[i], oracle) == Failure(ClassifyAll(ts, oracle).error)
                  && forall j :: 0 <= j < i ==> ClassifyOne(j, ts[j], oracle).Success?
  {
    RunAllSuccess(ts, Classify(oracle));
    if ClassifyAll(ts, oracle).Failure? {
      RunAllFailure(ts, Classify(oracle));
      var i :| 0 <= i < |ts| && Classify(oracle)(i, ts[i]) == Failure(ClassifyAll(ts, oracle).error)
                && forall j :: 0 <= j < i ==> Classify(oracle)(j, ts[j]).Success?;
      assert ClassifyOne(i, ts[i], oracle) == Failure(ClassifyAll(ts, oracle).error);
    }
  }

  /** What process_multiple_files returns, or the error that ends the run. */
  function Processed(files: seq<SourceFile>, parseDate: DateParser, oracle: Oracle): Result<Categorized, Failure> {
    match ClassifyAll(DateSorted(AllTransactions(files), parseDate), oracle)
    case Failure(e) => Failure(e)
    case Success(cs) => Success(GroupAll(cs))
  }

  /** process_multiple_files. */
  method ProcessMultipleFiles(files: seq<SourceFile>, parseDate: DateParser, oracle: Oracle)
    returns (res: Result<Categorized, Failure>)
    ensures res == Processed(files, parseDate, oracle)
  {
    var all := CombineFiles(files);
    var sorted := DateSorted(all, parseDate);
    var categorized: Categorized := [];
    ghost var cs: seq<Classified> := [];
    for i := 0 to |sorted|
      invariant ClassifyAll(sorted[..i], oracle) == Success(cs)
      invariant categorized == GroupAll(cs)
    {
      var r := ClassifyOne(i, sorted[i], oracle);
      RunAllExtend(sorted, i, Classify(oracle), cs);
      if r.Failure? {
        RunAllStops(sorted, i + 1, Classify(oracle));
        return Failure(r.error);
      }
      assert GroupAll(cs + [r.value]) == AddEntry(GroupAll(cs), r.value) by {
        assert (cs + [r.value])[..|cs|] == cs;
      }
      cs := cs + [r.value];
      categorized := AddEntry(categorized, r.value);
    }
    assert sorted[..|sorted|] == sorted;
    return Success(categorized);
  }

  /** A transaction without Transaction Date ends the run: the sort skips it, but the loop reads the field. */
  lemma MissingDateAborts(files: seq<SourceFile>, parseDate: DateParser, oracle: Oracle, k: nat)
    requires k < |AllTransactions(files)| && "Transaction Date" !in AllTransactions(files)[k]
    ensures Processed(files, parseDate, oracle).Failure?
  {
    var all := AllTransactions(files);
    assert !AllDated(all, parseDate) by {
      assert DateKey(all[k], parseDate).None?;
    }
    DateSortedOrder(all, parseDate);
    RunAllSuccess(all, Classify(oracle));
    ClassifyOneOutcome(k, all[k], oracle);
    assert Classify(oracle)(k, all[k]).Failure?;
  }

  /** float(t['Amount']) in cents, 0 standing in for an amount that is missing or does not parse. */
  function RowCents(t: Row): int {
    match ParseFloat(Get(t, "Amount", ""))
    case Some(v) => v
    case None => 0
  }

  /** The transaction's Amount reads with float() as it stands. */
  predicate RowAmountParses(t: Row) {
    ParseFloat(Get(t, "Amount", "")).Some?
  }

  /** Entry i carries transaction i's raw Amount text, so amounts and their parses line up. */
  lemma EntriesMirrorRows(ts: seq<Row>, cs: seq<Classified>)
    requires |cs| == |ts|
    requires forall i :: 0 <= i < |ts| ==> cs[i].entry.amount == Get(ts[i], "Amount", "")
    ensures SumOf(EntriesOf(cs), Cents) == SumOf(ts, RowCents)
    ensures All(EntriesOf(cs), AmountParses) <==> All(ts, RowAmountParses)
  {
    var es := EntriesOf(cs);
    forall i | 0 <= i < |ts|
      ensures Cents(es[i]) == RowCents(ts[i]) && AmountParses(es[i]) == RowAmountParses(ts[i])
    {
      EntriesOfAt(cs, i);
    }
    SumOfPointwise(es, Cents, ts, RowCents);
    AllPointwise(es, AmountParses, ts, RowAmountParses);
  }

  /**
   * After a successful run the grouped entries are the transactions' amounts, whatever the
   * sort and the classifier did: they all parse iff every transaction's Amount parses as it
   * stands, and they add up to the sum over the files in file order.
   */
  lemma ProcessedAmounts(files: seq<SourceFile>, parseDate: DateParser, oracle: Oracle)
    requires Processed(files, parseDate, oracle).Success?
    ensures var g := Processed(files, parseDate, oracle).value;
      && (All(GroupEntries(g), AmountParses) <==> All(AllTransactions(files), RowAmountParses))
      && SumOf(GroupEntries(g), Cents) == SumOf(AllTransactions(files), RowCents)
  {
    var all := AllTransactions(files);
    var sorted := DateSorted(all, parseDate);
    RunAllSuccess(sorted, Classify(oracle));
    var cs := ClassifyAll(sorted, oracle).value;
    forall i | 0 <= i < |sorted|
      ensures cs[i].entry.amount == Get(sorted[i], "Amount", "")
    {
      ClassifyOneOutcome(i, sorted[i], oracle);
    }
    EntriesMirrorRows(sorted, cs);
    GroupAllAmounts(cs);
    DateSortedPermutation(all, parseDate);
    SumOfPermutation(sorted, all, RowCents);
    AllPermutation(sorted, all, RowAmountParses);
  }
}
