/**
 * export_to_csv: the list of report rows, one block per subcategory inside one block per
 * main category, framed by a files line and an overall total. Sums are float() sums of the
 * stored amount text, and the first amount float() rejects ends the export.
 */
module Export {
  import opened Wrappers
  import opened Seqs
  import opened Text
  import opened Decimal
  import opened Schema
  import opened Buckets

  /** One CSV row, in the column order Date, Description, Amount, Account, Given Category, Main Category, Subcategory. */
  datatype ReportRow = ReportRow(
    date: string, description: string, amount: string, account: string,
    givenCategory: string, mainCategory: string, subcategory: string)

  /** The empty separator row. */
  const Blank: ReportRow := ReportRow("", "", "", "", "", "", "")

  /** The base names of the paths, in order. */
  function BaseNames(paths: seq<string>): (names: seq<string>)
    ensures |names| == |paths|
  {
    if paths == [] then [] else BaseNames(paths[..|paths| - 1]) + [BaseName(paths[|paths| - 1])]
  }

  /** The first row: the processed files' base names joined by ", ". */
  function FilesRow(paths: seq<string>): ReportRow {
    ReportRow("Files Processed:", Join(", ", BaseNames(paths)), "", "", "", "", "")
  }

  /** The header of a subcategory block: "== main: sub ==" and the total's magnitude as "$d.cc". */
  function SubHeader(main: string, sub: string, cents: int): ReportRow {
    ReportRow("", "== " + main + ": " + sub + " ==", "$" + Magnitude(Abs(cents)), "", "", main, sub)
  }

  /** One transaction's row: its stored fields as they are, under its category pair. */
  function MemberRow(main: string, sub: string, e: Entry): ReportRow {
    ReportRow(e.date, e.description, e.amount, e.account, e.originalCategory, main, sub)
  }

  /** The subtotal of a main category: "=== TOTAL main ===" and the magnitude as "$d.cc". */
  function TotalRow(main: string, cents: int): ReportRow {
    ReportRow("", "=== TOTAL " + main + " ===", "$" + Magnitude(Abs(cents)), "", "", main, "TOTAL")
  }

  /** The last row: the signed overall total as format_amount renders it. */
  function OverallRow(cents: int): ReportRow {
    ReportRow("", "=== OVERALL TOTAL ===", FormatCents(cents), "", "", "TOTAL", "TOTAL")
  }

  /** The rows of a subcategory's transactions, in bucket order. */
  function MemberRows(main: string, sub: string, es: seq<Entry>): (rows: seq<ReportRow>)
    ensures |rows| == |es|
  {
    if es == [] then [] else MemberRows(main, sub, es[..|es| - 1]) + [MemberRow(main, sub, es[|es| - 1])]
  }

  /** A subcategory block: header, one row per transaction, blank. */
  function SubBlock(main: string, sub: string, es: seq<Entry>): seq<ReportRow> {
    [SubHeader(main, sub, SumOf(es, Cents))] + MemberRows(main, sub, es) + [Blank]
  }

  /** The subcategory blocks of a main category, in iteration order. */
  function SubsRows(main: string, subs: Subcategories): seq<ReportRow> {
    if subs == [] then []
    else SubsRows(main, subs[..|subs| - 1]) + SubBlock(main, subs[|subs| - 1].0, subs[|subs| - 1].1)
  }

  /** A main category block: its subcategory blocks, its subtotal, blank. */
  function CategoryBlock(main: string, subs: Subcategories): seq<ReportRow> {
    SubsRows(main, subs) + [TotalRow(main, SumOf(SubsEntries(subs), Cents)), Blank]
  }

  /** The main category blocks, in iteration order. */
  function BodyRows(g: Categorized): seq<ReportRow> {
    if g == [] then []
    else BodyRows(g[..|g| - 1]) + CategoryBlock(g[|g| - 1].0, g[|g| - 1].1)
  }

  /** Every row export_to_csv writes after the column header, when every amount parses. */
  function ReportRows(g: Categorized, paths: seq<string>): seq<ReportRow> {
    [FilesRow(paths), Blank] + BodyRows(g) + [OverallRow(SumOf(GroupEntries(g), Cents))]
  }

  /** float(t['amount']) for one transaction: its value, or the error of an amount float() rejects. */
  function AmountTerm(e: Entry): Result<int, Failure> {
    match ParseFloat(e.amount)
    case None => Failure(BadAmount(e.amount))
    case Some(v) => Success(v)
  }

  /** sum(float(t['amount']) for t in es): the total, or the first amount float() rejects. */
  function SumAmounts(es: seq<Entry>): Result<int, Failure> {
    SumAll(es, AmountTerm)
  }

  /** A transaction's term succeeds iff its amount parses, with the parsed value; otherwise it names the amount. */
  lemma AmountTermMeaning()
    ensures forall e :: AmountTerm(e).Success? <==> AmountParses(e)
    ensures forall e :: AmountTerm(e).Success? ==> AmountTerm(e).value == Cents(e)
    ensures forall e :: AmountTerm(e).Failure? ==> AmountTerm(e).error == BadAmount(e.amount)
  {
  }

  /** The sum succeeds iff every amount parses, and then it is the total of the amounts. */
  lemma SumAmountsSuccess(es: seq<Entry>)
    ensures SumAmounts(es).Success? <==> All(es, AmountParses)
    ensures SumAmounts(es).Success? ==> SumAmounts(es).value == SumOf(es, Cents)
  {
    AmountTermMeaning();
    SumAllSuccess(es, AmountTerm, Cents);
  }

  /** A failed sum names the first amount float() rejects. */
  lemma SumAmountsFailure(es: seq<Entry>)
    requires SumAmounts(es).Failure?
    ensures exists i :: 0 <= i < |es| && !AmountParses(es[i]) && SumAmounts(es).error == BadAmount(es[i].amount)
                        && forall j :: 0 <= j < i ==> AmountParses(es[j])
  {
    AmountTermMeaning();
    SumAllFailure(es, AmountTerm);
  }

  /** What export_to_csv produces: the report rows, or the error of the first amount float() rejects. */
  function Exported(g: Categorized, paths: seq<string>): Result<seq<ReportRow>, Failure> {
    match SumAmounts(GroupEntries(g))
    case Failure(e) => Failure(e)
    case Success(_) => Success(ReportRows(g, paths))
  }

  /** One subcategory: its total by the generator sum, then its header, its transactions' rows and a blank. */
  method SubcategoryRows(main: string, sub: string, es: seq<Entry>) returns (res: Result<(seq<ReportRow>, int), Failure>)
    ensures res.Failure? ==> SumAmounts(es) == Failure(res.error)
    ensures res.Success? ==> SumAmounts(es) == Success(res.value.1) && res.value.0 == SubBlock(main, sub, es)
  {
    var total := SumAmounts(es);
    if total.Failure? {
      return Failure(total.error);
    }
    var members: seq<ReportRow> := [];
    for k := 0 to |es|
      invariant members == MemberRows(main, sub, es[..k])
    {
      assert es[..k + 1][..k] == es[..k];
      members := members + [MemberRow(main, sub, es[k])];
    }
    assert es[..|es|] == es;
    SumAmountsSuccess(es);
    return Success(([SubHeader(main, sub, total.value)] + members + [Blank], total.value));
  }

  /** The subcategory loop of one main category: its blocks in order and the main total, or the first error. */
  method SubcategoryBlocks(main: string, subs: Subcategories) returns (res: Result<(seq<ReportRow>, int), Failure>)
    ensures res.Failure? ==> SumAmounts(SubsEntries(subs)) == Failure(res.error)
    ensures res.Success? ==> SumAmounts(SubsEntries(subs)) == Success(res.value.1) && res.value.0 == SubsRows(main, subs)
  {
    var rows: seq<ReportRow> := [];
    var mainTotal := 0;
    for j := 0 to |subs|
      invariant SumAmounts(SubsEntries(subs[..j])) == Success(mainTotal)
      invariant rows == SubsRows(main, subs[..j])
    {
      var block := SubcategoryRows(main, subs[j].0, subs[j].1);
      if block.Failure? {
        SubsSumFails(subs, j, mainTotal, block.error);
        return Failure(block.error);
      }
      SubsSumNext(subs, j, mainTotal, block.value.1);
      SubsRowsStep(main, subs, j);
      rows := rows + block.value.0;
      mainTotal := mainTotal + block.value.1;
    }
    assert subs[..|subs|] == subs;
    return Success((rows, mainTotal));
  }

  /** One main category: its subcategory blocks with the running main total, then its subtotal and a blank. */
  method CategoryRows(main: string, subs: Subcategories) returns (res: Result<seq<ReportRow>, Failure>)
    ensures SumAmounts(SubsEntries(subs)).Failure? ==> res == Failure(SumAmounts(SubsEntries(subs)).error)
    ensures SumAmounts(SubsEntries(subs)).Success? ==> res == Success(CategoryBlock(main, subs))
  {
    var blocks := SubcategoryBlocks(main, subs);
    if blocks.Failure? {
      return Failure(blocks.error);
    }
    var (rows, mainTotal) := blocks.value;
    CategoryBlockTotal(main, subs, mainTotal);
    return Success(rows + [TotalRow(main, mainTotal), Blank]);
  }

  /** One more completed subcategory sum extends the main category's running total. */
  lemma SubsSumNext(subs: Subcategories, j: nat, total: int, v: int)
    requires j < |subs| && SumAmounts(SubsEntries(subs[..j])) == Success(total) && SumAmounts(subs[j].1) == Success(v)
    ensures SumAmounts(SubsEntries(subs[..j + 1])) == Success(total + v)
  {
    SubsEntriesStep(subs, j);
    SumAllConcat(SubsEntries(subs[..j]), subs[j].1, AmountTerm, total, v);
  }

  /** One more subcategory block of a main category. */
  lemma SubsRowsStep(main: string, subs: Subcategories, j: nat)
    requires j < |subs|
    ensures SubsRows(main, subs[..j + 1]) == SubsRows(main, subs[..j]) + SubBlock(main, subs[j].0, subs[j].1)
  {
    assert subs[..j + 1][..j] == subs[..j];
  }

  /** A main category block whose amounts add up to `total` ends with the TOTAL row for it. */
  lemma CategoryBlockTotal(main: string, subs: Subcategories, total: int)
    requires SumAmounts(SubsEntries(subs)) == Success(total)
    ensures CategoryBlock(main, subs) == SubsRows(main, subs) + [TotalRow(main, total), Blank]
  {
    SumAmountsSuccess(SubsEntries(subs));
  }

  /** A sum whose first part fails fails the same way, whatever follows. */
  lemma SumAmountsPrefixFails(a: seq<Entry>, b: seq<Entry>)
    requires SumAmounts(a).Failure?
    ensures SumAmounts(a + b) == SumAmounts(a)
  {
    SumAllAppend(a, b, AmountTerm);
  }

  /** A subcategory whose sum fails ends its main category's sum with the same error, whatever follows. */
  lemma SubsSumFails(subs: Subcategories, j: nat, total: int, e: Failure)
    requires j < |subs| && SumAmounts(SubsEntries(subs[..j])) == Success(total) && SumAmounts(subs[j].1) == Failure(e)
    ensures SumAmounts(SubsEntries(subs)) == Failure(e)
  {
    var before, es := SubsEntries(subs[..j]), subs[j].1;
    SubsEntriesStep(subs, j);
    SumAllAppend(before, es, AmountTerm);
    assert SumAmounts(before + es) == Failure(e);
    SubsEntriesSplit(subs, j + 1);
    SumAmountsPrefixFails(before + es, SubsEntries(subs[j + 1..]));
  }

  /** One more main category of the overall sum: it either ends the whole sum or keeps it going. */
  lemma GroupSumStep(g: Categorized, i: nat)
    requires i < |g| && SumAmounts(GroupEntries(g[..i])).Success?
    ensures SumAmounts(SubsEntries(g[i].1)).Failure? ==>
      SumAmounts(GroupEntries(g)) == Failure(SumAmounts(SubsEntries(g[i].1)).error)
    ensures SumAmounts(SubsEntries(g[i].1)).Success? ==> SumAmounts(GroupEntries(g[..i + 1])).Success?
  {
    GroupEntriesStep(g, i);
    SumAllAppend(GroupEntries(g[..i]), SubsEntries(g[i].1), AmountTerm);
    if SumAmounts(SubsEntries(g[i].1)).Failure? {
      GroupEntriesSplit(g, i + 1);
      SumAmountsPrefixFails(GroupEntries(g[..i + 1]), GroupEntries(g[i + 1..]));
    }
  }

  /** The entries of the first j + 1 subcategories are those of the first j, then those of subcategory j. */
  lemma SubsEntriesStep(subs: Subcategories, j: nat)
    requires j < |subs|
    ensures SubsEntries(subs[..j + 1]) == SubsEntries(subs[..j]) + subs[j].1
  {
    assert subs[..j + 1][..j] == subs[..j];
  }

  /** The entries of the subcategories split at any point. */
  lemma SubsEntriesSplit(subs: Subcategories, j: nat)
    requires j <= |subs|
    ensures SubsEntries(subs) == SubsEntries(subs[..j]) + SubsEntries(subs[j..])
  {
    assert subs == subs[..j] + subs[j..];
    FlattenAppend(subs[..j], subs[j..], BucketEntries);
  }

  /** The entries of the first i + 1 main categories are those of the first i, then those of category i. */
  lemma GroupEntriesStep(g: Categorized, i: nat)
    requires i < |g|
    ensures GroupEntries(g[..i + 1]) == GroupEntries(g[..i]) + SubsEntries(g[i].1)
  {
    assert g[..i + 1][..i] == g[..i];
  }

  /** The entries of the main categories split at any point. */
  lemma GroupEntriesSplit(g: Categorized, i: nat)
    requires i <= |g|
    ensures GroupEntries(g) == GroupEntries(g[..i]) + GroupEntries(g[i..])
  {
    assert g == g[..i] + g[i..];
    FlattenAppend(g[..i], g[i..], CategoryEntries);
  }

  /** export_to_csv, without the file it writes: the row list, or the error that ends the run. */
  method ExportToCsv(g: Categorized, paths: seq<string>) returns (res: Result<seq<ReportRow>, Failure>)
    ensures res == Exported(g, paths)
  {
    var header := [FilesRow(paths), Blank];
    var body: seq<ReportRow> := [];
    for i := 0 to |g|
      invariant SumAmounts(GroupEntries(g[..i])).Success?
      invariant body == BodyRows(g[..i])
    {
      var block := CategoryRows(g[i].0, g[i].1);
      GroupSumStep(g, i);
      if block.Failure? {
        return Failure(block.error);
      }
      assert BodyRows(g[..i + 1]) == BodyRows(g[..i]) + CategoryBlock(g[i].0, g[i].1) by {
        assert g[..i + 1][..i] == g[..i];
      }
      body := body + block.value;
    }
    assert g[..|g|] == g;
    var total := SumOf(GroupEntries(g), Cents);
    return Success(header + body + [OverallRow(total)]);
  }

  /** The number of subcategories of a main category. */
  function SubCount(p: (string, Subcategories)): int {
    |p.1|
  }

  /** Each subcategory block is its transactions plus a header and a blank. */
  lemma {:induction false} SubsRowsLength(main: string, subs: Subcategories)
    ensures |SubsRows(main, subs)| == 2 * |subs| + |SubsEntries(subs)|
  {
    if subs != [] {
      SubsRowsLength(main, subs[..|subs| - 1]);
    }
  }

  /** Each main category block is its subcategory blocks plus a subtotal and a blank. */
  lemma {:induction false} BodyRowsLength(g: Categorized)
    ensures |BodyRows(g)| == 2 * |g| + 2 * SumOf(g, SubCount) + |GroupEntries(g)|
  {
    if g != [] {
      BodyRowsLength(g[..|g| - 1]);
      SubsRowsLength(g[|g| - 1].0, g[|g| - 1].1);
    }
  }

  /**
   * The report opens with the files line and a blank, has one row per transaction, two per
   * subcategory and two per main category, and closes with the overall total, which reads back
   * as the exact sum of the amounts once '$' is dropped, though float() alone rejects it.
   */
  lemma ReportShape(g: Categorized, paths: seq<string>)
    ensures var rows := ReportRows(g, paths);
      && |rows| == 3 + 2 * |g| + 2 * SumOf(g, SubCount) + |GroupEntries(g)|
      && rows[0] == FilesRow(paths) && rows[1] == Blank
      && rows[|rows| - 1].description == "=== OVERALL TOTAL ==="
      && ParseFloat(rows[|rows| - 1].amount) == None
      && ParseAmountField(rows[|rows| - 1].amount) == Some(SumOf(GroupEntries(g), Cents))
  {
    BodyRowsLength(g);
    FormatCentsRoundTrip(SumOf(GroupEntries(g), Cents));
  }

  /** The files line names every file by its base name, in order, separated by ", ". */
  lemma FilesRowNames(paths: seq<string>)
    ensures FilesRow(paths).date == "Files Processed:"
    ensures FilesRow(paths).description == Join(", ", BaseNames(paths))
    ensures forall i :: 0 <= i < |paths| ==> BaseNames(paths)[i] == BaseName(paths[i])
  {
    BaseNamesAt(paths);
  }

  lemma {:induction false} BaseNamesAt(paths: seq<string>)
    ensures forall i :: 0 <= i < |paths| ==> BaseNames(paths)[i] == BaseName(paths[i])
  {
    if paths != [] {
      BaseNamesAt(paths[..|paths| - 1]);
    }
  }

  /** Row k of a subcategory's member rows is transaction k of its bucket. */
  lemma {:induction false} MemberRowsAt(main: string, sub: string, es: seq<Entry>, k: nat)
    requires k < |es|
    ensures MemberRows(main, sub, es)[k] == MemberRow(main, sub, es[k])
  {
    if k < |es| - 1 {
      MemberRowsAt(main, sub, es[..|es| - 1], k);
    }
  }

  /** Every subcategory's block sits inside its main category's rows. */
  lemma {:induction false} SubsRowsContain(main: string, subs: Subcategories, j: nat)
    requires j < |subs|
    ensures forall x :: x in SubBlock(main, subs[j].0, subs[j].1) ==> x in SubsRows(main, subs)
  {
    if j < |subs| - 1 {
      SubsRowsContain(main, subs[..|subs| - 1], j);
    }
  }

  /** Every main category's block sits inside the body. */
  lemma {:induction false} BodyRowsContain(g: Categorized, i: nat)
    requires i < |g|
    ensures forall x :: x in CategoryBlock(g[i].0, g[i].1) ==> x in BodyRows(g)
  {
    if i < |g| - 1 {
      BodyRowsContain(g[..|g| - 1], i);
    }
  }

  /**
   * Every transaction that was grouped has its row in the report, carrying its stored fields
   * under its main category and subcategory, and so does each subcategory's header with the
   * magnitude of its total.
   */
  lemma ReportListsEveryEntry(g: Categorized, paths: seq<string>, i: nat, j: nat, k: nat)
    requires i < |g| && j < |g[i].1| && k < |g[i].1[j].1|
    ensures MemberRow(g[i].0, g[i].1[j].0, g[i].1[j].1[k]) in ReportRows(g, paths)
    ensures SubHeader(g[i].0, g[i].1[j].0, SumOf(g[i].1[j].1, Cents)) in ReportRows(g, paths)
  {
    var main, sub, es := g[i].0, g[i].1[j].0, g[i].1[j].1;
    var member, header := MemberRow(main, sub, es[k]), SubHeader(main, sub, SumOf(es, Cents));
    MemberRowsAt(main, sub, es, k);
    var block := SubBlock(main, sub, es);
    assert block[k + 1] == member && block[0] == header;
    SubsRowsContain(main, g[i].1, j);
    assert member in SubsRows(main, g[i].1) && header in SubsRows(main, g[i].1);
    BodyRowsContain(g, i);
    assert member in BodyRows(g) && header in BodyRows(g);
  }

  /** Subtotal cells hold the magnitude of the total, which reads back once '$' is dropped. */
  lemma SubtotalCells(main: string, sub: string, cents: int)
    ensures ParseAmountField(SubHeader(main, sub, cents).amount) == Some(Abs(cents))
    ensures ParseAmountField(TotalRow(main, cents).amount) == Some(Abs(cents))
  {
    DollarMagnitudeRoundTrip(Abs(cents));
  }

  /**
   * export_to_csv writes the report iff every grouped amount reads with float() as it stands;
   * otherwise it fails on the first one that does not, in report order.
   */
  lemma ExportedOutcome(g: Categorized, paths: seq<string>)
    ensures Exported(g, paths).Success? <==> All(GroupEntries(g), AmountParses)
    ensures Exported(g, paths).Success? ==> Exported(g, paths).value == ReportRows(g, paths)
    ensures Exported(g, paths).Failure? ==>
      var es := GroupEntries(g);
      exists n :: 0 <= n < |es| && !AmountParses(es[n]) && Exported(g, paths).error == BadAmount(es[n].amount)
                  && forall m :: 0 <= m < n ==> AmountParses(es[m])
  {
    SumAmountsSuccess(GroupEntries(g));
    if Exported(g, paths).Failure? {
      SumAmountsFailure(GroupEntries(g));
    }
  }
}
