/**
 * read_transactions: schema detection from a file's first line and the mapping of each CSV
 * row into a transaction record, plus the concatenation over all selected files that
 * process_multiple_files performs.
 */
module Schema {
  import opened Wrappers
  import opened Text
  import opened Seqs

  /** A CSV row as the CSV reader yields it, and likewise a transaction record: column to cell text. */
  type Row = map<string, string>

  /** One account export: its path, its first line, and its data rows. */
  datatype SourceFile = SourceFile(path: string, firstLine: string, rows: seq<Row>)

  /** What ends a run: a missing column (a KeyError) or an amount float() rejects (a ValueError). */
  datatype Failure = MissingField(key: string) | BadAmount(text: string)

  /** The column list by which a Chase debit export is recognised. */
  const DebitSignature: string :=
    "Details" + ",Posting Date" + ",Description" + ",Amount" + ",Type" + ",Balance"

  /** The columns of a transaction built from a debit row. */
  const DebitKeys: set<string> :=
    {"Transaction Date", "Description", "Amount", "Category", "Type", "Balance", "Account"}

  /** The format test: the stripped first line contains the debit column list. */
  predicate IsDebitFormat(firstLine: string) {
    Contains(Strip(firstLine), DebitSignature)
  }

  /** Stripping the first line changes nothing: the debit layout is chosen iff the line contains the column list. */
  lemma DebitDetection(firstLine: string)
    ensures IsDebitFormat(firstLine) <==> Contains(firstLine, DebitSignature)
  {
    ContainsStrip(firstLine, DebitSignature);
  }

  /** The account name: the file's base name up to its first '_'. */
  function AccountName(path: string): string {
    SplitFirst(BaseName(path), '_').0
  }

  /**
   * The account name contains neither '_' nor '/', and it is the whole base name or is
   * followed there by '_'.
   */
  lemma AccountNameParts(path: string)
    ensures var name, base := AccountName(path), BaseName(path);
      && '_' !in name && '/' !in name
      && |name| <= |base| && name == base[..|name|]
      && (|name| == |base| || base[|name|] == '_')
  {
    var base := BaseName(path);
    BaseNameSuffix(path);
    var r := SplitFirst(base, '_');
    PrefixLacks(base, r.0, '/');
  }

  /** A prefix of a string without `c` lacks `c` too. */
  lemma PrefixLacks(s: string, p: string, c: char)
    requires c !in s
    requires |p| <= |s| && p == s[..|p|]
    ensures c !in p
  {
    forall k | 0 <= k < |p|
      ensures p[k] != c
    {
      assert p[k] == s[k];
    }
  }

  /** dict.get(key, default). */
  function Get(row: Row, key: string, default: string): string {
    if key in row then row[key] else default
  }

  /**
   * One CSV row as a transaction. A debit row is re-keyed into the canonical columns with the
   * source's defaults and an empty Category; any other row is copied with Account added.
   */
  function NormalizeRow(isDebit: bool, account: string, row: Row): Row {
    if isDebit then
      map[
        "Transaction Date" := Get(row, "Posting Date", ""),
        "Description" := Get(row, "Description", ""),
        "Amount" := Get(row, "Amount", "0.0"),
        "Category" := "",
        "Type" := Get(row, "Type", ""),
        "Balance" := Get(row, "Balance", "0.0"),
        "Account" := account
      ]
    else
      row["Account" := account]
  }

  /**
   * What a normalised row holds: Account is always the file's account; a debit row has exactly
   * the canonical columns, filled from Posting Date, Description, Amount, Type and Balance with
   * the source's defaults and an empty Category; any other row keeps every column it had.
   */
  lemma NormalizeRowFields(isDebit: bool, account: string, row: Row)
    ensures var t := NormalizeRow(isDebit, account, row);
      && "Account" in t && t["Account"] == account
      && (isDebit ==> t.Keys == DebitKeys)
      && (isDebit ==>
        && t["Transaction Date"] == Get(row, "Posting Date", "")
        && t["Description"] == Get(row, "Description", "")
        && t["Amount"] == Get(row, "Amount", "0.0")
        && t["Category"] == ""
        && t["Type"] == Get(row, "Type", "")
        && t["Balance"] == Get(row, "Balance", "0.0"))
      && (!isDebit ==> t.Keys == row.Keys + {"Account"})
      && (!isDebit ==> forall k :: k in row && k != "Account" ==> t[k] == row[k])
  {
  }

  /** The rows of one file, each normalised, in file order. */
  function NormalizeAll(isDebit: bool, account: string, rows: seq<Row>): (ts: seq<Row>)
    ensures |ts| == |rows|
  {
    if rows == [] then []
    else NormalizeAll(isDebit, account, rows[..|rows| - 1]) + [NormalizeRow(isDebit, account, rows[|rows| - 1])]
  }

  /** Transaction i of a file is its row i, normalised: one transaction per row, in file order. */
  lemma {:induction false} NormalizeAllAt(isDebit: bool, account: string, rows: seq<Row>, i: nat)
    requires i < |rows|
    ensures NormalizeAll(isDebit, account, rows)[i] == NormalizeRow(isDebit, account, rows[i])
  {
    if i < |rows| - 1 {
      NormalizeAllAt(isDebit, account, rows[..|rows| - 1], i);
    }
  }

  /** The transactions read_transactions returns for a file. */
  function FileTransactions(f: SourceFile): seq<Row> {
    NormalizeAll(IsDebitFormat(f.firstLine), AccountName(f.path), f.rows)
  }

  /** read_transactions: derives the account and detects the layout once, then converts every row. */
  method ReadTransactions(f: SourceFile) returns (transactions: seq<Row>)
    ensures transactions == FileTransactions(f)
    ensures |transactions| == |f.rows|
  {
    var account := AccountName(f.path);
    var isDebit := IsDebitFormat(f.firstLine);
    transactions := NormalizeRows(isDebit, account, f.rows);
  }

  /** The row loop of read_transactions: appends one transaction per CSV row. */
  method NormalizeRows(isDebit: bool, account: string, rows: seq<Row>) returns (transactions: seq<Row>)
    ensures transactions == NormalizeAll(isDebit, account, rows)
  {
    transactions := [];
    for i := 0 to |rows|
      invariant transactions == NormalizeAll(isDebit, account, rows[..i])
    {
      assert rows[..i + 1][..i] == rows[..i];
      transactions := transactions + [NormalizeRow(isDebit, account, rows[i])];
    }
    assert rows[..|rows|] == rows;
  }

  /** The number of data rows over all files. */
  function RowCount(files: seq<SourceFile>): nat {
    if files == [] then 0 else RowCount(files[..|files| - 1]) + |files[|files| - 1].rows|
  }

  /** The transactions of all files, file after file in argument order. */
  function AllTransactions(files: seq<SourceFile>): seq<Row> {
    Flatten(files, FileTransactions)
  }

  /** One transaction per data row across all files. */
  lemma {:induction false} AllTransactionsLength(files: seq<SourceFile>)
    ensures |AllTransactions(files)| == RowCount(files)
  {
    if files != [] {
      AllTransactionsLength(files[..|files| - 1]);
    }
  }

  /** Combining is a concatenation: the transactions of two batches of files are those of the first, then those of the second. */
  lemma AllTransactionsAppend(first: seq<SourceFile>, second: seq<SourceFile>)
    ensures AllTransactions(first + second) == AllTransactions(first) + AllTransactions(second)
  {
    FlattenAppend(first, second, FileTransactions);
  }

  /**
   * Transaction i of file j is transaction RowCount(files[..j]) + i of the combined list; with
   * NormalizeAllAt, it is row i of file j normalised with that file's layout and account.
   */
  lemma AllTransactionsAt(files: seq<SourceFile>, j: nat, i: nat)
    requires j < |files| && i < |files[j].rows|
    ensures RowCount(files[..j]) + i < |AllTransactions(files)|
    ensures AllTransactions(files)[RowCount(files[..j]) + i] == FileTransactions(files[j])[i]
  {
    FlattenAt(files, FileTransactions, j, i);
    AllTransactionsLength(files[..j]);
  }

  /** process_multiple_files's first loop: extends one list with each file's transactions. */
  method CombineFiles(files: seq<SourceFile>) returns (all: seq<Row>)
    ensures all == AllTransactions(files)
  {
    all := [];
    for i := 0 to |files|
      invariant all == AllTransactions(files[..i])
    {
      var transactions := ReadTransactions(files[i]);
      assert files[..i + 1][..i] == files[..i];
      all := all + transactions;
    }
    assert files[..|files|] == files;
  }
}
