# Budget categorizer — a Dafny model of its core

`budget.py` reads bank CSV exports and normalises every row into a transaction. It sorts the
transactions by date when every date parses, and asks a language model for a category pair
("Main: sub") per transaction. It files each transaction under `categorized[main][sub]` in
first-seen order. It then prints a summary and writes a report of subcategory blocks, main
category subtotals and an overall total.

This project models that pipeline and proves what it promises:

- the format detection and normalisation of `read_transactions`;
- the amount reading and reply parsing of `categorize_transaction`;
- `format_amount`;
- the guarded date sort and the grouping of `process_multiple_files`;
- the report rows of `export_to_csv`.

Modules, one file each:

| file | module | what it holds |
|---|---|---|
| `wrappers.dfy` | `Wrappers` | `Option` and `Result` |
| `text.dfy` | `Text` | `str.strip`, `split(sep, 1)`, `replace(c, '')`, `os.path.basename`, `', '.join` |
| `seqs.dfy` | `Seqs` | concatenation, sums, and runs that stop at the first error |
| `decimal.dfy` | `Decimal` | `float()` on amount text, `.2f` rendering, `format_amount` |
| `schema.dfy` | `Schema` | `read_transactions`, and the combination of all files |
| `classifier.dfy` | `Classifier` | `categorize_transaction` |
| `date_order.dfy` | `DateOrder` | the guarded `list.sort` by transaction date |
| `buckets.dfy` | `Buckets` | the nested `defaultdict` as insertion-ordered association lists |
| `process.dfy` | `Process` | `process_multiple_files` |
| `export.dfy` | `Export` | `export_to_csv` |
| `pipeline.dfy` | `Pipeline` | the end of `main`, including what `display_results` computes |

Representation choices:

- **Amounts** are integers in cents. `float()` is a decimal parser: surrounding blanks (its own set, not quite `str.isspace`) are dropped, then an optional sign, digits, an optional '.', and at most two fraction digits. It returns `None` where Python raises `ValueError`.
- **The language-model call** is a parameter `oracle: (nat, Request) -> Option<string>`. It is indexed by call number, and `None` means the call raised.
- **Date parsing** (`datetime.strptime(…, '%m/%d/%Y')`) is a parameter `parseDate: string -> Option<int>`.
- **A Python exception that ends the run** (`KeyError`, `ValueError`) is a `Failure` carrying the missing key or the amount text `float()` rejected: in `categorize_transaction` that is the text after '$' and ',' were removed, in the totals the stored text.
- **Transactions** (the rows `csv.DictReader` yields and the dictionaries built from them) are `map<string, string>`; only key membership and lookup matter for them.
- **The nested category dictionaries** (`categorized[main][sub]`) are sequences of key/value pairs in insertion order, as Python iterates them.

Where the code differs from the documented intent, the model follows the code:

- **A bad amount ends the run.** A row whose amount does not parse, even after dropping '$' and ',', ends the whole run with a `ValueError`; it is not skipped.
- **A missing key ends the run.** The same holds for a transaction without Description, Account, Amount or Transaction Date (`KeyError`).
- **Totals parse the raw text.** The classifier retries without '$' and ','. The totals in `display_results` and `export_to_csv` call `float()` on the stored text without that retry. So a "$1,200.00" amount gets through classification and then ends the run (`Pipeline.CurrencyTextFailsTotals`).
- **The subcategory can be empty.** The reply "Spending:" gives the subcategory "", not "general".
- **Zero renders with a minus sign.** `format_amount(0)` is "-$0.00".
- **A missing Transaction Date is not recoverable.** It makes the sort give up and leave the order unchanged, but the processing loop then reads the field and the run ends (`Process.MissingDateAborts`).

## Model

| member | source | states |
|---|---|---|
| `Text.StripIsTrim` | budget.py:135-140 | `strip()` (dropping whitespace from either end until none is left) equals `rstrip()` after `lstrip()`, so the stripped text is one slice of the original with only whitespace around it |
| `Text.BaseNameSuffix` | budget.py:42 | the base name has no '/', is a suffix of the path, and is preceded by '/' when shorter |
| `Schema.AccountNameParts` | budget.py:42 | the account name has no '_' and no '/'; it is the whole base name or the part before its first '_' |
| `Schema.DebitDetection` | budget.py:46-52 | stripping the first line does not change the format decision: debit iff the line contains the debit column list |
| `Schema.NormalizeRowFields` | budget.py:56-70 | a debit row gets exactly the seven canonical keys, filled from Posting Date, Description, Amount, Type and Balance with the defaults '' and '0.0' and an empty Category; another row keeps every column and gains Account; Account is always the file's account |
| `Schema.NormalizeAllAt` | budget.py:54-72 | transaction i of a file is the normalisation of its row i |
| `Schema.NormalizeRows` | budget.py:54-72 | the row loop appends exactly the normalised rows, in order |
| `Schema.ReadTransactions` | budget.py:39-77 | one transaction per CSV row, each normalised under the detected format and the account name |
| `Schema.CombineFiles` | budget.py:162-165 | the combined list is the concatenation of every file's transactions in file order |
| `Schema.AllTransactionsLength` | budget.py:162-165 | the combined list has as many transactions as the files have rows |
| `Schema.AllTransactionsAppend` | budget.py:162-165 | combining two groups of files concatenates their transactions |
| `Schema.AllTransactionsAt` | budget.py:162-165 | transaction i of file j sits at offset (rows of earlier files) + i of the combined list, files kept in selection order |
| `Decimal.AcceptedHasNoSymbols` | budget.py:84-91 | text that `float()` accepts contains neither '$' nor ',' |
| `Decimal.FloatStripKeeps` | budget.py:87 | the trimming `float()` does keeps every character that is not one of its blanks |
| `Decimal.FloatStripIsStrip` | budget.py:87 | `float()` trims exactly what `str.strip()` trims on text without the separators U+001C to U+001F |
| `Decimal.SeparatorRejected` | budget.py:87 | "\x1c1" strips to "1", yet `float()` rejects it |
| `Decimal.AmountFieldIsCleanedParse` | budget.py:84-91 | the amount parse of `categorize_transaction` equals `float()` of the text with every '$' and ',' removed |
| `Decimal.DollarsAndCommasStripped` | budget.py:84-91 | `float("$1,200.00")` raises, and the retry reads 120000 cents |
| `Decimal.MagnitudeRoundTrip` | budget.py:154-156 | the `.2f` rendering of a magnitude parses back to it |
| `Decimal.FormatCentsSign` | budget.py:153-156 | '+' exactly for positive totals; zero renders "-$0.00" |
| `Decimal.FormatCentsRoundTrip` | budget.py:149-158 | `float()` rejects a rendered total, and the amount parse of the classifier recovers exactly the signed amount |
| `Decimal.FormatAmount` | budget.py:149-158 | text `float()` rejects comes back unchanged; a numeric text is re-rendered with its sign rule, and the rendering reads back as the same amount |
| `Decimal.DollarMagnitudeRoundTrip` | budget.py:280 | a "$d.cc" subtotal cell is rejected by `float()` and reads back as the magnitude once '$' is dropped |
| `Classifier.ParseReply` | budget.py:135-147 | a failed call gives ("Unknown", "error"); the main category never contains ':'; both parts are stripped |
| `Classifier.ParseReplyNoColon` | budget.py:138-140 | a reply with no ':' once stripped is all main category, with subcategory "general" |
| `Classifier.ParseReplyColon` | budget.py:138-140 | a reply with ':' gives the stripped text before the first ':' as main category and the stripped text after it as subcategory |
| `Classifier.ParseRenderedReply` | budget.py:119-140 | a reply in the requested form "main: sub" is read back as exactly (main, sub) |
| `Classifier.Categorize` | budget.py:79-147 | a missing Description, then a missing Amount, is a `KeyError`; an amount unreadable even without '$' and ',' is a `ValueError` naming the cleaned text; otherwise it succeeds whatever the model call does, and the pair is the parsed reply to the request built from the description, the amount as read, the Category and the Type |
| `Classifier.CategorizeCallFails` | budget.py:124-147 | a raising model call files the transaction under ("Unknown", "error") without ending the run |
| `Classifier.CategorizeRendered` | budget.py:124-143 | a well-formed reply decides the pair, and the request carries the amount as read |
| `Classifier.CategorizeCurrencyText` | budget.py:84-91 | an amount "$1,200.00" is classified, and the request carries 120000 cents |
| `DateOrder.InsertionSortMultiset` | budget.py:167-171 | the reference sort is a permutation |
| `DateOrder.InsertionSortSorted` | budget.py:167-171 | the reference sort is ascending by date |
| `DateOrder.InsertionSortWithKey` | budget.py:167-171 | the reference sort is stable: transactions of one day keep their relative order |
| `DateOrder.DateSortedPermutation` | budget.py:167-171 | the guarded sort keeps the same transactions, each as often as before |
| `DateOrder.DateSortedOrder` | budget.py:167-171 | when every date parses, the list is sorted ascending and stable; when a key fails, the order is left as it was |
| `Buckets.LookupPut` | budget.py:191 | storing under a key changes that key's value and no other |
| `Buckets.KeysPut` | budget.py:191 | a new key is appended to the iteration order; an existing key keeps its place |
| `Buckets.GroupBucket` | budget.py:173-197 | `categorized[main][sub]` holds exactly the entries classified (main, sub), in processing order |
| `Buckets.GroupMainKeys` | budget.py:173-197 | main categories iterate in order of first appearance |
| `Buckets.GroupSubKeys` | budget.py:173-197 | the subcategories of a main category iterate in order of first appearance |
| `Buckets.AddEntryEntries` | budget.py:191-197 | filing one entry adds exactly that entry to the grouped entries |
| `Buckets.GroupAllEntries` | budget.py:177-197 | the grouped entries are a permutation of the processed entries |
| `Buckets.GroupAllAmounts` | budget.py:177-197 | grouping changes neither whether every amount parses nor their total |
| `Process.ClassifyOneOutcome` | budget.py:177-197 | keys are read in the loop's order (Description, Account, Amount, Transaction Date), the first missing one being the error; success iff all are present and the amount reads; the entry carries the raw fields |
| `Process.ClassifyAllOutcome` | budget.py:177-197 | the loop succeeds iff every transaction classifies, keeping their order; otherwise it ends with the first error |
| `Process.ProcessMultipleFiles` | budget.py:160-199 | the result is the grouping of the classified, date-sorted combined transactions, or the first error |
| `Process.MissingDateAborts` | budget.py:167-182 | a transaction without Transaction Date ends the run even though the sort swallowed the error |
| `Process.EntriesMirrorRows` | budget.py:181-197 | entries carrying the transactions' amount texts have the same total and the same parse outcome |
| `Process.ProcessedAmounts` | budget.py:160-199 | after a successful run, the grouped amounts parse iff the files' amounts do, and they add up to the files' total whatever the sort and the classifier did |
| `Export.SumAmountsSuccess` | budget.py:273 | a subcategory sum succeeds iff every amount parses, and is then their total |
| `Export.SumAmountsFailure` | budget.py:273 | a failed sum names the first amount `float()` rejects |
| `Export.SubcategoryRows` | budget.py:272-309 | a subcategory block is its header with the magnitude of the total, one row per transaction and a blank; or the sum's error |
| `Export.SubcategoryBlocks` | budget.py:272-309 | the subcategory loop of one main category yields its subcategory blocks in order and the main total as the sum of all its amounts; or the first amount `float()` rejects, as the sum of all its entries would |
| `Export.CategoryRows` | budget.py:269-331 | a main category block is its subcategory blocks, the subtotal row with the accumulated main total, and a blank; or the first error |
| `Export.ExportToCsv` | budget.py:230-349 | the rows written are `ReportRows`; otherwise the error of the first unparsable amount in report order |
| `Export.ExportedOutcome` | budget.py:268-338 | the export succeeds iff every grouped amount parses; otherwise it fails on the first one that does not, in report order |
| `Export.BodyRowsLength` | budget.py:269-331 | the body has two rows per main category, two per subcategory and one per transaction |
| `Export.ReportShape` | budget.py:230-349 | the row count is 3 + 2·mains + 2·subcategories + transactions; it opens with the files row and a blank; its last row's amount reads back as the exact overall total once '$' is dropped, though `float()` rejects it |
| `Export.FilesRowNames` | budget.py:247-255 | the first row names the files by their base names, in order, joined by ", " |
| `Export.MemberRowsAt` | budget.py:288-298 | member row k is transaction k of the bucket, with its stored fields under its category pair |
| `Export.ReportListsEveryEntry` | budget.py:269-309 | every grouped transaction has its row in the report, and every subcategory has its header with the magnitude of its total |
| `Export.SubtotalCells` | budget.py:273-320 | subcategory and main-category amount cells read back as the magnitude of their totals |
| `Pipeline.DisplayFailsLikeExport` | budget.py:201-228 | `display_results` raises exactly when the export would, with the same error, and otherwise totals the grouped amounts |
| `Pipeline.Run` | budget.py:413-419 | processing, then the summary, then the export, stopping at the first error |
| `Pipeline.ProcessedCount` | budget.py:160-199 | every transaction of the files becomes exactly one grouped entry |
| `Pipeline.RunOutcome` | budget.py:413-419 | once processing succeeds, the report is written iff every Amount reads with `float()` as it stands; its row count is 3 + 2·mains + 2·subcategories + transactions, and its last row is `format_amount` of the files' total |
| `Pipeline.CurrencyTextFailsTotals` | budget.py:210 | a "$1,200.00" amount that was classified makes the run fail at the totals, first in `display_results` (line 210), as it would in `export_to_csv` (line 273) |

## Left out

- The language-model client, the prompt text and the model name. The call is the `oracle` parameter, and the request carries only the fields the prompt interpolates.
- File I/O and CSV parsing: `open`, `csv.DictReader`, `readline`/`seek`, `os.listdir`, `os.makedirs`, and the output path with its timestamp (`datetime.now`). A source file is given as its path, its first line and its parsed rows.
- `csv.DictReader`'s `None` values for short or long rows. Every row is a map from string to string.
- Writing the report: the `csv.DictWriter` header line and quoting. The model yields the row list that is written after the header.
- `datetime.strptime` is the `parseDate` parameter; the model has no calendar of its own.
- All `print` output, including the text `display_results` prints. Only its effect on the outcome is modelled: it raises on the first unparsable amount, as `Pipeline.DisplayResults`.
- `main`'s interactive file selection (listing, `input()`, index parsing, the warnings) and `load_dotenv`; `Pipeline.Run` starts from the selected files.
- `format_numbers.py` is not part of this model.
- `DateOrder.DateSorted`: Python's Timsort is represented by a stable insertion sort. A stable sort by key has only one possible result, so the output agrees. Key computation is modelled as all-or-nothing.
- `Decimal.ParseFloat`: accepts only an optional sign, digits, an optional '.', at most two fraction digits, and surrounding whitespace. Exponents, "inf"/"nan", underscores, more than two decimals and non-ASCII Unicode decimal digits are treated as rejected, although Python's `float()` accepts them. The whitespace dropped around the number is `float()`'s own set (`Decimal.IsFloatBlank`): the six ASCII blanks and the Unicode whitespace from U+0080 on. The separators U+001C to U+001F, which `str.isspace` and `strip()` accept, make `float()` raise.
- `Export.SumAmounts`: totals are exact sums in cents. IEEE-754 rounding of the float sums, and its effect on the printed cents, is not modelled.
