/**
 * The date sort of process_multiple_files: list.sort with a strptime key inside a try.
 * Python's sort computes every key before it moves anything and leaves the list as it was
 * when a key raises, and it is stable; the sort itself is library code, so it is modelled
 * by a reference definition (a stable insertion sort) and the properties the library promises.
 */
module DateOrder {
  import opened Wrappers
  import opened Schema

  /** datetime.strptime(text, '%m/%d/%Y') as a day number: None when it raises ValueError. */
  type DateParser = string -> Option<int>

  /** The sort key of a transaction: None when Transaction Date is missing (KeyError) or does not parse. */
  function DateKey(t: Row, parseDate: DateParser): Option<int> {
    if "Transaction Date" in t then parseDate(t["Transaction Date"]) else None
  }

  /** Every key computation succeeds. */
  predicate AllDated(ts: seq<Row>, parseDate: DateParser) {
    forall i :: 0 <= i < |ts| ==> DateKey(ts[i], parseDate).Some?
  }

  /** The key as a number, 0 standing in for a key that does not exist. */
  function SortKey(t: Row, parseDate: DateParser): int {
    match DateKey(t, parseDate)
    case Some(day) => day
    case None => 0
  }

  /** Ascending by date. */
  predicate SortedByDate(ts: seq<Row>, parseDate: DateParser) {
    forall i, j :: 0 <= i < j < |ts| ==> SortKey(ts[i], parseDate) <= SortKey(ts[j], parseDate)
  }

  /** The transactions of `ts` whose key is `day`, in their order in `ts`. */
  function WithKey(ts: seq<Row>, day: int, parseDate: DateParser): seq<Row> {
    if ts == [] then []
    else
      var last := ts[|ts| - 1];
      WithKey(ts[..|ts| - 1], day, parseDate) + (if SortKey(last, parseDate) == day then [last] else [])
  }

  /** Places `t` after every element of `sorted` whose key is not greater than its own. */
  function Insert(sorted: seq<Row>, t: Row, parseDate: DateParser): (r: seq<Row>)
    ensures |r| == |sorted| + 1
  {
    if sorted == [] || SortKey(sorted[|sorted| - 1], parseDate) <= SortKey(t, parseDate) then sorted + [t]
    else Insert(sorted[..|sorted| - 1], t, parseDate) + [sorted[|sorted| - 1]]
  }

  /** The reference stable sort by key. */
  function InsertionSort(ts: seq<Row>, parseDate: DateParser): (r: seq<Row>)
    ensures |r| == |ts|
  {
    if ts == [] then []
    else Insert(InsertionSort(ts[..|ts| - 1], parseDate), ts[|ts| - 1], parseDate)
  }

  /** The list after the guarded sort: sorted when every key exists, otherwise untouched. */
  function DateSorted(ts: seq<Row>, parseDate: DateParser): seq<Row> {
    if AllDated(ts, parseDate) then InsertionSort(ts, parseDate) else ts
  }

  lemma {:induction false} InsertMultiset(sorted: seq<Row>, t: Row, parseDate: DateParser)
    ensures multiset(Insert(sorted, t, parseDate)) == multiset(sorted) + multiset{t}
  {
    if !(sorted == [] || SortKey(sorted[|sorted| - 1], parseDate) <= SortKey(t, parseDate)) {
      var init := sorted[..|sorted| - 1];
      InsertMultiset(init, t, parseDate);
      assert sorted == init + [sorted[|sorted| - 1]];
    }
  }

  lemma {:induction false} InsertionSortMultiset(ts: seq<Row>, parseDate: DateParser)
    ensures multiset(InsertionSort(ts, parseDate)) == multiset(ts)
  {
    if ts != [] {
      var init := ts[..|ts| - 1];
      InsertionSortMultiset(init, parseDate);
      InsertMultiset(InsertionSort(init, parseDate), ts[|ts| - 1], parseDate);
      assert ts == init + [ts[|ts| - 1]];
    }
  }

  lemma {:induction false} InsertSorted(sorted: seq<Row>, t: Row, parseDate: DateParser)
    requires SortedByDate(sorted, parseDate)
    ensures SortedByDate(Insert(sorted, t, parseDate), parseDate)
  {
    if !(sorted == [] || SortKey(sorted[|sorted| - 1], parseDate) <= SortKey(t, parseDate)) {
      var init, last := sorted[..|sorted| - 1], sorted[|sorted| - 1];
      InsertSorted(init, t, parseDate);
      InsertMultiset(init, t, parseDate);
      var front := Insert(init, t, parseDate);
      forall i | 0 <= i < |front|
        ensures SortKey(front[i], parseDate) <= SortKey(last, parseDate)
      {
        assert front[i] in multiset(front);
        if front[i] != t {
          assert front[i] in multiset(init);
          var k :| 0 <= k < |init| && init[k] == front[i];
          assert sorted[k] == init[k];
        }
      }
    }
  }

  lemma {:induction false} InsertionSortSorted(ts: seq<Row>, parseDate: DateParser)
    ensures SortedByDate(InsertionSort(ts, parseDate), parseDate)
  {
    if ts != [] {
      InsertionSortSorted(ts[..|ts| - 1], parseDate);
      InsertSorted(InsertionSort(ts[..|ts| - 1], parseDate), ts[|ts| - 1], parseDate);
    }
  }

  lemma {:induction false} InsertWithKey(sorted: seq<Row>, t: Row, day: int, parseDate: DateParser)
    ensures WithKey(Insert(sorted, t, parseDate), day, parseDate)
         == WithKey(sorted, day, parseDate) + (if SortKey(t, parseDate) == day then [t] else [])
  {
    var r := Insert(sorted, t, parseDate);
    if sorted == [] || SortKey(sorted[|sorted| - 1], parseDate) <= SortKey(t, parseDate) {
      assert r[..|r| - 1] == sorted;
    } else {
      var init, last := sorted[..|sorted| - 1], sorted[|sorted| - 1];
      InsertWithKey(init, t, day, parseDate);
      assert r[..|r| - 1] == Insert(init, t, parseDate);
      assert r[|r| - 1] == last;
    }
  }

  lemma {:induction false} InsertionSortWithKey(ts: seq<Row>, day: int, parseDate: DateParser)
    ensures WithKey(InsertionSort(ts, parseDate), day, parseDate) == WithKey(ts, day, parseDate)
  {
    if ts != [] {
      var init := ts[..|ts| - 1];
      InsertionSortWithKey(init, day, parseDate);
      InsertWithKey(InsertionSort(init, parseDate), ts[|ts| - 1], day, parseDate);
    }
  }

  /** The guarded sort only reorders: the same transactions, each as often as before. */
  lemma DateSortedPermutation(ts: seq<Row>, parseDate: DateParser)
    ensures multiset(DateSorted(ts, parseDate)) == multiset(ts)
  {
    InsertionSortMultiset(ts, parseDate);
  }

  /**
   * When every date parses the result is in date order and the sort is stable: for each day,
   * the transactions of that day keep their relative order. When one key fails, nothing moves.
   */
  lemma DateSortedOrder(ts: seq<Row>, parseDate: DateParser)
    ensures AllDated(ts, parseDate) ==> SortedByDate(DateSorted(ts, parseDate), parseDate)
    ensures AllDated(ts, parseDate) ==>
      forall day :: WithKey(DateSorted(ts, parseDate), day, parseDate) == WithKey(ts, day, parseDate)
    ensures !AllDated(ts, parseDate) ==> DateSorted(ts, parseDate) == ts
  {
    if AllDated(ts, parseDate) {
      InsertionSortSorted(ts, parseDate);
      forall day | true
        ensures WithKey(InsertionSort(ts, parseDate), day, parseDate) == WithKey(ts, day, parseDate)
      {
        InsertionSortWithKey(ts, day, parseDate);
      }
    }
  }
}
