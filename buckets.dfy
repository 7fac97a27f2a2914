/**
 * The two-level grouping of process_multiple_files: categorized[main][sub] is a
 * defaultdict(lambda: defaultdict(list)). Python dictionaries keep their keys in insertion
 * order, so a dictionary is modelled as a sequence of (key, value) pairs.
 */
module Buckets {
  import opened Seqs
  import opened Decimal

  /** The record process_multiple_files stores for a transaction. */
  datatype Entry = Entry(date: string, description: string, amount: string, account: string, originalCategory: string)

  /** An entry with the category pair the classifier gave it. */
  datatype Classified = Classified(entry: Entry, main: string, sub: string)

  /** subcategory -> entries, in insertion order. */
  type Subcategories = seq<(string, seq<Entry>)>

  /** main category -> subcategories, in insertion order. */
  type Categorized = seq<(string, Subcategories)>

  // ---------------------------------------------------------------- insertion-ordered dictionaries

  /** The keys of a dictionary, in iteration order. */
  function Keys<V>(d: seq<(string, V)>): (ks: seq<string>)
    ensures |ks| == |d|
  {
    if d == [] then [] else [d[0].0] + Keys(d[1..])
  }

  /** d.get(k, default). */
  function Lookup<V>(d: seq<(string, V)>, k: string, default: V): V {
    if d == [] then default
    else if d[0].0 == k then d[0].1
    else Lookup(d[1..], k, default)
  }

  /** d[k] = v: an existing key keeps its place, a new key goes last. */
  function Put<V>(d: seq<(string, V)>, k: string, v: V): seq<(string, V)> {
    if d == [] then [(k, v)]
    else if d[0].0 == k then [(k, v)] + d[1..]
    else [d[0]] + Put(d[1..], k, v)
  }

  /** After d[k] = v, k maps to v and every other key to what it mapped to before. */
  lemma {:induction false} LookupPut<V>(d: seq<(string, V)>, k: string, v: V, j: string, default: V)
    ensures Lookup(Put(d, k, v), j, default) == if j == k then v else Lookup(d, j, default)
  {
    if d != [] && d[0].0 != k {
      LookupPut(d[1..], k, v, j, default);
      assert Put(d, k, v)[1..] == Put(d[1..], k, v);
    }
  }

  /** An assignment keeps the key order and appends a key it has not seen before. */
  lemma {:induction false} KeysPut<V>(d: seq<(string, V)>, k: string, v: V)
    ensures Keys(Put(d, k, v)) == if k in Keys(d) then Keys(d) else Keys(d) + [k]
  {
    if d != [] {
      if d[0].0 == k {
        assert Put(d, k, v)[1..] == d[1..];
      } else {
        KeysPut(d[1..], k, v);
        assert Put(d, k, v)[1..] == Put(d[1..], k, v);
      }
    }
  }

  /** A missing key reads as the default, as defaultdict creates it. */
  lemma {:induction false} LookupAbsent<V>(d: seq<(string, V)>, k: string, default: V)
    requires k !in Keys(d)
    ensures Lookup(d, k, default) == default
  {
    if d != [] {
      LookupAbsent(d[1..], k, default);
    }
  }

  /** Assigning a new key adds f of the new pair to the concatenation of f over the pairs. */
  lemma {:induction false} FlattenPutNew<V, U>(d: seq<(string, V)>, k: string, v: V, f: ((string, V)) -> seq<U>)
    requires k !in Keys(d)
    ensures multiset(Flatten(Put(d, k, v), f)) == multiset(Flatten(d, f)) + multiset(f((k, v)))
  {
    if d == [] {
      FlattenCons((k, v), [], f);
    } else {
      var rest, p' := d[1..], Put(d[1..], k, v);
      assert Put(d, k, v) == [d[0]] + p';
      FlattenPutNew(rest, k, v, f);
      FlattenCons(d[0], rest, f);
      FlattenCons(d[0], p', f);
      assert d == [d[0]] + rest;
    }
  }

  /** Reassigning a key swaps f of the old pair for f of the new one in the concatenation of f over the pairs. */
  lemma {:induction false} FlattenPutOld<V, U>(d: seq<(string, V)>, k: string, v: V, f: ((string, V)) -> seq<U>)
    requires k in Keys(d)
    ensures multiset(Flatten(Put(d, k, v), f)) + multiset(f((k, Lookup(d, k, v))))
         == multiset(Flatten(d, f)) + multiset(f((k, v)))
  {
    var rest := d[1..];
    assert d == [d[0]] + rest;
    FlattenCons(d[0], rest, f);
    if d[0].0 == k {
      assert Put(d, k, v) == [(k, v)] + rest;
      FlattenCons((k, v), rest, f);
      assert d[0] == (k, Lookup(d, k, v));
    } else {
      var p' := Put(rest, k, v);
      assert Put(d, k, v) == [d[0]] + p';
      assert k in Keys(rest) && Lookup(d, k, v) == Lookup(rest, k, v);
      FlattenPutOld(rest, k, v, f);
      FlattenCons(d[0], p', f);
      var a, b, c, e := multiset(f(d[0])), multiset(Flatten(p', f)), multiset(Flatten(rest, f)), multiset(f((k, v)));
      var old' := multiset(f((k, Lookup(rest, k, v))));
      assert b + old' == c + e;
      assert multiset(Flatten(Put(d, k, v), f)) == a + b;
      assert multiset(Flatten(d, f)) == a + c;
      MultisetFrame(a, b, c, old', e);
    }
  }

  // ---------------------------------------------------------------- grouping

  /** subcategories[sub].append(entry). */
  function AddToBucket(subs: Subcategories, sub: string, e: Entry): Subcategories {
    Put(subs, sub, Lookup(subs, sub, []) + [e])
  }

  /** categorized[main][sub].append(entry). */
  function AddEntry(g: Categorized, c: Classified): Categorized {
    Put(g, c.main, AddToBucket(Lookup(g, c.main, []), c.sub, c.entry))
  }

  /** The grouping the processing loop builds, entry by entry. */
  function GroupAll(cs: seq<Classified>): Categorized {
    if cs == [] then [] else AddEntry(GroupAll(cs[..|cs| - 1]), cs[|cs| - 1])
  }

  /** The entries filed under (main, sub), in processing order. */
  function Matching(cs: seq<Classified>, main: string, sub: string): seq<Entry> {
    if cs == [] then []
    else
      var c := cs[|cs| - 1];
      Matching(cs[..|cs| - 1], main, sub) + (if c.main == main && c.sub == sub then [c.entry] else [])
  }

  /** Every bucket holds exactly the entries classified into it, in processing order. */
  lemma {:induction false} GroupBucket(cs: seq<Classified>, main: string, sub: string)
    ensures Lookup(Lookup(GroupAll(cs), main, []), sub, []) == Matching(cs, main, sub)
  {
    if cs != [] {
      var init, c := cs[..|cs| - 1], cs[|cs| - 1];
      var g := GroupAll(init);
      GroupBucket(init, main, sub);
      var subs := Lookup(g, c.main, []);
      var subs' := Put(subs, c.sub, Lookup(subs, c.sub, []) + [c.entry]);
      LookupPut(g, c.main, subs', main, []);
      if c.main == main {
        LookupPut(subs, c.sub, Lookup(subs, c.sub, []) + [c.entry], sub, []);
      }
    }
  }

  /** The values of a sequence with repeats dropped, each kept where it first appears. */
  function FirstSeen(xs: seq<string>): seq<string> {
    if xs == [] then []
    else
      var seen := FirstSeen(xs[..|xs| - 1]);
      if xs[|xs| - 1] in seen then seen else seen + [xs[|xs| - 1]]
  }

  /** The main categories of the classified entries, in processing order. */
  function Mains(cs: seq<Classified>): (ms: seq<string>)
    ensures |ms| == |cs|
  {
    if cs == [] then [] else Mains(cs[..|cs| - 1]) + [cs[|cs| - 1].main]
  }

  /** The subcategories the entries of one main category got, in processing order. */
  function SubsOf(cs: seq<Classified>, main: string): seq<string> {
    if cs == [] then []
    else
      var c := cs[|cs| - 1];
      SubsOf(cs[..|cs| - 1], main) + (if c.main == main then [c.sub] else [])
  }

  /** Main categories are listed in the order in which they were first met. */
  lemma {:induction false} GroupMainKeys(cs: seq<Classified>)
    ensures Keys(GroupAll(cs)) == FirstSeen(Mains(cs))
  {
    if cs != [] {
      var init, c := cs[..|cs| - 1], cs[|cs| - 1];
      GroupMainKeys(init);
      var subs := Lookup(GroupAll(init), c.main, []);
      KeysPut(GroupAll(init), c.main, Put(subs, c.sub, Lookup(subs, c.sub, []) + [c.entry]));
      assert Mains(cs)[..|cs| - 1] == Mains(init);
    }
  }

  /** Within a main category, subcategories are listed in the order in which they were first met. */
  lemma {:induction false} GroupSubKeys(cs: seq<Classified>, main: string)
    ensures Keys(Lookup(GroupAll(cs), main, [])) == FirstSeen(SubsOf(cs, main))
  {
    if cs != [] {
      var init, c := cs[..|cs| - 1], cs[|cs| - 1];
      var g := GroupAll(init);
      GroupSubKeys(init, main);
      var subs := Lookup(g, c.main, []);
      var subs' := AddToBucket(subs, c.sub, c.entry);
      assert GroupAll(cs) == Put(g, c.main, subs');
      LookupPut(g, c.main, subs', main, []);
      var xs := SubsOf(cs, main);
      if c.main == main {
        KeysPut(subs, c.sub, Lookup(subs, c.sub, []) + [c.entry]);
        assert xs == SubsOf(init, main) + [c.sub];
        assert xs[..|xs| - 1] == SubsOf(init, main);
      } else {
        assert xs == SubsOf(init, main);
      }
    }
  }

  // ---------------------------------------------------------------- entries in iteration order

  /** The entries of one (sub, entries) pair. */
  function BucketEntries(p: (string, seq<Entry>)): seq<Entry> {
    p.1
  }

  /** The entries of a main category, subcategory after subcategory. */
  function SubsEntries(subs: Subcategories): seq<Entry> {
    Flatten(subs, BucketEntries)
  }

  /** The entries of one (main, subcategories) pair. */
  function CategoryEntries(p: (string, Subcategories)): seq<Entry> {
    SubsEntries(p.1)
  }

  /** Every entry of a grouping, in the order the report walks them. */
  function GroupEntries(g: Categorized): seq<Entry> {
    Flatten(g, CategoryEntries)
  }

  /** The entries of a sequence of classified transactions. */
  function EntriesOf(cs: seq<Classified>): (es: seq<Entry>)
    ensures |es| == |cs|
  {
    if cs == [] then [] else EntriesOf(cs[..|cs| - 1]) + [cs[|cs| - 1].entry]
  }

  /** Entry i of EntriesOf(cs) is the entry of cs[i]. */
  lemma {:induction false} EntriesOfAt(cs: seq<Classified>, i: nat)
    requires i < |cs|
    ensures EntriesOf(cs)[i] == cs[i].entry
  {
    if i < |cs| - 1 {
      EntriesOfAt(cs[..|cs| - 1], i);
    }
  }

  /** Filing one entry adds exactly that entry to the grouping. */
  lemma AddEntryEntries(g: Categorized, c: Classified)
    ensures multiset(GroupEntries(AddEntry(g, c))) == multiset(GroupEntries(g)) + multiset{c.entry}
  {
    var subs := Lookup(g, c.main, []);
    var subs' := AddToBucket(subs, c.sub, c.entry);
    AddToBucketEntries(subs, c.sub, c.entry);
    if c.main !in Keys(g) {
      LookupAbsent(g, c.main, []);
      FlattenPutNew(g, c.main, subs', CategoryEntries);
    } else {
      LookupPresent(g, c.main, subs', []);
      FlattenPutOld(g, c.main, subs', CategoryEntries);
      MultisetCancel(multiset(GroupEntries(AddEntry(g, c))), multiset(GroupEntries(g)) + multiset{c.entry}, multiset(SubsEntries(subs)));
    }
  }

  /** Appending to one subcategory adds exactly that entry to the entries of the main category. */
  lemma AddToBucketEntries(subs: Subcategories, sub: string, e: Entry)
    ensures multiset(SubsEntries(AddToBucket(subs, sub, e))) == multiset(SubsEntries(subs)) + multiset{e}
  {
    var bucket := Lookup(subs, sub, []);
    if sub !in Keys(subs) {
      LookupAbsent(subs, sub, []);
      FlattenPutNew(subs, sub, bucket + [e], BucketEntries);
    } else {
      LookupPresent(subs, sub, bucket + [e], []);
      FlattenPutOld(subs, sub, bucket + [e], BucketEntries);
      MultisetCancel(multiset(SubsEntries(AddToBucket(subs, sub, e))), multiset(SubsEntries(subs)) + multiset{e}, multiset(bucket));
    }
  }

  /** For a key that is present the default does not matter. */
  lemma {:induction false} LookupPresent<V>(d: seq<(string, V)>, k: string, a: V, b: V)
    requires k in Keys(d)
    ensures Lookup(d, k, a) == Lookup(d, k, b)
  {
    if d[0].0 != k {
      LookupPresent(d[1..], k, a, b);
    }
  }

  /** Grouping neither drops nor duplicates: the grouped entries are the classified ones, rearranged. */
  lemma {:induction false} GroupAllEntries(cs: seq<Classified>)
    ensures multiset(GroupEntries(GroupAll(cs))) == multiset(EntriesOf(cs))
  {
    if cs != [] {
      GroupAllEntries(cs[..|cs| - 1]);
      AddEntryEntries(GroupAll(cs[..|cs| - 1]), cs[|cs| - 1]);
    }
  }

  // ---------------------------------------------------------------- amounts

  /** float(amount) in cents, 0 standing in for an amount that does not parse. */
  function Cents(e: Entry): int {
    match ParseFloat(e.amount)
    case Some(v) => v
    case None => 0
  }

  /** The entry's amount reads with float(). */
  predicate AmountParses(e: Entry) {
    ParseFloat(e.amount).Some?
  }

  /** Whether every amount parses, and their total, depend only on which entries there are. */
  lemma SameEntries(a: seq<Entry>, b: seq<Entry>)
    requires multiset(a) == multiset(b)
    ensures All(a, AmountParses) <==> All(b, AmountParses)
    ensures SumOf(a, Cents) == SumOf(b, Cents)
  {
    SumOfPermutation(a, b, Cents);
    AllPermutation(a, b, AmountParses);
  }

  /** The grouping keeps the set of amounts, so whether all parse and their total are those of the classified entries. */
  lemma GroupAllAmounts(cs: seq<Classified>)
    ensures All(GroupEntries(GroupAll(cs)), AmountParses) <==> All(EntriesOf(cs), AmountParses)
    ensures SumOf(GroupEntries(GroupAll(cs)), Cents) == SumOf(EntriesOf(cs), Cents)
  {
    GroupAllEntries(cs);
    SameEntries(GroupEntries(GroupAll(cs)), EntriesOf(cs));
  }
}
