/** src/components/StatsChart.tsx: the two series behind the charts. Amounts
    per category, largest first (`categoryData`), and amounts per day of the
    year in date order (`timeData`). */
module Stats {
  import opened Text
  import opened Records
  import opened Seqs
  import opened Groups

  /** One `{ name, value }` point of a chart. */
  datatype Entry = Entry(name: string, value: int)

  function NameOf(e: Entry): string {
    e.name
  }

  function ValueOf(e: Entry): int {
    e.value
  }

  function CategoryOf(t: Transaction): string {
    t.category
  }

  /** `Array.from(map.entries()).map(([name, value]) => ({ name, value }))`. */
  method ToEntries(keys: seq<string>, sums: map<string, int>) returns (entries: seq<Entry>)
    requires forall k :: k in keys ==> k in sums
    ensures |entries| == |keys|
    ensures forall i :: 0 <= i < |keys| ==> entries[i] == Entry(keys[i], sums[keys[i]])
  {
    entries := [];
    for j := 0 to |keys|
      invariant |entries| == j
      invariant forall i :: 0 <= i < j ==> entries[i] == Entry(keys[i], sums[keys[i]])
    {
      entries := entries + [Entry(keys[j], sums[keys[j]])];
    }
  }

  /** The point for key `k` of the sums of `f` over `s`, grouped by `key`. */
  function EntryFor<T>(s: seq<T>, key: T -> string, f: T -> int): string -> Entry {
    k => Entry(k, GroupSum(s, key, f, k))
  }

  /** The points of a `Map` filled from `s`, in the `Map`'s order. */
  function Grouped<T>(s: seq<T>, key: T -> string, f: T -> int): seq<Entry> {
    Map(KeysInOrder(s, key), EntryFor(s, key, f))
  }

  /** The names of the points. */
  function Names(es: seq<Entry>): set<string> {
    set e | e in es :: e.name
  }

  /** The grouped points name each key of `s` exactly once. */
  lemma GroupedNames<T>(s: seq<T>, key: T -> string, f: T -> int)
    ensures DistinctBy(Grouped(s, key, f), NameOf)
    ensures Names(Grouped(s, key, f)) == set x | x in s :: key(x)
  {
    var keys := KeysInOrder(s, key);
    var g := Grouped(s, key, f);
    forall k | k in set x | x in s :: key(x)
      ensures k in Names(g)
    {
      var x :| x in s && key(x) == k;
      assert k in keys;
      var i :| 0 <= i < |keys| && keys[i] == k;
      assert g[i] in g;
    }
    forall k | k in Names(g)
      ensures k in set x | x in s :: key(x)
    {
      var e :| e in g && e.name == k;
      var i :| 0 <= i < |g| && g[i] == e;
      assert keys[i] in keys;
      var x :| x in s && key(x) == k;
    }
  }

  /** Each grouped point holds the sum over the elements of its key. */
  lemma GroupedValues<T>(s: seq<T>, key: T -> string, f: T -> int)
    ensures forall e :: e in Grouped(s, key, f) ==> e.value == SumOf(Filter(s, KeyIs(key, e.name)), f)
  {
    forall e | e in Grouped(s, key, f)
      ensures e.value == SumOf(Filter(s, KeyIs(key, e.name)), f)
    {
      GroupSumIsFilteredSum(s, key, f, e.name);
    }
  }

  /** The grouped points add up to the sum over all elements. */
  lemma GroupedTotal<T>(s: seq<T>, key: T -> string, f: T -> int)
    ensures SumOf(Grouped(s, key, f), ValueOf) == SumOf(s, f)
  {
    var keys := KeysInOrder(s, key);
    SumOverKeys(s, key, f, keys);
    SumOfMap(keys, EntryFor(s, key, f), ValueOf, SumsBy(s, key, f));
  }

  // ----- categoryData -----

  /** `(a, b) => b.value - a.value`: `a` may come first when its value is not
      smaller. */
  predicate ValueDescLe(a: Entry, b: Entry) {
    a.value >= b.value
  }

  lemma ValueDescIsPreorder()
    ensures forall a, b :: ValueDescLe(a, b) || ValueDescLe(b, a)
    ensures forall a, b, c :: ValueDescLe(a, b) && ValueDescLe(b, c) ==> ValueDescLe(a, c)
  {
  }

  /** The `categoryData` memo. */
  function CategoryData(ts: seq<Transaction>): seq<Entry> {
    SortBy(Grouped(ts, CategoryOf, AmountOf), ValueDescLe)
  }

  /** The memo as the component runs it: the `forEach` into a `Map`, the
      conversion to points, and the sort. */
  method ComputeCategoryData(ts: seq<Transaction>) returns (data: seq<Entry>)
    ensures data == CategoryData(ts)
  {
    var keys, sums := Accumulate(ts, CategoryOf, AmountOf);
    var entries := ToEntries(keys, sums);
    assert entries == Grouped(ts, CategoryOf, AmountOf);
    data := SortBy(entries, ValueDescLe);
  }

  /** One point per category that occurs, no category twice, each point
      holding its category's total, largest first, and the points adding up
      to the total of all records. */
  lemma CategoryDataSpec(ts: seq<Transaction>)
    ensures var r := CategoryData(ts);
      && (forall i, j :: 0 <= i < j < |r| ==> r[i].name != r[j].name)
      && Names(r) == (set t | t in ts :: t.category)
      && (forall i :: 0 <= i < |r| ==> r[i].value == Total(Filter(ts, KeyIs(CategoryOf, r[i].name))))
      && (forall i, j :: 0 <= i < j < |r| ==> r[i].value >= r[j].value)
      && SumOf(r, ValueOf) == Total(ts)
  {
    var g := Grouped(ts, CategoryOf, AmountOf);
    var r := CategoryData(ts);
    GroupedNames(ts, CategoryOf, AmountOf);
    DistinctByOfPermutation(g, r, NameOf);
    SameElements(g, r);
    GroupedValues(ts, CategoryOf, AmountOf);
    ValueDescIsPreorder();
    SortBySorted(g, ValueDescLe);
    GroupedTotal(ts, CategoryOf, AmountOf);
    SumOfSortBy(g, ValueDescLe, ValueOf);
  }

  /** Points that are a permutation of each other are the same points. */
  lemma SameElements(a: seq<Entry>, b: seq<Entry>)
    requires multiset(a) == multiset(b)
    ensures forall e :: e in a <==> e in b
    ensures Names(a) == Names(b)
  {
    forall e ensures e in a <==> e in b {
      assert e in a <==> e in multiset(a);
      assert e in b <==> e in multiset(b);
    }
  }

  // ----- timeData -----

  /** `new Date(date).toLocaleDateString('ru-RU', { day: '2-digit', month:
      '2-digit' })` for a `YYYY-MM-DD` string: `DD.MM`, without the year. */
  function DayMonthLabel(date: string): string {
    if |date| == 10 && date[4] == '-' && date[7] == '-' then date[8..10] + "." + date[5..7]
    else "Invalid Date"
  }

  function LabelOf(t: Transaction): string {
    DayMonthLabel(t.date)
  }

  /** `(a, b) => new Date(a.date).getTime() - new Date(b.date).getTime()`,
      the order of `YYYY-MM-DD` strings. */
  predicate DateAscLe(a: Transaction, b: Transaction) {
    LexLe(a.date, b.date)
  }

  lemma DateAscIsPreorder()
    ensures forall a, b :: DateAscLe(a, b) || DateAscLe(b, a)
    ensures forall a, b, c :: DateAscLe(a, b) && DateAscLe(b, c) ==> DateAscLe(a, c)
  {
    forall a, b ensures DateAscLe(a, b) || DateAscLe(b, a) {
      LexLeTotal(a.date, b.date);
    }
    forall a, b, c | DateAscLe(a, b) && DateAscLe(b, c) ensures DateAscLe(a, c) {
      LexLeTransitive(a.date, b.date, c.date);
    }
  }

  /** The `timeData` memo: the sums per day label over a date-ascending copy. */
  function TimeData(ts: seq<Transaction>): seq<Entry> {
    Grouped(SortBy(ts, DateAscLe), LabelOf, AmountOf)
  }

  method ComputeTimeData(ts: seq<Transaction>) returns (data: seq<Entry>)
    ensures data == TimeData(ts)
  {
    var sorted := SortBy(ts, DateAscLe);
    var keys, sums := Accumulate(sorted, LabelOf, AmountOf);
    data := ToEntries(keys, sums);
  }

  /** One point per day label that occurs, no label twice, each holding the
      total of the records with that label, and all of them adding up to the
      total of all records. The label has no year, so the same day and month
      of two years share one point. The points follow the first appearance of
      their labels in the date-ascending copy. */
  lemma TimeDataSpec(ts: seq<Transaction>)
    ensures var r := TimeData(ts);
      && (forall i, j :: 0 <= i < j < |r| ==> r[i].name != r[j].name)
      && Names(r) == (set t | t in ts :: LabelOf(t))
      && (forall i :: 0 <= i < |r| ==> r[i].value == Total(Filter(SortBy(ts, DateAscLe), KeyIs(LabelOf, r[i].name))))
      && SumOf(r, ValueOf) == Total(ts)
      && (forall i, j :: 0 <= i < j < |r| ==>
            FirstAt(SortBy(ts, DateAscLe), LabelOf, r[i].name) < FirstAt(SortBy(ts, DateAscLe), LabelOf, r[j].name))
  {
    var sorted := SortBy(ts, DateAscLe);
    KeysInOrderFirstAppearance(sorted, LabelOf);
    GroupedNames(sorted, LabelOf, AmountOf);
    GroupedValues(sorted, LabelOf, AmountOf);
    GroupedTotal(sorted, LabelOf, AmountOf);
    forall t ensures t in sorted <==> t in ts {
      assert t in sorted <==> t in multiset(sorted);
    }
    SumOfSortBy(ts, DateAscLe, AmountOf);
  }

  /** A non-empty list has at least one group. */
  lemma GroupedNonEmpty<T>(s: seq<T>, key: T -> string, f: T -> int)
    requires s != []
    ensures |Grouped(s, key, f)| >= 1
  {
    assert key(s[0]) in KeysInOrder(s, key);
  }

  // ----- The component -----

  /** What the component shows: the placeholder, or the charts. */
  datatype StatsView = NoData | Charts(categoryData: seq<Entry>, timeData: seq<Entry>)

  function StatsChart(ts: seq<Transaction>): (v: StatsView)
    ensures v.NoData? <==> ts == []
    ensures v.Charts? ==> |v.categoryData| >= 1 && |v.timeData| >= 1
  {
    if ts == [] then NoData
    else
      GroupedNonEmpty(ts, CategoryOf, AmountOf);
      GroupedNonEmpty(SortBy(ts, DateAscLe), LabelOf, AmountOf);
      Charts(CategoryData(ts), TimeData(ts))
  }
}
