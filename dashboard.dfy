/** src/components/AnalysisDashboard.tsx: income, expense and net per month
    (`data`) and the key figures (`kpi`). */
module Dashboard {
  import opened Wrappers
  import opened Text
  import opened Records
  import opened Seqs
  import opened Groups

  /** `{ date, income, expense, net }`, `date` being the `YYYY-MM` key. The
      month name the component adds for display is not modelled. */
  datatype Bucket = Bucket(date: string, income: int, expense: int, net: int)

  /** `date.substring(0, 7)`, the `YYYY-MM` part of a `YYYY-MM-DD` string. */
  function MonthKey(date: string): string {
    if |date| >= 7 then date[..7] else date
  }

  function MonthKeyOf(t: Transaction): string {
    MonthKey(t.date)
  }

  /** What a record adds to `income`: its amount when its type is income. */
  function IncomePart(t: Transaction): int {
    if IsIncome(t) then t.amount else 0
  }

  /** What a record adds to `expense`: its amount for every record that is
      not income, a missing or unknown type included. */
  function ExpensePart(t: Transaction): int {
    if IsIncome(t) then 0 else t.amount
  }

  /** The bucket of month `k` after all of `ts`. */
  function BucketFor(ts: seq<Transaction>, k: string): Bucket {
    var income := GroupSum(ts, MonthKeyOf, IncomePart, k);
    var expense := GroupSum(ts, MonthKeyOf, ExpensePart, k);
    Bucket(k, income, expense, income - expense)
  }

  function BucketsOf(ts: seq<Transaction>): string -> Bucket {
    k => BucketFor(ts, k)
  }

  /** `(a, b) => a.date.localeCompare(b.date)`. */
  predicate MonthAscLe(a: Bucket, b: Bucket) {
    LexLe(a.date, b.date)
  }

  lemma MonthAscIsPreorder()
    ensures forall a, b :: MonthAscLe(a, b) || MonthAscLe(b, a)
    ensures forall a, b, c :: MonthAscLe(a, b) && MonthAscLe(b, c) ==> MonthAscLe(a, c)
  {
    forall a, b ensures MonthAscLe(a, b) || MonthAscLe(b, a) {
      LexLeTotal(a.date, b.date);
    }
    forall a, b, c | MonthAscLe(a, b) && MonthAscLe(b, c) ensures MonthAscLe(a, c) {
      LexLeTransitive(a.date, b.date, c.date);
    }
  }

  /** The `data` memo: the buckets in the `Map`'s order, sorted by month. */
  function MonthlyData(ts: seq<Transaction>): seq<Bucket> {
    SortBy(Map(KeysInOrder(ts, MonthKeyOf), BucketsOf(ts)), MonthAscLe)
  }

  /** The memo as the component runs it: a `forEach` that creates a zero
      bucket for a new month and then updates the month's bucket in place,
      then the `Map`'s values, sorted. */
  method ComputeMonthlyData(ts: seq<Transaction>) returns (data: seq<Bucket>)
    ensures data == MonthlyData(ts)
  {
    var months, buckets := FillBuckets(ts);
    var values := BucketValues(months, buckets);
    assert values == Map(months, BucketsOf(ts));
    data := SortBy(values, MonthAscLe);
  }

  /** `Array.from(map.values())`, in the order of the keys. */
  method BucketValues(months: seq<string>, buckets: map<string, Bucket>) returns (values: seq<Bucket>)
    requires forall k :: k in months ==> k in buckets
    ensures |values| == |months|
    ensures forall i :: 0 <= i < |months| ==> values[i] == buckets[months[i]]
  {
    values := [];
    for j := 0 to |months|
      invariant |values| == j
      invariant forall i :: 0 <= i < j ==> values[i] == buckets[months[i]]
    {
      values := values + [buckets[months[j]]];
    }
  }

  /** The `forEach` of the memo: `months` are the `Map`'s keys in iteration
      order and `buckets` its contents. */
  method FillBuckets(ts: seq<Transaction>) returns (months: seq<string>, buckets: map<string, Bucket>)
    ensures months == KeysInOrder(ts, MonthKeyOf)
    ensures forall k :: k in buckets <==> k in months
    ensures forall k :: k in buckets ==> buckets[k] == BucketFor(ts, k)
  {
    buckets := map[];
    months := [];
    for i := 0 to |ts|
      invariant months == KeysInOrder(ts[..i], MonthKeyOf)
      invariant forall k :: k in buckets <==> k in months
      invariant forall k :: k in buckets ==> buckets[k] == BucketFor(ts[..i], k)
    {
      var t := ts[i];
      var key := MonthKeyOf(t);
      if key !in buckets {
        assert BucketFor(ts[..i], key) == Bucket(key, 0, 0, 0) by {
          GroupSumAbsent(ts[..i], MonthKeyOf, IncomePart, key);
          GroupSumAbsent(ts[..i], MonthKeyOf, ExpensePart, key);
        }
        buckets := buckets[key := Bucket(key, 0, 0, 0)];
        months := months + [key];
      }
      var entry := AddRecord(buckets[key], t);
      ghost var previous := buckets;
      buckets := buckets[key := entry];
      assert months == KeysInOrder(ts[..i + 1], MonthKeyOf) by {
        AccumulateStep(ts, MonthKeyOf, IncomePart, i);
      }
      assert forall k :: k in buckets ==> buckets[k] == BucketFor(ts[..i + 1], k) by {
        BucketStep(ts, i, entry);
        forall k | k in buckets && k != key
          ensures buckets[k] == BucketFor(ts[..i + 1], k)
        {
          assert buckets[k] == previous[k];
        }
      }
    }
    assert ts[..|ts|] == ts;
  }

  /** The update of the month's entry: the amount goes to `income` when the
      type is income and to `expense` otherwise, then `net` is recomputed. */
  method AddRecord(entry: Bucket, t: Transaction) returns (e: Bucket)
    ensures e.date == entry.date
    ensures e.income == entry.income + IncomePart(t) && e.expense == entry.expense + ExpensePart(t)
    ensures e.net == e.income - e.expense
  {
    e := entry;
    if IsIncome(t) {
      e := e.(income := e.income + t.amount);
    } else {
      e := e.(expense := e.expense + t.amount);
    }
    e := e.(net := e.income - e.expense);
  }

  /** One more record changes only its own month's bucket, by its income or
      expense part. */
  lemma BucketStep(ts: seq<Transaction>, i: nat, e: Bucket)
    requires i < |ts|
    requires var b := BucketFor(ts[..i], MonthKeyOf(ts[i]));
      && e.date == b.date
      && e.income == b.income + IncomePart(ts[i])
      && e.expense == b.expense + ExpensePart(ts[i])
      && e.net == e.income - e.expense
    ensures e == BucketFor(ts[..i + 1], MonthKeyOf(ts[i]))
    ensures forall k :: k != MonthKeyOf(ts[i]) ==> BucketFor(ts[..i + 1], k) == BucketFor(ts[..i], k)
  {
    AccumulateStep(ts, MonthKeyOf, IncomePart, i);
    AccumulateStep(ts, MonthKeyOf, ExpensePart, i);
  }

  /** The months of the buckets. */
  function Months(bs: seq<Bucket>): set<string> {
    set b | b in bs :: b.date
  }

  function IncomeOf(b: Bucket): int {
    b.income
  }

  function ExpenseOf(b: Bucket): int {
    b.expense
  }

  lemma BucketsArePermuted(ts: seq<Transaction>)
    ensures multiset(MonthlyData(ts)) == multiset(Map(KeysInOrder(ts, MonthKeyOf), BucketsOf(ts)))
    ensures forall b :: b in MonthlyData(ts) <==> b in Map(KeysInOrder(ts, MonthKeyOf), BucketsOf(ts))
  {
    var values := Map(KeysInOrder(ts, MonthKeyOf), BucketsOf(ts));
    forall b ensures b in MonthlyData(ts) <==> b in values {
      assert b in MonthlyData(ts) <==> b in multiset(MonthlyData(ts));
      assert b in values <==> b in multiset(values);
    }
  }

  /** No month has two buckets, and the buckets run in strictly increasing
      month order. */
  lemma MonthlyDataOrder(ts: seq<Transaction>)
    ensures var r := MonthlyData(ts);
      forall i, j :: 0 <= i < j < |r| ==> LexLess(r[i].date, r[j].date)
  {
    var values := Map(KeysInOrder(ts, MonthKeyOf), BucketsOf(ts));
    var r := MonthlyData(ts);
    assert DistinctBy(values, DateOf);
    DistinctByOfPermutation(values, r, DateOf);
    MonthAscIsPreorder();
    SortBySorted(values, MonthAscLe);
    forall i, j | 0 <= i < j < |r|
      ensures LexLess(r[i].date, r[j].date)
    {
      LexLessTotal(r[i].date, r[j].date);
    }
  }

  /** There is one bucket for every month that occurs and for no other. */
  lemma MonthlyDataMonths(ts: seq<Transaction>)
    ensures var r := MonthlyData(ts);
      && |r| == |set t | t in ts :: MonthKeyOf(t)|
      && Months(r) == (set t | t in ts :: MonthKeyOf(t))
  {
    var keys := KeysInOrder(ts, MonthKeyOf);
    var values := Map(keys, BucketsOf(ts));
    var r := MonthlyData(ts);
    BucketsArePermuted(ts);
    assert (set k | k in keys) == (set t | t in ts :: MonthKeyOf(t));
    DistinctCardinality(keys);
    forall k | k in Months(r)
      ensures k in keys
    {
      var b :| b in r && b.date == k;
      var i :| 0 <= i < |values| && values[i] == b;
    }
    forall k | k in keys
      ensures k in Months(r)
    {
      var i :| 0 <= i < |keys| && keys[i] == k;
      assert values[i] in r;
    }
  }

  function DateOf(b: Bucket): string {
    b.date
  }

  /** Each bucket holds its month's income records as income and all its
      other records as expense, and its net is income minus expense. */
  lemma MonthlyDataBuckets(ts: seq<Transaction>)
    ensures forall b :: b in MonthlyData(ts) ==>
      && b.income == SumOf(Filter(ts, KeyIs(MonthKeyOf, b.date)), IncomePart)
      && b.expense == SumOf(Filter(ts, KeyIs(MonthKeyOf, b.date)), ExpensePart)
      && b.income + b.expense == Total(Filter(ts, KeyIs(MonthKeyOf, b.date)))
      && b.net == b.income - b.expense
  {
    BucketsArePermuted(ts);
    forall b | b in MonthlyData(ts)
      ensures b.income == SumOf(Filter(ts, KeyIs(MonthKeyOf, b.date)), IncomePart)
      ensures b.expense == SumOf(Filter(ts, KeyIs(MonthKeyOf, b.date)), ExpensePart)
      ensures b.income + b.expense == Total(Filter(ts, KeyIs(MonthKeyOf, b.date)))
      ensures b.net == b.income - b.expense
    {
      var k := b.date;
      var keys := KeysInOrder(ts, MonthKeyOf);
      var i :| 0 <= i < |keys| && Map(keys, BucketsOf(ts))[i] == b;
      assert b == BucketFor(ts, k);
      GroupSumIsFilteredSum(ts, MonthKeyOf, IncomePart, k);
      GroupSumIsFilteredSum(ts, MonthKeyOf, ExpensePart, k);
      GroupSumIsFilteredSum(ts, MonthKeyOf, AmountOf, k);
      GroupSumAdd(ts, MonthKeyOf, IncomePart, ExpensePart, AmountOf, k);
    }
  }

  /** The buckets' incomes add up to the total income, and their expenses
      to the total of every record that is not income. */
  lemma MonthlyDataTotals(ts: seq<Transaction>)
    ensures SumOf(MonthlyData(ts), IncomeOf) == Total(Filter(ts, IsIncome))
    ensures SumOf(MonthlyData(ts), ExpenseOf) == SumOf(ts, ExpensePart)
  {
    var keys := KeysInOrder(ts, MonthKeyOf);
    var values := Map(keys, BucketsOf(ts));
    SumOfSortBy(values, MonthAscLe, IncomeOf);
    SumOfSortBy(values, MonthAscLe, ExpenseOf);
    SumOfMap(keys, BucketsOf(ts), IncomeOf, SumsBy(ts, MonthKeyOf, IncomePart));
    SumOfMap(keys, BucketsOf(ts), ExpenseOf, SumsBy(ts, MonthKeyOf, ExpensePart));
    SumOverKeys(ts, MonthKeyOf, IncomePart, keys);
    SumOverKeys(ts, MonthKeyOf, ExpensePart, keys);
    SumOfFilterMask(ts, IsIncome, AmountOf, IncomePart);
  }

  /** When every record is income or expense, the buckets' expenses add up
      to the total expense. */
  lemma MonthlyDataExpenseTotal(ts: seq<Transaction>)
    requires forall t :: t in ts ==> IsIncome(t) || IsExpense(t)
    ensures SumOf(MonthlyData(ts), ExpenseOf) == Total(Filter(ts, IsExpense))
  {
    MonthlyDataTotals(ts);
    SumOfFilterMask(ts, IsExpense, AmountOf, ExpensePart);
  }

  // ----- kpi -----

  /** A quotient the component computes in floating point, kept exact. */
  datatype Ratio = Ratio(num: int, den: int)

  /** The `kpi` memo. `savingsRate` is `None` for the string `'0'`, and
      otherwise the percentage `balance / totalIncome * 100` (its formatting
      with one decimal is not modelled); `avgMonthlyExpense` is the total
      expense over the number of distinct months, or over 1 when there are
      none. */
  datatype Kpi = Kpi(totalIncome: int, totalExpense: int, balance: int, savingsRate: Option<Ratio>, avgMonthlyExpense: Ratio)

  function ComputeKpi(ts: seq<Transaction>): (k: Kpi)
    ensures k.balance == k.totalIncome - k.totalExpense
    ensures k.savingsRate.Some? <==> k.totalIncome > 0
    ensures k.savingsRate.Some? ==> k.savingsRate.value == Ratio(k.balance * 100, k.totalIncome) && k.savingsRate.value.den > 0
    ensures k.avgMonthlyExpense.num == k.totalExpense && k.avgMonthlyExpense.den >= 1
  {
    var totalIncome := Total(Filter(ts, IsIncome));
    var totalExpense := Total(Filter(ts, IsExpense));
    var balance := totalIncome - totalExpense;
    var savingsRate := if totalIncome > 0 then Some(Ratio(balance * 100, totalIncome)) else None;
    var months := MonthCount(ts);
    var distinctMonths := if months == 0 then 1 else months;
    Kpi(totalIncome, totalExpense, balance, savingsRate, Ratio(totalExpense, distinctMonths))
  }

  /** `new Set(transactions.map(t => t.date.substring(0, 7))).size`. */
  function MonthCount(ts: seq<Transaction>): nat {
    |set t | t in ts :: MonthKeyOf(t)|
  }

  /** The average is taken over as many months as there are buckets; with no
      records it is 0 over 1 month and there is no savings rate. */
  lemma KpiMonths(ts: seq<Transaction>)
    ensures ts != [] ==> ComputeKpi(ts).avgMonthlyExpense.den == |MonthlyData(ts)|
    ensures ts == [] ==> ComputeKpi(ts).avgMonthlyExpense == Ratio(0, 1) && ComputeKpi(ts).savingsRate == None
  {
    MonthlyDataMonths(ts);
    if ts != [] {
      assert MonthKeyOf(ts[0]) in set t | t in ts :: MonthKeyOf(t);
    }
  }

  /** The total income is the buckets' income, and when every record is
      income or expense the total expense is the buckets' expense. */
  lemma KpiTotals(ts: seq<Transaction>)
    ensures ComputeKpi(ts).totalIncome == SumOf(MonthlyData(ts), IncomeOf)
    ensures (forall t :: t in ts ==> IsIncome(t) || IsExpense(t)) ==> ComputeKpi(ts).totalExpense == SumOf(MonthlyData(ts), ExpenseOf)
  {
    MonthlyDataTotals(ts);
    if forall t :: t in ts ==> IsIncome(t) || IsExpense(t) {
      MonthlyDataExpenseTotal(ts);
    }
  }

  // ----- The component -----

  /** What the component shows: the placeholder, or the charts and cards. */
  datatype DashboardView = NoData | Analysis(data: seq<Bucket>, kpi: Kpi)

  function AnalysisDashboard(ts: seq<Transaction>): (v: DashboardView)
    ensures v.NoData? <==> ts == []
    ensures v.Analysis? ==> |v.data| >= 1 && v.kpi.avgMonthlyExpense.den == |v.data|
  {
    if ts == [] then NoData
    else
      KpiMonths(ts);
      Analysis(MonthlyData(ts), ComputeKpi(ts))
  }
}
