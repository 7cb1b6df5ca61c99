/** src/data/presetTransactions.ts: twelve months of sample data ending with
    the current month, three income and four expense records per month, each
    month's parts summing exactly to that month's planned totals. The clock
    is a parameter, and so is `Math.round(amount * percent / 100)`, which the
    exact sums do not depend on. */
module Preset {
  import opened Wrappers
  import opened Text
  import opened Records
  import opened Dates
  import Seqs

  const MONTHLY_EXPENSES: seq<int> :=
    [95000, 102000, 98000, 111000, 123000, 107000, 93000, 118000, 101000, 112000, 116000, 105000]
  const MONTHLY_INCOMES: seq<int> :=
    [105000, 113000, 108000, 122000, 120000, 128000, 106000, 128000, 115000, 125000, 111000, 132000]

  /** One planned record of a month: its day, amount, category, description. */
  datatype Part = Part(day: int, amount: int, category: string, description: string)

  function PartAmount(p: Part): int {
    p.amount
  }

  /** `expenseParts`; `round(x, p)` stands for `Math.round(x * p / 100)`. */
  function ExpenseParts(expense: int, round: (int, int) -> int): seq<Part> {
    [ Part(4, round(expense, 27), "Продукты", "Продукты и бытовые покупки"),
      Part(10, round(expense, 18), "Коммуналка", "ЖКУ и обязательные платежи"),
      Part(17, round(expense, 15), "Транспорт", "Транспорт и авто"),
      Part(25, expense - round(expense, 27) - round(expense, 18) - round(expense, 15),
        "Развлечения и хобби", "Досуг и прочие траты") ]
  }

  /** `incomeParts`. */
  function IncomeParts(income: int, round: (int, int) -> int): seq<Part> {
    [ Part(1, round(income, 72), "Зарплата", "Основной доход"),
      Part(14, round(income, 18), "Подработка", "Дополнительный доход"),
      Part(28, income - round(income, 72) - round(income, 18), "Кэшбэк", "Кэшбэк и возвраты") ]
  }

  /** The last part is the remainder, so the parts add up to the planned
      amount whatever the rounding does. */
  lemma PartsSum(amount: int, round: (int, int) -> int)
    ensures Seqs.SumOf(ExpenseParts(amount, round), PartAmount) == amount
    ensures Seqs.SumOf(IncomeParts(amount, round), PartAmount) == amount
  {
    var e := ExpenseParts(amount, round);
    assert Seqs.SumOf(e[3..], PartAmount) == e[3].amount by {
      assert e[3..][1..] == [];
    }
    assert Seqs.SumOf(e[2..], PartAmount) == e[2].amount + Seqs.SumOf(e[3..], PartAmount) by {
      assert e[2..][1..] == e[3..];
    }
    assert Seqs.SumOf(e[1..], PartAmount) == e[1].amount + Seqs.SumOf(e[2..], PartAmount) by {
      assert e[1..][1..] == e[2..];
    }
    var n := IncomeParts(amount, round);
    assert Seqs.SumOf(n[2..], PartAmount) == n[2].amount by {
      assert n[2..][1..] == [];
    }
    assert Seqs.SumOf(n[1..], PartAmount) == n[1].amount + Seqs.SumOf(n[2..], PartAmount) by {
      assert n[1..][1..] == n[2..];
    }
  }

  /** `buildId(seed)`. */
  function BuildId(seed: string): string {
    "preset_" + seed
  }

  /** The seed `${prefix}_${i}_${idx}`. */
  function Seed(prefix: string, i: nat, idx: nat): string {
    prefix + "_" + NatToString(i) + "_" + NatToString(idx)
  }

  /** `new Date(now.getFullYear(), now.getMonth(), 1)`. Every `new Date(y, m,
      day)` of this file has a day from 1 to 28, so it is written as
      `MonthDay`, which `Dates.MonthDayIsMakeDate` equates with `MakeDate`. */
  function CurrentMonthStart(now: CalendarDate): CalendarDate {
    MonthDay(now.year, now.month - 1, 1)
  }

  /** The first day of month `i` of the loop: 11 - i months before the current
      one. */
  function MonthOf(now: CalendarDate, i: int): CalendarDate {
    var start := CurrentMonthStart(now);
    MonthDay(start.year, start.month - 1 - 11 + i, 1)
  }

  /** The record `incomeParts.forEach` pushes for part `idx` of month `i`. */
  function IncomeRecord(month: CalendarDate, i: nat, idx: nat, part: Part, clock: int): Transaction
    requires 1 <= part.day <= 28
  {
    Transaction(BuildId(Seed("inc", i, idx)), ToDateInputValue(MonthDay(month.year, month.month - 1, part.day)),
      part.amount, part.category, part.description, Some(INCOME), clock - (400 - i * 10 - idx))
  }

  /** The record `expenseParts.forEach` pushes for part `idx` of month `i`. */
  function ExpenseRecord(month: CalendarDate, i: nat, idx: nat, part: Part, clock: int): Transaction
    requires 1 <= part.day <= 28
  {
    Transaction(BuildId(Seed("exp", i, idx)), ToDateInputValue(MonthDay(month.year, month.month - 1, part.day)),
      part.amount, part.category, part.description, Some(EXPENSE), clock - (350 - i * 10 - idx))
  }

  /** The three income records month `i` pushes, in `incomeParts` order. */
  function MonthIncomes(now: CalendarDate, clock: int, round: (int, int) -> int, i: nat): (r: seq<Transaction>)
    requires i < 12
    ensures |r| == 3
  {
    var month := MonthOf(now, i);
    var parts := IncomeParts(MONTHLY_INCOMES[i], round);
    seq(3, idx requires 0 <= idx < 3 => IncomeRecord(month, i, idx, parts[idx], clock))
  }

  /** The four expense records month `i` pushes, in `expenseParts` order. */
  function MonthExpenses(now: CalendarDate, clock: int, round: (int, int) -> int, i: nat): (r: seq<Transaction>)
    requires i < 12
    ensures |r| == 4
  {
    var month := MonthOf(now, i);
    var parts := ExpenseParts(MONTHLY_EXPENSES[i], round);
    seq(4, idx requires 0 <= idx < 4 => ExpenseRecord(month, i, idx, parts[idx], clock))
  }

  /** The records pushed by the first `m` rounds of the month loop. */
  function Pushed(now: CalendarDate, clock: int, round: (int, int) -> int, m: nat): (r: seq<Transaction>)
    requires m <= 12
    ensures |r| == 7 * m
  {
    if m == 0 then []
    else Pushed(now, clock, round, m - 1) + MonthIncomes(now, clock, round, m - 1) + MonthExpenses(now, clock, round, m - 1)
  }

  /** `incomeParts.forEach(...)` for month `i`: pushes its three income
      records. */
  method PushIncomes(pushed: seq<Transaction>, now: CalendarDate, clock: int, round: (int, int) -> int, i: nat)
    returns (transactions: seq<Transaction>)
    requires i < 12
    ensures transactions == pushed + MonthIncomes(now, clock, round, i)
  {
    var month := MonthOf(now, i);
    var incomeParts := IncomeParts(MONTHLY_INCOMES[i], round);
    ghost var incomes := MonthIncomes(now, clock, round, i);
    transactions := pushed;
    for idx := 0 to |incomeParts|
      invariant transactions == pushed + incomes[..idx]
    {
      assert incomes[..idx + 1] == incomes[..idx] + [incomes[idx]];
      transactions := transactions + [IncomeRecord(month, i, idx, incomeParts[idx], clock)];
    }
    assert incomes[..3] == incomes;
  }

  /** `expenseParts.forEach(...)` for month `i`: pushes its four expense
      records. */
  method PushExpenses(pushed: seq<Transaction>, now: CalendarDate, clock: int, round: (int, int) -> int, i: nat)
    returns (transactions: seq<Transaction>)
    requires i < 12
    ensures transactions == pushed + MonthExpenses(now, clock, round, i)
  {
    var month := MonthOf(now, i);
    var expenseParts := ExpenseParts(MONTHLY_EXPENSES[i], round);
    ghost var expenses := MonthExpenses(now, clock, round, i);
    transactions := pushed;
    for idx := 0 to |expenseParts|
      invariant transactions == pushed + expenses[..idx]
    {
      assert expenses[..idx + 1] == expenses[..idx] + [expenses[idx]];
      transactions := transactions + [ExpenseRecord(month, i, idx, expenseParts[idx], clock)];
    }
    assert expenses[..4] == expenses;
  }

  /** `createPresetTransactions()` with the current date `now`, `Date.now()`
      as `clock`, and `round` for the rounding of the shares. */
  method CreatePresetTransactions(now: CalendarDate, clock: int, round: (int, int) -> int)
    returns (transactions: seq<Transaction>)
    ensures transactions == SortByDateDesc(Pushed(now, clock, round, 12))
  {
    var pushed: seq<Transaction> := [];
    for i := 0 to 12
      invariant pushed == Pushed(now, clock, round, i)
    {
      pushed := PushIncomes(pushed, now, clock, round, i);
      pushed := PushExpenses(pushed, now, clock, round, i);
    }
    transactions := SortByDateDesc(pushed);
  }

  /** Record `j` of month `i`: its three income records, then its four
      expense records. */
  function PresetRecord(now: CalendarDate, clock: int, round: (int, int) -> int, i: nat, j: nat): Transaction
    requires i < 12 && j < 7
  {
    if j < 3 then IncomeRecord(MonthOf(now, i), i, j, IncomeParts(MONTHLY_INCOMES[i], round)[j], clock)
    else ExpenseRecord(MonthOf(now, i), i, j - 3, ExpenseParts(MONTHLY_EXPENSES[i], round)[j - 3], clock)
  }

  // ----- Properties of the generated records -----

  /** The day of the month of the `j`-th record of a month. */
  function PartDay(j: nat): int
    requires j < 7
  {
    [1, 14, 28, 4, 10, 17, 25][j]
  }

  function MonthIndex(d: Date): int {
    d.year * 12 + d.month - 1
  }

  /** Record `7 * i + j` pushed by the first `m` months is record `j` of
      month `i`. */
  lemma {:induction false} PushedAtMonth(now: CalendarDate, clock: int, round: (int, int) -> int, m: nat, i: nat, j: nat)
    requires i < m <= 12 && j < 7
    ensures Pushed(now, clock, round, m)[7 * i + j] == PresetRecord(now, clock, round, i, j)
    decreases m
  {
    var prev := Pushed(now, clock, round, m - 1);
    var incomes, expenses := MonthIncomes(now, clock, round, m - 1), MonthExpenses(now, clock, round, m - 1);
    ConcatAt(prev, incomes, expenses, 7 * i + j);
    if i < m - 1 {
      PushedAtMonth(now, clock, round, m - 1, i, j);
    }
  }

  /** Indexing into a concatenation of three lists. */
  lemma ConcatAt<T>(a: seq<T>, b: seq<T>, c: seq<T>, k: nat)
    requires k < |a| + |b| + |c|
    ensures (a + b + c)[k] == if k < |a| then a[k] else if k < |a| + |b| then b[k - |a|] else c[k - |a| - |b|]
  {
  }

  lemma PushedAt(now: CalendarDate, clock: int, round: (int, int) -> int, i: nat, j: nat)
    requires i < 12 && j < 7
    ensures Pushed(now, clock, round, 12)[7 * i + j] == PresetRecord(now, clock, round, i, j)
  {
    PushedAtMonth(now, clock, round, 12, i, j);
  }

  /** Record `j` of month `i` is income exactly when it is one of the first
      three of its month, and expense otherwise. */
  lemma PresetKind(now: CalendarDate, clock: int, round: (int, int) -> int, i: nat, j: nat)
    requires i < 12 && j < 7
    ensures IsIncome(Pushed(now, clock, round, 12)[7 * i + j]) <==> j < 3
    ensures IsExpense(Pushed(now, clock, round, 12)[7 * i + j]) <==> j >= 3
  {
    PushedAt(now, clock, round, i, j);
  }

  /** The id of record `k`: `preset_inc_<month>_<part>` or
      `preset_exp_<month>_<part>`. */
  function PresetId(k: nat): string
    requires k < 84
  {
    if k % 7 < 3 then BuildId(Seed("inc", k / 7, k % 7)) else BuildId(Seed("exp", k / 7, k % 7 - 3))
  }

  lemma PresetIdAt(now: CalendarDate, clock: int, round: (int, int) -> int, k: nat)
    requires k < 84
    ensures Pushed(now, clock, round, 12)[k].id == PresetId(k)
  {
    var i, j := k / 7, k % 7;
    assert k == 7 * i + j;
    PushedAt(now, clock, round, i, j);
  }

  /** The amount of income record `j` of month `i`: its part's share of
      the month's planned income. */
  lemma IncomeAmount(now: CalendarDate, clock: int, round: (int, int) -> int, i: nat, j: nat)
    requires i < 12 && j < 3
    ensures Pushed(now, clock, round, 12)[7 * i + j].amount == IncomeParts(MONTHLY_INCOMES[i], round)[j].amount
  {
    PushedAt(now, clock, round, i, j);
  }

  /** The amount of expense record `j` of month `i`. */
  lemma ExpenseAmount(now: CalendarDate, clock: int, round: (int, int) -> int, i: nat, j: nat)
    requires i < 12 && j < 4
    ensures Pushed(now, clock, round, 12)[7 * i + 3 + j].amount == ExpenseParts(MONTHLY_EXPENSES[i], round)[j].amount
  {
    PushedAt(now, clock, round, i, 3 + j);
  }

  /** The amounts of month `i`'s income records, one part each. */
  lemma IncomeAmounts(now: CalendarDate, clock: int, round: (int, int) -> int, i: nat)
    requires i < 12
    ensures forall j :: 0 <= j < 3 ==>
      Pushed(now, clock, round, 12)[7 * i + j].amount == IncomeParts(MONTHLY_INCOMES[i], round)[j].amount
  {
    forall j | 0 <= j < 3
      ensures Pushed(now, clock, round, 12)[7 * i + j].amount == IncomeParts(MONTHLY_INCOMES[i], round)[j].amount
    {
      IncomeAmount(now, clock, round, i, j);
    }
  }

  /** The amounts of month `i`'s expense records. */
  lemma ExpenseAmounts(now: CalendarDate, clock: int, round: (int, int) -> int, i: nat)
    requires i < 12
    ensures forall j :: 0 <= j < 4 ==>
      Pushed(now, clock, round, 12)[7 * i + 3 + j].amount == ExpenseParts(MONTHLY_EXPENSES[i], round)[j].amount
  {
    forall j | 0 <= j < 4
      ensures Pushed(now, clock, round, 12)[7 * i + 3 + j].amount == ExpenseParts(MONTHLY_EXPENSES[i], round)[j].amount
    {
      ExpenseAmount(now, clock, round, i, j);
    }
  }

  /** Records whose amounts are those of the parts, in order, add up to the
      same total. */
  lemma {:induction false} SumOfAmounts(s: seq<Transaction>, parts: seq<Part>)
    requires |s| == |parts|
    requires forall j :: 0 <= j < |s| ==> s[j].amount == parts[j].amount
    ensures Seqs.SumOf(s, AmountOf) == Seqs.SumOf(parts, PartAmount)
    decreases |s|
  {
    if s != [] {
      SumOfAmounts(s[1..], parts[1..]);
    }
  }

  /** The same, for the records from `start` on. */
  lemma SliceAmounts(s: seq<Transaction>, start: nat, parts: seq<Part>)
    requires start + |parts| <= |s|
    requires forall j :: 0 <= j < |parts| ==> s[start + j].amount == parts[j].amount
    ensures Seqs.SumOf(s[start..start + |parts|], AmountOf) == Seqs.SumOf(parts, PartAmount)
  {
    var slice := s[start..start + |parts|];
    assert forall j :: 0 <= j < |parts| ==> slice[j] == s[start + j];
    SumOfAmounts(slice, parts);
  }

  /** Month `i`'s income records add up to `MONTHLY_INCOMES[i]`, for any
      rounding. */
  lemma MonthIncomeTotal(now: CalendarDate, clock: int, round: (int, int) -> int, i: nat)
    requires i < 12
    ensures Seqs.SumOf(Pushed(now, clock, round, 12)[7 * i..7 * i + 3], AmountOf) == MONTHLY_INCOMES[i]
  {
    var n := IncomeParts(MONTHLY_INCOMES[i], round);
    assert Seqs.SumOf(Pushed(now, clock, round, 12)[7 * i..7 * i + 3], AmountOf) == Seqs.SumOf(n, PartAmount) by {
      IncomeAmounts(now, clock, round, i);
      SliceAmounts(Pushed(now, clock, round, 12), 7 * i, n);
    }
    PartsSum(MONTHLY_INCOMES[i], round);
  }

  /** Month `i`'s expense records add up to `MONTHLY_EXPENSES[i]`, for any
      rounding. */
  lemma MonthExpenseTotal(now: CalendarDate, clock: int, round: (int, int) -> int, i: nat)
    requires i < 12
    ensures Seqs.SumOf(Pushed(now, clock, round, 12)[7 * i + 3..7 * i + 7], AmountOf) == MONTHLY_EXPENSES[i]
  {
    var e := ExpenseParts(MONTHLY_EXPENSES[i], round);
    assert Seqs.SumOf(Pushed(now, clock, round, 12)[7 * i + 3..7 * i + 7], AmountOf) == Seqs.SumOf(e, PartAmount) by {
      ExpenseAmounts(now, clock, round, i);
      SliceAmounts(Pushed(now, clock, round, 12), 7 * i + 3, e);
    }
    PartsSum(MONTHLY_EXPENSES[i], round);
  }

  lemma SeedSplit(prefix: string, i: nat, idx: nat)
    requires '_' !in prefix
    ensures Split(BuildId(Seed(prefix, i, idx)), '_') == ["preset", prefix, NatToString(i), NatToString(idx)]
  {
    var a, b := NatToString(i), NatToString(idx);
    assert '_' !in a && '_' !in b by {
      assert !IsDigit('_');
    }
    assert BuildId(Seed(prefix, i, idx)) == "preset" + ['_'] + (prefix + ['_'] + (a + ['_'] + b));
    SplitAfterPiece("preset", '_', prefix + ['_'] + (a + ['_'] + b));
    SplitAfterPiece(prefix, '_', a + ['_'] + b);
    SplitAfterPiece(a, '_', b);
    SplitNoSeparator(b, '_');
  }

  /** Different seeds give different ids. */
  lemma SeedInjective(p: string, i: nat, idx: nat, q: string, j: nat, jdx: nat)
    requires '_' !in p && '_' !in q
    requires BuildId(Seed(p, i, idx)) == BuildId(Seed(q, j, jdx))
    ensures p == q && i == j && idx == jdx
  {
    SeedSplit(p, i, idx);
    SeedSplit(q, j, jdx);
    NatToStringInjective(i, j);
    NatToStringInjective(idx, jdx);
  }

  /** No two records share an id. */
  lemma PresetIdInjective(k: nat, l: nat)
    requires k < 84 && l < 84 && PresetId(k) == PresetId(l)
    ensures k == l
  {
    var pk, pl := if k % 7 < 3 then "inc" else "exp", if l % 7 < 3 then "inc" else "exp";
    SeedInjective(pk, k / 7, if k % 7 < 3 then k % 7 else k % 7 - 3, pl, l / 7, if l % 7 < 3 then l % 7 else l % 7 - 3);
  }

  /** The 84 ids are pairwise distinct, before and after the sort. */
  lemma PresetIdsDistinct(now: CalendarDate, clock: int, round: (int, int) -> int)
    ensures DistinctIds(Pushed(now, clock, round, 12))
    ensures DistinctIds(SortByDateDesc(Pushed(now, clock, round, 12)))
  {
    var p := Pushed(now, clock, round, 12);
    forall k, l | 0 <= k < l < 84
      ensures p[k].id != p[l].id
    {
      PresetIdAt(now, clock, round, k);
      PresetIdAt(now, clock, round, l);
      if PresetId(k) == PresetId(l) {
        PresetIdInjective(k, l);
      }
    }
    DistinctIdsOfPermutation(p, SortByDateDesc(p));
  }

  /** The twelve months run from 11 months before the current month up to
      the current month, one month apart. */
  lemma PresetMonths(now: CalendarDate, i: int)
    ensures var current := Date(FullYear(now.year), now.month, 1);
      && MonthOf(now, i).day == 1
      && MonthIndex(MonthOf(now, i)) == MonthIndex(current) - 11 + i
      && (i == 11 ==> MonthOf(now, i) == current)
  {
    var y := FullYear(now.year);
    assert (now.month - 1) / 12 == 0 && (now.month - 1) % 12 == now.month - 1;
    assert CurrentMonthStart(now) == Date(y, now.month, 1);
    var mi := now.month - 1 - 11 + i;
    assert FullYear(y) == y;
    assert MonthOf(now, i) == Date(y + mi / 12, mi % 12 + 1, 1);
  }

  /** Income record `j` of month `i` is dated on day `PartDay(j)` of month
      `i`. */
  lemma IncomeDateAt(now: CalendarDate, clock: int, round: (int, int) -> int, i: nat, j: nat)
    requires i < 12 && j < 3
    ensures 1 <= PartDay(j) <= 28
    ensures var m := MonthOf(now, i);
      Pushed(now, clock, round, 12)[7 * i + j].date == ToDateInputValue(MonthDay(m.year, m.month - 1, PartDay(j)))
  {
    var part := IncomeParts(MONTHLY_INCOMES[i], round)[j];
    assert part.day == PartDay(j);
    PushedAt(now, clock, round, i, j);
  }

  /** Expense record `j - 3` of month `i`, the `j`-th record of the month, is
      dated on day `PartDay(j)`. */
  lemma ExpenseDateAt(now: CalendarDate, clock: int, round: (int, int) -> int, i: nat, j: nat)
    requires i < 12 && 3 <= j < 7
    ensures 1 <= PartDay(j) <= 28
    ensures var m := MonthOf(now, i);
      Pushed(now, clock, round, 12)[7 * i + j].date == ToDateInputValue(MonthDay(m.year, m.month - 1, PartDay(j)))
  {
    var part := ExpenseParts(MONTHLY_EXPENSES[i], round)[j - 3];
    assert part.day == PartDay(j);
    PushedAt(now, clock, round, i, j);
  }

  /** Day `day` of the month of `m`, in the year `new Date` reads. */
  function DayOf(m: CalendarDate, day: int): CalendarDate
    requires 1 <= day <= 28
  {
    Date(FullYear(m.year), m.month, day)
  }

  /** No day used is past the 28th, so `new Date(y, m, day)` never rolls
      into the next month. */
  lemma NoDayOverflow(m: CalendarDate, j: nat)
    requires j < 7
    ensures 1 <= PartDay(j) <= 28
    ensures MonthDay(m.year, m.month - 1, PartDay(j)) == DayOf(m, PartDay(j))
  {
    assert (m.month - 1) / 12 == 0 && (m.month - 1) % 12 == m.month - 1;
  }

  /** Every record's date is its part's day in its month, formatted, with
      no roll-over into the next month. (`FullYear` only matters for a month
      of the years 0 to 99.) */
  lemma PresetDates(now: CalendarDate, clock: int, round: (int, int) -> int, i: nat, j: nat)
    requires i < 12 && j < 7
    ensures 1 <= PartDay(j) <= 28
    ensures Pushed(now, clock, round, 12)[7 * i + j].date == ToDateInputValue(DayOf(MonthOf(now, i), PartDay(j)))
  {
    NoDayOverflow(MonthOf(now, i), j);
    if j < 3 {
      IncomeDateAt(now, clock, round, i, j);
    } else {
      ExpenseDateAt(now, clock, round, i, j);
    }
  }

  /** Two different slots of the loop, for a current year past 100, name
      different calendar days: different months, or different days of one
      month. */
  lemma PresetDaysDiffer(now: CalendarDate, i: nat, j: nat, i': nat, j': nat)
    requires now.year >= 101 && i < 12 && j < 7 && i' < 12 && j' < 7
    requires i != i' || j != j'
    ensures 1 <= PartDay(j) <= 28 && 1 <= PartDay(j') <= 28
    ensures DayOf(MonthOf(now, i), PartDay(j)).year >= 100
    ensures DayOf(MonthOf(now, i), PartDay(j)) != DayOf(MonthOf(now, i'), PartDay(j'))
  {
    var m, m' := MonthOf(now, i), MonthOf(now, i');
    PresetMonths(now, i);
    PresetMonths(now, i');
    if i == i' {
      assert PartDay(j) != PartDay(j');
    } else {
      assert FullYear(m.year) == m.year && FullYear(m'.year) == m'.year;
      assert MonthIndex(m) != MonthIndex(m');
    }
  }

  /** Two different records, for a current year past 100, carry different
      dates. */
  lemma PresetDatesDiffer(now: CalendarDate, clock: int, round: (int, int) -> int, k: nat, l: nat)
    requires now.year >= 101 && k < l < 84
    ensures Pushed(now, clock, round, 12)[k].date != Pushed(now, clock, round, 12)[l].date
  {
    var i, j := k / 7, k % 7;
    var i', j' := l / 7, l % 7;
    assert k == 7 * i + j && l == 7 * i' + j';
    PresetDaysDiffer(now, i, j, i', j');
    PresetDaysDiffer(now, i', j', i, j);
    var d, d' := DayOf(MonthOf(now, i), PartDay(j)), DayOf(MonthOf(now, i'), PartDay(j'));
    PresetDates(now, clock, round, i, j);
    PresetDates(now, clock, round, i', j');
    FormatThenParse(d);
    FormatThenParse(d');
  }

  /** The 84 dates are pairwise distinct, so the source's comparator, which
      never answers 0, orders them exactly as the date-descending sort does. */
  lemma PresetDatesDistinct(now: CalendarDate, clock: int, round: (int, int) -> int)
    requires now.year >= 101
    ensures var p := Pushed(now, clock, round, 12);
      forall k, l :: 0 <= k < l < |p| ==> p[k].date != p[l].date
  {
    forall k: nat, l: nat | k < l < 84
      ensures Pushed(now, clock, round, 12)[k].date != Pushed(now, clock, round, 12)[l].date
    {
      PresetDatesDiffer(now, clock, round, k, l);
    }
  }

  /** Record 77, the first income record of the last month, falls on the
      first day of the current month. */
  lemma CurrentMonthStartRecord(now: CalendarDate, clock: int, round: (int, int) -> int)
    ensures Pushed(now, clock, round, 12)[77].date == GetCurrentMonthDateRange(now).start
  {
    var y := FullYear(now.year);
    CurrentMonthBounds(now);
    PresetDates(now, clock, round, 11, 0);
    PresetMonths(now, 11);
    assert FullYear(y) == y;
  }

  /** The first day of the current month is among the dates of the result,
      as src/data/presetTransactions.test.ts expects, and the result has
      both income and expense records. */
  lemma PresetHasCurrentMonthStart(now: CalendarDate, clock: int, round: (int, int) -> int)
    ensures var r := SortByDateDesc(Pushed(now, clock, round, 12));
      && |r| == 84
      && (exists t :: t in r && t.date == GetCurrentMonthDateRange(now).start)
      && (exists t :: t in r && IsIncome(t))
      && (exists t :: t in r && IsExpense(t))
  {
    var p := Pushed(now, clock, round, 12);
    SortKeepsRecords(p);
    CurrentMonthStartRecord(now, clock, round);
    PresetKind(now, clock, round, 11, 0);
    PresetKind(now, clock, round, 11, 6);
    assert p[77] in p && p[83] in p;
  }

  /** Month 10 of the loop is the month before the current one. */
  lemma PreviousMonthIsMonthTen(now: CalendarDate)
    ensures var m := MonthOf(now, 10);
      && m.year == FullYear(now.year) + (now.month - 2) / 12
      && m.month == (now.month - 2) % 12 + 1
      && m.day == 1
  {
    PresetMonths(now, 10);
    var m := MonthOf(now, 10);
    if now.month == 1 {
      assert m.year * 12 + m.month == FullYear(now.year) * 12;
    }
  }

  /** The first income record of month 10 falls on the first day of the
      previous month. */
  lemma MonthTenStart(now: CalendarDate)
    requires now.year != 100
    ensures var m := MonthOf(now, 10);
      ToDateInputValue(Date(FullYear(m.year), m.month, PartDay(0))) == GetPreviousMonthDateRange(now).start
  {
    var m := MonthOf(now, 10);
    PreviousMonthIsMonthTen(now);
    assert FullYear(m.year) == m.year;
    PreviousMonthBounds(now);
  }

  lemma PreviousMonthStartRecord(now: CalendarDate, clock: int, round: (int, int) -> int)
    requires now.year != 100
    ensures Pushed(now, clock, round, 12)[70].date == GetPreviousMonthDateRange(now).start
  {
    PresetDates(now, clock, round, 10, 0);
    MonthTenStart(now);
  }

  /** The first days of both the previous and the current month are among
      the dates of the result: the data straddles the month boundary. (In
      the year 100 the January run rolls `new Date(99, 11, 1)` into 1999.) */
  lemma PresetSpansMonthBoundary(now: CalendarDate, clock: int, round: (int, int) -> int)
    requires now.year != 100
    ensures var r := SortByDateDesc(Pushed(now, clock, round, 12));
      && (exists t :: t in r && t.date == GetPreviousMonthDateRange(now).start)
      && (exists t :: t in r && t.date == GetCurrentMonthDateRange(now).start)
  {
    var p := Pushed(now, clock, round, 12);
    var r := SortByDateDesc(p);
    PresetHasCurrentMonthStart(now, clock, round);
    PreviousMonthStartRecord(now, clock, round);
    assert p[70] in multiset(r);
  }

  /** The date of record `k`, for a current year past 100, is a formatted
      calendar date of a year of at least 100 and a day no later than the
      28th. */
  lemma PresetDateShape(now: CalendarDate, clock: int, round: (int, int) -> int, k: nat)
    requires now.year >= 101 && k < 84
    ensures exists d: CalendarDate ::
      d.year >= 100 && d.day <= 28 && Pushed(now, clock, round, 12)[k].date == ToDateInputValue(d)
  {
    var i, j := k / 7, k % 7;
    assert k == 7 * i + j;
    var m := MonthOf(now, i);
    assert m.year >= 100 by {
      PresetMonths(now, i);
    }
    assert 1 <= PartDay(j) <= 28;
    var d: CalendarDate := Date(m.year, m.month, PartDay(j));
    assert Pushed(now, clock, round, 12)[k].date == ToDateInputValue(d) by {
      PresetDates(now, clock, round, i, j);
    }
  }

  /** No record falls on a day after the 28th of a month of a year of at
      least 100. */
  lemma PresetNotOnLateDay(now: CalendarDate, clock: int, round: (int, int) -> int, k: nat, e: CalendarDate)
    requires now.year >= 101 && k < 84
    requires e.year >= 100 && e.day > 28
    ensures Pushed(now, clock, round, 12)[k].date != ToDateInputValue(e)
  {
    PresetDateShape(now, clock, round, k);
    var d: CalendarDate :| d.year >= 100 && d.day <= 28 && Pushed(now, clock, round, 12)[k].date == ToDateInputValue(d);
    if ToDateInputValue(d) == ToDateInputValue(e) {
      FormatThenParse(d);
      FormatThenParse(e);
    }
  }

  /** No record falls on a given late day of a month of a year of at least 100. */
  lemma PresetAvoidsLateDay(now: CalendarDate, clock: int, round: (int, int) -> int, e: CalendarDate)
    requires now.year >= 101
    requires e.year >= 100 && e.day > 28
    ensures forall t :: t in Pushed(now, clock, round, 12) ==> t.date != ToDateInputValue(e)
  {
    var p := Pushed(now, clock, round, 12);
    forall k | 0 <= k < 84
      ensures p[k].date != ToDateInputValue(e)
    {
      PresetNotOnLateDay(now, clock, round, k, e);
    }
  }

  /** The previous month's last day, for a current year past 100 and a
      previous month longer than 28 days. */
  lemma PreviousMonthLateEnd(now: CalendarDate) returns (last: CalendarDate)
    requires now.year >= 101
    requires now.month != 3 || IsLeapYear(now.year)
    ensures last.year >= 100 && last.day > 28
    ensures GetPreviousMonthDateRange(now).end == ToDateInputValue(last)
  {
    var y, pm := FullYear(now.year) + (now.month - 2) / 12, (now.month - 2) % 12 + 1;
    PreviousMonthLength(now);
    assert FullYear(now.year) == now.year;
    last := Date(y, pm, DaysInMonth(y, pm));
    PreviousMonthBounds(now);
  }

  /** As written, src/data/presetTransactions.test.ts expects the previous
      month's last day among the dates; every day used is at most the 28th,
      so that date is missing whenever the previous month is longer than 28
      days, that is unless the current month is March of a common year. */
  lemma PresetMissesPreviousMonthEnd(now: CalendarDate, clock: int, round: (int, int) -> int)
    requires now.year >= 101
    requires now.month != 3 || IsLeapYear(now.year)
    ensures forall t :: t in SortByDateDesc(Pushed(now, clock, round, 12)) ==>
      t.date != GetPreviousMonthDateRange(now).end
  {
    var last := PreviousMonthLateEnd(now);
    PresetAvoidsLateDay(now, clock, round, last);
    SortKeepsRecords(Pushed(now, clock, round, 12));
  }
}
