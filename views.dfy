/** What the main view of src/App.tsx and that of the older App.tsx share:
    the period and category filter with its totals, the date ranges of the
    period modes, the category toggles, the table order, and the updates of
    the record list made by add, edit, delete and the two import branches. */
module Views {
  import opened Text
  import opened Records
  import opened Seqs
  import opened Dates

  // ----- The filter -----

  /** `!(t.date < startStr || t.date > endStr)`: string comparison, both
      ends included. */
  predicate InRange(date: string, range: DateRange) {
    !(LexLess(date, range.start) || LexLess(range.end, date))
  }

  /** The callback of the filter. The date test is made in every mode but
      'all' (`checkDate`); the category must be selected. */
  predicate Passes(t: Transaction, checkDate: bool, range: DateRange, selected: set<string>) {
    (checkDate ==> InRange(t.date, range)) && t.category in selected
  }

  function Keep(checkDate: bool, range: DateRange, selected: set<string>): Transaction -> bool {
    t => Passes(t, checkDate, range, selected)
  }

  /** The `filteredTransactions` memo. */
  function FilterTransactions(ts: seq<Transaction>, checkDate: bool, range: DateRange, selected: set<string>): seq<Transaction> {
    Filter(ts, Keep(checkDate, range, selected))
  }

  /** A record is shown iff it is one of the records, its date lies between
      the two ends of the range unless the date test is off, and its
      category is selected; the shown records keep their relative order. */
  lemma FilterSpec(ts: seq<Transaction>, checkDate: bool, range: DateRange, selected: set<string>)
    ensures var r := FilterTransactions(ts, checkDate, range, selected);
      && (forall t :: t in r <==>
            t in ts && (checkDate ==> LexLe(range.start, t.date) && LexLe(t.date, range.end)) && t.category in selected)
      && IsSubsequence(r, ts)
  {
    var r := FilterTransactions(ts, checkDate, range, selected);
    FilterIsSubsequence(ts, Keep(checkDate, range, selected));
    forall t | t in ts && Passes(t, checkDate, range, selected)
      ensures t in r
    {
      var i :| 0 <= i < |ts| && ts[i] == t;
    }
  }

  /** `totalAmount` is at most `globalTotal` when no amount is negative, and
      the two agree when every record passes. */
  lemma TotalWithinGlobal(ts: seq<Transaction>, checkDate: bool, range: DateRange, selected: set<string>)
    ensures (forall t :: t in ts ==> t.amount >= 0) ==> Total(FilterTransactions(ts, checkDate, range, selected)) <= Total(ts)
    ensures (forall t :: t in ts ==> Passes(t, checkDate, range, selected)) ==> FilterTransactions(ts, checkDate, range, selected) == ts
  {
    if forall t :: t in ts ==> t.amount >= 0 {
      SumOfFilterLe(ts, Keep(checkDate, range, selected), AmountOf);
    }
    if forall t :: t in ts ==> Passes(t, checkDate, range, selected) {
      FilterAll(ts, Keep(checkDate, range, selected));
    }
  }

  // ----- The ranges of the period modes -----

  /** `${year}-01-01` to `${year}-12-31`, the 'thisYear' mode. */
  function YearRange(year: int): DateRange {
    DateRange(IntToString(year) + "-01-01", IntToString(year) + "-12-31")
  }

  /** For four-digit years, a formatted date lies in the year's range iff it
      is of that year. */
  lemma YearRangeMembership(d: CalendarDate, year: int)
    requires 1000 <= d.year <= 9999 && 1000 <= year <= 9999
    ensures InRange(ToDateInputValue(d), YearRange(year)) <==> d.year == year
  {
    var first, last := Date(year, 1, 1), Date(year, 12, 31);
    assert TwoDigits(1) == "01" && TwoDigits(12) == "12" && TwoDigits(31) == "31";
    assert YearRange(year) == DateRange(ToDateInputValue(first), ToDateInputValue(last));
    FormatOrder(d, first);
    FormatOrder(last, d);
  }

  /** For four-digit years, a formatted date lies between the first and the
      last day of month `m` of year `y` iff it is in that month. */
  lemma MonthMembership(d: CalendarDate, y: int, m: int)
    requires 1000 <= d.year <= 9999 && 1000 <= y <= 9999 && 1 <= m <= 12
    ensures InRange(ToDateInputValue(d), DateRange(ToDateInputValue(Date(y, m, 1)), ToDateInputValue(Date(y, m, DaysInMonth(y, m)))))
      <==> d.year == y && d.month == m
  {
    FormatOrder(d, Date(y, m, 1));
    FormatOrder(Date(y, m, DaysInMonth(y, m)), d);
  }

  /** The 'currentMonth' range holds exactly the dates of today's month. */
  lemma CurrentMonthMembership(d: CalendarDate, today: CalendarDate)
    requires 1000 <= d.year <= 9999 && 1000 <= today.year <= 9999
    ensures InRange(ToDateInputValue(d), GetCurrentMonthDateRange(today)) <==> d.year == today.year && d.month == today.month
  {
    CurrentMonthBounds(today);
    MonthMembership(d, today.year, today.month);
  }

  /** The month before today's: December of the year before in January. */
  function PreviousMonth(today: CalendarDate): (int, int) {
    if today.month == 1 then (today.year - 1, 12) else (today.year, today.month - 1)
  }

  /** The 'prevMonth' range holds exactly the dates of the month before
      today's. */
  lemma PreviousMonthMembership(d: CalendarDate, today: CalendarDate)
    requires 1000 <= d.year <= 9999 && 1001 <= today.year <= 9999
    ensures InRange(ToDateInputValue(d), GetPreviousMonthDateRange(today)) <==> (d.year, d.month) == PreviousMonth(today)
  {
    PreviousMonthBounds(today);
    var (y, m) := PreviousMonth(today);
    assert FullYear(today.year) + (today.month - 2) / 12 == y && (today.month - 2) % 12 + 1 == m;
    MonthMembership(d, y, m);
  }

  /** A range from one formatted date to another holds exactly the dates
      between the two on the calendar, both included. */
  lemma DayRangeMembership(d: CalendarDate, first: CalendarDate, last: CalendarDate)
    requires 1000 <= d.year <= 9999 && 1000 <= first.year <= 9999 && 1000 <= last.year <= 9999
    ensures InRange(ToDateInputValue(d), DateRange(ToDateInputValue(first), ToDateInputValue(last)))
      <==> !Before(d, first) && !Before(last, d)
  {
    FormatOrder(d, first);
    FormatOrder(last, d);
  }

  // ----- Category toggles -----

  /** `toggleCategory(cat)`: the category leaves the set if it was in it and
      joins it otherwise. */
  function Toggled(selected: set<string>, cat: string): (r: set<string>)
    ensures cat in r <==> cat !in selected
    ensures forall c :: c != cat ==> (c in r <==> c in selected)
  {
    if cat in selected then selected - {cat} else selected + {cat}
  }

  /** Toggling a category twice gives the set back. */
  lemma ToggleTwice(selected: set<string>, cat: string)
    ensures Toggled(Toggled(selected, cat), cat) == selected
  {
  }

  /** `toggleAllCategories()`: the empty set when the set is as large as the
      category list, every category otherwise. */
  function ToggledAll(selected: set<string>, categories: seq<string>): set<string> {
    if |selected| == |categories| then {} else set c | c in categories
  }

  /** For a set of listed categories, the size test of the source is a test
      for "every category selected": toggling all empties a full set and
      fills any other. */
  lemma ToggleAllSpec(selected: set<string>, categories: seq<string>)
    requires forall i, j :: 0 <= i < j < |categories| ==> categories[i] != categories[j]
    requires forall c :: c in selected ==> c in categories
    ensures var all := set c | c in categories;
      ToggledAll(selected, categories) == if selected == all then {} else all
  {
    var all := set c | c in categories;
    DistinctCardinality(categories);
    if |selected| == |categories| {
      var rest := all - selected;
      assert all == selected + rest;
      assert rest == {};
    }
  }

  // ----- The table -----

  /** The comparator of the table, `time(b) - time(a) || b.createdAt -
      a.createdAt`: later dates first, and on the same date the later
      created first. */
  predicate TableLe(a: Transaction, b: Transaction) {
    LexLess(b.date, a.date) || (a.date == b.date && a.createdAt >= b.createdAt)
  }

  lemma TableLeIsPreorder()
    ensures forall a, b :: TableLe(a, b) || TableLe(b, a)
    ensures forall a, b, c :: TableLe(a, b) && TableLe(b, c) ==> TableLe(a, c)
  {
    forall a, b ensures TableLe(a, b) || TableLe(b, a) {
      LexLessTotal(a.date, b.date);
    }
    forall a, b, c | TableLe(a, b) && TableLe(b, c) ensures TableLe(a, c) {
      if LexLess(b.date, a.date) && LexLess(c.date, b.date) {
        LexLessTransitive(c.date, b.date, a.date);
      }
    }
  }

  /** The order of the table's rows. */
  function TableOrder(ts: seq<Transaction>): seq<Transaction> {
    SortBy(ts, TableLe)
  }

  /** The rows are the shown records, dates non-increasing and, on one date,
      creation times non-increasing; records with the same date and creation
      time keep their order in the list. */
  lemma TableOrderSpec(ts: seq<Transaction>)
    ensures var r := TableOrder(ts);
      && multiset(r) == multiset(ts)
      && (forall i, j :: 0 <= i < j < |r| ==>
           LexLe(r[j].date, r[i].date) && (r[i].date == r[j].date ==> r[i].createdAt >= r[j].createdAt))
      && forall e :: Filter(r, TiesWith(TableLe, e)) == Filter(ts, TiesWith(TableLe, e))
  {
    var r := TableOrder(ts);
    TableLeIsPreorder();
    SortBySorted(ts, TableLe);
    forall e ensures Filter(r, TiesWith(TableLe, e)) == Filter(ts, TiesWith(TableLe, e)) {
      SortByStable(ts, TableLe, e);
    }
    forall i, j | 0 <= i < j < |r|
      ensures LexLe(r[j].date, r[i].date)
    {
      if LexLess(r[i].date, r[j].date) {
        LexLessAsymmetric(r[i].date, r[j].date);
      } else if r[i].date == r[j].date {
        LexLessIrreflexive(r[i].date);
      }
    }
  }

  // ----- Updates of the record list -----

  function IdIsNot(id: string): Transaction -> bool {
    (t: Transaction) => t.id != id
  }

  /** `prev.filter(t => t.id !== id)`. */
  function Deleted(ts: seq<Transaction>, id: string): seq<Transaction> {
    Filter(ts, IdIsNot(id))
  }

  /** Delete removes exactly the records with the id and keeps the others in
      order; without such a record the list is unchanged. */
  lemma DeleteSpec(ts: seq<Transaction>, id: string)
    ensures var r := Deleted(ts, id);
      && (forall t :: t in r <==> t in ts && t.id != id)
      && id !in IdSet(r)
      && IsSubsequence(r, ts)
      && (id !in IdSet(ts) ==> r == ts)
  {
    var r := Deleted(ts, id);
    FilterIsSubsequence(ts, IdIsNot(id));
    forall t | t in ts && t.id != id
      ensures t in r
    {
      var i :| 0 <= i < |ts| && ts[i] == t;
    }
    if id !in IdSet(ts) {
      FilterAll(ts, IdIsNot(id));
    }
  }

  /** The callback of the edit branch: the record with the id gets the
      form's date, amount, category and description. */
  function Overwrite(id: string, date: string, amount: int, category: string, description: string): Transaction -> Transaction {
    (t: Transaction) => if t.id == id then t.(date := date, amount := amount, category := category, description := description) else t
  }

  /** `prev.map(...)` of the edit branch. */
  function Edited(ts: seq<Transaction>, id: string, date: string, amount: int, category: string, description: string): seq<Transaction> {
    Map(ts, Overwrite(id, date, amount, category, description))
  }

  /** Edit keeps the length, every id, creation time and type, and every
      record with another id; the records with the id carry the form's
      values. */
  lemma EditSpec(ts: seq<Transaction>, id: string, date: string, amount: int, category: string, description: string)
    ensures var r := Edited(ts, id, date, amount, category, description);
      && |r| == |ts|
      && (forall i :: 0 <= i < |ts| ==> r[i].id == ts[i].id && r[i].createdAt == ts[i].createdAt && r[i].kind == ts[i].kind)
      && (forall i :: 0 <= i < |ts| && ts[i].id != id ==> r[i] == ts[i])
      && (forall i :: 0 <= i < |ts| && ts[i].id == id ==>
            r[i].date == date && r[i].amount == amount && r[i].category == category && r[i].description == description)
      && IdSet(r) == IdSet(ts)
  {
    var r := Edited(ts, id, date, amount, category, description);
    forall x | x in IdSet(ts)
      ensures x in IdSet(r)
    {
      var t :| t in ts && t.id == x;
      var i :| 0 <= i < |ts| && ts[i] == t;
      assert r[i] in r;
    }
    forall x | x in IdSet(r)
      ensures x in IdSet(ts)
    {
      var t :| t in r && t.id == x;
      var i :| 0 <= i < |r| && r[i] == t;
      assert ts[i] in ts;
    }
  }

  function IdNotIn(ids: set<string>): Transaction -> bool {
    (t: Transaction) => t.id !in ids
  }

  /** The append branch of the JSON import: the imported records whose id is
      not present yet, then the present ones, sorted by date descending. */
  function AppendUnique(prev: seq<Transaction>, imported: seq<Transaction>): seq<Transaction> {
    SortByDateDesc(Filter(imported, IdNotIn(IdSet(prev))) + prev)
  }

  /** Every present record stays; an imported record joins iff its id is not
      present; no id is lost; the result is sorted by date descending. */
  lemma AppendUniqueSpec(prev: seq<Transaction>, imported: seq<Transaction>)
    ensures var r := AppendUnique(prev, imported);
      && multiset(r) == multiset(Filter(imported, IdNotIn(IdSet(prev)))) + multiset(prev)
      && (forall t :: t in r <==> t in prev || (t in imported && t.id !in IdSet(prev)))
      && IdSet(r) == IdSet(prev) + IdSet(imported)
      && (forall i, j :: 0 <= i < j < |r| ==> LexLe(r[j].date, r[i].date))
  {
    var newUnique := Filter(imported, IdNotIn(IdSet(prev)));
    var r := AppendUnique(prev, imported);
    SortKeepsRecords(newUnique + prev);
    forall t | t in imported && t.id !in IdSet(prev)
      ensures t in newUnique
    {
      var i :| 0 <= i < |imported| && imported[i] == t;
    }
    forall x | x in IdSet(imported)
      ensures x in IdSet(r)
    {
      var t :| t in imported && t.id == x;
      if x !in IdSet(prev) {
        assert t in r;
      }
    }
  }

  /** Records with distinct ids, added to records with distinct ids, keep
      all ids distinct. */
  lemma AppendUniqueDistinct(prev: seq<Transaction>, imported: seq<Transaction>)
    requires DistinctIds(prev) && DistinctIds(imported)
    ensures DistinctIds(AppendUnique(prev, imported))
  {
    var newUnique := Filter(imported, IdNotIn(IdSet(prev)));
    assert DistinctBy(imported, IdOf);
    FilterDistinctBy(imported, IdNotIn(IdSet(prev)), IdOf);
    var c, n := newUnique + prev, |newUnique|;
    forall i, j | 0 <= i < j < |c|
      ensures c[i].id != c[j].id
    {
      if i < n <= j {
        assert c[j] in prev;
        assert c[i].id !in IdSet(prev);
      } else if j < n {
        assert IdOf(newUnique[i]) != IdOf(newUnique[j]);
      }
    }
    DistinctIdsOfPermutation(c, AppendUnique(prev, imported));
  }

  /** The append branch of the spreadsheet import: every record of both
      lists, duplicates included, sorted by date descending. */
  function AppendAll(prev: seq<Transaction>, imported: seq<Transaction>): seq<Transaction> {
    SortByDateDesc(imported + prev)
  }

  lemma AppendAllSpec(prev: seq<Transaction>, imported: seq<Transaction>)
    ensures var r := AppendAll(prev, imported);
      && |r| == |imported| + |prev|
      && multiset(r) == multiset(imported) + multiset(prev)
      && (forall i, j :: 0 <= i < j < |r| ==> LexLe(r[j].date, r[i].date))
  {
    SortKeepsRecords(imported + prev);
  }
}
