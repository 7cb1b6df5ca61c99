/** App.tsx, the older main view: the same record list, form, period and
    category state as src/App.tsx, without editing, without the
    last-30-days period and without the spreadsheet import. */
module LegacyApp {
  import opened Wrappers
  import opened Text
  import opened Records
  import opened Dates
  import opened Storage
  import opened Views

  /** The category list of types.ts. */
  const CATEGORIES: seq<string> := ["Продукты", "Автомобиль", "Хозтовары", "Подарки", "Здоровье", "Кафе/Развлечения",
    "Коммуналка", "Одежда", "Транспорт", "Прочее"]

  datatype PeriodMode = CurrentMonth | PrevMonth | ThisYear | All | Custom

  /** The `switch` of the filter memo for the day `today`. */
  function PeriodRange(mode: PeriodMode, today: CalendarDate, customStart: string, customEnd: string): DateRange {
    match mode
    case CurrentMonth => GetCurrentMonthDateRange(today)
    case PrevMonth => GetPreviousMonthDateRange(today)
    case ThisYear => YearRange(today.year)
    case Custom => DateRange(customStart, customEnd)
    case All => DateRange("", "")
  }

  /** `filteredTransactions`. */
  function Filtered(ts: seq<Transaction>, mode: PeriodMode, today: CalendarDate, customStart: string, customEnd: string,
                    selected: set<string>): seq<Transaction> {
    FilterTransactions(ts, !mode.All?, PeriodRange(mode, today, customStart, customEnd), selected)
  }

  /** What each mode means on the calendar, for a record dated `d`. */
  predicate InPeriod(mode: PeriodMode, today: CalendarDate, customStart: string, customEnd: string, d: CalendarDate) {
    match mode
    case CurrentMonth => d.year == today.year && d.month == today.month
    case PrevMonth => (d.year, d.month) == PreviousMonth(today)
    case ThisYear => d.year == today.year
    case Custom => LexLe(customStart, ToDateInputValue(d)) && LexLe(ToDateInputValue(d), customEnd)
    case All => true
  }

  /** For a record whose date is a formatted four-digit-year date, the
      filter's string comparisons select exactly the dates each mode means. */
  lemma ShownByPeriod(mode: PeriodMode, today: CalendarDate, customStart: string, customEnd: string, selected: set<string>,
                      t: Transaction, d: CalendarDate)
    requires t.date == ToDateInputValue(d)
    requires 1000 <= d.year <= 9999 && 1001 <= today.year <= 9999
    ensures Passes(t, !mode.All?, PeriodRange(mode, today, customStart, customEnd), selected)
      <==> t.category in selected && InPeriod(mode, today, customStart, customEnd, d)
  {
    match mode
    case CurrentMonth => CurrentMonthMembership(d, today);
    case PrevMonth => PreviousMonthMembership(d, today);
    case ThisYear => YearRangeMembership(d, today.year);
    case Custom =>
    case All =>
  }

  class App {
    var transactions: seq<Transaction>
    var amount: string
    var date: string
    var category: string
    var description: string
    var periodMode: PeriodMode
    var customStart: string
    var customEnd: string
    var selectedCategories: set<string>

    /** The initial state, on the day `today`. */
    constructor(today: CalendarDate)
      ensures transactions == [] && amount == "" && date == ToDateInputValue(today) && category == CATEGORIES[0]
      ensures description == "" && periodMode == CurrentMonth && customStart == "" && customEnd == ""
      ensures selectedCategories == set c | c in CATEGORIES
    {
      transactions := [];
      amount := "";
      date := ToDateInputValue(today);
      category := CATEGORIES[0];
      description := "";
      periodMode := CurrentMonth;
      customStart := "";
      customEnd := "";
      selectedCategories := set c | c in CATEGORIES;
    }

    /** The fields of the form. */
    function Form(): (string, string, string, string)
      reads this
    {
      (amount, date, category, description)
    }

    /** The fields of the filter. */
    function FilterFields(): (PeriodMode, string, string, set<string>)
      reads this
    {
      (periodMode, customStart, customEnd, selectedCategories)
    }

    /** The records shown on the day `today`. */
    function FilteredTransactions(today: CalendarDate): seq<Transaction>
      reads this
    {
      Filtered(transactions, periodMode, today, customStart, customEnd, selectedCategories)
    }

    /** `totalAmount`. */
    function TotalAmount(today: CalendarDate): int
      reads this
    {
      Total(FilteredTransactions(today))
    }

    /** `globalTotal`. */
    function GlobalTotal(): int
      reads this
    {
      Total(transactions)
    }

    /** `handleSubmit`: unless the amount, date or category is empty, a new
        record without a type is put first and amount and description are
        cleared. `value` is what `parseFloat` reads from the amount field. */
    method HandleSubmit(value: int, newId: string, now: int)
      modifies this
      ensures old(amount == "" || date == "" || category == "") ==>
        transactions == old(transactions) && Form() == old(Form())
      ensures !old(amount == "" || date == "" || category == "") ==>
        && transactions == [Transaction(newId, old(date), value, old(category), old(description), None, now)] + old(transactions)
        && Form() == ("", old(date), old(category), "")
      ensures FilterFields() == old(FilterFields())
    {
      if amount == "" || date == "" || category == "" {
        return;
      }
      var t := Transaction(newId, date, value, category, description, None, now);
      transactions := [t] + transactions;
      amount := "";
      description := "";
    }

    /** `handleDelete(id)`: when confirmed, the records with the id go. */
    method HandleDelete(id: string, confirmed: bool)
      modifies this
      ensures transactions == if confirmed then Deleted(old(transactions), id) else old(transactions)
      ensures Form() == old(Form()) && FilterFields() == old(FilterFields())
    {
      if confirmed {
        transactions := Deleted(transactions, id);
      }
    }

    /** `handleImport`: `parsed` is what `importData` gave. A failure
        changes nothing; otherwise the records replace the list or are
        appended without the ids already present. */
    method HandleImport(parsed: Result<seq<Transaction>, ImportError>, replace: bool)
      modifies this
      ensures parsed.Failure? ==> transactions == old(transactions)
      ensures parsed.Success? && replace ==> transactions == parsed.value
      ensures parsed.Success? && !replace ==> transactions == AppendUnique(old(transactions), parsed.value)
      ensures Form() == old(Form()) && FilterFields() == old(FilterFields())
    {
      if parsed.Success? {
        if replace {
          transactions := parsed.value;
        } else {
          transactions := AppendUnique(transactions, parsed.value);
        }
      }
    }

    /** `toggleCategory(cat)`. */
    method ToggleCategory(cat: string)
      modifies this
      ensures selectedCategories == Toggled(old(selectedCategories), cat)
      ensures transactions == old(transactions) && Form() == old(Form())
      ensures (periodMode, customStart, customEnd) == old((periodMode, customStart, customEnd))
    {
      selectedCategories := Toggled(selectedCategories, cat);
    }

    /** `toggleAllCategories()`. */
    method ToggleAllCategories()
      modifies this
      ensures selectedCategories == ToggledAll(old(selectedCategories), CATEGORIES)
      ensures transactions == old(transactions) && Form() == old(Form())
      ensures (periodMode, customStart, customEnd) == old((periodMode, customStart, customEnd))
    {
      if |selectedCategories| == |CATEGORIES| {
        selectedCategories := {};
      } else {
        selectedCategories := set c | c in CATEGORIES;
      }
    }

    /** One of the four buttons of the period menu. */
    method SelectPeriod(mode: PeriodMode)
      requires mode != Custom
      modifies this
      ensures periodMode == mode
      ensures transactions == old(transactions) && Form() == old(Form())
      ensures (customStart, customEnd, selectedCategories) == old((customStart, customEnd, selectedCategories))
    {
      periodMode := mode;
    }

    /** The two date inputs of the custom period. */
    method SetCustomRange(start: string, end: string)
      modifies this
      ensures customStart == start && customEnd == end
      ensures transactions == old(transactions) && Form() == old(Form())
      ensures (periodMode, selectedCategories) == old((periodMode, selectedCategories))
    {
      customStart := start;
      customEnd := end;
    }

    /** The apply button: the custom mode is entered only when both ends
        are filled in. */
    method ApplyCustom()
      modifies this
      ensures periodMode == if old(customStart != "" && customEnd != "") then Custom else old(periodMode)
      ensures transactions == old(transactions) && Form() == old(Form())
      ensures (customStart, customEnd, selectedCategories) == old((customStart, customEnd, selectedCategories))
    {
      if customStart != "" && customEnd != "" {
        periodMode := Custom;
      }
    }
  }

  /** The categories of types.ts are distinct, so toggling all of a set of
      listed categories empties it exactly when every category is selected,
      and selects every category otherwise. */
  lemma ToggleAllCategoriesSpec(selected: set<string>)
    requires forall c :: c in selected ==> c in CATEGORIES
    ensures ToggledAll(selected, CATEGORIES) == if selected == (set c | c in CATEGORIES) then {} else set c | c in CATEGORIES
  {
    ToggleAllSpec(selected, CATEGORIES);
  }
}
