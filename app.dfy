/** src/App.tsx: the state of the main view and its handlers. The form,
    the record list, the editing id, the period and the selected categories
    are the component's `useState` slots; the handlers replace them. The
    user's answer to a `confirm` dialog, today's date, the new record's id
    and creation time are parameters. */
module BudgetApp {
  import opened Wrappers
  import opened Text
  import opened Records
  import opened Seqs
  import opened Dates
  import opened Storage
  import opened Views

  /** The category list of src/types.ts. */
  const CATEGORIES: seq<string> := ["Продукты", "Транспорт", "Жилье", "Здоровье", "Развлечения", "Одежда",
    "Техника", "Образование", "Животные", "Подарки", "Другое"]

  datatype PeriodMode = CurrentMonth | PrevMonth | Last30Days | ThisYear | All | Custom

  /** The `switch` of the filter memo: the range of each mode for the day
      `today`. Mode 'all' leaves both ends empty and skips the date test. */
  function PeriodRange(mode: PeriodMode, today: CalendarDate, customStart: string, customEnd: string): DateRange {
    match mode
    case CurrentMonth => GetCurrentMonthDateRange(today)
    case PrevMonth => GetPreviousMonthDateRange(today)
    case Last30Days => DateRange(ToDateInputValue(ShiftDays(today, -30)), ToDateInputValue(today))
    case ThisYear => YearRange(today.year)
    case Custom => DateRange(customStart, customEnd)
    case All => DateRange("", "")
  }

  /** `filteredTransactions`. */
  function Filtered(ts: seq<Transaction>, mode: PeriodMode, today: CalendarDate, customStart: string, customEnd: string,
                    selected: set<string>): seq<Transaction> {
    FilterTransactions(ts, !mode.All?, PeriodRange(mode, today, customStart, customEnd), selected)
  }

  /** What each mode means on the calendar, for a record dated `d`. */
  predicate InPeriod(mode: PeriodMode, today: CalendarDate, customStart: string, customEnd: string, d: CalendarDate) {
    match mode
    case CurrentMonth => d.year == today.year && d.month == today.month
    case PrevMonth => (d.year, d.month) == PreviousMonth(today)
    case Last30Days => !Before(d, ShiftDays(today, -30)) && !Before(today, d)
    case ThisYear => d.year == today.year
    case Custom => LexLe(customStart, ToDateInputValue(d)) && LexLe(ToDateInputValue(d), customEnd)
    case All => true
  }

  /** For a record whose date is a formatted four-digit-year date, the
      string comparisons of the filter select exactly the dates each mode
      means: today's month, the month before, the 31 days up to today,
      today's year, the entered range, or every date. */
  lemma ShownByPeriod(mode: PeriodMode, today: CalendarDate, customStart: string, customEnd: string, selected: set<string>,
                      t: Transaction, d: CalendarDate)
    requires t.date == ToDateInputValue(d)
    requires 1000 <= d.year <= 9999 && 1001 <= today.year <= 9999 && 1000 <= ShiftDays(today, -30).year
    ensures Passes(t, !mode.All?, PeriodRange(mode, today, customStart, customEnd), selected)
      <==> t.category in selected && InPeriod(mode, today, customStart, customEnd, d)
  {
    match mode
    case CurrentMonth => CurrentMonthMembership(d, today);
    case PrevMonth => PreviousMonthMembership(d, today);
    case Last30Days => Last30DaysMembership(d, today);
    case ThisYear => YearRangeMembership(d, today.year);
    case Custom =>
    case All =>
  }

  /** The 'last30days' range holds exactly the dates from 30 days before
      today up to today. */
  lemma Last30DaysMembership(d: CalendarDate, today: CalendarDate)
    requires 1000 <= d.year <= 9999 && 1000 <= today.year <= 9999 && 1000 <= ShiftDays(today, -30).year
    ensures InRange(ToDateInputValue(d), PeriodRange(Last30Days, today, "", ""))
      <==> !Before(d, ShiftDays(today, -30)) && !Before(today, d)
  {
    var start := ShiftDays(today, -30);
    DayRangeMembership(d, start, today);
  }

  /** The last-30-days window spans 31 calendar days, today included. */
  lemma Last30DaysSpan(today: CalendarDate)
    ensures DayNumber(today) - DayNumber(ShiftDays(today, -30)) == 30
  {
  }

  class App {
    var transactions: seq<Transaction>
    var amount: string
    var date: string
    var category: string
    var description: string
    var editingId: Option<string>
    var periodMode: PeriodMode
    var customStart: string
    var customEnd: string
    var selectedCategories: set<string>

    /** The initial state, on the day `today`. */
    constructor(today: CalendarDate)
      ensures transactions == [] && amount == "" && date == ToDateInputValue(today) && category == CATEGORIES[0]
      ensures description == "" && editingId == None
      ensures periodMode == CurrentMonth && customStart == "" && customEnd == ""
      ensures selectedCategories == set c | c in CATEGORIES
    {
      transactions := [];
      amount := "";
      date := ToDateInputValue(today);
      category := CATEGORIES[0];
      description := "";
      editingId := None;
      periodMode := CurrentMonth;
      customStart := "";
      customEnd := "";
      selectedCategories := set c | c in CATEGORIES;
    }

    /** The fields of the form. */
    function Form(): (string, string, string, string, Option<string>)
      reads this
    {
      (amount, date, category, description, editingId)
    }

    /** The fields of the filter. */
    function FilterFields(): (PeriodMode, string, string, set<string>)
      reads this
    {
      (periodMode, customStart, customEnd, selectedCategories)
    }

    /** The records shown on the day `today`. */
    function FilteredTransactions(today: CalendarDate): seq<Transaction>
      reads this
    {
      Filtered(transactions, periodMode, today, customStart, customEnd, selectedCategories)
    }

    /** `totalAmount`. */
    function TotalAmount(today: CalendarDate): int
      reads this
    {
      Total(FilteredTransactions(today))
    }

    /** `globalTotal`. */
    function GlobalTotal(): int
      reads this
    {
      Total(transactions)
    }

    /** `handleSubmit`. `value` is what `parseFloat` reads from the amount
        field. With an empty amount, date or category nothing happens. With
        an editing id (a non-empty one: the empty string is falsy) the
        records with that id take the form's values and editing ends;
        otherwise a new record without a type is put first. Amount and
        description are then cleared. */
    method HandleSubmit(value: int, newId: string, now: int)
      modifies this
      ensures old(amount == "" || date == "" || category == "") ==>
        transactions == old(transactions) && Form() == old(Form())
      ensures !old(amount == "" || date == "" || category == "") ==>
        && (old(editingId.Some? && editingId.value != "") ==>
              transactions == Edited(old(transactions), old(editingId.value), old(date), value, old(category), old(description))
              && editingId == None)
        && (!old(editingId.Some? && editingId.value != "") ==>
              transactions == [Transaction(newId, old(date), value, old(category), old(description), None, now)] + old(transactions)
              && editingId == old(editingId))
        && amount == "" && description == "" && date == old(date) && category == old(category)
      ensures FilterFields() == old(FilterFields())
    {
      if amount == "" || date == "" || category == "" {
        return;
      }
      if editingId.Some? && editingId.value != "" {
        transactions := Edited(transactions, editingId.value, date, value, category, description);
        editingId := None;
      } else {
        var t := Transaction(newId, date, value, category, description, None, now);
        transactions := [t] + transactions;
      }
      amount := "";
      description := "";
    }

    /** `handleEdit(t)`: the form takes the record's values and its id. */
    method HandleEdit(t: Transaction)
      modifies this
      ensures Form() == (IntToString(t.amount), t.date, t.category, t.description, Some(t.id))
      ensures transactions == old(transactions) && FilterFields() == old(FilterFields())
    {
      editingId := Some(t.id);
      amount := IntToString(t.amount);
      date := t.date;
      category := t.category;
      description := t.description;
    }

    /** `cancelEdit()`: editing ends, amount and description are cleared and
        the date is back to today. */
    method CancelEdit(today: CalendarDate)
      modifies this
      ensures Form() == ("", ToDateInputValue(today), old(category), "", None)
      ensures transactions == old(transactions) && FilterFields() == old(FilterFields())
    {
      editingId := None;
      amount := "";
      description := "";
      date := ToDateInputValue(today);
    }

    /** `handleDelete(id)`: when confirmed, the records with the id go, and
        editing of that id is cancelled. */
    method HandleDelete(id: string, confirmed: bool, today: CalendarDate)
      modifies this
      ensures transactions == if confirmed then Deleted(old(transactions), id) else old(transactions)
      ensures confirmed && old(editingId) == Some(id) ==> Form() == ("", ToDateInputValue(today), old(category), "", None)
      ensures !(confirmed && old(editingId) == Some(id)) ==> Form() == old(Form())
      ensures FilterFields() == old(FilterFields())
    {
      if confirmed {
        transactions := Deleted(transactions, id);
        if editingId == Some(id) {
          CancelEdit(today);
        }
      }
    }

    /** `handleImport`: `parsed` is what `importData` gave. A failure
        changes nothing; otherwise the records replace the list when
        `replace` is confirmed, and are appended without the ids already
        present otherwise. */
    method HandleImport(parsed: Result<seq<Transaction>, ImportError>, replace: bool)
      modifies this
      ensures parsed.Failure? ==> transactions == old(transactions)
      ensures parsed.Success? && replace ==> transactions == parsed.value
      ensures parsed.Success? && !replace ==> transactions == AppendUnique(old(transactions), parsed.value)
      ensures Form() == old(Form()) && FilterFields() == old(FilterFields())
    {
      if parsed.Success? {
        if replace {
          transactions := parsed.value;
        } else {
          transactions := AppendUnique(transactions, parsed.value);
        }
      }
    }

    /** `handleExcelImport`: `read` is what `importFromExcel` gave, `None`
        when reading failed. The rows replace the list or are appended to it
        without any deduplication. */
    method HandleExcelImport(read: Option<seq<Transaction>>, replace: bool)
      modifies this
      ensures read.None? ==> transactions == old(transactions)
      ensures read.Some? && replace ==> transactions == read.value
      ensures read.Some? && !replace ==> transactions == AppendAll(old(transactions), read.value)
      ensures Form() == old(Form()) && FilterFields() == old(FilterFields())
    {
      if read.Some? {
        if replace {
          transactions := read.value;
        } else {
          transactions := AppendAll(transactions, read.value);
        }
      }
    }

    /** `toggleCategory(cat)`. */
    method ToggleCategory(cat: string)
      modifies this
      ensures selectedCategories == Toggled(old(selectedCategories), cat)
      ensures transactions == old(transactions) && Form() == old(Form())
      ensures (periodMode, customStart, customEnd) == old((periodMode, customStart, customEnd))
    {
      selectedCategories := Toggled(selectedCategories, cat);
    }

    /** `toggleAllCategories()`. */
    method ToggleAllCategories()
      modifies this
      ensures selectedCategories == ToggledAll(old(selectedCategories), CATEGORIES)
      ensures transactions == old(transactions) && Form() == old(Form())
      ensures (periodMode, customStart, customEnd) == old((periodMode, customStart, customEnd))
    {
      if |selectedCategories| == |CATEGORIES| {
        selectedCategories := {};
      } else {
        selectedCategories := set c | c in CATEGORIES;
      }
    }

    /** One of the five buttons of the period menu. */
    method SelectPeriod(mode: PeriodMode)
      requires mode != Custom
      modifies this
      ensures periodMode == mode
      ensures transactions == old(transactions) && Form() == old(Form())
      ensures (customStart, customEnd, selectedCategories) == old((customStart, customEnd, selectedCategories))
    {
      periodMode := mode;
    }

    /** The two date inputs of the custom period. */
    method SetCustomRange(start: string, end: string)
      modifies this
      ensures customStart == start && customEnd == end
      ensures transactions == old(transactions) && Form() == old(Form())
      ensures (periodMode, selectedCategories) == old((periodMode, selectedCategories))
    {
      customStart := start;
      customEnd := end;
    }

    /** The apply button: the custom mode is entered only when both ends
        are filled in. */
    method ApplyCustom()
      modifies this
      ensures periodMode == if old(customStart != "" && customEnd != "") then Custom else old(periodMode)
      ensures periodMode == Custom && old(periodMode) != Custom ==> customStart != "" && customEnd != ""
      ensures transactions == old(transactions) && Form() == old(Form())
      ensures (customStart, customEnd, selectedCategories) == old((customStart, customEnd, selectedCategories))
    {
      if customStart != "" && customEnd != "" {
        periodMode := Custom;
      }
    }
  }

  /** The categories of src/types.ts are distinct, so toggling all of a set
      of listed categories empties it exactly when every category is
      selected, and selects every category otherwise. */
  lemma ToggleAllCategoriesSpec(selected: set<string>)
    requires forall c :: c in selected ==> c in CATEGORIES
    ensures ToggledAll(selected, CATEGORIES) == if selected == (set c | c in CATEGORIES) then {} else set c | c in CATEGORIES
  {
    ToggleAllSpec(selected, CATEGORIES);
  }
}
