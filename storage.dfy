/** src/services/storageService.ts: the persisted list under one
    localStorage key, its migration on load, clearing by kind, the JSON
    backup envelope and the spreadsheet row mapping. The browser store is a
    field holding what is stored under the key; files arrive already parsed. */
module Storage {
  import opened Wrappers
  import opened Text
  import opened Records
  import Seqs

  const STORAGE_KEY := "budget_transactions"

  // ----- Migration -----

  /** `{ ...t, type: t.type || 'expense' }`: a missing or empty type becomes
      'expense'; every other field and every other type is kept. */
  function Migrate(t: Transaction): Transaction {
    if t.kind == None || t.kind == Some("") then t.(kind := Some(EXPENSE)) else t
  }

  predicate HasKind(t: Transaction) {
    t.kind.Some? && t.kind.value != ""
  }

  function MigrateAll(ts: seq<Transaction>): (r: seq<Transaction>)
    ensures |r| == |ts|
    ensures forall i :: 0 <= i < |ts| ==> r[i] == Migrate(ts[i])
  {
    if ts == [] then [] else [Migrate(ts[0])] + MigrateAll(ts[1..])
  }

  /** Migration changes exactly the records without a type, only in their
      type, and leaves every record with a type. */
  lemma MigrateAllSpec(ts: seq<Transaction>)
    ensures var r := MigrateAll(ts);
      && (forall i :: 0 <= i < |ts| ==> r[i] == ts[i].(kind := r[i].kind))
      && (forall i :: 0 <= i < |ts| ==> (r[i] != ts[i] <==> !HasKind(ts[i])))
      && (forall i :: 0 <= i < |ts| ==> HasKind(r[i]))
      && (forall i :: 0 <= i < |ts| && !HasKind(ts[i]) ==> IsExpense(r[i]))
  {
  }

  /** Records that all have a type come through migration unchanged; in
      particular migrating twice is migrating once. */
  lemma MigrateAllKeepsTyped(ts: seq<Transaction>)
    requires forall i :: 0 <= i < |ts| ==> HasKind(ts[i])
    ensures MigrateAll(ts) == ts
  {
  }

  lemma MigrateAllIdempotent(ts: seq<Transaction>)
    ensures MigrateAll(MigrateAll(ts)) == MigrateAll(ts)
  {
    MigrateAllSpec(ts);
    MigrateAllKeepsTyped(MigrateAll(ts));
  }

  // ----- The persistent store -----

  /** What the key holds: a list written by `saveTransactions`, or text that
      `JSON.parse` rejects or that does not read back as a list. */
  datatype Stored = Saved(items: seq<Transaction>) | Unreadable

  /** `loadTransactions()` on a store whose key holds `slot`. */
  function LoadedFrom(slot: Option<Stored>): (r: seq<Transaction>)
    ensures slot.None? || slot == Some(Unreadable) ==> r == []
    ensures slot.Some? && slot.value.Saved? ==> r == MigrateAll(slot.value.items)
  {
    match slot
    case Some(Saved(items)) => MigrateAll(items)
    case _ => []
  }

  datatype ClearMode = All | Income | Expenses

  class LocalStore {
    /** The value under STORAGE_KEY; `None` when the key is absent. */
    var slot: Option<Stored>

    constructor()
      ensures slot == None
    {
      slot := None;
    }

    /** `saveTransactions(transactions)`. */
    method SaveTransactions(transactions: seq<Transaction>)
      modifies this
      ensures slot == Some(Saved(transactions))
    {
      slot := Some(Saved(transactions));
    }

    /** `loadTransactions()`: nothing stored or unreadable gives `[]`. */
    method LoadTransactions() returns (loaded: seq<Transaction>)
      ensures loaded == LoadedFrom(slot)
      ensures |loaded| <= (if slot.Some? && slot.value.Saved? then |slot.value.items| else 0)
    {
      match slot {
        case None => loaded := [];
        case Some(Unreadable) => loaded := [];
        case Some(Saved(items)) => loaded := MigrateAll(items);
      }
    }

    /** `clearData(mode)`: 'all' removes the key; 'income' keeps only the
        expense records and 'expenses' only the income records of what loads,
        stores them and returns them. */
    method ClearData(mode: ClearMode) returns (kept: seq<Transaction>)
      modifies this
      ensures mode == All ==> kept == [] && slot == None
      ensures mode == Income ==> kept == Seqs.Filter(LoadedFrom(old(slot)), IsExpense)
      ensures mode == Expenses ==> kept == Seqs.Filter(LoadedFrom(old(slot)), IsIncome)
      ensures mode != All ==> slot == Some(Saved(kept))
      ensures LoadedFrom(slot) == kept
    {
      if mode == All {
        slot := None;
        return [];
      }
      var current := LoadTransactions();
      if mode == Income {
        kept := Seqs.Filter(current, IsExpense);
      } else {
        kept := Seqs.Filter(current, IsIncome);
      }
      MigrateAllKeepsTyped(kept);
      SaveTransactions(kept);
    }
  }

  /** Save then load gives the same list when every record has a type. */
  lemma SaveLoadRoundTrip(ts: seq<Transaction>)
    requires forall i :: 0 <= i < |ts| ==> HasKind(ts[i])
    ensures LoadedFrom(Some(Saved(ts))) == ts
  {
    MigrateAllKeepsTyped(ts);
  }

  /** Clearing income keeps, in order, exactly the loaded records whose type
      is 'expense' (records without a type count as expense after migration);
      clearing expenses keeps exactly the income records. */
  lemma ClearKeepsKind(slot: Option<Stored>)
    ensures var e := Seqs.Filter(LoadedFrom(slot), IsExpense);
      && Seqs.IsSubsequence(e, LoadedFrom(slot))
      && (forall i :: 0 <= i < |e| ==> IsExpense(e[i]))
      && (forall t :: t in LoadedFrom(slot) && IsExpense(t) ==> t in e)
    ensures var n := Seqs.Filter(LoadedFrom(slot), IsIncome);
      && Seqs.IsSubsequence(n, LoadedFrom(slot))
      && (forall i :: 0 <= i < |n| ==> IsIncome(n[i]))
      && (forall t :: t in LoadedFrom(slot) && IsIncome(t) ==> t in n)
  {
    Seqs.FilterIsSubsequence(LoadedFrom(slot), IsExpense);
    Seqs.FilterIsSubsequence(LoadedFrom(slot), IsIncome);
    forall t | t in LoadedFrom(slot) && IsExpense(t) ensures t in Seqs.Filter(LoadedFrom(slot), IsExpense) {
      var i :| 0 <= i < |LoadedFrom(slot)| && LoadedFrom(slot)[i] == t;
    }
    forall t | t in LoadedFrom(slot) && IsIncome(t) ensures t in Seqs.Filter(LoadedFrom(slot), IsIncome) {
      var i :| 0 <= i < |LoadedFrom(slot)| && LoadedFrom(slot)[i] == t;
    }
  }

  /** The test of src/services/storageService.test.ts: two expenses and one
      income, 'income' cleared, two expenses left. */
  lemma ClearIncomeSample()
    ensures var e1 := Transaction("e1", "2025-01-10", 1000, "Продукты", "test", Some(EXPENSE), 1);
      var i1 := Transaction("i1", "2025-01-10", 1000, "Зарплата", "test", Some(INCOME), 1);
      var e2 := Transaction("e2", "2025-01-10", 1000, "Интернет", "test", Some(EXPENSE), 1);
      Seqs.Filter(LoadedFrom(Some(Saved([e1, i1, e2]))), IsExpense) == [e1, e2]
  {
    var e1 := Transaction("e1", "2025-01-10", 1000, "Продукты", "test", Some(EXPENSE), 1);
    var i1 := Transaction("i1", "2025-01-10", 1000, "Зарплата", "test", Some(INCOME), 1);
    var e2 := Transaction("e2", "2025-01-10", 1000, "Интернет", "test", Some(EXPENSE), 1);
    SaveLoadRoundTrip([e1, i1, e2]);
    assert [e1, i1, e2][1..] == [i1, e2] && [i1, e2][1..] == [e2] && [e2][1..] == [];
    assert Seqs.Filter([e2], IsExpense) == [e2];
    assert Seqs.Filter([i1, e2], IsExpense) == [e2];
  }

  // ----- JSON backup -----

  /** What `JSON.parse` of a backup file gives, as far as the import looks at
      it: an array of records, an object whose `transactions` property may be
      present, or any other value. */
  datatype Json = JArray(items: seq<Transaction>) | JObject(transactions: Option<Json>) | JOther

  datatype ImportError = InvalidJson | InvalidFormat

  /** The object `exportData` writes (its version and creation time are not
      modelled). */
  function ExportData(transactions: seq<Transaction>): Json {
    JObject(Some(JArray(transactions)))
  }

  /** `importData(file)`; `None` is text that `JSON.parse` rejects. */
  function ImportData(file: Option<Json>): Result<seq<Transaction>, ImportError> {
    match file
    case None => Failure(InvalidJson)
    case Some(JObject(Some(JArray(items)))) => Success(MigrateAll(items))
    case Some(JArray(items)) => Success(MigrateAll(items))
    case Some(_) => Failure(InvalidFormat)
  }

  /** The selection rules: the `transactions` array of an object, else the
      value itself when it is an array, else a format error; then the
      migration. */
  lemma ImportDataSelection(file: Option<Json>)
    ensures file.None? ==> ImportData(file) == Failure(InvalidJson)
    ensures file.Some? && file.value.JObject? && file.value.transactions.Some? && file.value.transactions.value.JArray? ==>
      ImportData(file) == Success(MigrateAll(file.value.transactions.value.items))
    ensures file.Some? && file.value.JArray? ==> ImportData(file) == Success(MigrateAll(file.value.items))
    ensures ImportData(file).Failure? <==>
      (file.None? || file.value.JOther? || (file.value.JObject? && !(file.value.transactions.Some? && file.value.transactions.value.JArray?)))
  {
  }

  /** A backup reads back as the migrated list, and an old bare-array backup
      reads back the same way. */
  lemma ExportImportRoundTrip(ts: seq<Transaction>)
    ensures ImportData(Some(ExportData(ts))) == Success(MigrateAll(ts))
    ensures ImportData(Some(JArray(ts))) == ImportData(Some(ExportData(ts)))
    ensures (forall i :: 0 <= i < |ts| ==> HasKind(ts[i])) ==> ImportData(Some(ExportData(ts))) == Success(ts)
  {
    if forall i :: 0 <= i < |ts| ==> HasKind(ts[i]) {
      MigrateAllKeepsTyped(ts);
    }
  }

  // ----- Spreadsheet rows -----

  const LABEL_INCOME := "Доход"
  const LABEL_EXPENSE := "Расход"
  const DEFAULT_CATEGORY := "Другое"

  /** A `Сумма` cell: a number, text, or no cell at all. */
  datatype AmountCell = NumberCell(n: int) | TextCell(s: string) | NoCell

  /** One row of `sheet_to_json`, keyed by the columns 'Тип', 'Дата',
      'Категория', 'Сумма', 'Описание' and 'ID (Не трогать)'; `None` is a
      missing cell. */
  datatype Row = Row(
    kind: Option<string>,
    date: Option<string>,
    category: Option<string>,
    amount: AmountCell,
    description: Option<string>,
    id: Option<string>)

  /** `cell || fallback` for a text cell. */
  function OrElse(cell: Option<string>, fallback: string): (r: string)
    ensures cell.Some? && cell.value != "" ==> r == cell.value
    ensures cell.None? || cell.value == "" ==> r == fallback
  {
    if cell.Some? && cell.value != "" then cell.value else fallback
  }

  /** `Number(text)` for the forms the model reads: an optionally negative
      decimal digit string; `None` is NaN. The empty string is 0. */
  function TextToNumber(s: string): (r: Option<int>)
    ensures AllDigits(s) ==> r == Some(ToNumber(s).value as int)
    ensures |s| >= 2 && s[0] == '-' && AllDigits(s[1..]) ==> r == Some(-(ToNumber(s[1..]).value as int))
  {
    if |s| >= 2 && s[0] == '-' && AllDigits(s[1..]) then Some(-(ToNumber(s[1..]).value as int))
    else match ToNumber(s)
      case Some(n) => Some(n as int)
      case None => None
  }

  /** `Number(row['Сумма']) || 0`: NaN and 0 both give 0. */
  function CellAmount(cell: AmountCell): int {
    match cell
    case NumberCell(n) => n
    case TextCell(s) => (match TextToNumber(s) case Some(n) => n case None => 0)
    case NoCell => 0
  }

  /** The record `importFromExcel` makes of one row; `newId` stands for
      `crypto.randomUUID()`, `today` for the current date string and `now`
      for `Date.now()`. */
  function FromRow(row: Row, newId: string, today: string, now: int): (t: Transaction)
    ensures t.kind == Some(INCOME) <==> row.kind == Some(LABEL_INCOME)
    ensures t.kind == Some(EXPENSE) <==> row.kind != Some(LABEL_INCOME)
    ensures t.category == (if row.category.Some? && row.category.value != "" then row.category.value else DEFAULT_CATEGORY)
    ensures t.description == (if row.description.Some? then row.description.value else "")
    ensures row.amount.NumberCell? ==> t.amount == row.amount.n
    ensures row.amount.NoCell? ==> t.amount == 0
    ensures row.amount.TextCell? ==> t.amount == (if TextToNumber(row.amount.s).Some? then TextToNumber(row.amount.s).value else 0)
    ensures t.id == OrElse(row.id, newId) && t.date == OrElse(row.date, today)
    ensures t.createdAt == now
  {
    Transaction(
      OrElse(row.id, newId),
      OrElse(row.date, today),
      CellAmount(row.amount),
      OrElse(row.category, DEFAULT_CATEGORY),
      OrElse(row.description, ""),
      Some(if row.kind == Some(LABEL_INCOME) then INCOME else EXPENSE),
      now)
  }

  /** `importFromExcel(file)` on the parsed rows; `newIds(i)` is the id
      generated for row `i` when it has none. */
  function ImportFromExcel(rows: seq<Row>, newIds: nat -> string, today: string, now: int): (ts: seq<Transaction>)
    ensures |ts| == |rows|
    ensures forall i :: 0 <= i < |rows| ==> ts[i] == FromRow(rows[i], newIds(i), today, now)
  {
    seq(|rows|, i requires 0 <= i < |rows| => FromRow(rows[i], newIds(i), today, now))
  }

  /** The row `exportToExcel` writes for `t`, as the source labels it: every
      record whose type is not 'expense' is labelled 'Доход'. */
  function ExportRowAsWritten(t: Transaction): Row {
    Row(Some(if t.kind == Some(EXPENSE) then LABEL_EXPENSE else LABEL_INCOME),
      Some(t.date), Some(t.category), NumberCell(t.amount), Some(t.description), Some(t.id))
  }

  /** A record without a type, which the rest of the program treats as an
      expense, comes back from the spreadsheet as income. */
  lemma ExportAsWrittenFlipsUntyped(t: Transaction, newId: string, today: string, now: int)
    requires t.kind == None
    ensures Migrate(t).kind == Some(EXPENSE)
    ensures FromRow(ExportRowAsWritten(t), newId, today, now).kind == Some(INCOME)
  {
  }

  /** `exportToExcel(transactions)`: one row per record, in order, labelled
      as the source does. */
  function ExportToExcel(transactions: seq<Transaction>): (rows: seq<Row>)
    ensures |rows| == |transactions|
    ensures forall i :: 0 <= i < |rows| ==>
      && rows[i].kind == Some(if IsExpense(transactions[i]) then LABEL_EXPENSE else LABEL_INCOME)
      && rows[i] == ExportRowAsWritten(transactions[i])
  {
    seq(|transactions|, i requires 0 <= i < |transactions| => ExportRowAsWritten(transactions[i]))
  }

  /** The row with the label chosen as the rest of the program reads the type:
      'Доход' exactly for income. */
  function ExportRowIntended(t: Transaction): Row {
    Row(Some(if IsIncome(t) then LABEL_INCOME else LABEL_EXPENSE),
      Some(t.date), Some(t.category), NumberCell(t.amount), Some(t.description), Some(t.id))
  }

  /** The corrected export: one row per record, in order, 'Доход' only for
      income records. */
  function ExportToExcelIntended(transactions: seq<Transaction>): (rows: seq<Row>)
    ensures |rows| == |transactions|
    ensures forall i :: 0 <= i < |rows| ==>
      && rows[i].kind == Some(if IsIncome(transactions[i]) then LABEL_INCOME else LABEL_EXPENSE)
      && rows[i] == ExportRowIntended(transactions[i])
  {
    seq(|transactions|, i requires 0 <= i < |transactions| => ExportRowIntended(transactions[i]))
  }

  /** Exporting with the corrected labels and importing again keeps id, date,
      category, amount and description when id, date and category are
      non-empty, and keeps the type as the program reads it: income stays
      income, and every other record (a missing type included) comes back as
      expense. */
  lemma ExcelRoundTrip(transactions: seq<Transaction>, newIds: nat -> string, today: string, now: int)
    requires forall i :: 0 <= i < |transactions| ==>
      transactions[i].id != "" && transactions[i].date != "" && transactions[i].category != ""
    ensures var back := ImportFromExcel(ExportToExcelIntended(transactions), newIds, today, now);
      && |back| == |transactions|
      && forall i :: 0 <= i < |transactions| ==>
        && back[i] == transactions[i].(kind := back[i].kind, createdAt := now)
        && (IsIncome(back[i]) <==> IsIncome(transactions[i]))
        && (IsExpense(back[i]) <==> !IsIncome(transactions[i]))
        && (IsIncome(transactions[i]) || IsExpense(transactions[i]) ==> back[i].kind == transactions[i].kind)
        && (!HasKind(transactions[i]) ==> back[i].kind == Migrate(transactions[i]).kind)
  {
  }

  /** Exporting as the source labels and importing again keeps id, date,
      category, amount and description when id, date and category are
      non-empty; a record typed income or expense keeps its type, and every
      other record comes back as income. */
  lemma ExcelRoundTripAsWritten(transactions: seq<Transaction>, newIds: nat -> string, today: string, now: int)
    requires forall i :: 0 <= i < |transactions| ==>
      transactions[i].id != "" && transactions[i].date != "" && transactions[i].category != ""
    ensures var back := ImportFromExcel(ExportToExcel(transactions), newIds, today, now);
      && |back| == |transactions|
      && forall i :: 0 <= i < |transactions| ==>
        && back[i] == transactions[i].(kind := back[i].kind, createdAt := now)
        && (IsIncome(transactions[i]) || IsExpense(transactions[i]) ==> back[i] == transactions[i].(createdAt := now))
        && (!IsExpense(transactions[i]) ==> IsIncome(back[i]))
  {
  }
}
