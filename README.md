# family-budget in Dafny

A model of the logic of the family-budget web application: a household ledger of
`Transaction` records (id, `YYYY-MM-DD` date string, amount, category,
description, optional type `income`/`expense`, creation time) kept in the
browser's local storage, with period and category filters, totals, a monthly
income/expense dashboard, category and day charts, JSON and spreadsheet
import/export, and a generator of a year of sample data.

The modules follow the source files:

| module | file | models |
|---|---|---|
| `Wrappers` | wrappers.dfy | `Option` and `Result` |
| `Text` | text.dfy | `String(n)`, `padStart(2, '0')`, `split`, `Number` on digit strings, JavaScript string order `<` |
| `Seqs` | seqs.dfy | filter, map, sum, the stable sort the components' `sort` calls are modelled by, and their facts |
| `Records` | records.dfy | the `Transaction` record of `src/types.ts` with the `type` field, totals, id sets, the date-descending order |
| `Dates` | dates.dfy | `src/utils/date.ts`: the JavaScript `Date(y, m, d)` constructor with its overflow rules, formatting, parsing, `shiftDays`, month ranges |
| `Merge` | merge.dfy | `src/utils/transactions.ts`: `mergeTransactions` with its renaming loop |
| `Storage` | storage.dfy | `src/services/storageService.ts`: the store as a class, migration on load, `clearData`, JSON envelope selection, spreadsheet rows |
| `Preset` | preset.dfy | `src/data/presetTransactions.ts`: `createPresetTransactions` |
| `Groups` | groups.dfy | the `Map<string, number>` accumulation loop shared by the components: keys in insertion order and sums per key |
| `Dashboard` | dashboard.dfy | `src/components/AnalysisDashboard.tsx`: the monthly buckets and the KPIs |
| `Stats` | stats.dfy | `src/components/StatsChart.tsx`: `categoryData` and `timeData` |
| `Views` | views.dfy | the list logic shared by both main views: the period/category filter, toggles, delete, edit, import appends, the table order |
| `BudgetApp` | app.dfy | `src/App.tsx`: the main view as a class whose fields are its `useState` slots |
| `LegacyApp` | legacy_app.dfy | `App.tsx`: the older main view, without editing, the last-30-days period and the spreadsheet import |

Dates are calendar triples. `Dates.MakeDate(y, m, d)` follows `new Date(y, m, d)`:
- a year from 0 to 99 means 1900 + year;
- the month index overflows into neighbouring years by floor division;
- the day overflows into neighbouring months.

Formatted strings are compared by character order, as `<` and `localeCompare`
compare the `YYYY-MM-DD` strings of the source. Loops of the source (the merge,
the preset generator, the map accumulations) are methods with loop invariants,
each proved equal to a specification function about which the lemmas are
stated. The main views are classes whose handler methods state their whole new
state.

## Model

| member | source | states |
|---|---|---|
| Text.NatToString | src/utils/date.ts:3-4 | `String(n)` is a non-empty digit string, with a leading '0' only for 0 and one digit exactly below 10 |
| Text.DigitsValueOfNatToString | src/utils/date.ts:9 | `Number` reads back what `String` wrote: `DigitsValue(NatToString(n)) == n` |
| Text.NatToStringOfDigitsValue | src/utils/date.ts:9 | a digit string without a leading zero is what `String` writes for its value |
| Text.ToNumber | src/utils/date.ts:9 | `Number` of an all-digit piece is its decimal value and the empty piece reads as 0; every other piece is treated as NaN |
| Text.PadStart2 | src/utils/date.ts:3-4 | `padStart(2, '0')` keeps strings of length 2 or more and otherwise left-pads to length 2, keeping the string as suffix |
| Text.TwoDigits | src/utils/date.ts:3-4 | a value below 100 padded to two digits is its tens digit followed by its units digit |
| Text.Split | src/utils/date.ts:9 | `split` always yields at least one piece |
| Text.SplitAfterPiece | src/utils/date.ts:9 | splitting `a + sep + b` with no separator in `a` yields `a` followed by the pieces of `b` |
| Text.LexLessTotal | src/App.tsx:196 | string `<` is a total order: two strings are equal or one is below the other |
| Text.LexLessTransitive | src/App.tsx:196 | string `<` is transitive |
| Text.LexLeAntisymmetric | src/App.tsx:196 | `<=` on strings is antisymmetric |
| Text.LexLessDifferentHeads | src/App.tsx:196 | strings whose equal-length prefixes differ compare as those prefixes do |
| Seqs.Filter | src/App.tsx:194-200 | `filter` keeps exactly the elements that pass, never more than the input |
| Seqs.FilterIsSubsequence | src/App.tsx:194 | a filtered list is an order-preserving subsequence of its input |
| Seqs.SortBy | src/App.tsx:123 | the sort is a permutation of its input |
| Seqs.SortBySorted | src/App.tsx:123 | for a total preorder the sort's result is sorted |
| Seqs.SortByStable | src/App.tsx:379 | the sort is stable: for a transitive order, the elements that tie with any given element come out in their input order |
| Seqs.SumOfFilterLe | src/App.tsx:203-204 | with non-negative values, the sum over a filtered list is at most the sum over the whole |
| Seqs.SumOfSortBy | src/components/StatsChart.tsx:29 | sorting does not change a sum |
| Seqs.SumOfPartition | src/components/AnalysisDashboard.tsx:29-30 | the sums over the elements that pass and those that fail add up to the whole sum |
| Records.DateDescIsPreorder | src/App.tsx:123 | `b.date.localeCompare(a.date)` orders records by a total preorder, dates descending |
| Records.SortByDateDesc | src/App.tsx:123 | sorting by date descending yields a permutation whose dates never increase |
| Records.SortKeepsRecords | src/data/presetTransactions.ts:60 | sorting keeps the length and exactly the same records |
| Records.IdSetOfPermutation | src/App.tsx:121 | reordering a list does not change its set of ids |
| Records.DistinctIdsOfPermutation | src/App.tsx:123 | reordering a list keeps its ids pairwise distinct |
| Dates.DaysInMonth | src/utils/date.ts:23 | a month has 28 to 31 days; 29 exactly for February of a Gregorian leap year; fewer than 30 only in February |
| Dates.NormalizeDayNumber | src/utils/date.ts:10 | `new Date(y, m, d)` is the day `d - 1` days after the first of month `m` of year `y`, for any `d` including 0 and negatives |
| Dates.NormalizeValid | src/utils/date.ts:10 | a day within the month gives that very date |
| Dates.ShiftDays | src/utils/date.ts:15-19 | `shiftDays(date, n)` is the valid date exactly `n` days later, with month and year rollover |
| Dates.FormatShape | src/utils/date.ts:1-6 | `toDateInputValue` writes the unpadded year, '-', the month as two digits, '-', the day as two digits |
| Dates.FourDigitFormat | src/utils/date.ts:1-6 | for a four-digit year the string is ten characters: the year's digits, '-', two month digits, '-', two day digits |
| Dates.ParseDigitPieces | src/utils/date.ts:8-11 | parsing three digit strings joined by '-' is `new Date(year, month - 1, day)` of their values |
| Dates.ParseFormatted | src/utils/date.ts:8-11 | parsing a formatted date gives the constructor's date for its fields, with the constructor's year rule |
| Dates.MakeDateOfValid | src/utils/date.ts:10 | for years from 100 on, constructing a valid date from its fields gives that date back |
| Dates.FormatThenParse | src/utils/date.ts:1-11 | `parseDateInput(toDateInputValue(d)) == d` for years from 100 on |
| Dates.ParseCanonical | src/utils/date.ts:8-11 | a canonical `YYYY-MM-DD` string of a valid date parses to its year, month and day |
| Dates.ParseThenFormat | src/utils/date.test.ts:5-8 | `toDateInputValue(parseDateInput(s)) == s` for every canonical date string with a valid date and a four-digit year |
| Dates.MonthEnd | src/utils/date.ts:22-23 | day 1 of a month index is the first of that month, and day 0 of the next index is the last day of that month |
| Dates.MonthRangeIsConstructorDates | src/utils/date.ts:21-24 | `getMonthDateRange(y, m)` formats `new Date(y, m, 1)` and `new Date(y, m + 1, 0)` |
| Dates.MonthRangeOf | src/utils/date.ts:21-24 | any month index gives the first and the last day of the month it rolls into, year adjusted by floor division |
| Dates.CurrentMonthBounds | src/utils/date.ts:29-30 | the current-month range runs from the first to the last day of the date's month |
| Dates.PreviousMonthBounds | src/utils/date.ts:26-27 | the previous-month range runs from the first to the last day of the month before, January rolling into December of the year before |
| Dates.PreviousMonthLength | src/utils/date.ts:26-27 | the previous month has more than 28 days unless the date is in March of a non-leap year |
| Dates.CurrentMonthContains | src/utils/date.ts:29-30 | for a date of any year outside 0 to 99, start <= the formatted date <= end as strings, and start <= end |
| Dates.FormatOrder | src/utils/date.ts:1-6 | for four-digit years, string order of formatted dates is calendar order |
| Dates.MonthRangeJanuary2025 | src/utils/date.test.ts:10-15 | `getMonthDateRange(2025, 0)` is 2025-01-01 to 2025-01-31 |
| Dates.MonthRangeLeapFebruary | src/utils/date.test.ts:25-31 | the current month of 2024-02-10 is 2024-02-01 to 2024-02-29 |
| Dates.PreviousMonthAcrossYear | src/utils/date.test.ts:17-23 | the previous month of 2025-01-15 is 2024-12-01 to 2024-12-31 |
| Merge.ImportIdInjective | src/utils/transactions.ts:11 | `${id}_import_${n}` differs for different `n` |
| Merge.ImportsFromShrinks | src/utils/transactions.ts:9-12 | each probe that hits a used candidate shrinks the finite set of used candidates still ahead, so the `while` loop ends |
| Merge.ProbeImport | src/utils/transactions.ts:9-12 | probing from a candidate ends on an unused `${id}_import_${n}` with `n` no smaller than the counter |
| Merge.RenameSpec | src/utils/transactions.ts:8-13 | one record's id is kept exactly when unused; otherwise it becomes an unused `_import_` id with a larger counter |
| Merge.RenameAll | src/utils/transactions.ts:7-15 | the renamed list has the incoming length, and each record equals its input except for the id |
| Merge.MergeTransactions | src/utils/transactions.ts:3-18 | the loop with the used-id set and shared suffix yields the specification's result: renamed incoming records, then `existing` unchanged, length the sum |
| Merge.RenameAllFresh | src/utils/transactions.ts:4-13 | the used set grows by exactly the assigned ids; assigned ids are never among the ids used before and are pairwise distinct |
| Merge.RenameAllKeeps | src/utils/transactions.ts:8-9 | an incoming id is kept exactly when neither an existing record nor an earlier incoming record holds it |
| Merge.RenameLastKept | src/utils/transactions.ts:8-9 | the same for the last incoming record |
| Merge.RenameAllImportForm | src/utils/transactions.ts:10-11 | a changed id is `${originalId}_import_${n}` with `n >= 1` |
| Merge.RenameLastImportForm | src/utils/transactions.ts:10-11 | the same for the last incoming record |
| Merge.RenameAllCountersBounded | src/utils/transactions.ts:5-10 | no record's counter exceeds the shared counter's final value |
| Merge.RenameAllCounters | src/utils/transactions.ts:5-11 | the counter is shared: a later renamed record has a strictly larger `n` than every earlier record |
| Merge.RenamedSuffixesDistinct | src/utils/transactions.ts:5-11 | two renamed records carry suffixes `1 <= n < m` in their order |
| Merge.MergedProperties | src/utils/transactions.ts:7-17 | length is the sum; `existing` follows unchanged; incoming records differ only in id; no incoming id clashes with an existing one; distinct existing ids give distinct ids overall |
| Merge.MergeAppendsImported | src/utils/transactions.test.ts:16-25 | merging i1, i2 into e1 gives i1, i2, e1 |
| Merge.MergeRenamesDuplicate | src/utils/transactions.test.ts:27-35 | merging `same` into `same` gives `same_import_1` and `same` |
| Storage.MigrateAll | src/services/storageService.ts:24-27 | the migration keeps the length and maps every record by the type default |
| Storage.MigrateAllSpec | src/services/storageService.ts:24-27 | only the type can change; it changes exactly when it is missing or empty, and then becomes 'expense'; every result has a type |
| Storage.MigrateAllKeepsTyped | src/services/storageService.ts:26 | a list whose records all have a type is left as it is |
| Storage.MigrateAllIdempotent | src/services/storageService.ts:24-27 | migrating twice is migrating once |
| Storage.LoadedFrom | src/services/storageService.ts:16-32 | nothing stored or unreadable text gives `[]`; a stored list gives its migration |
| Storage.LocalStore.constructor | src/services/storageService.ts:4 | a new store holds nothing under the key |
| Storage.LocalStore.SaveTransactions | src/services/storageService.ts:8-14 | saving stores the list under the key |
| Storage.LocalStore.LoadTransactions | src/services/storageService.ts:16-32 | loading returns what `LoadedFrom` gives for the stored value, never more records than stored |
| Storage.LocalStore.ClearData | src/services/storageService.ts:36-55 | 'all' empties the store and returns `[]`; 'income' keeps and stores the expense records, 'expenses' the income records; a following load returns what was kept |
| Storage.SaveLoadRoundTrip | src/services/storageService.test.ts:43-51 | load after save gives the saved list when every record has a type |
| Storage.ClearKeepsKind | src/services/storageService.ts:45-51 | the kept list is an order-preserving subsequence holding all and only the records of the kept type |
| Storage.ClearIncomeSample | src/services/storageService.test.ts:72-82 | clearing income from e1, i1, e2 keeps e1, e2 |
| Storage.ImportDataSelection | src/services/storageService.ts:85-102 | the `transactions` array of an envelope is used first, else a bare array, else the import fails; unparsable text fails; the records get the type default |
| Storage.ExportImportRoundTrip | src/services/storageService.ts:59-102 | a backup envelope imports back as the migrated list, the same as a bare array, and as the very list when every record has a type |
| Storage.OrElse | src/services/storageService.ts:144-148 | `cell || fallback` keeps a non-empty cell and otherwise gives the fallback |
| Storage.TextToNumber | src/services/storageService.ts:146 | `Number` of a digit string is its value, with an optional minus sign |
| Storage.FromRow | src/services/storageService.ts:143-151 | the type is income exactly for the label 'Доход' and expense otherwise; an empty or missing id falls back to the new id and an empty or missing date to today; category defaults to 'Другое'; description defaults to ''; a numeric amount is kept, a missing one is 0, and a text amount is its number or 0 when that is NaN; `createdAt` is the clock |
| Storage.ImportFromExcel | src/services/storageService.ts:143-153 | one record per row, each coerced from its row |
| Storage.ExportToExcel | src/services/storageService.ts:115-123 | one row per record, in order, carrying date, category, amount, description and id; the type label is 'Расход' exactly for records typed expense and 'Доход' for every other record |
| Storage.ExcelRoundTripAsWritten | src/services/storageService.ts:116-123 | export as written then import keeps id, date, category, amount and description when id, date and category are non-empty; a record typed income or expense comes back equal except for `createdAt`; every record not typed expense comes back as income |
| Storage.ExportToExcelIntended | src/services/storageService.ts:115-123 | the corrected export: the same rows, labelled 'Доход' exactly for records typed income |
| Storage.ExcelRoundTrip | src/services/storageService.ts:116-123 | the corrected export then import keeps id, date, category, amount and description; an income record comes back as income and every other record as expense, which is what the migration would make of it |
| Storage.ExportAsWrittenFlipsUntyped | src/services/storageService.ts:117 | as written, a record without a type, which the migration reads as expense, comes back as income |
| Preset.PartsSum | src/data/presetTransactions.ts:22-33 | for any rounding, the expense parts sum exactly to the month's expense and the income parts to its income |
| Preset.MonthIncomes | src/data/presetTransactions.ts:35-45 | a month pushes three income records |
| Preset.MonthExpenses | src/data/presetTransactions.ts:47-57 | a month pushes four expense records |
| Preset.Pushed | src/data/presetTransactions.ts:14-58 | `m` months push `7 * m` records |
| Preset.PushIncomes | src/data/presetTransactions.ts:35-45 | the `forEach` over the income parts appends that month's income records |
| Preset.PushExpenses | src/data/presetTransactions.ts:47-57 | the `forEach` over the expense parts appends that month's expense records |
| Preset.CreatePresetTransactions | src/data/presetTransactions.ts:6-61 | the 12-month loop and the final sort give the date-descending sort of the pushed list |
| Preset.PushedAt | src/data/presetTransactions.ts:14-58 | record `7 * i + j` of the pushed list is part `j` of month `i` |
| Preset.PresetKind | src/data/presetTransactions.ts:35-57 | the first three records of each month are income and the last four expense |
| Preset.PresetIdAt | src/data/presetTransactions.ts:35-57 | record `k` has id `preset_inc_<i>_<idx>` or `preset_exp_<i>_<idx>` |
| Preset.IncomeAmounts | src/data/presetTransactions.ts:39 | each income record carries its part's amount |
| Preset.ExpenseAmounts | src/data/presetTransactions.ts:51 | each expense record carries its part's amount |
| Preset.MonthIncomeTotal | src/data/presetTransactions.ts:29-33 | the income records of month `i` sum to `monthlyIncomes[i]` |
| Preset.MonthExpenseTotal | src/data/presetTransactions.ts:22-27 | the expense records of month `i` sum to `monthlyExpenses[i]` |
| Preset.SeedSplit | src/data/presetTransactions.ts:4-37 | an id splits at '_' into 'preset', the prefix, `i` and `idx` |
| Preset.SeedInjective | src/data/presetTransactions.ts:4-49 | equal ids have equal prefix, month and part |
| Preset.PresetIdsDistinct | src/data/presetTransactions.ts:4-60 | the 84 ids are pairwise distinct, before and after the sort |
| Preset.PresetDatesDistinct | src/data/presetTransactions.ts:23-60 | for a current year past 100 the 84 dates are pairwise distinct, so the comparator of line 60, which never returns 0, orders them as the date-descending sort does |
| Preset.PresetMonths | src/data/presetTransactions.ts:8-15 | month `i` is the first of the month `11 - i` months before the current one; month 11 is the current month |
| Preset.NoDayOverflow | src/data/presetTransactions.ts:23-32 | every part day is between 1 and 28, so `new Date(y, m, day)` stays in month `m` |
| Preset.PresetDates | src/data/presetTransactions.ts:38-50 | each record is dated on its part's day of its loop month |
| Preset.PresetHasCurrentMonthStart | src/data/presetTransactions.test.ts:6-21 | 84 records, some income, some expense, one on the first day of the current month |
| Preset.PresetSpansMonthBoundary | src/data/presetTransactions.test.ts:13-21 | the dates include the first day of the previous month and the first day of the current month |
| Preset.PresetAvoidsLateDay | src/data/presetTransactions.ts:23-32 | no record falls on a day after the 28th |
| Preset.PreviousMonthLateEnd | src/utils/date.ts:26-27 | unless the date is in March of a non-leap year, the previous month ends after the 28th |
| Preset.PresetMissesPreviousMonthEnd | src/data/presetTransactions.test.ts:20 | then no record falls on the last day of the previous month |
| Groups.KeysInOrder | src/components/StatsChart.tsx:23-27 | the keys of the `Map` are distinct and are exactly the keys of the input records |
| Groups.FirstAt | src/components/StatsChart.tsx:36-38 | the index of the first record with a key: no earlier record has it, and the record there does |
| Groups.KeysInOrderFirstAppearance | src/components/StatsChart.tsx:36-40 | the `Map`'s keys come in the order in which they first appear in the input |
| Groups.GroupSumIsFilteredSum | src/components/StatsChart.tsx:25 | the sum kept under a key is the sum over the records with that key |
| Groups.SumOverKeys | src/components/StatsChart.tsx:23-26 | the sums over all keys add up to the sum over all records |
| Groups.Accumulate | src/components/StatsChart.tsx:23-26 | the `forEach` loop leaves the keys in insertion order, each mapped to its group's sum |
| Groups.GroupSumAbsent | src/components/AnalysisDashboard.tsx:24-26 | a key not yet seen has sum 0 |
| Stats.ToEntries | src/components/StatsChart.tsx:27-28 | `Array.from(map.entries())` turns keys in order into `{ name, value }` entries |
| Stats.GroupedNames | src/components/StatsChart.tsx:23-28 | one entry per distinct key |
| Stats.GroupedValues | src/components/StatsChart.tsx:25 | each entry's value is the sum over its key's records |
| Stats.GroupedTotal | src/components/StatsChart.tsx:23-26 | the entries' values sum to the input's total |
| Stats.ComputeCategoryData | src/components/StatsChart.tsx:22-30 | the memo's loop and sort give the `categoryData` specification |
| Stats.CategoryDataSpec | src/components/StatsChart.tsx:22-30 | one entry per distinct category; each value is the category's total; values never increase; values sum to the total |
| Stats.ComputeTimeData | src/components/StatsChart.tsx:32-41 | the memo's sorted copy and loop give the `timeData` specification |
| Stats.TimeDataSpec | src/components/StatsChart.tsx:32-41 | one entry per distinct `DD.MM` label, the year ignored; each value is that label's total; values sum to the total; the entries follow the first appearance of their labels in the date-ascending copy |
| Stats.StatsChart | src/components/StatsChart.tsx:43-49 | empty input shows the placeholder; otherwise both charts have data |
| Dashboard.ComputeMonthlyData | src/components/AnalysisDashboard.tsx:16-43 | the memo's loop and sort give the monthly buckets |
| Dashboard.FillBuckets | src/components/AnalysisDashboard.tsx:17-32 | the `forEach` loop creates one bucket per month key in first-seen order, each holding its month's sums |
| Dashboard.AddRecord | src/components/AnalysisDashboard.tsx:28-31 | a record adds to income when typed income and to expense otherwise; net is then income minus expense |
| Dashboard.BucketValues | src/components/AnalysisDashboard.tsx:35 | `Array.from(map.values())` lists the buckets in key order |
| Dashboard.MonthlyDataOrder | src/components/AnalysisDashboard.tsx:35 | the buckets' month keys strictly increase |
| Dashboard.MonthlyDataMonths | src/components/AnalysisDashboard.tsx:17-26 | exactly one bucket per distinct month key |
| Dashboard.MonthlyDataBuckets | src/components/AnalysisDashboard.tsx:29-31 | a bucket's income is its month's income sum, its expense is the sum of every other record, they add up to the month's total, and net is their difference |
| Dashboard.MonthlyDataTotals | src/components/AnalysisDashboard.tsx:29-47 | bucket incomes sum to the total income; bucket expenses sum to the amounts of all records not typed income |
| Dashboard.MonthlyDataExpenseTotal | src/components/AnalysisDashboard.tsx:30-48 | when every record is typed, bucket expenses sum to the total expense |
| Dashboard.ComputeKpi | src/components/AnalysisDashboard.tsx:46-59 | balance is income minus expense; the savings rate exists exactly when income is positive, as `balance * 100 / income`; the average divides the expense by at least 1 |
| Dashboard.KpiMonths | src/components/AnalysisDashboard.tsx:55-56 | for non-empty input the average divides by the number of monthly buckets; empty input gives 0/1 and no savings rate |
| Dashboard.KpiTotals | src/components/AnalysisDashboard.tsx:47-48 | the KPI income equals the bucket incomes' sum; with every record typed, the KPI expense equals the bucket expenses' sum |
| Dashboard.AnalysisDashboard | src/components/AnalysisDashboard.tsx:68 | empty input shows the placeholder; otherwise there is a bucket and the average divides by the number of buckets |
| Views.FilterSpec | src/App.tsx:194-200 | a record is shown exactly when it is in the list, its date is within start and end as strings (unless the mode is 'all'), and its category is selected; the result is a subsequence |
| Views.TotalWithinGlobal | src/App.tsx:203-204 | with non-negative amounts the filtered total is at most the global total; when every record passes both are the same list |
| Views.YearRangeMembership | src/App.tsx:183-186 | for four-digit years, a formatted date lies in `Y-01-01`..`Y-12-31` exactly when its year is `Y` |
| Views.MonthMembership | src/App.tsx:165-176 | a formatted date lies in a month's first-to-last range exactly when it is in that month |
| Views.CurrentMonthMembership | src/App.tsx:165-170 | the current-month range holds exactly the dates of today's month |
| Views.PreviousMonthMembership | src/App.tsx:171-176 | the previous-month range holds exactly the dates of the month before today's |
| Views.DayRangeMembership | src/App.tsx:177-182 | a range of two formatted dates holds exactly the dates between them, inclusive |
| Views.Toggled | src/App.tsx:147-152 | toggling flips the membership of one category and leaves every other category as it was |
| Views.ToggleTwice | src/App.tsx:147-152 | toggling a category twice restores the set |
| Views.ToggleAllSpec | src/App.tsx:154-157 | with distinct categories and a set of listed categories, toggling all empties a full set and otherwise selects every category |
| Views.TableLeIsPreorder | src/App.tsx:379 | the table comparator is a total preorder |
| Views.TableOrderSpec | src/App.tsx:379 | the table is a permutation of the filtered records, dates descending, ties by `createdAt` descending, and records equal in both keep their order |
| Views.DeleteSpec | src/App.tsx:107 | delete keeps exactly the records with another id, in order; a missing id changes nothing |
| Views.EditSpec | src/App.tsx:70-72 | edit keeps the length, every id, `createdAt` and type, leaves records with another id unchanged, and gives the edited record the form's date, amount, category and description |
| Views.AppendUniqueSpec | src/App.tsx:120-124 | the append keeps every existing record and adds the imported records whose id is new; ids are the union; dates never increase |
| Views.AppendUniqueDistinct | src/App.tsx:120-124 | distinct ids on both sides give distinct ids after the append |
| Views.AppendAllSpec | src/App.tsx:140 | the spreadsheet append is a permutation of imported plus existing records, dates descending, without dedupe |
| BudgetApp.ShownByPeriod | src/App.tsx:159-201 | for formatted four-digit-year dates, a record is shown exactly when its category is selected and its date is in the chosen period's calendar meaning |
| BudgetApp.Last30DaysMembership | src/App.tsx:177-182 | the last-30-days range holds exactly the dates from 30 days before today up to today |
| BudgetApp.Last30DaysSpan | src/App.tsx:178-179 | the range's start is 30 days before today |
| BudgetApp.ToggleAllCategoriesSpec | src/App.tsx:154-157 | over the categories of `src/types.ts`, toggling all switches between none and all |
| BudgetApp.App.constructor | src/App.tsx:27-41 | the initial state: no records, empty form on today's date and the first category, no edit, current month, every category selected |
| BudgetApp.App.HandleSubmit | src/App.tsx:65-87 | an empty amount, date or category changes nothing; while editing, the record with the edited id is overwritten and editing ends; otherwise a new untyped record is prepended; amount and description are cleared |
| BudgetApp.App.HandleEdit | src/App.tsx:89-96 | the form takes the record's fields and its id becomes the edited id |
| BudgetApp.App.CancelEdit | src/App.tsx:98-103 | editing ends; the amount and description are cleared; the date becomes today |
| BudgetApp.App.HandleDelete | src/App.tsx:105-110 | when confirmed, the records with the id go, and an edit of that id is cancelled; otherwise nothing changes |
| BudgetApp.App.HandleImport | src/App.tsx:112-129 | a failed import changes nothing; replace takes the imported list; append keeps existing records and adds the new ids, sorted by date descending |
| BudgetApp.App.HandleExcelImport | src/App.tsx:132-145 | a failed read changes nothing; replace takes the rows; append concatenates and sorts by date descending |
| BudgetApp.App.ToggleCategory | src/App.tsx:147-152 | the selection becomes the toggled set; nothing else changes |
| BudgetApp.App.ToggleAllCategories | src/App.tsx:154-157 | the selection becomes empty when its size is the category count, otherwise every category |
| BudgetApp.App.SelectPeriod | src/App.tsx:313-317 | a period button sets the mode and nothing else |
| BudgetApp.App.SetCustomRange | src/App.tsx:321-322 | the date inputs set the custom ends and nothing else |
| BudgetApp.App.ApplyCustom | src/App.tsx:323 | the custom mode is entered only when both ends are non-empty |
| LegacyApp.ShownByPeriod | App.tsx:134-177 | for formatted four-digit-year dates, a record is shown exactly when its category is selected and its date is in the chosen period's calendar meaning, over the five modes |
| LegacyApp.ToggleAllCategoriesSpec | App.tsx:125-131 | over the categories of `types.ts`, toggling all switches between none and all |
| LegacyApp.App.constructor | App.tsx:27-41 | the initial state: no records, empty form on today's date and the first category, current month, every category selected |
| LegacyApp.App.HandleSubmit | App.tsx:70-86 | an empty amount, date or category changes nothing; otherwise a new untyped record is prepended and amount and description are cleared |
| LegacyApp.App.HandleDelete | App.tsx:88-92 | when confirmed, exactly the records with the id go |
| LegacyApp.App.HandleImport | App.tsx:94-113 | a failed import changes nothing; replace takes the imported list; append keeps existing records and adds the new ids, sorted by date descending |
| LegacyApp.App.ToggleCategory | App.tsx:115-123 | the selection becomes the toggled set; nothing else changes |
| LegacyApp.App.ToggleAllCategories | App.tsx:125-131 | the selection becomes empty when its size is the category count, otherwise every category |
| LegacyApp.App.SelectPeriod | App.tsx:329-339 | a period button sets the mode and nothing else |
| LegacyApp.App.SetCustomRange | App.tsx:344-345 | the date inputs set the custom ends and nothing else |
| LegacyApp.App.ApplyCustom | App.tsx:347 | the custom mode is entered only when both ends are non-empty |

## Left out

- Browser I/O is not modelled: local storage access, `FileReader`, the XLSX library, downloads, `console.error` and quota failures. The store is a class field holding what is stored under the key. A file arrives already parsed: a JSON value, or `None` for unparsable text; spreadsheet rows as `Row` values.
- Clocks, random ids and dialogs are parameters: `Date.now()`, `new Date()` for today, `crypto.randomUUID()`, `generateId`, and the user's `confirm` answer.
- Time zones are not modelled. The range strings built with `toISOString()` and the month key of `new Date(t.date)` are modelled as the local calendar formatting and the first seven characters of the date. Any UTC drift of a day is therefore absent.
- Floating point is not modelled. Amounts are integers, and `parseFloat(amount)` is a parameter of `HandleSubmit`. `Math.round(x * 0.27)` is an abstract rounding function. The savings rate and the average are exact ratios, with `toFixed` and `toLocaleString` left out. The month names of the dashboard are not modelled.
- Number limits and NaN dates are not modelled. JavaScript's range of safe integers, invalid `Date` values, and the order of a comparator that returns NaN for unparsable dates are absent.
- The in-place sorts (`sort` on the preset array, on the import results and on the filtered table) are modelled as a stable sort over values. No aliasing of the sorted arrays is modelled. The table sort compares `Date` values, which is modelled as string order of the date strings.
- Stats.DayMonthLabel: the `toLocaleDateString` label is modelled only for 10-character `YYYY-MM-DD` strings. Every other string gets one 'Invalid Date' label.
- Rendering is not modelled: JSX, charts, icons, `CategorySelect`, `Button`, the settings panel, the chart type, the menu visibility, `getPeriodLabel` and the `alert` messages.
- The two `useEffect` hooks that load on start and save on every change are not modelled as effects. Their load and save are `Storage.LocalStore`'s methods.
- `generate_data.py` is not modelled: it is random sample generation with a spreadsheet write.
- Dates.FormatThenParse: holds only for years from 100 on, because `new Date` maps years 0 to 99 into the 1900s; `Dates.ParseFormatted` states what happens below.
- BudgetApp.ShownByPeriod, LegacyApp.ShownByPeriod and the `Views` membership lemmas speak only of records dated by a formatted four-digit-year date. For other strings the filter's string comparisons are modelled, but their calendar meaning is not stated.
- Preset lemmas about the previous month and about whole dates need the current year away from the 1900s rule inside the generator's month arithmetic: `PresetSpansMonthBoundary` requires the current year not to be 100, and `PresetDatesDistinct`, `PresetAvoidsLateDay`, `PreviousMonthLateEnd` and `PresetMissesPreviousMonthEnd` require it to be at least 101.
- Dashboard.MonthlyDataExpenseTotal and Dashboard.KpiTotals tie the bucket expenses to the KPI expense only when every record is typed. The source counts an untyped record as expense in the buckets but not in the KPI.
- Text.ToNumber: JavaScript's `Number` also reads pieces with surrounding spaces, a sign, a decimal point, an exponent or a `0x` prefix; the model treats them as NaN, so `parseDateInput` of a string with such a piece gives no date where the source builds one.
- Dates.CurrentMonthContains: not stated for years 0 to 99. There `new Date(y, m, 1)` moves the range into the 1900s, so the source's own range does not contain the formatted date.
- Dashboard.KpiMonths: the source keys buckets by `new Date(t.date)` but counts months by `t.date.substring(0, 7)`; the model uses the first seven characters for both. The two agree on `YYYY-MM-DD` dates but not on unparsable ones: "abc" and "abd" share one `NaN-NaN` bucket yet count as two months.
- Storage.TextToNumber reads only optionally negative digit strings. Decimal points, exponents and surrounding spaces of a text cell read as not a number, which counts as 0.
- The date-normalising migration that one storage test expects on load is not part of the source's `loadTransactions`, so the model keeps stored dates unchanged (`Storage.MigrateAllSpec`).

## Findings

| source | as written | input that shows it | evidently intended | confidence | as-written member | corrected member |
|---|---|---|---|---|---|---|
| src/services/storageService.ts:117 | a record whose type is not 'expense' is exported with the income label | a record added in `src/App.tsx` (which has no type) exported before a reload: it is read back as income, while the dashboard and the migration treat it as expense | label 'Доход' only for records typed income, so that every record keeps its meaning through export and import | not executed | Storage.ExportAsWrittenFlipsUntyped | Storage.ExcelRoundTrip |
| src/data/presetTransactions.test.ts:20 | the test expects a preset record on the last day of the previous month | any `now` not in March of a non-leap year: every preset day is at most 28, while the previous month ends on the 29th, 30th or 31st | the boundary the generator does guarantee is the first day of the previous month next to the first day of the current month | not executed | Preset.PresetMissesPreviousMonthEnd | Preset.PresetSpansMonthBoundary |
