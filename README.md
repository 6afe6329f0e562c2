# jobsearch: the application table of `main.py`, in Dafny

`main.py` keeps a job-application log in `applications.csv`. The file holds one table with the
columns `Company, Status, Quantity, Date`. `Date` is a `dd/mm/YYYY` string. A singleton
`Database` object holds the table in memory and offers these operations:

- `append_entry(name, quantity)` records applications. It either opens a fresh `Applied` row
  dated today or adds to the company's existing rows.
- `update_entry(name, status)` sets the status of every row of a company.
- `search(name)` lists a company's rows.
- `jobcount_check()` reports today's count and the grand total.
- `commit()` writes the table back to the file.

`AdminTools` creates an empty file (`initialize_document`). It also compacts the table
(`aggregate`, the `clean` command) into one row per (Company, Status) ordered by Date.

The model is split into these modules:

- `StringOrder` (`string_order.dfy`): Python's `<=` on strings, as a total order, and `max`.
  Every Date comparison in the program is a string comparison.
- `Table` (`table.dfy`): the `Record` row, the boolean row masks (`Filter`, `Search`),
  the column sum (`Total`) and the column maximum (`MaxDate`).
- `Storage` (`storage.dfy`): the `Database` class. Its `table` field is the dataframe and its
  `persisted` field is the file contents. Each method is proved against a function on the old
  table (`Appended`, `Updated`), and the lemmas beside those functions state what the source
  promises.
- `Queries` (`queries.dfy`): `jobcount_check` as a function returning a `Summary`.
- `Admin` (`admin.dfy`): `initialize_document` and `aggregate`. Grouping is `Groups` and
  sorting is `SortByDate`.
- `SameDay` (`same_day.dfy`): the rule that the comment beside `append_entry` describes:
  "We only want to aggregate applications done today". It sits next to concrete inputs on which the code
  as written departs from that rule (see Findings).

`Database` follows the code as written. The corrected rule is a separate function in `SameDay`,
with its own properties proved.

The current date (`datetime.now().strftime('%d/%m/%Y')`) is a parameter `today`.

## Model

| member | source | states |
|---|---|---|
| StringOrder.LeReflexive | main.py:68 | Every Date string is `<=` itself. |
| StringOrder.LeTotal | main.py:68 | Any two Date strings are comparable. |
| StringOrder.LeTransitive | main.py:68 | String `<=` is transitive, so a running `max` bounds everything seen. |
| StringOrder.LeAntisymmetric | main.py:68 | Two strings that are each `<=` the other are equal. |
| StringOrder.Le | main.py:68 | Definition of Python's `<=` on strings, character by character; properties in `LeReflexive`, `LeTotal`, `LeTransitive`, `LeAntisymmetric`. |
| StringOrder.Max | main.py:29 | The max of two dates is one of them and is `>=` both. |
| Table.Filter | main.py:63 | A mask keeps at most the input's rows, and every kept row is selected and comes from the table. |
| Table.FilterComplete | main.py:80 | No selected row is dropped by the mask. |
| Table.FilterConcat | main.py:80 | Masking commutes with concatenation, so the selected rows keep their stored order. |
| Table.FilterEmpty | main.py:80 | The masked frame is empty exactly when no row is selected; an empty result is not an error. |
| Table.Search | main.py:79-80 | `search(name)` returns exactly the rows of the table whose Company is `name`. |
| Table.Total | main.py:87-90 | Definition of `['Quantity'].sum()`, 0 for no rows; properties in `TotalConcat`, `TotalFilterBounded`. |
| Table.TotalConcat | main.py:70 | The Quantity sum of a concatenation is the sum of the parts' sums. |
| Table.TotalFilterBounded | main.py:87-90 | With non-negative quantities, a masked sum lies between 0 and the grand total. |
| Table.MaxDate | main.py:68 | `found_data['Date'].max()` is the Date of one of the rows. |
| Table.MaxDateIsUpperBound | main.py:68 | That max is string-`>=` every Date in the frame. |
| Storage.OpensNewRow | main.py:68 | Definition of the test of `append_entry`: the company's sum is 0 or its string-greatest Date is not today; properties in `Appended`, `MidYearEntryOpensRow`, `YearEndFirstEntryOpensRow`. |
| Storage.AddToCompany | main.py:72 | Definition of the in-place bump of every row of the company; properties in `AddToCompanyAt`, `TotalAddToCompany`, `AddToCompanyKeepsOthers`, `SearchAddToCompany`. |
| Storage.Appended | main.py:68-72 | New-row branch: the table gains exactly `(name, Applied, quantity, today)` at the end. Otherwise: same length, and every field but Quantity unchanged. Quantity rises by `quantity` on every row of `name` whatever its date, and on no other row. |
| Storage.AppendTotal | main.py:68-72 | The grand total rises by `quantity` on the new-row branch, and by `quantity` times the company's row count on the in-place branch. |
| Storage.AppendKeepsOtherCompanies | main.py:70-72 | `append_entry(name, ...)` leaves every other company's rows as they were, in order. |
| Storage.SameDayAppends | main.py:68-72 | Start with no rows for `name` and make same-day entries of positive quantities. The result is exactly one row for `name`: `Applied`, dated today, holding their sum. |
| Storage.AppendAll | main.py:60-73 | Definition of a series of `append_entry` calls on one day; properties in `SameDayAppends`, `AppendAllKeepsOtherCompanies`. |
| Storage.AppendAllKeepsOtherCompanies | main.py:60-73 | Any series of appends for `name` leaves other companies' rows unchanged. |
| Storage.Updated | main.py:75-76 | Length, Company, Quantity and Date are preserved. Status becomes `status` exactly on the rows of `name`. |
| Storage.UpdateNoMatch | main.py:76 | With no row for `name`, `update_entry` changes nothing. |
| Storage.SearchAfterUpdate | main.py:75-80 | After the update, `search(name)` gives the same rows in the same order, each with the new status. |
| Storage.UpdateKeepsTotal | main.py:75-76 | `update_entry` never changes the grand total. |
| Storage.Database.constructor | main.py:54-55 | The dataframe and the persisted file start out as the stored table. |
| Storage.Database.Commit | main.py:57-58 | The persisted table becomes the in-memory table, which is unchanged. |
| Storage.Database.AppendEntry | main.py:60-73 | The in-place loop leaves `table` equal to `Appended(old(table), ...)`, and the result is committed. |
| Storage.Database.UpdateEntry | main.py:75-77 | The loop leaves `table` equal to `Updated(old(table), ...)`, and the result is committed. |
| Queries.JobCount | main.py:84-90 | Today's rows are the `Date == today` mask of the table, in stored order with repeats, and hold exactly the rows dated today. Today's count is the Quantity sum of those rows, the total is the sum over all rows, and the rows are listed exactly when today's count is non-zero. |
| Queries.JobCountBounds | main.py:85-90 | With non-negative quantities, 0 <= today's count <= grand total. |
| Queries.JobCountAfterAppend | main.py:68-72 | How one `append_entry` moves today's count and the total on each branch. On the in-place branch, today's count rises once per company row dated today. |
| Queries.TwoEntriesSameDay | main.py:60-90 | Entries of 2 and 3 for a new company on one day give one row of 5, and `jobcount_check` reports 5 today and 5 in total. |
| Admin.InitializeDocument | main.py:14-20 | A missing file becomes an empty table. An existing file is left as it is, and initialisation reports failure exactly then. |
| Admin.Absorb | main.py:29 | Definition of folding one row into the partial groupby: add its Quantity and take the string max of the Dates, or open its group; properties in `AbsorbKeys`, `AbsorbTotal`, `AbsorbSummarisesAt`. |
| Admin.Groups | main.py:29 | Definition of `groupby(['Company','Status']).agg(...)`; properties in `GroupsFacts`, `GroupsOfUnique`. |
| Admin.SortByDate | main.py:30 | Definition of `sort_values(by='Date')` as an insertion sort on Date strings; properties in `SortFacts`, `SortUnique`, `SortOfSorted`. |
| Admin.Aggregate | main.py:27-31 | Definition of `aggregate`: group, then sort by Date; properties in `AggregateOneRowPerGroup`, `AggregateSummarises`, `AggregateTotal`, `AggregateSorted`, `AggregateIdempotent`. |
| Admin.AggregateOneRowPerGroup | main.py:29 | The compacted table has at most one row per (Company, Status), and exactly the groups of the input. |
| Admin.AggregateSummarises | main.py:29 | Each output row holds its group's summed Quantity and its string-greatest Date. |
| Admin.AggregateTotal | main.py:29 | Compaction preserves the grand total. |
| Admin.AggregateSorted | main.py:30 | The output is in ascending Date order and is a permutation of the grouped rows. |
| Admin.AggregateIdempotent | main.py:27-31 | Compacting twice gives the same multiset of rows as compacting once. |
| Admin.TwoDaysCollapse | main.py:29-30 | Entries of 2 and 3 on two days collapse into one row of 5 carrying the later date. |
| Admin.YearTurnKeepsDecember | main.py:29 | A group spanning the turn of the year keeps "31/12/2025" as its Date, because dates compare as strings. |
| SameDay.AppendedToday | main.py:65-67 | Corrected rule: with no row of `name` dated today, append a fresh row. Otherwise bump only today's rows of `name`; earlier days never change. |
| SameDay.AtMostOneRowToday | main.py:65-67 | Under one row per company per day, a company has at most one row dated today. |
| SameDay.AppendedTodayKeepsOneRowPerDay | main.py:65-67 | The corrected rule preserves one row per company per day. |
| SameDay.AppendedTodayTotal | main.py:65-67 | Under that invariant, each entry raises the grand total by exactly its quantity. |
| SameDay.InPlaceBranchBumpsEarlierDays | main.py:72 | As written, an entry of 3 also bumps the company's row of an earlier day, so the total rises by 6. |
| SameDay.TwoDaysBumpsInPlace | main.py:68 | On that table, the in-place branch is the one taken. |
| SameDay.CorrectedRuleBumpsTodayOnly | main.py:65-67 | The corrected rule bumps only today's row of that table, and the total rises by 3. |
| SameDay.YearEndFirstEntryOpensRow | main.py:68 | After a row dated 31/12/2025, the first entry on 01/01/2026 opens a new row. |
| SameDay.YearEndSecondEntryOpensRow | main.py:68 | The second entry of that day opens another row, because "31/12/2025" is still the string max. |
| SameDay.LexicographicMaxSplitsDay | main.py:61-70 | As written, two entries on 01/01/2026 leave two rows dated that day, which breaks one row per company per day. |
| SameDay.MidYearEntryOpensRow | main.py:68 | Beside a row dated 20/09/2026, an entry on 15/10/2026 opens a new row, because "20/09/2026" is the string max. |
| SameDay.ZeroEntriesOpenRows | main.py:68-70 | As written, two entries of 0 on one day give two rows, because the company's sum stays 0; the corrected rule gives one. |
| SameDay.CorrectedRuleKeepsOneRow | main.py:65-67 | The corrected rule opens one row on the first entry and bumps it on the second. |

## Left out

- CSV reading and writing (`read_csv`, `to_csv`) are not modelled. The file is the `persisted` field, and `commit` copies the table into it.
- The `os.listdir` existence check is not modelled; the file's presence is the `Document` value.
- `search` and `jobcount_check` print their results. The model returns them instead: the found rows, and a `Summary` with today's rows, today's count, the total and whether rows are listed.
- The singleton in `Database.__new__` is not modelled. One `Database` object stands for the shared instance.
- The command-line layers are not modelled: `Create`, `Update`, `Select`, the two facades, `help`/`default` and the `__main__` loop. The same goes for the rapid-fire default quantity of 1 and quantities that arrive as strings. Quantity is an `int`.
- `datetime.now()` and `strftime` are not modelled. `today` is a parameter.
- Quantities are unbounded integers. The int64 overflow of pandas columns is not modelled.
- Pandas index labels are not modelled, including the repeated labels that `concat` leaves.
- Missing values (NaN) in any column are not modelled.
- Admin.AggregateSorted: states sortedness and a permutation only. The tie order of `sort_values` among equal dates is not modelled, and neither is the key order of `groupby`.

## Findings

| source | as written | input that shows it | evidently intended | confidence | as-written member | corrected member |
|---|---|---|---|---|---|---|
| main.py:72 | The in-place branch adds `quantity` to every row of the company, whatever its date. | A company with 2 on 01/10/2026 and 1 on 15/10/2026 gets an entry of 3 on 15/10/2026. Both rows gain 3, giving 5 and 4, and the total rises by 6. | Only today's row is bumped, so the total rises by 3 ("We only want to aggregate applications done today"). | not executed | SameDay.InPlaceBranchBumpsEarlierDays | SameDay.AppendedTodayTotal, SameDay.CorrectedRuleBumpsTodayOnly |
| main.py:61,68 | The company's latest date is the string max of `dd/mm/YYYY` dates, so any earlier row whose day of the month is larger than today's outranks today, within a year as well as across years. | After a row dated 31/12/2025, two entries on 01/01/2026 each open a new row, leaving two rows dated 01/01/2026. | One row per company per day. | not executed | SameDay.LexicographicMaxSplitsDay | SameDay.AppendedTodayKeepsOneRowPerDay, SameDay.CorrectedRuleKeepsOneRow |
| main.py:68 | A company whose quantities sum to 0 always gets a new row. | Two entries of 0 for a new company on one day leave two rows dated that day. | One row per company per day; the corrected rule bumps today's row instead. | not executed | SameDay.ZeroEntriesOpenRows | SameDay.AppendedTodayKeepsOneRowPerDay |
