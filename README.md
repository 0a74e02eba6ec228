# Personal finance core: loan amortization and the transaction ledger

This project models the two computational components of a small personal-finance application and
proves properties of them in Dafny.

- **Loan amortization** (`interest.py`, `Calculate_compound_interest`). The loop charges a month's
  interest on the outstanding balance (`balance * rate / 12`, with `rate` an annual fraction). It raises when the
  payment does not exceed that interest. Otherwise it subtracts the principal portion, clamps the
  final month's overshoot by shrinking the last payment, and records each month's closing balance and
  interest. `Amortization.CompoundInterest` is that loop as a Dafny method. It is proved against a
  relational description of the run (`IsSchedule`: one `Step` per month while the balance is
  positive). The lemmas beside it prove these properties of every run:
  - strictly decreasing balances;
  - a final balance of exactly zero;
  - total paid = principal + total interest;
  - every month but the last pays the nominal payment;
  - the schedule is unique;
  - the zero-rate closed form.

  The loan dialog's guard and derived figures (`main.py`, `calculate_interest`) are
  `Amortization.CalculateLoan`.
- **Transaction ledger** (`database.py`). It has three tables:
  - INCOME rows (date, amount);
  - SPEND rows (date, type, amount);
  - MONTHLY_BALANCE, keyed by month.

  `Ledger.Database` is a class with these tables as fields: two sequences of rows and a map.
  - `add_income` and `add_spend` read the amount with Python's `int()` (`IntParse.ParseInt`), append a row and
    upsert the month's balance.
  - `update_monthly_balance` upserts income minus spending for one month.
  - `add_test_data` inserts the sample rows.

  The read-only SQL aggregates are functions in `LedgerQueries`: per-month sums, totals, the running balance and
  the two GROUP BY queries. The central invariant is `Consistent`: every stored month balance equals
  that month's income minus its spending. `UpdateMonthlyBalance`, `AddIncome`, `AddSpend` and `AddTestData` preserve it. `insert_data` on its own (`InsertIncome`, `InsertSpend`) recomputes nothing, so a raw insert into a stored month can break it.

Amounts in the ledger are integers (the INTEGER columns, filled through `int()`). Amortization
arithmetic is over `real`.

Files:
- `wrappers.dfy`: `Option` and `Result`.
- `amortization.dfy`: the simulation and the loan calculator.
- `int_parse.dfy`: `int()` on a string, and the decimal rendering it inverts.
- `ledger_queries.dfy`: the row types, the aggregates and the invariant lemmas.
- `ledger.dfy`: the `Database` class.

## Model

| member | source | states |
|---|---|---|
| Amortization.CompoundInterest | interest.py:62-93 | Raises (`PaymentTooLow`) exactly when something is owed and the first month's interest `amount*rate/12` is at least the payment. Otherwise it returns the schedule of the loop's run (`IsSchedule`), and the loop terminates |
| Amortization.MonthlyInterest | interest.py:71 | `balance * rate / 12`: nothing is charged at a zero rate, and a non-negative balance at a non-negative rate is charged a non-negative amount |
| Amortization.NextBalance | interest.py:78-85 | The recorded closing balance is never negative, because the final overshoot is clamped to 0. A payment above the interest lowers a positive balance |
| Amortization.PaidInMonth | interest.py:82-88 | What a month adds to `total_paid` is exactly the principal it retires plus its interest, and never more than the payment |
| Amortization.StepFacts | interest.py:71-88 | In one month the closing balance lies in [0, opening). The month pays the principal it retires plus its interest. Only a month that ends on a zero balance pays less than the nominal payment. With rate >= 0 the interest is >= 0 and the amount paid lies in (0, payment] |
| Amortization.ScheduleShape | interest.py:64-93 | months == number of balances == number of interests. Nothing owed gives `(0, 0, [], [])`. Otherwise there is at least one month, the last balance is 0, `interests[0] == amount*rate/12`, every balance is >= 0 and below its month's opening balance, and every balance before the last is positive |
| Amortization.BalancesDecrease | interest.py:77-90 | Balances strictly decrease: i < j implies balances[j] < balances[i] |
| Amortization.PaidSumTelescopes | interest.py:78-88 | After any number of months, the total paid so far = principal retired so far + interest charged so far |
| Amortization.TotalPaidIsPrincipalPlusInterest | interest.py:78-93 | `total_paid == amount + sum(interests)` when something is owed, and 0 otherwise |
| Amortization.PaidSumAtMost | interest.py:82-88 | With rate >= 0 the total paid is at most months * payment |
| Amortization.InterestNeverAboveFirst | interest.py:69-75 | With rate >= 0 every month's interest lies in [0, first month's interest], and that is below the payment, so the re-check in later months never raises |
| Amortization.MonthlyPayments | interest.py:82-88 | Every month but the last adds exactly `payment` to the total. With rate >= 0 the last adds more than 0 and at most `payment` |
| Amortization.PayoffNotShorterThanSaving | main.py:253-256 | With rate >= 0, principal <= months * payment, so the time to pay off is at least the time to save (`loan_amount / monthly_payment`) |
| Amortization.ScheduleIsUnique | interest.py:62-93 | Two schedules of the same inputs are equal: the description the method is proved against determines its result |
| Amortization.ZeroRateOpening | interest.py:69-85 | At a zero rate, month i opens on `amount - i*payment` |
| Amortization.ZeroRateSchedule | interest.py:71-88 | At a zero rate every interest charge is 0 and `total_paid == amount` |
| Amortization.ZeroRateMonths | interest.py:69-89 | At a zero rate `months == ceil(amount/payment)`, i.e. `(months-1)*payment < amount <= months*payment` |
| Amortization.ZeroRateExample | interest.py:62-93 | 1200 at 0% repaid at 400 a month: 3 months, 1200 paid, balances [800, 400, 0] |
| Amortization.ValidTerms | main.py:240-241 | The dialog's guard: a positive loan, a non-negative rate and a positive payment. `CalculateLoan` rejects exactly the terms that fail it |
| Amortization.CalculateLoan | main.py:233-258 | Rejects terms failing `loan > 0, rate >= 0, payment > 0` (rate = percentage/100), and only those. It reports a too-low payment exactly when the first interest is at least the payment. On success the interest shown (`total_paid - loan_amount`) equals the interest charged and is >= 0, and the time to save (`loan_amount / monthly_payment`) is at most the months to pay off |
| IntParse.TrimStart | database.py:171 | The result is a suffix of the input, starts with a non-space, and everything removed is a character `int()` strips: a C-locale blank, or Unicode whitespace above U+007F |
| IntParse.TrimEnd | database.py:171 | The result is a prefix of the input, ends with a non-space, and everything removed is a character `int()` strips |
| IntParse.ParseInt | database.py:179 | `int(amount)`: an amount it accepts is, once stripped, non-empty and ends in a digit. A negative result comes from a leading minus |
| IntParse.NatToString | database.py:179 | The reference decimal rendering that `int()` inverts is a non-empty run of decimal digits |
| IntParse.NatToStringValue | database.py:179 | Reading the digits of that rendering back gives the number |
| IntParse.ParseShow | database.py:179 | Round trip: `int()` reads the decimal rendering of every integer n (with a minus sign when n < 0) back as n |
| IntParse.UnderscoreIgnored | database.py:179 | A single underscore between digits does not change the value `int()` reads |
| IntParse.ParseLiteralRejects | database.py:170-175 | In an already-stripped literal, a character other than a digit or `_` makes `int()` fail, unless it is the leading sign |
| IntParse.ParseIntRejects | database.py:178-183 | `int(amount)` fails, and `add_income` reports the invalid amount, when the stripped amount holds a character other than a digit or `_` anywhere but at a leading sign, as in "12.5" or ".5" |
| IntParse.SeparatorRejected | database.py:179 | U+001C before a run of digits makes `int()` fail: `int()` strips only the C-locale blanks below U+007F, not every character `str.isspace()` accepts |
| IntParse.ParseBlank | database.py:178-183 | An empty or all-whitespace amount makes `int()` fail |
| LedgerQueries.IncomeFor | database.py:120 | `IFNULL(SUM(Amount), 0)` over the INCOME rows dated the month: 0 on an empty table |
| LedgerQueries.SpendFor | database.py:121 | `IFNULL(SUM(Amount), 0)` over the SPEND rows dated the month: 0 on an empty table |
| LedgerQueries.MonthBalance | database.py:119-122 | The balance stored for a month is its income minus its spending: the income when there is no spending, and minus the spending when there is no income |
| LedgerQueries.TotalIncome | database.py:42-47 | `get_total_income`: the SUM over all of INCOME, 0 when the table is empty |
| LedgerQueries.TotalExpenses | database.py:49-54 | `get_total_expenses`: the SUM over all of SPEND, 0 when the table is empty |
| LedgerQueries.SumOf | database.py:120-121 | `IFNULL(SUM(Amount), 0) ... WHERE Date = ?` is 0 when no row matches |
| LedgerQueries.KindEntries | database.py:128 | The SPEND rows dated `month`, as (Type, Amount): their types are exactly the types spent in that month |
| LedgerQueries.DistinctKeys | database.py:128 | The keys of the rows, each exactly once |
| LedgerQueries.Tabulate | database.py:128 | One (key, sum for that key) row per requested key |
| LedgerQueries.GroupSum | database.py:187 | GROUP BY gives one row per distinct key, covers exactly the keys present, and each row carries the SUM for its key |
| LedgerQueries.MonthlySpending | database.py:127-128 | `get_monthly_spending(m)`: one (Type, sum) row per distinct type dated m, each with that type's sum in month m |
| LedgerQueries.MonthlyIncome | database.py:185-187 | `get_monthly_income`: one (Date, sum) row per distinct date, each equal to that month's income |
| LedgerQueries.RunningBalance | database.py:156-160 | The running balance is 0 when both tables are empty |
| LedgerQueries.Upserted | database.py:123-124 | The upsert keeps one entry per month: the months stored are the old ones plus `month`, `month` gets income minus spending, and every other month is unchanged |
| LedgerQueries.EmptyMonthBalance | database.py:119-122 | A month with no rows has income 0, spending 0 and balance 0 |
| LedgerQueries.AppendElsewhere | database.py:98-108 | Appending rows none of which is dated m leaves month m's balance unchanged |
| LedgerQueries.IncomeForAppend | database.py:179-180 | Inserting an income row changes only its own month's income, by its amount |
| LedgerQueries.SpendForAppend | database.py:171-172 | Inserting a spend row changes only its own month's spending, by its amount |
| LedgerQueries.IncomeForConcat | database.py:26-28 | A month's income over two batches of rows is the sum over each batch |
| LedgerQueries.SpendForConcat | database.py:26-28 | A month's spending over two batches of rows is the sum over each batch |
| LedgerQueries.RunningBalanceAfterIncome | database.py:177-181 | `add_income` raises the running balance by exactly the amount inserted |
| LedgerQueries.RunningBalanceAfterSpend | database.py:169-173 | `add_spend` lowers the running balance by exactly the amount inserted |
| LedgerQueries.UpsertKeepsConsistent | database.py:119-124 | Recomputing one month keeps every stored balance equal to its month's income minus spending |
| LedgerQueries.UpsertIdempotent | database.py:123-124 | Upserting the same month twice leaves the same table as upserting it once (overwrite, not accumulate) |
| LedgerQueries.AddIncomeKeepsConsistent | database.py:177-181 | Appending an income row and then recomputing its month preserves the consistency invariant |
| LedgerQueries.AddSpendKeepsConsistent | database.py:169-173 | Appending a spend row and then recomputing its month preserves the consistency invariant |
| LedgerQueries.TabulateTotal | database.py:128 | Summing per-key sums over distinct keys that cover every row gives the total of all rows |
| LedgerQueries.GroupSumTotal | database.py:187 | The sums of a GROUP BY add up to the total of the rows grouped |
| LedgerQueries.KindEntriesTotal | database.py:128 | The month's spend rows, by type, add up to the month's spending |
| LedgerQueries.MonthlySpendingTotal | database.py:127-128 | The sums returned by `get_monthly_spending(m)` add up to month m's total spending |
| LedgerQueries.RunningBalanceIsSumOfMonths | database.py:156-160 | The running balance (all income minus all spending) equals the sum of the monthly balances over any list of distinct months that covers every row |
| LedgerQueries.TestRowMonths | database.py:91-108 | Every sample row is dated 2024-08, 2024-09 or 2024-10 |
| LedgerQueries.TestIncomeFor | database.py:91-98 | Sample income per month: 1000, 2500 and 4500, and 0 elsewhere |
| LedgerQueries.TestSpendFor | database.py:100-108 | Sample spending per month: 2200, 650 and 1450, and 0 elsewhere |
| LedgerQueries.TestDataBalances | database.py:91-112 | The sample rows give balances 2024-08 → -1200, 2024-09 → 1850 and 2024-10 → 3050 |
| LedgerQueries.TestDataUpserts | database.py:110-112 | The three recomputations add 2024-08, 2024-09 and 2024-10 to the months stored, and each of them holds its own income minus spending |
| LedgerQueries.TestDataOnEmptyTables | database.py:110-112 | After the three recomputations on the sample rows, the stored balances are -1200, 1850 and 3050 |
| Ledger.Database.constructor | database.py:58-86 | A fresh database has empty INCOME, SPEND and MONTHLY_BALANCE tables and is consistent |
| Ledger.Database.UpdateMonthlyBalance | database.py:119-124 | Only MONTHLY_BALANCE changes. It becomes the upsert of `month` with IFNULL(SUM income) - IFNULL(SUM spend) for that month, and consistency is preserved |
| Ledger.Database.AddIncome | database.py:177-183 | Succeeds exactly when `int(amount)` succeeds. Then INCOME gains exactly `(date, int(amount))`, SPEND is untouched, only `date`'s balance is upserted, and the running balance rises by the amount. Otherwise nothing changes. Consistency is preserved |
| Ledger.Database.AddSpend | database.py:169-175 | Succeeds exactly when `int(amount)` succeeds. Then SPEND gains exactly `(date, type, int(amount))`, INCOME is untouched, only `date`'s balance is upserted, and the running balance falls by the amount. Otherwise nothing changes |
| Ledger.Database.InsertIncome | database.py:26-28 | `insert_data` on INCOME appends the rows in order and changes nothing else |
| Ledger.Database.InsertSpend | database.py:26-28 | `insert_data` on SPEND appends the rows in order and changes nothing else |
| Ledger.Database.AddTestData | database.py:90-112 | Appends the sample rows, then upserts 2024-08, 2024-09 and 2024-10 in that order, and preserves consistency. On empty tables it stores -1200, 1850 and 3050 |
| Ledger.TestDataKeepsConsistent | database.py:90-112 | Appending the sample rows touches only the three sample months, so recomputing those three restores the invariant |

## Left out

- IEEE double arithmetic in the amortization: the model computes over exact reals, so rounding in long schedules and `:.2f` formatting are not captured.
- CompoundInterest: requires `rate >= 0`. Both callers enforce it (interest.py:19-22, main.py:240). With a negative rate and a negative payment the Python loop can run forever, and a Dafny method must terminate.
- The console wrapper `Calculate_interest` (interest.py:3-60) and the console `main()` (database.py:200-231): these are input/print loops. `main()` calls `add_income(db)` and `add_spend(db)` without their arguments, a TypeError that is not modelled.
- The PyQt dialogs and plotting in main.py, apart from the guard and the derived figures of `calculate_interest`.
- The sqlite3 connection, cursor, commit, `create_*_table`, `drop_table`, `execute`/`fetchall`: the tables are in-memory fields. Data persisting between runs in the database file is not modelled; the conditional clause of `AddTestData` covers only the case of empty tables.
- `display_table`, the `display_*` functions, `get_monthly_balance` and `get_and_plot_monthly_spending`: they only print or read the whole table. The table itself is the `monthlyBalance` field.
- The printed "Invalid amount" message is the `false` result of `AddIncome`/`AddSpend`.
- LedgerQueries.GroupSum: returns groups in order of first appearance. SQL leaves the order of GROUP BY rows unspecified (SQLite usually sorts them), so the model fixes one order and states no ordering property.
- LedgerQueries.TotalIncome: `get_total_income` and `get_total_expenses` return the float `0.0` on an empty table. The model returns the integer 0, which is the same number.
- SQLite's 64-bit INTEGER limits: an amount outside the signed 64-bit range makes sqlite3 raise OverflowError, and an overflowing SUM raises an error. The model's integers are unbounded.
- IntParse.ParseInt: accepts only ASCII digits. Python's `int()` also accepts other Unicode decimal digits.
- Dates are opaque strings, as in the source. No "YYYY-MM" validation is modelled; that regex belongs to the console loop.
