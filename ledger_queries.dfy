/**
 * The read-only side of the transaction ledger of database.py: the INCOME and SPEND tables as
 * sequences of rows, and each SQL aggregate the program runs over them (SUM with and without a
 * WHERE on the date, GROUP BY date or type) as a function on those sequences. An absent SUM
 * (no matching row) is 0, as IFNULL(SUM(..), 0) and the `if result[0] else 0.0` fallback make it.
 */
module LedgerQueries {

  /** A row of the INCOME table: Date (a "YYYY-MM" month, stored as opaque text) and Amount. */
  datatype Income = Income(date: string, amount: int)

  /** A row of the SPEND table: Date, Type (the spending category) and Amount. */
  datatype Spend = Spend(date: string, kind: string, amount: int)

  /** A (key, amount) pair: the shape of the rows an aggregate reads and of the rows GROUP BY returns. */
  datatype Entry = Entry(key: string, amount: int)

  /** SUM(amount) over all rows, 0 when there are none. */
  function Total(es: seq<Entry>): int
  {
    if es == [] then 0 else Total(es[..|es| - 1]) + es[|es| - 1].amount
  }

  /** SUM(amount) over the rows whose key is `key`, 0 when there are none. */
  function SumOf(es: seq<Entry>, key: string): (r: int)
    ensures (forall i :: 0 <= i < |es| ==> es[i].key != key) ==> r == 0
  {
    if es == [] then 0
    else
      var k := |es| - 1;
      SumOf(es[..k], key) + (if es[k].key == key then es[k].amount else 0)
  }

  /** The set of keys that occur in `es`. */
  function KeySet(es: seq<Entry>): set<string>
  {
    set i | 0 <= i < |es| :: es[i].key
  }

  /** Appending an entry adds its key to the key set. */
  lemma KeySetAppend(es: seq<Entry>, e: Entry)
    ensures KeySet(es + [e]) == KeySet(es) + {e.key}
  {
    var r := es + [e];
    assert r[|es|].key == e.key;
    forall k | k in KeySet(es) ensures k in KeySet(r) {
      var i :| 0 <= i < |es| && es[i].key == k;
      assert r[i].key == k;
    }
  }

  /** No key occurs twice. */
  predicate Distinct(ks: seq<string>)
  {
    forall i, j :: 0 <= i < j < |ks| ==> ks[i] != ks[j]
  }

  /** The (Date, Amount) entries of the INCOME table, in table order. */
  function IncomeEntries(rows: seq<Income>): (r: seq<Entry>)
    ensures |r| == |rows|
    ensures forall i :: 0 <= i < |rows| ==> r[i] == Entry(rows[i].date, rows[i].amount)
  {
    if rows == [] then []
    else
      var k := |rows| - 1;
      IncomeEntries(rows[..k]) + [Entry(rows[k].date, rows[k].amount)]
  }

  /** The (Date, Amount) entries of the SPEND table, in table order. */
  function SpendEntries(rows: seq<Spend>): (r: seq<Entry>)
    ensures |r| == |rows|
    ensures forall i :: 0 <= i < |rows| ==> r[i] == Entry(rows[i].date, rows[i].amount)
  {
    if rows == [] then []
    else
      var k := |rows| - 1;
      SpendEntries(rows[..k]) + [Entry(rows[k].date, rows[k].amount)]
  }

  /** The (Type, Amount) entries of the SPEND rows dated `month`, in table order. */
  function KindEntries(rows: seq<Spend>, month: string): (r: seq<Entry>)
    ensures |r| <= |rows|
    ensures KeySet(r) == set i | 0 <= i < |rows| && rows[i].date == month :: rows[i].kind
  {
    if rows == [] then []
    else
      var k := |rows| - 1;
      var prefix := KindEntries(rows[..k], month);
      assert (set i | 0 <= i < |rows| && rows[i].date == month :: rows[i].kind) ==
             (set i | 0 <= i < k && rows[..k][i].date == month :: rows[..k][i].kind) +
             (if rows[k].date == month then {rows[k].kind} else {});
      KeySetAppend(prefix, Entry(rows[k].kind, rows[k].amount));
      if rows[k].date == month then prefix + [Entry(rows[k].kind, rows[k].amount)] else prefix
  }

  /** SELECT IFNULL(SUM(Amount), 0) FROM INCOME WHERE Date = month: 0 on an empty table. */
  function IncomeFor(income: seq<Income>, month: string): (r: int)
    ensures income == [] ==> r == 0
  {
    SumOf(IncomeEntries(income), month)
  }

  /** SELECT IFNULL(SUM(Amount), 0) FROM SPEND WHERE Date = month: 0 on an empty table. */
  function SpendFor(spend: seq<Spend>, month: string): (r: int)
    ensures spend == [] ==> r == 0
  {
    SumOf(SpendEntries(spend), month)
  }

  /** The balance update_monthly_balance stores for `month`: its income minus its spending; with no
      spending it is the income, and with no income it is minus the spending. */
  function MonthBalance(income: seq<Income>, spend: seq<Spend>, month: string): (r: int)
    ensures spend == [] ==> r == IncomeFor(income, month)
    ensures income == [] ==> r == -SpendFor(spend, month)
  {
    IncomeFor(income, month) - SpendFor(spend, month)
  }

  /** Database.get_total_income: SUM(amount) over all of INCOME, 0 when it is empty. */
  function TotalIncome(income: seq<Income>): (r: int)
    ensures income == [] ==> r == 0
  {
    Total(IncomeEntries(income))
  }

  /** Database.get_total_expenses: SUM(amount) over all of SPEND, 0 when it is empty. */
  function TotalExpenses(spend: seq<Spend>): (r: int)
    ensures spend == [] ==> r == 0
  {
    Total(SpendEntries(spend))
  }

  /** get_running_balance: all-time income minus all-time spending. */
  function RunningBalance(income: seq<Income>, spend: seq<Spend>): (r: int)
    ensures income == [] && spend == [] ==> r == 0
  {
    TotalIncome(income) - TotalExpenses(spend)
  }

  /** The keys of `es`, each once, in order of first appearance. */
  function DistinctKeys(es: seq<Entry>): (r: seq<string>)
    ensures Distinct(r)
    ensures forall k :: k in r <==> k in KeySet(es)
  {
    if es == [] then []
    else
      var k := |es| - 1;
      var prefix := DistinctKeys(es[..k]);
      assert KeySet(es) == KeySet(es[..k]) + {es[k].key};
      if es[k].key in prefix then prefix else prefix + [es[k].key]
  }

  /** One (key, SUM(amount) for that key) row per key of `ks`, in the order of `ks`. */
  function Tabulate(ks: seq<string>, es: seq<Entry>): (r: seq<Entry>)
    ensures |r| == |ks|
    ensures forall i :: 0 <= i < |ks| ==> r[i] == Entry(ks[i], SumOf(es, ks[i]))
  {
    if ks == [] then []
    else
      var k := |ks| - 1;
      Tabulate(ks[..k], es) + [Entry(ks[k], SumOf(es, ks[k]))]
  }

  /** SELECT key, SUM(amount) ... GROUP BY key: one row per distinct key, with that key's sum. */
  function GroupSum(es: seq<Entry>): (r: seq<Entry>)
    ensures forall i, j :: 0 <= i < j < |r| ==> r[i].key != r[j].key
    ensures KeySet(r) == KeySet(es)
    ensures forall i :: 0 <= i < |r| ==> r[i].amount == SumOf(es, r[i].key)
  {
    var ks := DistinctKeys(es);
    var r := Tabulate(ks, es);
    assert forall k :: k in KeySet(r) <==> k in ks by {
      forall k | k in ks ensures k in KeySet(r) {
        var i :| 0 <= i < |ks| && ks[i] == k;
        assert r[i].key == k;
      }
    }
    r
  }

  /** get_monthly_spending(month): one (Type, total) row per spending type dated `month`. */
  function MonthlySpending(spend: seq<Spend>, month: string): (r: seq<Entry>)
    ensures forall i, j :: 0 <= i < j < |r| ==> r[i].key != r[j].key
    ensures KeySet(r) == set i | 0 <= i < |spend| && spend[i].date == month :: spend[i].kind
    ensures forall i :: 0 <= i < |r| ==> r[i].amount == SumOf(KindEntries(spend, month), r[i].key)
  {
    GroupSum(KindEntries(spend, month))
  }

  /** get_monthly_income: one (Date, total) row per date in INCOME, each with that month's income. */
  function MonthlyIncome(income: seq<Income>): (r: seq<Entry>)
    ensures forall i, j :: 0 <= i < j < |r| ==> r[i].key != r[j].key
    ensures KeySet(r) == set i | 0 <= i < |income| :: income[i].date
    ensures forall i :: 0 <= i < |r| ==> r[i].amount == IncomeFor(income, r[i].key)
  {
    var es := IncomeEntries(income);
    assert KeySet(es) == set i | 0 <= i < |income| :: income[i].date by {
      forall k | k in set i | 0 <= i < |income| :: income[i].date ensures k in KeySet(es) {
        var i :| 0 <= i < |income| && income[i].date == k;
        assert es[i].key == k;
      }
    }
    GroupSum(es)
  }

  /** The MONTHLY_BALANCE table after the upsert for `month`: that month gets its fresh balance. */
  function Upserted(income: seq<Income>, spend: seq<Spend>, balances: map<string, int>, month: string)
    : (r: map<string, int>)
    ensures r.Keys == balances.Keys + {month}
    ensures r[month] == MonthBalance(income, spend, month)
    ensures forall m :: m in balances && m != month ==> r[m] == balances[m]
  {
    balances[month := MonthBalance(income, spend, month)]
  }

  /** Every month stored in MONTHLY_BALANCE holds that month's income minus spending. */
  ghost predicate Consistent(income: seq<Income>, spend: seq<Spend>, balances: map<string, int>)
  {
    forall m :: m in balances ==> balances[m] == MonthBalance(income, spend, m)
  }

  // ----- Appending a row -----

  /** Appending an entry adds its amount to the total. */
  lemma TotalAppend(es: seq<Entry>, e: Entry)
    ensures Total(es + [e]) == Total(es) + e.amount
  {
    assert (es + [e])[..|es|] == es;
  }

  /** Appending an entry adds its amount to its own key's sum and to no other. */
  lemma SumOfAppend(es: seq<Entry>, e: Entry, key: string)
    ensures SumOf(es + [e], key) == SumOf(es, key) + (if e.key == key then e.amount else 0)
  {
    assert (es + [e])[..|es|] == es;
  }

  /** Inserting an INCOME row changes the income of its own month only, by its amount. */
  lemma IncomeForAppend(income: seq<Income>, row: Income, month: string)
    ensures IncomeFor(income + [row], month) ==
            IncomeFor(income, month) + (if row.date == month then row.amount else 0)
  {
    assert (income + [row])[..|income|] == income;
    SumOfAppend(IncomeEntries(income), Entry(row.date, row.amount), month);
  }

  /** Inserting a SPEND row changes the spending of its own month only, by its amount. */
  lemma SpendForAppend(spend: seq<Spend>, row: Spend, month: string)
    ensures SpendFor(spend + [row], month) ==
            SpendFor(spend, month) + (if row.date == month then row.amount else 0)
  {
    assert (spend + [row])[..|spend|] == spend;
    SumOfAppend(SpendEntries(spend), Entry(row.date, row.amount), month);
  }

  /** The income of a month over two batches of rows is the sum of its income over each. */
  lemma {:induction false} IncomeForConcat(a: seq<Income>, b: seq<Income>, month: string)
    ensures IncomeFor(a + b, month) == IncomeFor(a, month) + IncomeFor(b, month)
  {
    if b != [] {
      var k := |b| - 1;
      assert a + b == (a + b[..k]) + [b[k]];
      assert b == b[..k] + [b[k]];
      IncomeForConcat(a, b[..k], month);
      IncomeForAppend(a + b[..k], b[k], month);
      IncomeForAppend(b[..k], b[k], month);
    } else {
      assert a + b == a;
    }
  }

  /** The spending of a month over two batches of rows is the sum of its spending over each. */
  lemma {:induction false} SpendForConcat(a: seq<Spend>, b: seq<Spend>, month: string)
    ensures SpendFor(a + b, month) == SpendFor(a, month) + SpendFor(b, month)
  {
    if b != [] {
      var k := |b| - 1;
      assert a + b == (a + b[..k]) + [b[k]];
      assert b == b[..k] + [b[k]];
      SpendForConcat(a, b[..k], month);
      SpendForAppend(a + b[..k], b[k], month);
      SpendForAppend(b[..k], b[k], month);
    } else {
      assert a + b == a;
    }
  }

  /** add_income raises the running balance by exactly the amount inserted. */
  lemma RunningBalanceAfterIncome(income: seq<Income>, spend: seq<Spend>, row: Income)
    ensures RunningBalance(income + [row], spend) == RunningBalance(income, spend) + row.amount
  {
    assert (income + [row])[..|income|] == income;
    TotalAppend(IncomeEntries(income), Entry(row.date, row.amount));
  }

  /** add_spend lowers the running balance by exactly the amount inserted. */
  lemma RunningBalanceAfterSpend(income: seq<Income>, spend: seq<Spend>, row: Spend)
    ensures RunningBalance(income, spend + [row]) == RunningBalance(income, spend) - row.amount
  {
    assert (spend + [row])[..|spend|] == spend;
    TotalAppend(SpendEntries(spend), Entry(row.date, row.amount));
  }

  /** A month with no INCOME and no SPEND rows has balance 0 (IFNULL turns both empty sums into 0). */
  lemma EmptyMonthBalance(income: seq<Income>, spend: seq<Spend>, month: string)
    requires forall i :: 0 <= i < |income| ==> income[i].date != month
    requires forall i :: 0 <= i < |spend| ==> spend[i].date != month
    ensures IncomeFor(income, month) == 0 && SpendFor(spend, month) == 0
    ensures MonthBalance(income, spend, month) == 0
  {
    var ie, se := IncomeEntries(income), SpendEntries(spend);
    assert forall i :: 0 <= i < |ie| ==> ie[i].key != month;
    assert forall i :: 0 <= i < |se| ==> se[i].key != month;
  }

  /** Appending rows none of which is dated `month` leaves that month's balance as it was. */
  lemma AppendElsewhere(income: seq<Income>, spend: seq<Spend>, moreIncome: seq<Income>,
                        moreSpend: seq<Spend>, month: string)
    requires forall i :: 0 <= i < |moreIncome| ==> moreIncome[i].date != month
    requires forall i :: 0 <= i < |moreSpend| ==> moreSpend[i].date != month
    ensures MonthBalance(income + moreIncome, spend + moreSpend, month) == MonthBalance(income, spend, month)
  {
    IncomeForConcat(income, moreIncome, month);
    SpendForConcat(spend, moreSpend, month);
    EmptyMonthBalance(moreIncome, moreSpend, month);
  }

  // ----- The consistency invariant -----

  /** Recomputing one month keeps every stored balance equal to its month's income minus spending. */
  lemma UpsertKeepsConsistent(income: seq<Income>, spend: seq<Spend>, balances: map<string, int>,
                              month: string)
    ensures Consistent(income, spend, balances) ==>
            Consistent(income, spend, Upserted(income, spend, balances, month))
  {
  }

  /** The upsert overwrites rather than accumulates: doing it twice is doing it once. */
  lemma UpsertIdempotent(income: seq<Income>, spend: seq<Spend>, balances: map<string, int>,
                         month: string)
    ensures var once := Upserted(income, spend, balances, month);
            Upserted(income, spend, once, month) == once
  {
  }

  /** add_income keeps the stored balances consistent: it inserts a row, then recomputes that row's month. */
  lemma AddIncomeKeepsConsistent(income: seq<Income>, spend: seq<Spend>, balances: map<string, int>,
                                 row: Income)
    requires Consistent(income, spend, balances)
    ensures Consistent(income + [row], spend, Upserted(income + [row], spend, balances, row.date))
  {
    forall m | m in balances && m != row.date
      ensures balances[m] == MonthBalance(income + [row], spend, m)
    {
      IncomeForAppend(income, row, m);
    }
  }

  /** add_spend keeps the stored balances consistent: it inserts a row, then recomputes that row's month. */
  lemma AddSpendKeepsConsistent(income: seq<Income>, spend: seq<Spend>, balances: map<string, int>,
                                row: Spend)
    requires Consistent(income, spend, balances)
    ensures Consistent(income, spend + [row], Upserted(income, spend + [row], balances, row.date))
  {
    forall m | m in balances && m != row.date
      ensures balances[m] == MonthBalance(income, spend + [row], m)
    {
      SpendForAppend(spend, row, m);
    }
  }

  // ----- Grouped sums add up to the whole -----

  /** Tabulating any keys over no rows gives nothing but zeros. */
  lemma {:induction false} TabulateNoRows(ks: seq<string>)
    ensures Total(Tabulate(ks, [])) == 0
  {
    if ks != [] {
      var k := |ks| - 1;
      TabulateNoRows(ks[..k]);
      assert Tabulate(ks, [])[..k] == Tabulate(ks[..k], []);
    }
  }

  /** One more row adds its amount to the tabulated total exactly when its key is tabulated once. */
  lemma {:induction false} TabulateAppend(ks: seq<string>, es: seq<Entry>, e: Entry)
    requires Distinct(ks)
    ensures Total(Tabulate(ks, es + [e])) ==
            Total(Tabulate(ks, es)) + (if e.key in ks then e.amount else 0)
  {
    if ks != [] {
      var k := |ks| - 1;
      var before, after := Tabulate(ks, es), Tabulate(ks, es + [e]);
      assert before[..k] == Tabulate(ks[..k], es);
      assert after[..k] == Tabulate(ks[..k], es + [e]);
      assert ks[..k] + [ks[k]] == ks;
      assert e.key == ks[k] ==> e.key !in ks[..k];
      TabulateAppend(ks[..k], es, e);
      SumOfAppend(es, e, ks[k]);
    }
  }

  /** Partition: summing the per-key sums over distinct keys that cover every row gives the grand total. */
  lemma {:induction false} TabulateTotal(ks: seq<string>, es: seq<Entry>)
    requires Distinct(ks)
    requires forall i :: 0 <= i < |es| ==> es[i].key in ks
    ensures Total(Tabulate(ks, es)) == Total(es)
  {
    if es == [] {
      TabulateNoRows(ks);
    } else {
      var k := |es| - 1;
      assert es[..k] + [es[k]] == es;
      TabulateTotal(ks, es[..k]);
      TabulateAppend(ks, es[..k], es[k]);
      TotalAppend(es[..k], es[k]);
    }
  }

  /** The rows of a GROUP BY add up to the total of the rows grouped. */
  lemma GroupSumTotal(es: seq<Entry>)
    ensures Total(GroupSum(es)) == Total(es)
  {
    var ks := DistinctKeys(es);
    forall i | 0 <= i < |es| ensures es[i].key in ks {
      assert es[i].key in KeySet(es);
    }
    TabulateTotal(ks, es);
  }

  /** The spending of a month, by type, adds up to all of that month's spending. */
  lemma {:induction false} KindEntriesTotal(spend: seq<Spend>, month: string)
    ensures Total(KindEntries(spend, month)) == SpendFor(spend, month)
  {
    if spend != [] {
      var k := |spend| - 1;
      var row := spend[k];
      assert spend[..k] + [row] == spend;
      KindEntriesTotal(spend[..k], month);
      SpendForAppend(spend[..k], row, month);
      if row.date == month {
        TotalAppend(KindEntries(spend[..k], month), Entry(row.kind, row.amount));
      }
    }
  }

  /** get_monthly_spending(month)'s sums add up to the month's total spending. */
  lemma MonthlySpendingTotal(spend: seq<Spend>, month: string)
    ensures Total(MonthlySpending(spend, month)) == SpendFor(spend, month)
  {
    GroupSumTotal(KindEntries(spend, month));
    KindEntriesTotal(spend, month);
  }

  /** The sum of the monthly balances of the months in `ms`. */
  function BalanceSum(income: seq<Income>, spend: seq<Spend>, ms: seq<string>): int
  {
    if ms == [] then 0
    else
      var k := |ms| - 1;
      BalanceSum(income, spend, ms[..k]) + MonthBalance(income, spend, ms[k])
  }

  /** The balances of a list of months are its income rows tabulated minus its spending rows tabulated. */
  lemma {:induction false} BalanceSumSplits(income: seq<Income>, spend: seq<Spend>, ms: seq<string>)
    ensures BalanceSum(income, spend, ms) ==
            Total(Tabulate(ms, IncomeEntries(income))) - Total(Tabulate(ms, SpendEntries(spend)))
  {
    if ms != [] {
      var k := |ms| - 1;
      BalanceSumSplits(income, spend, ms[..k]);
      assert Tabulate(ms, IncomeEntries(income))[..k] == Tabulate(ms[..k], IncomeEntries(income));
      assert Tabulate(ms, SpendEntries(spend))[..k] == Tabulate(ms[..k], SpendEntries(spend));
    }
  }

  /** The running balance is the sum of the balances of all months, given each month once. */
  lemma RunningBalanceIsSumOfMonths(income: seq<Income>, spend: seq<Spend>, ms: seq<string>)
    requires Distinct(ms)
    requires forall i :: 0 <= i < |income| ==> income[i].date in ms
    requires forall i :: 0 <= i < |spend| ==> spend[i].date in ms
    ensures RunningBalance(income, spend) == BalanceSum(income, spend, ms)
  {
    var ie, se := IncomeEntries(income), SpendEntries(spend);
    assert forall i :: 0 <= i < |ie| ==> ie[i].key == income[i].date;
    assert forall i :: 0 <= i < |se| ==> se[i].key == spend[i].date;
    BalanceSumSplits(income, spend, ms);
    TabulateTotal(ms, ie);
    TabulateTotal(ms, se);
  }

  // ----- The sample data -----

  /** The INCOME rows add_test_data inserts. */
  function TestIncome(): seq<Income>
  {
    [Income("2024-08", 1000), Income("2024-09", 1000), Income("2024-09", 1500),
     Income("2024-10", 2000), Income("2024-10", 2500)]
  }

  /** The SPEND rows add_test_data inserts. */
  function TestSpend(): seq<Spend>
  {
    [Spend("2024-08", "rent", 2200), Spend("2024-09", "groceries", 200),
     Spend("2024-09", "entertainment", 150), Spend("2024-09", "utilities", 300),
     Spend("2024-10", "groceries", 250), Spend("2024-10", "rent", 1200)]
  }

  /** Every sample row is dated in one of the three sample months. */
  lemma TestRowMonths()
    ensures forall i :: 0 <= i < |TestIncome()| ==> TestIncome()[i].date in ["2024-08", "2024-09", "2024-10"]
    ensures forall i :: 0 <= i < |TestSpend()| ==> TestSpend()[i].date in ["2024-08", "2024-09", "2024-10"]
  {
  }

  /** The distinct sample months differ in their last two characters. */
  lemma TestMonthsDiffer()
    ensures "2024-08" != "2024-09" && "2024-08" != "2024-10" && "2024-09" != "2024-10"
  {
    assert "2024-08"[6] == '8' && "2024-09"[6] == '9' && "2024-10"[5] == '1' && "2024-09"[5] == '0';
  }

  /** The income of a month in the sample rows: the sum of the sample amounts dated that month. */
  lemma TestIncomeFor(m: string)
    ensures IncomeFor(TestIncome(), m) ==
            (if m == "2024-08" then 1000 else 0) + (if m == "2024-09" then 2500 else 0) +
            (if m == "2024-10" then 4500 else 0)
  {
    var t := TestIncome();
    assert t[..1] == [] + [t[0]] && t[..2] == t[..1] + [t[1]] && t[..3] == t[..2] + [t[2]];
    assert t[..4] == t[..3] + [t[3]] && t == t[..4] + [t[4]];
    IncomeForAppend([], t[0], m);
    IncomeForAppend(t[..1], t[1], m);
    IncomeForAppend(t[..2], t[2], m);
    IncomeForAppend(t[..3], t[3], m);
    IncomeForAppend(t[..4], t[4], m);
  }

  /** The spending of a month in the sample rows: the sum of the sample amounts dated that month. */
  lemma TestSpendFor(m: string)
    ensures SpendFor(TestSpend(), m) ==
            (if m == "2024-08" then 2200 else 0) + (if m == "2024-09" then 650 else 0) +
            (if m == "2024-10" then 1450 else 0)
  {
    var t := TestSpend();
    assert t[..1] == [] + [t[0]] && t[..2] == t[..1] + [t[1]] && t[..3] == t[..2] + [t[2]];
    assert t[..4] == t[..3] + [t[3]] && t[..5] == t[..4] + [t[4]] && t == t[..5] + [t[5]];
    SpendForAppend([], t[0], m);
    SpendForAppend(t[..1], t[1], m);
    SpendForAppend(t[..2], t[2], m);
    SpendForAppend(t[..3], t[3], m);
    SpendForAppend(t[..4], t[4], m);
    SpendForAppend(t[..5], t[5], m);
  }

  /** The balances of the three sample months, computed from the sample rows alone. */
  lemma TestDataBalances()
    ensures MonthBalance(TestIncome(), TestSpend(), "2024-08") == -1200
    ensures MonthBalance(TestIncome(), TestSpend(), "2024-09") == 1850
    ensures MonthBalance(TestIncome(), TestSpend(), "2024-10") == 3050
  {
    TestIncomeFor("2024-08");
    TestIncomeFor("2024-09");
    TestIncomeFor("2024-10");
    TestSpendFor("2024-08");
    TestSpendFor("2024-09");
    TestSpendFor("2024-10");
  }

  /** The MONTHLY_BALANCE table after add_test_data recomputes its three months, in order: the three
      months are added to the stored ones, and each holds its own balance. */
  function TestDataUpserts(income: seq<Income>, spend: seq<Spend>, balances: map<string, int>)
    : (r: map<string, int>)
    ensures r.Keys == balances.Keys + {"2024-08", "2024-09", "2024-10"}
    ensures r["2024-08"] == MonthBalance(income, spend, "2024-08")
    ensures r["2024-09"] == MonthBalance(income, spend, "2024-09")
    ensures r["2024-10"] == MonthBalance(income, spend, "2024-10")
  {
    var august := Upserted(income, spend, balances, "2024-08");
    var september := Upserted(income, spend, august, "2024-09");
    Upserted(income, spend, september, "2024-10")
  }

  /** On empty tables the sample data gives August -1200, September 1850 and October 3050. */
  lemma TestDataOnEmptyTables(balances: map<string, int>)
    ensures var after := TestDataUpserts(TestIncome(), TestSpend(), balances);
            after["2024-08"] == -1200 && after["2024-09"] == 1850 && after["2024-10"] == 3050
  {
    TestMonthsDiffer();
    TestDataBalances();
  }
}
