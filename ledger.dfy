/**
 * The transaction ledger of database.py as an object whose three tables change in place: INCOME and
 * SPEND only ever grow by appended rows, and MONTHLY_BALANCE (keyed by its Month primary key) is
 * upserted after every insert. The SQLite connection is replaced by the three fields.
 */
module Ledger {
  import opened Wrappers
  import opened IntParse
  import opened LedgerQueries

  class Database {
    /** The INCOME table, in insertion order. */
    var income: seq<Income>
    /** The SPEND table, in insertion order. */
    var spend: seq<Spend>
    /** The MONTHLY_BALANCE table: Month -> Balance, one row per month. */
    var monthlyBalance: map<string, int>

    /** Every stored month balance is that month's income minus its spending. */
    ghost predicate Valid()
      reads this
    {
      Consistent(income, spend, monthlyBalance)
    }

    /** A database whose three tables have just been created and are empty. */
    constructor()
      ensures income == [] && spend == [] && monthlyBalance == map[]
      ensures Valid()
    {
      income := [];
      spend := [];
      monthlyBalance := map[];
    }

    /** update_monthly_balance: store (or overwrite) `month`'s income minus spending; nothing else changes. */
    method UpdateMonthlyBalance(month: string)
      modifies this
      ensures income == old(income) && spend == old(spend)
      ensures monthlyBalance == Upserted(income, spend, old(monthlyBalance), month)
      ensures old(Valid()) ==> Valid()
    {
      UpsertKeepsConsistent(income, spend, monthlyBalance, month);
      var totalIncome := IncomeFor(income, month);
      var totalSpending := SpendFor(spend, month);
      var balance := totalIncome - totalSpending;
      assert balance == MonthBalance(income, spend, month);
      monthlyBalance := monthlyBalance[month := balance];
    }

    /**
     * add_income: when `amount` reads as an integer, append the row (date, amount) to INCOME and
     * recompute that date's balance; otherwise report the invalid amount (ok == false) and change nothing.
     */
    method AddIncome(date: string, amount: string) returns (ok: bool)
      modifies this
      ensures ok <==> ParseInt(amount).Some?
      ensures ok ==> income == old(income) + [Income(date, ParseInt(amount).value)]
      ensures spend == old(spend)
      ensures ok ==> monthlyBalance == Upserted(income, spend, old(monthlyBalance), date)
      ensures !ok ==> income == old(income) && monthlyBalance == old(monthlyBalance)
      ensures ok ==> RunningBalance(income, spend) ==
                     RunningBalance(old(income), spend) + ParseInt(amount).value
      ensures old(Valid()) ==> Valid()
    {
      var parsed := ParseInt(amount);
      if parsed.None? {
        ok := false;
        return;
      }
      var row := Income(date, parsed.value);
      if Valid() {
        AddIncomeKeepsConsistent(income, spend, monthlyBalance, row);
      }
      RunningBalanceAfterIncome(income, spend, row);
      income := income + [row];
      UpdateMonthlyBalance(date);
      ok := true;
    }

    /**
     * add_spend: when `amount` reads as an integer, append the row (date, kind, amount) to SPEND and
     * recompute that date's balance; otherwise report the invalid amount (ok == false) and change nothing.
     */
    method AddSpend(date: string, kind: string, amount: string) returns (ok: bool)
      modifies this
      ensures ok <==> ParseInt(amount).Some?
      ensures ok ==> spend == old(spend) + [Spend(date, kind, ParseInt(amount).value)]
      ensures income == old(income)
      ensures ok ==> monthlyBalance == Upserted(income, spend, old(monthlyBalance), date)
      ensures !ok ==> spend == old(spend) && monthlyBalance == old(monthlyBalance)
      ensures ok ==> RunningBalance(income, spend) ==
                     RunningBalance(income, old(spend)) - ParseInt(amount).value
      ensures old(Valid()) ==> Valid()
    {
      var parsed := ParseInt(amount);
      if parsed.None? {
        ok := false;
        return;
      }
      var row := Spend(date, kind, parsed.value);
      if Valid() {
        AddSpendKeepsConsistent(income, spend, monthlyBalance, row);
      }
      RunningBalanceAfterSpend(income, spend, row);
      spend := spend + [row];
      UpdateMonthlyBalance(date);
      ok := true;
    }

    /** insert_data into INCOME: append `rows` to the table, in order; nothing else changes. */
    method InsertIncome(rows: seq<Income>)
      modifies this
      ensures income == old(income) + rows
      ensures spend == old(spend) && monthlyBalance == old(monthlyBalance)
    {
      income := income + rows;
    }

    /** insert_data into SPEND: append `rows` to the table, in order; nothing else changes. */
    method InsertSpend(rows: seq<Spend>)
      modifies this
      ensures spend == old(spend) + rows
      ensures income == old(income) && monthlyBalance == old(monthlyBalance)
    {
      spend := spend + rows;
    }

    /**
     * add_test_data: append the sample INCOME and SPEND rows, then recompute the balances of
     * 2024-08, 2024-09 and 2024-10. Started on empty tables, it stores -1200, 1850 and 3050.
     */
    method AddTestData()
      modifies this
      ensures income == old(income) + TestIncome() && spend == old(spend) + TestSpend()
      ensures monthlyBalance == TestDataUpserts(income, spend, old(monthlyBalance))
      ensures old(Valid()) ==> Valid()
      ensures old(income) == [] && old(spend) == [] ==>
              monthlyBalance["2024-08"] == -1200 && monthlyBalance["2024-09"] == 1850 &&
              monthlyBalance["2024-10"] == 3050
    {
      ghost var income0, spend0, balances0 := income, spend, monthlyBalance;
      InsertIncome(TestIncome());
      InsertSpend(TestSpend());
      UpdateMonthlyBalance("2024-08");
      UpdateMonthlyBalance("2024-09");
      UpdateMonthlyBalance("2024-10");
      if Consistent(income0, spend0, balances0) {
        TestDataKeepsConsistent(income0, spend0, balances0);
      }
      if income0 == [] && spend0 == [] {
        assert income == TestIncome() && spend == TestSpend();
        TestDataOnEmptyTables(balances0);
      }
    }
  }

  /** Appending the sample rows changes only the three sample months, so recomputing them restores the invariant. */
  lemma TestDataKeepsConsistent(income: seq<Income>, spend: seq<Spend>, balances: map<string, int>)
    requires Consistent(income, spend, balances)
    ensures var i, s := income + TestIncome(), spend + TestSpend();
            Consistent(i, s, TestDataUpserts(i, s, balances))
  {
    var i, s := income + TestIncome(), spend + TestSpend();
    forall m | m in balances && m != "2024-08" && m != "2024-09" && m != "2024-10"
      ensures balances[m] == MonthBalance(i, s, m)
    {
      TestRowMonths();
      AppendElsewhere(income, spend, TestIncome(), TestSpend(), m);
    }
  }
}
