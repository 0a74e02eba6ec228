/**
 * The loan amortization simulation of interest.py (Calculate_compound_interest) and the loan
 * calculator that calls it (main.py, calculate_interest): its input guard and the figures it
 * derives from the result. All arithmetic is over `real`; the source's IEEE doubles are not modelled.
 */
module Amortization {
  import opened Wrappers

  /** What the simulation returns: the number of months to pay the loan off, the total paid, and
      two parallel lists holding each month's closing balance and interest charge. */
  datatype Schedule = Schedule(months: nat, totalPaid: real, balances: seq<real>, interests: seq<real>)

  /** The simulation either completes or raises because the payment does not exceed a month's interest. */
  datatype Outcome = Repaid(schedule: Schedule) | PaymentTooLow

  /** Interest charged for one month on `balance`; `rate` is the annual rate as a fraction. Nothing is
      charged at a zero rate, and a non-negative balance at a non-negative rate is charged no less than nothing. */
  function MonthlyInterest(balance: real, rate: real): (r: real)
    ensures rate == 0.0 ==> r == 0.0
    ensures balance >= 0.0 && rate >= 0.0 ==> r >= 0.0
  {
    balance * rate / 12.0
  }

  /** The balance once a month's principal portion (the payment less the interest) is subtracted,
      before the final-month clamp. */
  function Unclamped(open: real, interest: real, payment: real): real
  {
    open - (payment - interest)
  }

  /** The closing balance recorded for a month: an overshoot in the final month is clamped to zero, so
      it is never negative, and a payment above the interest lowers a positive balance. */
  function NextBalance(open: real, interest: real, payment: real): (r: real)
    ensures r >= 0.0
    ensures open > 0.0 && payment > interest ==> r < open
  {
    var b := Unclamped(open, interest, payment);
    if b < 0.0 then 0.0 else b
  }

  /** What a month adds to the total paid: the nominal payment, shrunk by the overshoot in the final
      month. It is exactly the principal the month retires plus its interest, and never above the payment. */
  function PaidInMonth(open: real, interest: real, payment: real): (r: real)
    ensures r == open - NextBalance(open, interest, payment) + interest
    ensures r <= payment
  {
    var b := Unclamped(open, interest, payment);
    if b < 0.0 then payment + b else payment
  }

  /** One simulated month: it runs only on a positive balance, the payment exceeds the interest
      charged, and the recorded interest and closing balance follow from the opening balance. */
  ghost predicate Step(open: real, interest: real, balance: real, rate: real, payment: real)
  {
    open > 0.0 &&
    interest == MonthlyInterest(open, rate) &&
    payment > interest &&
    balance == NextBalance(open, interest, payment)
  }

  /** The balance at the start of month `i` (counting from 0): the principal, then the previous closing balance. */
  function Opening(amount0: real, balances: seq<real>, i: nat): real
    requires i <= |balances|
  {
    if i == 0 then amount0 else balances[i - 1]
  }

  /** The sum of a sequence of reals. */
  function Sum(xs: seq<real>): real
  {
    if xs == [] then 0.0 else Sum(xs[..|xs| - 1]) + xs[|xs| - 1]
  }

  /** The total paid over the months whose closing balances and interest charges are given. */
  function PaidSum(amount0: real, payment: real, balances: seq<real>, interests: seq<real>): real
    requires |balances| == |interests|
  {
    if balances == [] then 0.0
    else
      var k := |balances| - 1;
      PaidSum(amount0, payment, balances[..k], interests[..k]) + PaidInMonth(Opening(amount0, balances, k), interests[k], payment)
  }

  /** The two parallel lists record months of the simulation, each a step from the one before. */
  ghost predicate Trace(amount0: real, rate: real, payment: real, balances: seq<real>, interests: seq<real>)
  {
    |balances| == |interests| &&
    (balances == [] ||
      var k := |balances| - 1;
      Trace(amount0, rate, payment, balances[..k], interests[..k]) &&
      Step(Opening(amount0, balances, k), interests[k], balances[k], rate, payment))
  }

  /** `s` is the outcome of the simulation on these inputs: one step per month while the balance is
      positive, stopping at the first balance that is not, with the total paid summed month by month. */
  ghost predicate IsSchedule(amount0: real, rate: real, payment: real, s: Schedule)
  {
    s.months == |s.balances| &&
    Trace(amount0, rate, payment, s.balances, s.interests) &&
    Opening(amount0, s.balances, s.months) <= 0.0 &&
    s.totalPaid == PaidSum(amount0, payment, s.balances, s.interests)
  }

  /** Every month of a trace is a step of the simulation. */
  lemma {:induction false} TraceAt(amount0: real, rate: real, payment: real, balances: seq<real>, interests: seq<real>, i: nat)
    requires Trace(amount0, rate, payment, balances, interests) && i < |balances|
    ensures Step(Opening(amount0, balances, i), interests[i], balances[i], rate, payment)
  {
    var k := |balances| - 1;
    if i < k {
      TraceAt(amount0, rate, payment, balances[..k], interests[..k], i);
      assert Opening(amount0, balances[..k], i) == Opening(amount0, balances, i);
    }
  }

  /** Appending a step for the next month extends a trace and adds that month's payment to the total. */
  lemma TraceExtend(amount0: real, rate: real, payment: real, balances: seq<real>, interests: seq<real>,
                    interest: real, balance: real)
    requires Trace(amount0, rate, payment, balances, interests)
    requires Step(Opening(amount0, balances, |balances|), interest, balance, rate, payment)
    ensures Trace(amount0, rate, payment, balances + [balance], interests + [interest])
    ensures PaidSum(amount0, payment, balances + [balance], interests + [interest])
         == PaidSum(amount0, payment, balances, interests) + PaidInMonth(Opening(amount0, balances, |balances|), interest, payment)
  {
    var bs, ins := balances + [balance], interests + [interest];
    assert bs[..|balances|] == balances && ins[..|interests|] == interests;
    assert Opening(amount0, bs, |balances|) == Opening(amount0, balances, |balances|);
  }

  /** With a non-negative rate, a smaller balance is charged no more interest. */
  lemma InterestMonotone(b: real, a: real, rate: real)
    requires b <= a && rate >= 0.0
    ensures MonthlyInterest(b, rate) <= MonthlyInterest(a, rate)
  {
    assert (a - b) * rate >= 0.0;
  }

  /** A product with a positive factor is non-negative only if the other factor is. */
  lemma SignOfProduct(d: real, m: real)
    requires m > 0.0 && d * m >= 0.0
    ensures d >= 0.0
  {
  }

  /** The termination measure of the simulation loop: how many margins the balance still holds, plus one. */
  ghost function Measure(balance: real, margin: real): real
  {
    if balance > 0.0 && margin > 0.0 then balance / margin + 1.0 else 0.0
  }

  /** A month that retires at least `margin` of a positive balance, or all of it, lowers the measure by one. */
  lemma MeasureDrops(balance': real, balance: real, margin: real)
    requires margin > 0.0 && balance > 0.0
    requires balance' <= 0.0 || balance' <= balance - margin
    ensures 0.0 <= Measure(balance, margin)
    ensures Measure(balance', margin) <= Measure(balance, margin) - 1.0
  {
    assert (balance / margin) * margin == balance;
    SignOfProduct(balance / margin, margin);
    if balance' > 0.0 {
      assert (balance' / margin) * margin == balance';
      var d := balance / margin - 1.0 - balance' / margin;
      assert d * margin == balance - margin - balance';
      SignOfProduct(d, margin);
    }
  }

  /**
   * The simulation loop. It raises exactly when the first month's interest is at least the payment
   * (with a non-negative rate the balance only falls, so a later month never raises); otherwise the
   * result is the schedule of the loop's trace.
   */
  method CompoundInterest(amount: real, rate: real, payment: real) returns (r: Outcome)
    requires rate >= 0.0
    ensures r.PaymentTooLow? <==> amount > 0.0 && payment <= MonthlyInterest(amount, rate)
    ensures r.Repaid? ==> IsSchedule(amount, rate, payment, r.schedule)
  {
    var balance := amount;
    var pay := payment;
    var months: nat := 0;
    var totalPaid := 0.0;
    var balances: seq<real> := [];
    var interests: seq<real> := [];
    ghost var margin := payment - MonthlyInterest(amount, rate);
    while balance > 0.0
      invariant |balances| == months
      invariant Trace(amount, rate, payment, balances, interests)
      invariant balance == Opening(amount, balances, months)
      invariant totalPaid == PaidSum(amount, payment, balances, interests)
      invariant balance > 0.0 ==> pay == payment
      invariant months > 0 ==> margin > 0.0 && balance <= amount
      decreases Measure(balance, margin)
    {
      if months > 0 {
        InterestMonotone(balance, amount, rate);
      }
      var interest := MonthlyInterest(balance, rate);
      if pay <= interest {
        return PaymentTooLow;
      }
      ghost var open := balance;
      assert payment - interest >= margin;
      var principalPayment := pay - interest;
      balance := balance - principalPayment;
      if balance < 0.0 {
        pay := pay + balance;
        principalPayment := principalPayment + balance;
        balance := 0.0;
      }
      TraceExtend(amount, rate, payment, balances, interests, interest, balance);
      totalPaid := totalPaid + pay;
      months := months + 1;
      balances := balances + [if balance > 0.0 then balance else 0.0];
      interests := interests + [interest];
      MeasureDrops(balance, open, margin);
    }
    return Repaid(Schedule(months, totalPaid, balances, interests));
  }

  /** One month: the closing balance is non-negative and below the opening one, the month pays off
      exactly the principal it retires plus its interest, and only the final month pays less than the
      nominal payment. With a non-negative rate the interest is non-negative and the amount paid lies in
      (0, payment]. */
  lemma StepFacts(open: real, interest: real, balance: real, rate: real, payment: real)
    requires Step(open, interest, balance, rate, payment)
    ensures 0.0 <= balance < open
    ensures PaidInMonth(open, interest, payment) == open - balance + interest
    ensures balance > 0.0 ==> PaidInMonth(open, interest, payment) == payment
    ensures rate >= 0.0 ==> 0.0 <= interest && 0.0 < PaidInMonth(open, interest, payment) <= payment
  {
    if rate >= 0.0 {
      assert open * rate >= 0.0;
    }
  }

  /** A completed schedule when something is owed: at least one month, the last balance exactly zero,
      every balance non-negative and below the opening balance of its month (so the first lies below
      the principal), every balance but the last still positive, and the first month's interest charged
      on the principal. When nothing is owed the loop never runs. */
  lemma ScheduleShape(amount0: real, rate: real, payment: real, s: Schedule)
    requires IsSchedule(amount0, rate, payment, s)
    ensures |s.balances| == s.months && |s.interests| == s.months
    ensures amount0 <= 0.0 ==> s == Schedule(0, 0.0, [], [])
    ensures amount0 > 0.0 ==> s.months > 0 && s.balances[s.months - 1] == 0.0
    ensures amount0 > 0.0 ==> s.interests[0] == MonthlyInterest(amount0, rate)
    ensures forall i :: 0 <= i < s.months ==> 0.0 <= s.balances[i] < Opening(amount0, s.balances, i)
    ensures forall i :: 0 <= i < s.months - 1 ==> s.balances[i] > 0.0
  {
    var n: int := s.months;
    forall i | 0 <= i < n
      ensures 0.0 <= s.balances[i] < Opening(amount0, s.balances, i)
    {
      TraceAt(amount0, rate, payment, s.balances, s.interests, i);
      StepFacts(Opening(amount0, s.balances, i), s.interests[i], s.balances[i], rate, payment);
    }
    forall i | 0 <= i < n - 1
      ensures s.balances[i] > 0.0
    {
      TraceAt(amount0, rate, payment, s.balances, s.interests, i + 1);
    }
    if n > 0 {
      TraceAt(amount0, rate, payment, s.balances, s.interests, 0);
    }
  }

  /** The balances strictly decrease from month to month. */
  lemma {:induction false} BalancesDecrease(amount0: real, rate: real, payment: real, s: Schedule, i: nat, j: nat)
    requires IsSchedule(amount0, rate, payment, s)
    requires i < j < s.months
    ensures s.balances[j] < s.balances[i]
    decreases j - i
  {
    TraceAt(amount0, rate, payment, s.balances, s.interests, j);
    StepFacts(Opening(amount0, s.balances, j), s.interests[j], s.balances[j], rate, payment);
    if i < j - 1 {
      BalancesDecrease(amount0, rate, payment, s, i, j - 1);
    }
  }

  /** The sum of non-negative reals is non-negative. */
  lemma {:induction false} SumNonNegative(xs: seq<real>)
    requires forall i :: 0 <= i < |xs| ==> xs[i] >= 0.0
    ensures Sum(xs) >= 0.0
  {
    if xs != [] {
      var k := |xs| - 1;
      assert forall i :: 0 <= i < k ==> xs[..k][i] == xs[i];
      SumNonNegative(xs[..k]);
    }
  }

  /** Month by month, the total paid is the principal retired so far plus the interest charged so far. */
  lemma {:induction false} PaidSumTelescopes(amount0: real, rate: real, payment: real, balances: seq<real>, interests: seq<real>)
    requires Trace(amount0, rate, payment, balances, interests)
    ensures PaidSum(amount0, payment, balances, interests)
         == amount0 - Opening(amount0, balances, |balances|) + Sum(interests)
  {
    if balances != [] {
      var k := |balances| - 1;
      PaidSumTelescopes(amount0, rate, payment, balances[..k], interests[..k]);
      assert Opening(amount0, balances[..k], k) == Opening(amount0, balances, k);
      StepFacts(Opening(amount0, balances, k), interests[k], balances[k], rate, payment);
    }
  }

  /** The total paid is the principal plus all the interest charged (nothing at all when nothing is owed). */
  lemma TotalPaidIsPrincipalPlusInterest(amount0: real, rate: real, payment: real, s: Schedule)
    requires IsSchedule(amount0, rate, payment, s)
    ensures s.totalPaid == (if amount0 > 0.0 then amount0 else 0.0) + Sum(s.interests)
  {
    PaidSumTelescopes(amount0, rate, payment, s.balances, s.interests);
    ScheduleShape(amount0, rate, payment, s);
  }

  /** Adding one more term bounded by `p` to a sum bounded by `k * p`. */
  lemma BoundStep(total: real, prefix: real, last: real, k: nat, p: real)
    requires total == prefix + last && prefix <= k as real * p && last <= p
    ensures total <= (k + 1) as real * p
  {
    assert (k + 1) as real * p == k as real * p + p;
  }

  /** With a non-negative rate, no month pays more than the nominal payment. */
  lemma {:induction false} PaidSumAtMost(amount0: real, rate: real, payment: real, balances: seq<real>, interests: seq<real>)
    requires Trace(amount0, rate, payment, balances, interests) && rate >= 0.0
    ensures PaidSum(amount0, payment, balances, interests) <= |balances| as real * payment
  {
    if balances != [] {
      var k := |balances| - 1;
      PaidSumAtMost(amount0, rate, payment, balances[..k], interests[..k]);
      var open := Opening(amount0, balances, k);
      StepFacts(open, interests[k], balances[k], rate, payment);
      BoundStep(PaidSum(amount0, payment, balances, interests), PaidSum(amount0, payment, balances[..k], interests[..k]),
        PaidInMonth(open, interests[k], payment), k, payment);
    }
  }

  /** With a non-negative rate, every month's interest is non-negative and at most the first month's,
      which is below the payment: the "payment too low" check can only fire in the first month. */
  lemma InterestNeverAboveFirst(amount0: real, rate: real, payment: real, s: Schedule)
    requires IsSchedule(amount0, rate, payment, s) && rate >= 0.0
    ensures forall i :: 0 <= i < s.months ==> 0.0 <= s.interests[i] <= MonthlyInterest(amount0, rate) < payment
  {
    ScheduleShape(amount0, rate, payment, s);
    forall i | 0 <= i < s.months
      ensures 0.0 <= s.interests[i] <= MonthlyInterest(amount0, rate) < payment
    {
      var open := Opening(amount0, s.balances, i);
      TraceAt(amount0, rate, payment, s.balances, s.interests, i);
      StepFacts(open, s.interests[i], s.balances[i], rate, payment);
      if i > 1 {
        BalancesDecrease(amount0, rate, payment, s, 0, i - 1);
      }
      InterestMonotone(open, amount0, rate);
      TraceAt(amount0, rate, payment, s.balances, s.interests, 0);
    }
  }

  /** Every month but the last pays exactly the nominal payment; with a non-negative rate the last one
      pays more than nothing and at most the payment. */
  lemma MonthlyPayments(amount0: real, rate: real, payment: real, s: Schedule, i: nat)
    requires IsSchedule(amount0, rate, payment, s) && i < s.months
    ensures i < s.months - 1 ==> PaidInMonth(Opening(amount0, s.balances, i), s.interests[i], payment) == payment
    ensures rate >= 0.0 ==> 0.0 < PaidInMonth(Opening(amount0, s.balances, i), s.interests[i], payment) <= payment
  {
    ScheduleShape(amount0, rate, payment, s);
    TraceAt(amount0, rate, payment, s.balances, s.interests, i);
    StepFacts(Opening(amount0, s.balances, i), s.interests[i], s.balances[i], rate, payment);
  }

  /** With a non-negative rate, the loan takes at least as many months to pay off as saving the
      principal at the same monthly payment would: principal <= months * payment. */
  lemma PayoffNotShorterThanSaving(amount0: real, rate: real, payment: real, s: Schedule)
    requires IsSchedule(amount0, rate, payment, s) && rate >= 0.0
    ensures amount0 <= s.months as real * payment
  {
    TotalPaidIsPrincipalPlusInterest(amount0, rate, payment, s);
    PaidSumAtMost(amount0, rate, payment, s.balances, s.interests);
    InterestNeverAboveFirst(amount0, rate, payment, s);
    SumNonNegative(s.interests);
  }

  /** Two schedules of the same inputs open every month they share on the same balance. */
  lemma {:induction false} OpeningsAgree(amount0: real, rate: real, payment: real, s: Schedule, t: Schedule, i: nat)
    requires IsSchedule(amount0, rate, payment, s) && IsSchedule(amount0, rate, payment, t)
    requires i <= s.months && i <= t.months
    ensures Opening(amount0, s.balances, i) == Opening(amount0, t.balances, i)
  {
    if i > 0 {
      OpeningsAgree(amount0, rate, payment, s, t, i - 1);
      TraceAt(amount0, rate, payment, s.balances, s.interests, i - 1);
      TraceAt(amount0, rate, payment, t.balances, t.interests, i - 1);
    }
  }

  /** The schedule is determined by the inputs: running the simulation twice on the same inputs gives
      the same months, total, balances and interest charges. */
  lemma ScheduleIsUnique(amount0: real, rate: real, payment: real, s: Schedule, t: Schedule)
    requires IsSchedule(amount0, rate, payment, s) && IsSchedule(amount0, rate, payment, t)
    ensures s == t
  {
    var n := if s.months <= t.months then s.months else t.months;
    OpeningsAgree(amount0, rate, payment, s, t, n);
    if n < s.months {
      TraceAt(amount0, rate, payment, s.balances, s.interests, n);
    }
    if n < t.months {
      TraceAt(amount0, rate, payment, t.balances, t.interests, n);
    }
    assert s.months == t.months;
    forall i | 0 <= i < n
      ensures s.balances[i] == t.balances[i] && s.interests[i] == t.interests[i]
    {
      OpeningsAgree(amount0, rate, payment, s, t, i);
      OpeningsAgree(amount0, rate, payment, s, t, i + 1);
      TraceAt(amount0, rate, payment, s.balances, s.interests, i);
      TraceAt(amount0, rate, payment, t.balances, t.interests, i);
    }
    assert s.balances == t.balances && s.interests == t.interests;
  }

  /** The sum of zeros is zero. */
  lemma {:induction false} SumOfZeros(xs: seq<real>)
    requires forall i :: 0 <= i < |xs| ==> xs[i] == 0.0
    ensures Sum(xs) == 0.0
  {
    if xs != [] {
      var k := |xs| - 1;
      assert forall i :: 0 <= i < k ==> xs[..k][i] == xs[i];
      SumOfZeros(xs[..k]);
    }
  }

  /** With a zero rate, each month opens on the principal less the payments already made. */
  lemma {:induction false} ZeroRateOpening(amount0: real, payment: real, s: Schedule, i: nat)
    requires IsSchedule(amount0, 0.0, payment, s) && i < s.months
    ensures Opening(amount0, s.balances, i) == amount0 - i as real * payment
  {
    if i > 0 {
      ZeroRateOpening(amount0, payment, s, i - 1);
      TraceAt(amount0, 0.0, payment, s.balances, s.interests, i - 1);
      TraceAt(amount0, 0.0, payment, s.balances, s.interests, i);
      assert i as real * payment == (i - 1) as real * payment + payment;
    }
  }

  /** With a zero rate no interest is charged and the total paid is exactly the principal. */
  lemma ZeroRateSchedule(amount0: real, payment: real, s: Schedule)
    requires IsSchedule(amount0, 0.0, payment, s) && amount0 > 0.0
    ensures forall i :: 0 <= i < s.months ==> s.interests[i] == 0.0
    ensures s.totalPaid == amount0
  {
    ScheduleShape(amount0, 0.0, payment, s);
    forall i | 0 <= i < s.months
      ensures s.interests[i] == 0.0
    {
      TraceAt(amount0, 0.0, payment, s.balances, s.interests, i);
    }
    SumOfZeros(s.interests);
    TotalPaidIsPrincipalPlusInterest(amount0, 0.0, payment, s);
  }

  /** With a zero rate the number of months is the principal divided by the payment, rounded up:
      (months - 1) * payment < principal <= months * payment. */
  lemma ZeroRateMonths(amount0: real, payment: real, s: Schedule)
    requires IsSchedule(amount0, 0.0, payment, s) && amount0 > 0.0
    ensures (s.months - 1) as real * payment < amount0 <= s.months as real * payment
  {
    assert s.months > 0;
    var k := s.months - 1;
    ZeroRateOpening(amount0, payment, s, k);
    TraceAt(amount0, 0.0, payment, s.balances, s.interests, k);
    CeilingBounds(amount0, Opening(amount0, s.balances, k), payment, s.months);
  }

  /** The arithmetic of the last month at a zero rate: it opens on a positive balance that one payment clears. */
  lemma CeilingBounds(amount0: real, open: real, payment: real, m: nat)
    requires m > 0 && open == amount0 - (m - 1) as real * payment && 0.0 < open <= payment
    ensures (m - 1) as real * payment < amount0 <= m as real * payment
  {
    assert m as real * payment == (m - 1) as real * payment + payment;
  }

  /** A worked example: 1200 borrowed at 0% and repaid at 400 a month takes three months, pays 1200
      in all, and leaves balances 800, 400 and 0. */
  lemma ZeroRateExample(s: Schedule)
    requires IsSchedule(1200.0, 0.0, 400.0, s)
    ensures s == Schedule(3, 1200.0, [800.0, 400.0, 0.0], [0.0, 0.0, 0.0])
  {
    TraceExtend(1200.0, 0.0, 400.0, [], [], 0.0, 800.0);
    TraceExtend(1200.0, 0.0, 400.0, [800.0], [0.0], 0.0, 400.0);
    TraceExtend(1200.0, 0.0, 400.0, [800.0, 400.0], [0.0, 0.0], 0.0, 0.0);
    ScheduleIsUnique(1200.0, 0.0, 400.0, s, Schedule(3, 1200.0, [800.0, 400.0, 0.0], [0.0, 0.0, 0.0]));
  }

  /** Why the loan calculator rejects a request. */
  datatype LoanError = InvalidTerms | PaymentTooLowError

  /** What the loan calculator shows: the schedule, the interest paid on top of the principal, and how
      many months saving the payment would take to reach the principal. */
  datatype LoanReport = LoanReport(schedule: Schedule, totalInterest: real, monthsToSave: real)

  /** The calculator's guard on its inputs: a positive loan, a non-negative rate and a positive payment. */
  predicate ValidTerms(loanAmount: real, rate: real, monthlyPayment: real)
  {
    loanAmount > 0.0 && rate >= 0.0 && monthlyPayment > 0.0
  }

  /** A quotient bound: a <= m * p with p > 0 gives a / p <= m. */
  lemma QuotientAtMost(a: real, m: real, p: real)
    requires p > 0.0 && a <= m * p
    ensures a / p <= m
  {
    assert (a / p) * p == a;
    assert (m - a / p) * p == m * p - a;
    SignOfProduct(m - a / p, p);
  }

  /**
   * The loan calculator: converts the rate from a percentage, rejects invalid terms, runs the
   * simulation and derives the total interest (total paid less the principal) and the time it would
   * take to save the principal instead. The interest shown is exactly the interest the schedule
   * charged, and saving never takes longer than paying the loan off.
   */
  method CalculateLoan(loanAmount: real, ratePercent: real, monthlyPayment: real) returns (r: Result<LoanReport, LoanError>)
    ensures r == Failure(InvalidTerms) <==> !ValidTerms(loanAmount, ratePercent / 100.0, monthlyPayment)
    ensures r == Failure(PaymentTooLowError) <==>
      ValidTerms(loanAmount, ratePercent / 100.0, monthlyPayment) &&
      monthlyPayment <= MonthlyInterest(loanAmount, ratePercent / 100.0)
    ensures r.Success? ==> IsSchedule(loanAmount, ratePercent / 100.0, monthlyPayment, r.value.schedule)
    ensures r.Success? ==> 0.0 <= r.value.totalInterest == Sum(r.value.schedule.interests)
    ensures r.Success? ==> r.value.monthsToSave == loanAmount / monthlyPayment <= r.value.schedule.months as real
  {
    var rate := ratePercent / 100.0;
    if !ValidTerms(loanAmount, rate, monthlyPayment) {
      return Failure(InvalidTerms);
    }
    var outcome := CompoundInterest(loanAmount, rate, monthlyPayment);
    match outcome
    case PaymentTooLow =>
      r := Failure(PaymentTooLowError);
    case Repaid(s) =>
      TotalPaidIsPrincipalPlusInterest(loanAmount, rate, monthlyPayment, s);
      InterestNeverAboveFirst(loanAmount, rate, monthlyPayment, s);
      SumNonNegative(s.interests);
      PayoffNotShorterThanSaving(loanAmount, rate, monthlyPayment, s);
      QuotientAtMost(loanAmount, s.months as real, monthlyPayment);
      r := Success(LoanReport(s, s.totalPaid - loanAmount, loanAmount / monthlyPayment));
  }
}
