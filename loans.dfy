/**
 * A single fixed-rate loan paid monthly (`loan_analytics/Loan.py`): the
 * parameter guard, the period-by-period amortization and the totals.
 *
 * The specification of the simulation is the function `Rows`, which gives the
 * whole schedule as a value; the imperative `Loan.ComputeSchedule` is proved
 * to write exactly that schedule, and the properties of the schedule are
 * lemmas about `Rows`.
 */
module Loans {
  import opened Wrappers
  import opened Schedules

  /** The four inputs of a loan: rate is an annual percentage. */
  datatype LoanParams = LoanParams(principal: real, rate: real, payment: real, extraPayment: real)

  /** The five `ValueError`s of `check_loan_parameters`, in the order they are tried. */
  datatype ParamError =
    | InvalidPrincipal
    | InvalidRate
    | InvalidPayment
    | InvalidExtraPayment
    | PaymentTooSmall(critical: real)

  /**
   * Python's `round(x, 2)` on exact reals. Ties go up here; only the bound in
   * the postcondition is relied on.
   */
  function Round2(x: real): (r: real)
    ensures x - 0.005 < r <= x + 0.005
  {
    ((x * 100.0 + 0.5).Floor as real) / 100.0
  }

  /** One month's interest on a balance: `balance * rate / 12 / 100`. */
  function MonthlyInterest(balance: real, rate: real): real
  {
    balance * rate / 12.0 / 100.0
  }

  /** A larger balance never accrues less interest at a non-negative rate. */
  lemma InterestMonotone(a: real, b: real, rate: real)
    requires a <= b && rate >= 0.0
    ensures MonthlyInterest(a, rate) <= MonthlyInterest(b, rate)
  {
    assert (b - a) * rate >= 0.0;
  }

  /**
   * `check_loan_parameters`: the checks run in order and the first one that
   * fails decides the error; passing all five means the scheduled payment
   * alone exceeds the first month's interest by at least 0.015.
   */
  function CheckParameters(p: LoanParams): (r: Outcome<ParamError>)
    ensures r == Fail(InvalidPrincipal) <==> p.principal < 0.01
    ensures r == Fail(InvalidRate) <==> p.principal >= 0.01 && p.rate < 0.0
    ensures r == Fail(InvalidPayment) <==> p.principal >= 0.01 && p.rate >= 0.0 && p.payment < 0.01
    ensures r == Fail(InvalidExtraPayment) <==>
              p.principal >= 0.01 && p.rate >= 0.0 && p.payment >= 0.01 && p.extraPayment < 0.0
    ensures r.Fail? && r.error.PaymentTooSmall? <==>
              p.principal >= 0.01 && p.rate >= 0.0 && p.payment >= 0.01 && p.extraPayment >= 0.0 &&
              p.payment < Round2(MonthlyInterest(p.principal, p.rate)) + 0.02
    ensures r.Fail? && r.error.PaymentTooSmall? ==>
              r.error.critical == Round2(MonthlyInterest(p.principal, p.rate)) + 0.01
    ensures r.Pass? ==>
              p.principal >= 0.01 && p.rate >= 0.0 && p.extraPayment >= 0.0 &&
              p.payment >= MonthlyInterest(p.principal, p.rate) + 0.015
  {
    if p.principal < 0.01 then Fail(InvalidPrincipal)
    else if p.rate < 0.0 then Fail(InvalidRate)
    else if p.payment < 0.01 then Fail(InvalidPayment)
    else if p.extraPayment < 0.0 then Fail(InvalidExtraPayment)
    else
      var critical := Round2(MonthlyInterest(p.principal, p.rate)) + 0.01;
      if p.payment < critical + 0.01 then Fail(PaymentTooSmall(critical)) else Pass
  }

  predicate Validated(p: LoanParams)
  {
    CheckParameters(p).Pass?
  }

  /**
   * One pass of the `compute_schedule` loop body for period `k` that starts at
   * `begin`. When payment plus extra would overshoot the balance, the payment
   * is cut to `begin + interest` and the extra to 0 for the principal, while
   * the row still records the loan's own extra payment.
   */
  function Period(p: LoanParams, k: int, begin: real): (row: Row)
    ensures row.month == k && row.begin == begin && row.extraPayment == p.extraPayment
    ensures row.appliedInterest == MonthlyInterest(begin, p.rate)
    ensures row.end == begin - row.appliedPrincipal
    ensures p.payment - row.appliedInterest + p.extraPayment > begin ==>
              row.payment == begin + row.appliedInterest && row.appliedPrincipal == begin && row.end == 0.0
    ensures p.payment - row.appliedInterest + p.extraPayment <= begin ==>
              row.payment == p.payment && row.appliedPrincipal == p.payment - row.appliedInterest + p.extraPayment &&
              row.end >= 0.0
  {
    var interest := MonthlyInterest(begin, p.rate);
    var applied := p.payment - interest + p.extraPayment;
    if applied > begin then
      var payment := begin + interest;
      var extra := 0.0;
      var capped := payment - interest + extra;
      Row(k, begin, payment, p.extraPayment, capped, interest, begin - capped)
    else
      Row(k, begin, p.payment, p.extraPayment, applied, interest, begin - applied)
  }

  /** The smallest principal reduction of a period that does not close the loan. */
  const MinStep: real := 0.015

  /** Termination measure: how many minimal steps fit into the balance. */
  function Measure(balance: real): nat
  {
    if balance <= 0.0 then 0 else (balance / MinStep).Floor + 1
  }

  /**
   * Termination: once the parameters pass the guard, every period that starts
   * within the principal either closes the loan or repays at least `MinStep`.
   */
  lemma StepShrinks(p: LoanParams, k: int, begin: real)
    requires Validated(p) && 0.0 < begin <= p.principal
    ensures Period(p, k, begin).end == 0.0 || 0.0 < Period(p, k, begin).end <= begin - MinStep
    ensures Measure(Period(p, k, begin).end) < Measure(begin)
  {
    InterestMonotone(begin, p.principal, p.rate);
    var e := Period(p, k, begin).end;
    if e > 0.0 {
      assert e / MinStep <= begin / MinStep - 1.0;
    }
  }

  /** The rows the loop writes from period `k` on, starting at balance `begin`. */
  function RowsFrom(p: LoanParams, k: int, begin: real): seq<Row>
    requires Validated(p) && begin <= p.principal
    decreases Measure(begin)
  {
    if begin <= 0.0 then []
    else
      StepShrinks(p, k, begin);
      var row := Period(p, k, begin);
      [row] + RowsFrom(p, k + 1, row.end)
  }

  /** The whole schedule of a loan whose parameters pass the guard. */
  function Rows(p: LoanParams): seq<Row>
    requires Validated(p)
  {
    RowsFrom(p, 1, p.principal)
  }

  /** Predicates on a schedule that the lemmas below establish for `RowsFrom`. */
  ghost predicate Numbered(rows: seq<Row>, k: int)
  {
    forall i :: 0 <= i < |rows| ==> rows[i].month == k + i
  }

  ghost predicate Chained(rows: seq<Row>)
  {
    forall i :: 0 <= i < |rows| - 1 ==> rows[i + 1].begin == rows[i].end
  }

  ghost predicate FollowsRule(p: LoanParams, rows: seq<Row>)
  {
    forall i :: 0 <= i < |rows| ==> rows[i] == Period(p, rows[i].month, rows[i].begin)
  }

  /** Every row but the last leaves a positive balance after a full scheduled payment. */
  ghost predicate OpenUntilLast(p: LoanParams, rows: seq<Row>)
  {
    forall i :: 0 <= i < |rows| - 1 ==> rows[i].end > 0.0 && rows[i].payment == p.payment
  }

  /** Every period starts with a positive balance no larger than the principal. */
  ghost predicate Bounded(p: LoanParams, rows: seq<Row>)
  {
    forall i :: 0 <= i < |rows| ==> 0.0 < rows[i].begin <= p.principal
  }

  /** Every end balance is non-negative and the last one is exactly zero. */
  ghost predicate ClosesAtZero(rows: seq<Row>)
  {
    (forall i :: 0 <= i < |rows| ==> rows[i].end >= 0.0) &&
    (|rows| > 0 ==> rows[|rows| - 1].end == 0.0)
  }

  /**
   * The shape of the schedule from period `k`: numbered k, k+1, ...; the first
   * row begins at `begin`; each row begins where the previous one ended; each
   * row follows the period rule; every row but the last keeps the balance
   * positive and pays the scheduled payment; the last row ends at exactly 0.
   */
  lemma {:induction false} RowsFromShape(p: LoanParams, k: int, begin: real)
    requires Validated(p) && 0.0 <= begin <= p.principal
    ensures var rows := RowsFrom(p, k, begin);
      && (|rows| > 0 <==> begin > 0.0)
      && (|rows| > 0 ==> rows[0].begin == begin)
      && Numbered(rows, k)
      && Chained(rows)
      && FollowsRule(p, rows)
      && Bounded(p, rows)
      && OpenUntilLast(p, rows)
      && ClosesAtZero(rows)
    decreases Measure(begin)
  {
    if begin > 0.0 {
      StepShrinks(p, k, begin);
      var row := Period(p, k, begin);
      var tail := RowsFrom(p, k + 1, row.end);
      RowsFromShape(p, k + 1, row.end);
      var rows := RowsFrom(p, k, begin);
      assert rows == [row] + tail;
      assert forall i :: 1 <= i < |rows| ==> rows[i] == tail[i - 1];
      if tail == [] {
        assert row.end <= 0.0;
      } else {
        assert row.end > 0.0;
        assert row.payment == p.payment;
      }
    }
  }

  /** The shape of a whole schedule: it has at least one row and starts at the principal. */
  lemma ScheduleShape(p: LoanParams)
    requires Validated(p)
    ensures var rows := Rows(p);
      && |rows| > 0
      && rows[0].begin == p.principal
      && Numbered(rows, 1)
      && Chained(rows)
      && FollowsRule(p, rows)
      && Bounded(p, rows)
      && OpenUntilLast(p, rows)
      && ClosesAtZero(rows)
  {
    RowsFromShape(p, 1, p.principal);
  }

  /** The balance strictly falls from one period to the next. */
  lemma BalanceDecreasing(p: LoanParams, i: int)
    requires Validated(p) && 0 <= i < |Rows(p)| - 1
    ensures Rows(p)[i + 1].begin < Rows(p)[i].begin
  {
    ScheduleShape(p);
    InterestMonotone(Rows(p)[i].begin, p.principal, p.rate);
  }

  /** The principal column telescopes: it repays exactly the balance it started from. */
  lemma {:induction false} PrincipalRepaidFrom(p: LoanParams, k: int, begin: real)
    requires Validated(p) && 0.0 <= begin <= p.principal
    ensures Sum(RowsFrom(p, k, begin), AppliedPrincipal) == begin
    decreases Measure(begin)
  {
    if begin > 0.0 {
      StepShrinks(p, k, begin);
      var row := Period(p, k, begin);
      PrincipalRepaidFrom(p, k + 1, row.end);
      SumCons(row, RowsFrom(p, k + 1, row.end), AppliedPrincipal);
    }
  }

  /** Total principal paid equals the principal. */
  lemma PrincipalRepaid(p: LoanParams)
    requires Validated(p)
    ensures Sum(Rows(p), AppliedPrincipal) == p.principal
  {
    PrincipalRepaidFrom(p, 1, p.principal);
  }

  /** The number of periods is bounded by the balance measured in minimal steps. */
  lemma {:induction false} DurationBoundFrom(p: LoanParams, k: int, begin: real)
    requires Validated(p) && begin <= p.principal
    ensures |RowsFrom(p, k, begin)| <= Measure(begin)
    decreases Measure(begin)
  {
    if begin > 0.0 {
      StepShrinks(p, k, begin);
      DurationBoundFrom(p, k + 1, Period(p, k, begin).end);
    }
  }

  lemma DurationBound(p: LoanParams)
    requires Validated(p)
    ensures 1 <= |Rows(p)| <= Measure(p.principal)
  {
    DurationBoundFrom(p, 1, p.principal);
    ScheduleShape(p);
  }

  /** Total interest paid: the sum of the interest column. */
  function TotalInterest(p: LoanParams): (r: real)
    requires Validated(p)
    ensures r >= 0.0
  {
    InterestNonnegativeFrom(p, 1, p.principal);
    Sum(Rows(p), AppliedInterest)
  }

  /** Time to loan termination: the number of periods. */
  function Duration(p: LoanParams): (n: int)
    requires Validated(p)
    ensures n >= 1
  {
    DurationBound(p);
    |Rows(p)|
  }

  /** No period accrues negative interest, so the interest total is non-negative. */
  lemma {:induction false} InterestNonnegativeFrom(p: LoanParams, k: int, begin: real)
    requires Validated(p) && begin <= p.principal
    ensures Sum(RowsFrom(p, k, begin), AppliedInterest) >= 0.0
    decreases Measure(begin)
  {
    if begin > 0.0 {
      StepShrinks(p, k, begin);
      var row := Period(p, k, begin);
      InterestMonotone(0.0, begin, p.rate);
      InterestNonnegativeFrom(p, k + 1, row.end);
      SumCons(row, RowsFrom(p, k + 1, row.end), AppliedInterest);
    }
  }

  /** At a zero rate no interest is paid. */
  lemma {:induction false} ZeroRateNoInterestFrom(p: LoanParams, k: int, begin: real)
    requires Validated(p) && begin <= p.principal && p.rate == 0.0
    ensures Sum(RowsFrom(p, k, begin), AppliedInterest) == 0.0
    decreases Measure(begin)
  {
    if begin > 0.0 {
      StepShrinks(p, k, begin);
      var row := Period(p, k, begin);
      ZeroRateNoInterestFrom(p, k + 1, row.end);
      SumCons(row, RowsFrom(p, k + 1, row.end), AppliedInterest);
    }
  }

  lemma ZeroRateNoInterest(p: LoanParams)
    requires Validated(p) && p.rate == 0.0
    ensures TotalInterest(p) == 0.0
  {
    ZeroRateNoInterestFrom(p, 1, p.principal);
  }

  /** With validated parameters, the total interest is zero exactly when the rate is zero. */
  lemma InterestZeroIffRateZero(p: LoanParams)
    requires Validated(p)
    ensures TotalInterest(p) >= 0.0
    ensures TotalInterest(p) == 0.0 <==> p.rate == 0.0
  {
    if p.rate == 0.0 {
      ZeroRateNoInterest(p);
    } else {
      StepShrinks(p, 1, p.principal);
      var row := Period(p, 1, p.principal);
      InterestNonnegativeFrom(p, 2, row.end);
      SumCons(row, RowsFrom(p, 2, row.end), AppliedInterest);
      assert p.principal * p.rate > 0.0;
    }
  }

  /**
   * Paying more extra, from a balance no larger, never takes longer and never
   * costs more interest.
   */
  lemma {:induction false} MoreExtraNoWorseFrom(p1: LoanParams, p2: LoanParams, k: int, b1: real, b2: real)
    requires Validated(p1) && Validated(p2)
    requires p1.principal == p2.principal && p1.rate == p2.rate && p1.payment == p2.payment
    requires p1.extraPayment <= p2.extraPayment
    requires b2 <= b1 <= p1.principal
    ensures |RowsFrom(p2, k, b2)| <= |RowsFrom(p1, k, b1)|
    ensures Sum(RowsFrom(p2, k, b2), AppliedInterest) <= Sum(RowsFrom(p1, k, b1), AppliedInterest)
    decreases Measure(b1)
  {
    if b2 <= 0.0 {
      InterestNonnegativeFrom(p1, k, b1);
    } else {
      StepShrinks(p1, k, b1);
      StepShrinks(p2, k, b2);
      var r1 := Period(p1, k, b1);
      var r2 := Period(p2, k, b2);
      InterestMonotone(b2, b1, p1.rate);
      assert r2.end <= r1.end;
      MoreExtraNoWorseFrom(p1, p2, k + 1, r1.end, r2.end);
      SumCons(r1, RowsFrom(p1, k + 1, r1.end), AppliedInterest);
      SumCons(r2, RowsFrom(p2, k + 1, r2.end), AppliedInterest);
    }
  }

  lemma MoreExtraNoWorse(p1: LoanParams, p2: LoanParams)
    requires Validated(p1) && Validated(p2)
    requires p1.principal == p2.principal && p1.rate == p2.rate && p1.payment == p2.payment
    requires p1.extraPayment <= p2.extraPayment
    ensures Duration(p2) <= Duration(p1)
    ensures TotalInterest(p2) <= TotalInterest(p1)
  {
    MoreExtraNoWorseFrom(p1, p2, 1, p1.principal, p2.principal);
  }

  /** The parameter sets of the test fixtures pass the guard. */
  lemma FixturesPass()
    ensures Validated(LoanParams(5000.0, 6.0, 96.66, 0.0))
    ensures Validated(LoanParams(10000.0, 8.0, 121.33, 0.0))
    ensures Validated(LoanParams(7000.0, 7.0, 167.62, 0.0))
  {
  }

  /** The fallback the UI substitutes for invalid input passes and pays off in one period. */
  lemma FallbackSinglePeriod()
    ensures Validated(LoanParams(1.0, 0.0, 1.0, 0.0))
    ensures Rows(LoanParams(1.0, 0.0, 1.0, 0.0)) == [Row(1, 1.0, 1.0, 0.0, 1.0, 0.0, 0.0)]
  {
    var p := LoanParams(1.0, 0.0, 1.0, 0.0);
    assert MonthlyInterest(1.0, 0.0) == 0.0;
    assert (0.5).Floor == 0;
    assert Round2(0.0) == 0.0;
    assert Validated(p);
    var row := Period(p, 1, 1.0);
    assert row == Row(1, 1.0, 1.0, 0.0, 1.0, 0.0, 0.0);
    assert RowsFrom(p, 2, 0.0) == [];
    assert RowsFrom(p, 1, 1.0) == [row] + RowsFrom(p, 2, 0.0);
  }

  /** One turn of the `compute_schedule` loop produces the next row of `Rows`. */
  lemma StepAdvance(p: LoanParams, rows: seq<Row>, n: nat, begin: real)
    requires Validated(p) && 0.0 < begin <= p.principal
    requires n <= |rows| && RowsFrom(p, n + 1, begin) == rows[n..]
    ensures n < |rows| && rows[n] == Period(p, n + 1, begin)
    ensures var e := Period(p, n + 1, begin).end;
      0.0 <= e <= p.principal && Measure(e) < Measure(begin) && RowsFrom(p, n + 2, e) == rows[n + 1..]
  {
    StepShrinks(p, n + 1, begin);
    assert rows[n..][1..] == rows[n + 1..];
  }

  /**
   * Storing row n of a numbered schedule either extends the prefix written so
   * far or, when the schedule was already complete, leaves it as it was.
   */
  lemma PutNext(rows: seq<Row>, start: seq<Row>, before: seq<Row>, n: nat)
    requires Numbered(rows, 1) && n < |rows|
    requires start == [] ==> before == rows[..n]
    requires start != [] ==> before == rows
    ensures start == [] ==> Put(before, rows[n]) == rows[..n + 1]
    ensures start != [] ==> Put(before, rows[n]) == rows
  {
    if start == [] {
      assert rows[..n + 1] == rows[..n] + [rows[n]];
      assert rows[n].month !in Months(rows[..n]);
    } else {
      PutPresent(rows, n);
    }
  }

  /**
   * A loan (`class Loan`): its parameters never change after construction;
   * `schedule`, the termination time and the totals are filled in by
   * `ComputeSchedule`.
   */
  class Loan {
    const principal: real
    const rate: real
    const payment: real
    const extraPayment: real
    var schedule: seq<Row>
    var timeToLoanTermination: Option<int>
    var totalPrincipalPaid: real
    var totalInterestPaid: real
    var returnSchedule: int

    function Params(): LoanParams
    {
      LoanParams(principal, rate, payment, extraPayment)
    }

    /** The state right after the constructor. */
    ghost predicate Fresh()
      reads this
    {
      schedule == [] && timeToLoanTermination == None && totalPrincipalPaid == 0.0 && totalInterestPaid == 0.0
    }

    /** The state after `ComputeSchedule`. */
    ghost predicate Computed()
      reads this
    {
      && Validated(Params())
      && schedule == Rows(Params())
      && timeToLoanTermination == Some(|schedule|)
      && totalPrincipalPaid == Sum(schedule, AppliedPrincipal)
      && totalInterestPaid == Sum(schedule, AppliedInterest)
    }

    ghost predicate Valid()
      reads this
    {
      Fresh() || Computed()
    }

    constructor (principal: real, rate: real, payment: real, extraPayment: real := 0.0)
      ensures this.principal == principal && this.rate == rate
      ensures this.payment == payment && this.extraPayment == extraPayment
      ensures Fresh() && returnSchedule == 0
    {
      this.principal := principal;
      this.rate := rate;
      this.payment := payment;
      this.extraPayment := extraPayment;
      schedule := [];
      timeToLoanTermination := None;
      totalPrincipalPaid := 0.0;
      totalInterestPaid := 0.0;
      returnSchedule := 0;
    }

    /**
     * `compute_schedule`: write one row per period until the balance reaches
     * 0, then record the last period number and the two column totals.
     */
    method ComputeSchedule()
      requires Valid() && Validated(Params())
      modifies this`schedule, this`timeToLoanTermination, this`totalInterestPaid, this`totalPrincipalPaid
      ensures Computed()
    {
      WriteRows();
      RecordTotals();
    }

    /**
     * The loop of `compute_schedule`: store the row of each period under its
     * number until the balance reaches 0. A schedule written before is
     * overwritten with the same rows. It is the first half of
     * `ComputeSchedule`, not an operation of its own: on its own it leaves
     * the totals as they were, so the loan is `Computed()` only once
     * `RecordTotals` has run.
     */
    method WriteRows()
      requires Valid() && Validated(Params())
      modifies this`schedule
      ensures schedule == Rows(Params())
    {
      ghost var p := Params();
      ghost var rows := Rows(p);
      ghost var start := schedule;
      assert Numbered(rows, 1) && |rows| > 0 by {
        ScheduleShape(p);
      }
      var beginPrincipal := principal;
      var pay := payment;
      var paymentNumber := 0;
      while beginPrincipal > 0.0
        modifies this`schedule
        invariant 0 <= paymentNumber <= |rows|
        invariant 0.0 <= beginPrincipal <= principal
        invariant RowsFrom(p, paymentNumber + 1, beginPrincipal) == rows[paymentNumber..]
        invariant beginPrincipal > 0.0 ==> pay == payment
        invariant start == [] ==> schedule == rows[..paymentNumber]
        invariant start != [] ==> schedule == rows
        decreases Measure(beginPrincipal)
      {
        StepAdvance(p, rows, paymentNumber, beginPrincipal);
        paymentNumber := paymentNumber + 1;
        var appliedInterest := MonthlyInterest(beginPrincipal, rate);
        var appliedPrincipal := pay - appliedInterest + extraPayment;
        if appliedPrincipal > beginPrincipal {
          pay := beginPrincipal + appliedInterest;
          var extra := 0.0;
          appliedPrincipal := pay - appliedInterest + extra;
        }
        var endPrincipal := beginPrincipal - appliedPrincipal;
        var row := Row(paymentNumber, beginPrincipal, pay, extraPayment,
                       appliedPrincipal, appliedInterest, endPrincipal);
        assert row == rows[paymentNumber - 1];
        PutNext(rows, start, schedule, paymentNumber - 1);
        schedule := Put(schedule, row);
        beginPrincipal := endPrincipal;
      }
      assert rows[..paymentNumber] == rows;
    }

    /**
     * The tail of `compute_schedule`: the largest key, or `None` for an empty
     * schedule, and the interest and principal columns summed over the rows.
     * It is the second half of `ComputeSchedule`: after `WriteRows` it leaves
     * the loan `Computed()`.
     */
    method RecordTotals()
      modifies this`timeToLoanTermination, this`totalInterestPaid, this`totalPrincipalPaid
      ensures Validated(Params()) && schedule == Rows(Params()) ==> Computed()
      ensures |schedule| > 0 ==> timeToLoanTermination.Some? && timeToLoanTermination.value in Months(schedule)
      ensures |schedule| > 0 ==> forall i :: 0 <= i < |schedule| ==> schedule[i].month <= timeToLoanTermination.value
      ensures |schedule| == 0 ==> timeToLoanTermination == None
      ensures Numbered(schedule, 1) ==> timeToLoanTermination == if |schedule| > 0 then Some(|schedule|) else None
      ensures totalInterestPaid == Sum(schedule, AppliedInterest)
      ensures totalPrincipalPaid == Sum(schedule, AppliedPrincipal)
    {
      if Validated(Params()) && schedule == Rows(Params()) {
        ScheduleShape(Params());
      }
      if |schedule| > 0 {
        var last := MaxMonth(schedule);
        assert Numbered(schedule, 1) ==> last == |schedule| by {
          if Numbered(schedule, 1) {
            assert schedule[|schedule| - 1].month == |schedule|;
            var j :| 0 <= j < |schedule| && schedule[j].month == last;
          }
        }
        timeToLoanTermination := Some(last);
      } else {
        timeToLoanTermination := None;
      }
      totalInterestPaid := 0.0;
      totalPrincipalPaid := 0.0;
      for i := 0 to |schedule|
        modifies this`totalInterestPaid, this`totalPrincipalPaid
        invariant totalInterestPaid == Sum(schedule[..i], AppliedInterest)
        invariant totalPrincipalPaid == Sum(schedule[..i], AppliedPrincipal)
      {
        SumSnoc(schedule, i, AppliedInterest);
        SumSnoc(schedule, i, AppliedPrincipal);
        totalInterestPaid := totalInterestPaid + schedule[i].appliedInterest;
        totalPrincipalPaid := totalPrincipalPaid + schedule[i].appliedPrincipal;
      }
      assert schedule[..|schedule|] == schedule;
    }

    /**
     * `return_loan_schedule`: the schedule in period order with the running
     * interest total; the last running total is the total interest paid.
     */
    method ReturnLoanSchedule() returns (table: seq<Line>)
      requires Valid()
      ensures |table| == |schedule|
      ensures forall i :: 0 <= i < |schedule| ==>
                table[i].row == schedule[i] && table[i].row.month == i + 1 &&
                table[i].accumulatedInterest == Sum(schedule[..i + 1], AppliedInterest)
      ensures |table| > 0 ==> table[|table| - 1].accumulatedInterest == totalInterestPaid
      ensures forall i, j :: 0 <= i <= j < |table| ==> table[i].accumulatedInterest <= table[j].accumulatedInterest
    {
      if Computed() {
        ScheduleShape(Params());
      }
      table := AccumulateInterest(schedule);
      assert |table| > 0 ==> schedule[..|table|] == schedule;
      forall i, j | 0 <= i <= j < |table|
        ensures table[i].accumulatedInterest <= table[j].accumulatedInterest
      {
        forall n | 0 <= n < |schedule| ensures schedule[n].appliedInterest >= 0.0 {
          InterestMonotone(0.0, schedule[n].begin, rate);
        }
        AccumulatedNondecreasing(schedule, table, i, j);
      }
    }
  }

  /** A loan in either state holds its periods as the keys 1..n in order. */
  lemma LoanScheduleNumbered(l: Loan)
    requires l.Valid()
    ensures Numbered(l.schedule, 1) && Distinct(l.schedule)
  {
    if l.Computed() {
      ScheduleShape(l.Params());
    }
  }
}
