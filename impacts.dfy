/**
 * Contributor impacts (`loan_analytics/LoanImpacts.py`): the same loan is
 * amortized with everybody's contributions as extra payment ("all"), with
 * none of them ("none"), and once per contributor with that contributor's
 * share taken out ("k quits"); each run is compared with "all".
 *
 * The scenarios are the function `Scenarios`; `LoanImpacts.ComputeImpacts`
 * runs them in the source's order and is proved to return the rows
 * `AllRow`, `NoneRow` and `QuitRow` describe, or the error the source raises
 * first.
 */
module Impacts {
  import opened Wrappers
  import opened Schedules
  import opened Loans

  /** Python's `sum` of the contributions, front to back; never negative when no contribution is. */
  function Total(cs: seq<real>): (t: real)
    ensures (forall i :: 0 <= i < |cs| ==> cs[i] >= 0.0) ==> t >= 0.0
  {
    if cs == [] then 0.0 else Total(cs[..|cs| - 1]) + cs[|cs| - 1]
  }

  /** With no negative contribution, leaving one out never raises the sum. */
  lemma {:induction false} TotalWithout(cs: seq<real>, k: int)
    requires forall i :: 0 <= i < |cs| ==> cs[i] >= 0.0
    requires 0 <= k < |cs|
    ensures 0.0 <= Total(cs) - cs[k] <= Total(cs)
  {
    var init := cs[..|cs| - 1];
    assert Total(init) >= 0.0;
    if k < |cs| - 1 {
      TotalWithout(init, k);
    }
  }

  /**
   * The loans the source builds, in the order it builds them: "all" with the
   * base extra plus every contribution, "none" with the base extra only, then
   * one per contributor with the base extra plus every contribution but
   * theirs. Only the extra payment differs between them.
   */
  function Scenarios(p: LoanParams, cs: seq<real>): (ps: seq<LoanParams>)
    ensures |ps| == 2 + |cs|
    ensures forall i :: 0 <= i < |ps| ==>
              ps[i].principal == p.principal && ps[i].rate == p.rate && ps[i].payment == p.payment
    ensures ps[0].extraPayment == p.extraPayment + Total(cs)
    ensures ps[1] == p
    ensures forall k :: 0 <= k < |cs| ==> ps[2 + k].extraPayment == p.extraPayment + Total(cs) - cs[k]
  {
    [p.(extraPayment := p.extraPayment + Total(cs)), p]
    + seq(|cs|, k requires 0 <= k < |cs| => p.(extraPayment := p.extraPayment + Total(cs) - cs[k]))
  }

  /** The error of the first loan, in order, that fails `check_loan_parameters`. */
  function FirstFailure(ps: seq<LoanParams>): (r: Option<ParamError>)
    ensures r.None? <==> forall i :: 0 <= i < |ps| ==> Validated(ps[i])
  {
    if ps == [] then None
    else
      match CheckParameters(ps[0])
      case Fail(e) => Some(e)
      case Pass =>
        var r := FirstFailure(ps[1..]);
        assert forall i :: 1 <= i < |ps| ==> ps[i] == ps[1..][i - 1];
        r
  }

  /** The first failure is the error of the first loan that fails, wherever it is. */
  lemma {:induction false} FirstFailureAt(ps: seq<LoanParams>, i: int, e: ParamError)
    requires 0 <= i < |ps|
    requires forall j :: 0 <= j < i ==> Validated(ps[j])
    requires CheckParameters(ps[i]) == Fail(e)
    ensures FirstFailure(ps) == Some(e)
  {
    if i > 0 {
      FirstFailureAt(ps[1..], i - 1, e);
    }
  }

  /** Once the first n loans pass, the first failure is the first failure of the rest. */
  lemma {:induction false} FirstFailureSkip(ps: seq<LoanParams>, n: int)
    requires 0 <= n <= |ps|
    requires forall j :: 0 <= j < n ==> Validated(ps[j])
    ensures FirstFailure(ps) == FirstFailure(ps[n..])
  {
    if n > 0 {
      FirstFailureSkip(ps[1..], n - 1);
      assert ps[1..][n - 1..] == ps[n..];
    }
  }

  /**
   * `(x - base) / base`: the change from `base` to `x` as a fraction of
   * `base`; with a positive base it has the sign of `x - base`.
   */
  function RelativeChange(x: real, base: real): (r: real)
    requires base != 0.0
    ensures r * base == x - base
    ensures base > 0.0 ==> (r >= 0.0 <==> x >= base)
  {
    (x - base) / base
  }

  /** With a positive base, a larger value has a larger relative change. */
  lemma RelativeChangeMonotone(x: real, y: real, base: real)
    requires base > 0.0
    ensures x <= y ==> RelativeChange(x, base) <= RelativeChange(y, base)
  {
    if x <= y {
      assert (y - base) / base - (x - base) / base == (y - x) / base;
    }
  }

  /** One row of the impact table. */
  datatype ImpactRow = ImpactRow(interestPaid: real, duration: int, interestImpact: real, durationImpact: real)

  /** How `compute_impacts` fails: a `ValueError` from a scenario, or a division by zero interest. */
  datatype ImpactError = Invalid(error: ParamError) | DivisionByZero

  /** The "all" row: its own interest and duration, compared with itself, so both ratios are 0. */
  function AllRow(all: LoanParams): (r: ImpactRow)
    requires Validated(all)
    ensures r.interestPaid >= 0.0 && r.duration >= 1
    ensures r.interestImpact == 0.0 && r.durationImpact == 0.0
  {
    ImpactRow(TotalInterest(all), Duration(all), 0.0, 0.0)
  }

  /** The "none" row: its ratios against "all", the duration ratio negated. */
  function NoneRow(none: LoanParams, all: LoanParams): (r: ImpactRow)
    requires Validated(none) && Validated(all) && TotalInterest(all) != 0.0
    ensures r.interestPaid >= 0.0 && r.duration >= 1
    ensures r.interestImpact * TotalInterest(all) == r.interestPaid - TotalInterest(all)
    ensures r.durationImpact * Duration(all) as real == (Duration(all) - r.duration) as real
  {
    ImpactRow(TotalInterest(none), Duration(none),
              RelativeChange(TotalInterest(none), TotalInterest(all)),
              -RelativeChange(Duration(none) as real, Duration(all) as real))
  }

  /** A "k quits" row: its ratios against "all", neither negated. */
  function QuitRow(quit: LoanParams, all: LoanParams): (r: ImpactRow)
    requires Validated(quit) && Validated(all) && TotalInterest(all) != 0.0
    ensures r.interestPaid >= 0.0 && r.duration >= 1
    ensures r.interestImpact * TotalInterest(all) == r.interestPaid - TotalInterest(all)
    ensures r.durationImpact * Duration(all) as real == (r.duration - Duration(all)) as real
  {
    ImpactRow(TotalInterest(quit), Duration(quit),
              RelativeChange(TotalInterest(quit), TotalInterest(all)),
              RelativeChange(Duration(quit) as real, Duration(all) as real))
  }

  /** The "none" row as `compute_impacts` writes it, with Python's `-(a - b) / c`. */
  lemma NoneRowValues(none: LoanParams, all: LoanParams, interestNone: real, durationNone: int,
                      interestAll: real, durationAll: int)
    requires Validated(none) && Validated(all)
    requires interestAll == TotalInterest(all) && interestAll != 0.0 && durationAll == Duration(all)
    requires interestNone == TotalInterest(none) && durationNone == Duration(none)
    ensures durationAll >= 1
    ensures ImpactRow(interestNone, durationNone, (interestNone - interestAll) / interestAll,
                      -(durationNone - durationAll) as real / durationAll as real) == NoneRow(none, all)
  {
    DurationBound(all);
    var a, b := durationNone as real - durationAll as real, durationAll as real;
    assert (-(durationNone - durationAll)) as real == -a;
    assert (a / b) * b == a;
    assert -a / b == -(a / b);
  }

  /** A "k quits" row as `compute_impacts` writes it. */
  lemma QuitRowValues(quit: LoanParams, all: LoanParams, interestQuit: real, durationQuit: int,
                      interestAll: real, durationAll: int)
    requires Validated(quit) && Validated(all)
    requires interestAll == TotalInterest(all) && interestAll != 0.0 && durationAll == Duration(all)
    requires interestQuit == TotalInterest(quit) && durationQuit == Duration(quit)
    ensures durationAll >= 1
    ensures ImpactRow(interestQuit, durationQuit, (interestQuit - interestAll) / interestAll,
                      (durationQuit - durationAll) as real / durationAll as real) == QuitRow(quit, all)
  {
    DurationBound(all);
  }

  /** One more passing "k quits" loan adds its row after the rows of the loans before it. */
  lemma QuitRowsSnoc(quits: seq<LoanParams>, all: LoanParams, rows: seq<ImpactRow>, row: ImpactRow)
    requires Validated(all) && TotalInterest(all) != 0.0
    requires |rows| < |quits|
    requires forall j :: 0 <= j < |rows| ==> Validated(quits[j]) && rows[j] == QuitRow(quits[j], all)
    requires Validated(quits[|rows|]) && row == QuitRow(quits[|rows|], all)
    ensures forall j :: 0 <= j < |rows| + 1 ==> Validated(quits[j]) && (rows + [row])[j] == QuitRow(quits[j], all)
  {
  }

  /**
   * With no negative contribution, every scenario passes the guard exactly
   * when the base parameters do: the batch can only abort on the base loan.
   */
  lemma ScenariosValidTogether(p: LoanParams, cs: seq<real>)
    requires forall i :: 0 <= i < |cs| ==> cs[i] >= 0.0
    ensures FirstFailure(Scenarios(p, cs)).None? <==> Validated(p)
  {
    var ps := Scenarios(p, cs);
    if Validated(p) {
      forall i | 0 <= i < |ps| ensures Validated(ps[i]) {
        if i >= 2 {
          TotalWithout(cs, i - 2);
        }
      }
    }
  }

  /**
   * The sign convention. With no negative contribution, losing help never
   * shortens the loan nor saves interest, so every interest ratio is at least
   * 0 and every "k quits" duration ratio is at least 0, but the negated "none"
   * duration ratio is at most 0. A single contributor quitting costs no more
   * than all of them doing so.
   */
  lemma ImpactSigns(p: LoanParams, cs: seq<real>, k: int)
    requires forall i :: 0 <= i < |cs| ==> cs[i] >= 0.0
    requires 0 <= k < |cs|
    requires Validated(p) && p.rate > 0.0
    ensures var ps := Scenarios(p, cs);
      && Validated(ps[0]) && Validated(ps[1]) && Validated(ps[2 + k])
      && TotalInterest(ps[0]) > 0.0
      && var none, quit := NoneRow(ps[1], ps[0]), QuitRow(ps[2 + k], ps[0]);
      && none.interestImpact >= 0.0 && none.durationImpact <= 0.0
      && quit.interestImpact >= 0.0 && quit.durationImpact >= 0.0
      && quit.interestImpact <= none.interestImpact && quit.durationImpact <= -none.durationImpact
  {
    var ps := Scenarios(p, cs);
    ScenariosValidTogether(p, cs);
    var all, none, quit := ps[0], ps[1], ps[2 + k];
    assert Validated(all) && Validated(none) && Validated(quit);
    TotalWithout(cs, k);
    MoreExtraNoWorse(none, all);
    MoreExtraNoWorse(quit, all);
    MoreExtraNoWorse(none, quit);
    InterestZeroIffRateZero(all);
    DurationBound(all);
    RelativeChangeMonotone(TotalInterest(quit), TotalInterest(none), TotalInterest(all));
    RelativeChangeMonotone(Duration(quit) as real, Duration(none) as real, Duration(all) as real);
  }

  /**
   * One scenario as `compute_impacts` runs it: build the loan, check its
   * parameters (a failure propagates), amortize it and read its total
   * interest and its time to termination, which is at least one period.
   */
  method RunScenario(principal: real, rate: real, payment: real, extraPayment: real)
    returns (check: Outcome<ParamError>, interest: real, duration: int)
    ensures check == CheckParameters(LoanParams(principal, rate, payment, extraPayment))
    ensures check.Pass? ==>
              var p := LoanParams(principal, rate, payment, extraPayment);
              interest == TotalInterest(p) && duration == Duration(p) && duration >= 1
  {
    var loan := new Loan(principal, rate, payment, extraPayment);
    check := CheckParameters(loan.Params());
    if check.Fail? {
      return check, 0.0, 0;
    }
    loan.ComputeSchedule();
    DurationBound(loan.Params());
    interest := loan.totalInterestPaid;
    duration := loan.timeToLoanTermination.value;
  }

  /**
   * The contribution fixture (principal 68000 at 4% paying 899, contributions
   * 10, 100 and 1000): every scenario passes the guard and the "all" loan
   * pays interest, so `compute_impacts` yields its five rows.
   */
  lemma ContributionFixtureRuns()
    ensures var ps := Scenarios(LoanParams(68000.0, 4.0, 899.0, 0.0), [10.0, 100.0, 1000.0]);
      FirstFailure(ps).None? && TotalInterest(ps[0]) != 0.0 && |ps| == 5
  {
    var p := LoanParams(68000.0, 4.0, 899.0, 0.0);
    var cs := [10.0, 100.0, 1000.0];
    assert Validated(p);
    ScenariosValidTogether(p, cs);
    InterestZeroIffRateZero(Scenarios(p, cs)[0]);
  }

  /**
   * The fallback the impact page substitutes for invalid input, principal 1
   * at rate 0 paying 1 with no extra, passes the guard in every scenario but
   * pays no interest in "all". So with non-negative contributions
   * `compute_impacts` on it always ends in the division by zero.
   */
  lemma FallbackImpactsDivideByZero(cs: seq<real>)
    requires forall i :: 0 <= i < |cs| ==> cs[i] >= 0.0
    ensures var ps := Scenarios(LoanParams(1.0, 0.0, 1.0, 0.0), cs);
      FirstFailure(ps).None? && TotalInterest(ps[0]) == 0.0
  {
    var p := LoanParams(1.0, 0.0, 1.0, 0.0);
    FallbackSinglePeriod();
    ScenariosValidTogether(p, cs);
    ZeroRateNoInterest(Scenarios(p, cs)[0]);
  }

  /** The analysis (`class LoanImpacts`): base loan parameters and the contributions. */
  class LoanImpacts {
    const principal: real
    const rate: real
    const payment: real
    const extraPayment: real
    const contributions: seq<real>

    constructor (principal: real, rate: real, payment: real, extraPayment: real, contributions: seq<real>)
      ensures this.principal == principal && this.rate == rate && this.payment == payment
      ensures this.extraPayment == extraPayment && this.contributions == contributions
    {
      this.principal := principal;
      this.rate := rate;
      this.payment := payment;
      this.extraPayment := extraPayment;
      this.contributions := contributions;
    }

    function Base(): LoanParams
    {
      LoanParams(principal, rate, payment, extraPayment)
    }

    /**
     * `compute_impacts`: validate and amortize "all", then "none", then the
     * "k quits" loans in contributor order, stopping at the first scenario that
     * fails the guard; the table has one row per scenario in that order. The
     * ratios divide by the interest and duration of "all": the duration is
     * never 0, the interest is 0 exactly when the rate is.
     */
    method ComputeImpacts() returns (r: Result<seq<ImpactRow>, ImpactError>)
      ensures var ps := Scenarios(Base(), contributions);
        r.Success? <==> FirstFailure(ps).None? && TotalInterest(ps[0]) != 0.0
      ensures var ps := Scenarios(Base(), contributions);
        r == Failure(DivisionByZero) <==> Validated(ps[0]) && Validated(ps[1]) && rate == 0.0
      ensures r.Failure? && r.error.Invalid? ==>
                FirstFailure(Scenarios(Base(), contributions)) == Some(r.error.error)
      ensures var ps := Scenarios(Base(), contributions);
        r.Success? ==>
          && |r.value| == |ps|
          && r.value[0] == AllRow(ps[0])
          && r.value[1] == NoneRow(ps[1], ps[0])
          && forall j :: 2 <= j < |ps| ==> r.value[j] == QuitRow(ps[j], ps[0])
    {
      ghost var ps := Scenarios(Base(), contributions);
      var matrix: seq<ImpactRow> := [];

      assert LoanParams(principal, rate, payment, extraPayment + Total(contributions)) == ps[0];
      var checkAll, interestAll, durationAll := RunScenario(principal, rate, payment, extraPayment + Total(contributions));
      if checkAll.Fail? {
        FirstFailureAt(ps, 0, checkAll.error);
        return Failure(Invalid(checkAll.error));
      }
      var checkNone, interestNone, durationNone := RunScenario(principal, rate, payment, extraPayment);
      if checkNone.Fail? {
        FirstFailureAt(ps, 1, checkNone.error);
        return Failure(Invalid(checkNone.error));
      }
      InterestZeroIffRateZero(ps[0]);
      if interestAll == 0.0 {
        return Failure(DivisionByZero);
      }
      var impactInterestNone := (interestNone - interestAll) / interestAll;
      var impactDurationNone := -(durationNone - durationAll) as real / durationAll as real;

      matrix := matrix + [ImpactRow(interestAll, durationAll, 0.0, 0.0)];
      matrix := matrix + [ImpactRow(interestNone, durationNone, impactInterestNone, impactDurationNone)];
      NoneRowValues(ps[1], ps[0], interestNone, durationNone, interestAll, durationAll);

      var failure, rows := QuitImpacts(interestAll, durationAll);
      FirstFailureSkip(ps, 2);
      if failure.Some? {
        return Failure(Invalid(failure.value));
      }
      matrix := matrix + rows;
      forall j | 2 <= j < |ps| ensures matrix[j] == QuitRow(ps[j], ps[0]) {
        assert matrix[j] == rows[j - 2];
      }
      return Success(matrix);
    }

    /**
     * The `for` loop of `compute_impacts`: one "k quits" loan per contributor,
     * in order, each checked before it is amortized; the first that fails the
     * guard ends the loop with its error.
     */
    method QuitImpacts(interestAll: real, durationAll: int) returns (failure: Option<ParamError>, rows: seq<ImpactRow>)
      requires Validated(Scenarios(Base(), contributions)[0])
      requires interestAll == TotalInterest(Scenarios(Base(), contributions)[0]) && interestAll != 0.0
      requires durationAll == Duration(Scenarios(Base(), contributions)[0])
      ensures failure == FirstFailure(Scenarios(Base(), contributions)[2..])
      ensures var ps := Scenarios(Base(), contributions);
        failure.None? ==>
          |rows| == |contributions| && forall k :: 0 <= k < |rows| ==> rows[k] == QuitRow(ps[2 + k], ps[0])
    {
      ghost var ps := Scenarios(Base(), contributions);
      ghost var quits := ps[2..];
      DurationBound(ps[0]);
      rows := [];
      for k := 0 to |contributions|
        invariant |rows| == k
        invariant forall j :: 0 <= j < k ==> Validated(quits[j]) && rows[j] == QuitRow(quits[j], ps[0])
      {
        assert LoanParams(principal, rate, payment, extraPayment + Total(contributions) - contributions[k]) == quits[k];
        var checkK, interestK, durationK :=
          RunScenario(principal, rate, payment, extraPayment + Total(contributions) - contributions[k]);
        if checkK.Fail? {
          FirstFailureAt(quits, k, checkK.error);
          return Some(checkK.error), rows;
        }
        var impactInterest := (interestK - interestAll) / interestAll;
        var impactDuration := (durationK - durationAll) as real / durationAll as real;
        var row := ImpactRow(interestK, durationK, impactInterest, impactDuration);
        QuitRowValues(quits[k], ps[0], interestK, durationK, interestAll, durationAll);
        QuitRowsSnoc(quits, ps[0], rows, row);
        rows := rows + [row];
      }
      return None, rows;
    }
  }
}
