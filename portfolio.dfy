/**
 * A portfolio of loans (`loan_analytics/LoanPortfolio.py`): the member list,
 * the period-keyed sum of the members' schedules, and the comparison of the
 * first two members.
 *
 * `aggregate` is specified by the fold `AddAll`, which adds the rows of every
 * member, in member order and row order, onto the table that is already
 * there. The lemmas below say what that fold means: key by key, each amount
 * column is the old value plus the sum over the members that have the key.
 */
module Portfolio {
  import opened Wrappers
  import opened Schedules
  import opened Loans

  /**
   * One step of `aggregate`: a key seen for the first time is brought in as a
   * zero row, then the six amounts of `pay` are added to the row under it.
   */
  function AddRow(d: seq<Row>, pay: Row): (d': seq<Row>)
    ensures Distinct(d) ==> Distinct(d')
    ensures Months(d') == Months(d) + {pay.month}
    ensures |d'| == if pay.month in Months(d) then |d| else |d| + 1
  {
    var key := pay.month;
    var d1 := if Find(d, key) < 0 then Put(d, Zero(key)) else d;
    var cur := At(d1, key);
    Put(d1, Row(key, cur.begin + pay.begin, cur.payment + pay.payment, cur.extraPayment + pay.extraPayment,
                cur.appliedPrincipal + pay.appliedPrincipal, cur.appliedInterest + pay.appliedInterest,
                cur.end + pay.end))
  }

  /** Adding one member's rows, front to back: the keys become the union of both key sets. */
  function AddSchedule(d: seq<Row>, rows: seq<Row>): (d': seq<Row>)
    ensures Months(d') == Months(d) + Months(rows)
    ensures |d'| >= |d|
  {
    if rows == [] then d
    else
      var init, last := rows[..|rows| - 1], rows[|rows| - 1];
      assert rows == init + [last];
      MonthsSnoc(init, last);
      AddRow(AddSchedule(d, init), last)
  }

  /** Adding every member's rows, member by member; no row is ever removed. */
  function AddAll(d: seq<Row>, members: seq<seq<Row>>): (d': seq<Row>)
    ensures |d'| >= |d|
  {
    if members == [] then d else AddSchedule(AddAll(d, members[..|members| - 1]), members[|members| - 1])
  }

  /** The amount in column `f` at `key`, summed over the members; a member without the key adds 0. */
  function ColumnAt(members: seq<seq<Row>>, key: int, f: Field): real
  {
    if members == [] then 0.0
    else ColumnAt(members[..|members| - 1], key, f) + Get(At(members[|members| - 1], key), f)
  }

  /** The union of the members' keys. */
  function KeysOf(members: seq<seq<Row>>): set<int>
  {
    if members == [] then {} else KeysOf(members[..|members| - 1]) + Months(members[|members| - 1])
  }

  /** The longest member schedule. */
  function MaxLen(members: seq<seq<Row>>): nat
  {
    if members == [] then 0
    else
      var m := MaxLen(members[..|members| - 1]);
      var n := |members[|members| - 1]|;
      if n > m then n else m
  }

  /** The schedules of a list of loans, in list order. */
  function Members(loans: seq<Loan>): (ms: seq<seq<Row>>)
    reads loans
    ensures |ms| == |loans|
    ensures forall i :: 0 <= i < |loans| ==> ms[i] == loans[i].schedule
  {
    seq(|loans|, i reads loans requires 0 <= i < |loans| => loans[i].schedule)
  }

  /** A dictionary whose last-inserted key is new: looking up a key sees the old entries first. */
  lemma AtSnoc(s: seq<Row>, r: Row, key: int)
    requires Distinct(s + [r])
    ensures Distinct(s)
    ensures At(s + [r], key) == if r.month == key then r else At(s, key)
  {
    var t := s + [r];
    assert forall i :: 0 <= i < |s| ==> t[i] == s[i];
    if r.month == key {
      FindDistinct(t, |s|);
    } else if key in Months(s) {
      var j := Find(s, key);
      FindDistinct(t, j);
    } else {
      assert key !in Months(t);
    }
  }

  /** The keys of a dictionary with one more entry. */
  lemma MonthsSnoc(s: seq<Row>, r: Row)
    ensures Months(s + [r]) == Months(s) + {r.month}
  {
    var t := s + [r];
    forall x ensures x in Months(t) <==> x in Months(s) + {r.month} {
      if x in Months(s) {
        var j :| 0 <= j < |s| && s[j].month == x;
        assert t[j] == s[j];
      }
      if x == r.month {
        assert t[|s|] == r;
      }
    }
  }

  /** One step of the fold adds `pay` at its own key and leaves every other key alone. */
  lemma AtAddRow(d: seq<Row>, pay: Row, key: int, f: Field)
    requires Distinct(d)
    ensures Distinct(AddRow(d, pay))
    ensures Months(AddRow(d, pay)) == Months(d) + {pay.month}
    ensures Get(At(AddRow(d, pay), key), f) ==
            Get(At(d, key), f) + if pay.month == key then Get(pay, f) else 0.0
  {
    var k := pay.month;
    var d1 := if Find(d, k) < 0 then Put(d, Zero(k)) else d;
    assert At(d1, k) == At(d, k) by {
      if Find(d, k) < 0 {
        AtPut(d, Zero(k), k);
      }
    }
    assert At(d1, key) == At(d, key) by {
      if Find(d, k) < 0 {
        AtPut(d, Zero(k), key);
      }
    }
    var cur := At(d1, k);
    var row := Row(k, cur.begin + pay.begin, cur.payment + pay.payment, cur.extraPayment + pay.extraPayment,
                   cur.appliedPrincipal + pay.appliedPrincipal, cur.appliedInterest + pay.appliedInterest,
                   cur.end + pay.end);
    AtPut(d1, row, key);
  }

  /**
   * Adding one member: each column at each key grows by that member's amount
   * there (0 where it has no row), and the keys grow by the member's keys.
   */
  lemma {:induction false} AtAddSchedule(d: seq<Row>, rows: seq<Row>, key: int, f: Field)
    requires Distinct(d) && Distinct(rows)
    ensures Distinct(AddSchedule(d, rows))
    ensures Get(At(AddSchedule(d, rows), key), f) == Get(At(d, key), f) + Get(At(rows, key), f)
  {
    if rows == [] {
      assert Get(At(rows, key), f) == 0.0;
    } else {
      var init, last := rows[..|rows| - 1], rows[|rows| - 1];
      assert rows == init + [last];
      AtSnoc(init, last, key);
      AtAddSchedule(d, init, key, f);
      AtAddRow(AddSchedule(d, init), last, key, f);
      if last.month == key {
        assert key !in Months(init);
        assert Get(At(init, key), f) == 0.0;
      }
    }
  }

  /**
   * The fold over all members: column `f` at `key` is its old value plus the
   * sum over the members, and the keys are the old keys and the members' keys.
   */
  lemma {:induction false} AtAddAll(d: seq<Row>, members: seq<seq<Row>>, key: int, f: Field)
    requires Distinct(d)
    requires forall i :: 0 <= i < |members| ==> Distinct(members[i])
    ensures Distinct(AddAll(d, members))
    ensures Months(AddAll(d, members)) == Months(d) + KeysOf(members)
    ensures Get(At(AddAll(d, members), key), f) == Get(At(d, key), f) + ColumnAt(members, key, f)
  {
    if members != [] {
      var init := members[..|members| - 1];
      AtAddAll(d, init, key, f);
      AtAddSchedule(AddAll(d, init), members[|members| - 1], key, f);
    }
  }

  /** `AtAddAll` at every key and column at once. */
  lemma AddAllMeaning(d: seq<Row>, members: seq<seq<Row>>)
    requires Distinct(d)
    requires forall i :: 0 <= i < |members| ==> Distinct(members[i])
    ensures Distinct(AddAll(d, members))
    ensures Months(AddAll(d, members)) == Months(d) + KeysOf(members)
    ensures forall key, f :: Get(At(AddAll(d, members), key), f) == Get(At(d, key), f) + ColumnAt(members, key, f)
  {
    AtAddAll(d, members, 0, Begin);
    forall key, f ensures Get(At(AddAll(d, members), key), f) == Get(At(d, key), f) + ColumnAt(members, key, f) {
      AtAddAll(d, members, key, f);
    }
  }

  /**
   * `aggregate` on an empty table: the keys are the union of the members'
   * keys, every row is stored under its own period number, and each of the
   * six columns at period k is the sum over the members that have period k.
   */
  lemma AggregateFromEmpty(members: seq<seq<Row>>, key: int, f: Field)
    requires forall i :: 0 <= i < |members| ==> Distinct(members[i])
    ensures Distinct(AddAll([], members))
    ensures Months(AddAll([], members)) == KeysOf(members)
    ensures At(AddAll([], members), key).month == key
    ensures Get(At(AddAll([], members), key), f) == ColumnAt(members, key, f)
  {
    AtAddAll([], members, key, f);
    assert Months([]) == {};
  }

  /**
   * `aggregate` does not clear the table first: running it a second time over
   * the same members doubles every summed column and keeps the same keys.
   */
  lemma AggregateTwice(members: seq<seq<Row>>, key: int, f: Field)
    requires forall i :: 0 <= i < |members| ==> Distinct(members[i])
    ensures Months(AddAll(AddAll([], members), members)) == KeysOf(members)
    ensures Get(At(AddAll(AddAll([], members), members), key), f) == 2.0 * ColumnAt(members, key, f)
  {
    AggregateFromEmpty(members, key, f);
    AtAddAll(AddAll([], members), members, key, f);
  }

  /**
   * One step of the fold on a table numbered 1..n, with a row for period at
   * most n + 1, keeps it numbered 1..max(n, period).
   */
  lemma AddRowNumbered(d: seq<Row>, pay: Row)
    requires Numbered(d, 1) && 1 <= pay.month <= |d| + 1
    ensures var d' := AddRow(d, pay);
      Numbered(d', 1) && |d'| == if pay.month > |d| then pay.month else |d|
  {
    var k := pay.month;
    if k <= |d| {
      FindDistinct(d, k - 1);
    } else {
      assert k !in Months(d);
      var d1 := Put(d, Zero(k));
      assert d1 == d + [Zero(k)];
      FindDistinct(d1, |d|);
    }
  }

  /** Adding a schedule numbered 1..m onto a table numbered 1..n leaves it numbered 1..max(n, m). */
  lemma {:induction false} AddScheduleNumbered(d: seq<Row>, rows: seq<Row>)
    requires Numbered(d, 1) && Numbered(rows, 1)
    ensures var d' := AddSchedule(d, rows);
      Numbered(d', 1) && |d'| == if |rows| > |d| then |rows| else |d|
  {
    if rows != [] {
      var init := rows[..|rows| - 1];
      AddScheduleNumbered(d, init);
      AddRowNumbered(AddSchedule(d, init), rows[|rows| - 1]);
    }
  }

  /**
   * When every member is numbered 1..n_i, `aggregate` on an empty table gives
   * the keys 1..max n_i, stored in ascending order.
   */
  lemma {:induction false} AggregateNumbered(members: seq<seq<Row>>)
    requires forall i :: 0 <= i < |members| ==> Numbered(members[i], 1)
    ensures Numbered(AddAll([], members), 1) && |AddAll([], members)| == MaxLen(members)
  {
    if members != [] {
      var init := members[..|members| - 1];
      AggregateNumbered(init);
      AddScheduleNumbered(AddAll([], init), members[|members| - 1]);
    }
  }

  /** Every member in one of its two states holds no repeated key. */
  lemma MembersDistinct(loans: seq<Loan>)
    requires forall i :: 0 <= i < |loans| ==> loans[i].Valid()
    ensures forall i :: 0 <= i < |loans| ==> Distinct(Members(loans)[i])
  {
    forall i | 0 <= i < |loans| ensures Distinct(Members(loans)[i]) {
      LoanScheduleNumbered(loans[i]);
    }
  }

  /** The outcome of `compute_impact`. */
  datatype Impact = Impact(timeDiff: int, interestDiff: real, timeImpact: real, interestImpact: real)

  /** The Python exceptions `compute_impact` can raise. */
  datatype ImpactFailure = IndexError | TypeError | ZeroDivisionError

  /** The portfolio (`class LoanPortfolio`): the member loans and the aggregated table. */
  class LoanPortfolio {
    var loans: seq<Loan>
    var schedule: seq<Row>

    /** Every member is a loan in one of its two states, and the table has no repeated key. */
    ghost predicate Valid()
      reads this, loans
    {
      Distinct(schedule) && forall i :: 0 <= i < |loans| ==> loans[i].Valid()
    }

    constructor ()
      ensures Valid() && loans == [] && schedule == []
    {
      loans := [];
      schedule := [];
    }

    /** `add_loan`: the loan goes last; the same loan may be added again. */
    method AddLoan(loan: Loan)
      requires Valid() && loan.Valid()
      modifies this`loans
      ensures Valid()
      ensures loans == old(loans) + [loan]
    {
      loans := loans + [loan];
    }

    /** `remove_last_loan`: `pop(-1)`, which fails on an empty list. */
    method RemoveLastLoan()
      requires Valid() && |loans| > 0
      modifies this`loans
      ensures Valid()
      ensures loans == old(loans)[..|old(loans)| - 1]
    {
      loans := loans[..|loans| - 1];
    }

    /** `get_loan_count`. */
    method GetLoanCount() returns (n: nat)
      ensures n == |loans|
    {
      n := |loans|;
    }

    /** `reset`: no members and an empty table. */
    method Reset()
      modifies this`loans, this`schedule
      ensures Valid()
      ensures loans == [] && schedule == []
    {
      loans := [];
      schedule := [];
    }

    /**
     * `aggregate`: add every member's rows onto the table, key by key. The
     * table is not cleared first, so each column at each key becomes its old
     * value plus the members' sum there.
     */
    method Aggregate()
      requires Valid()
      modifies this`schedule
      ensures Valid()
      ensures schedule == AddAll(old(schedule), Members(loans))
      ensures Months(schedule) == Months(old(schedule)) + KeysOf(Members(loans))
      ensures forall key, f :: Get(At(schedule, key), f) == Get(At(old(schedule), key), f) + ColumnAt(Members(loans), key, f)
    {
      ghost var start := schedule;
      ghost var members := Members(loans);
      MembersDistinct(loans);
      for i := 0 to |loans|
        invariant schedule == AddAll(start, members[..i])
      {
        assert members[..i + 1][..i] == members[..i];
        AddRows(loans[i].schedule);
      }
      assert members[..|loans|] == members;
      AddAllMeaning(start, members);
    }

    /**
     * The inner loop of `aggregate`: add one member's rows, in its own order.
     * It is a part of `Aggregate`, not an operation of its own: it keeps the
     * table free of repeated keys but says nothing about the member list.
     */
    method AddRows(rows: seq<Row>)
      modifies this`schedule
      ensures Distinct(old(schedule)) ==> Distinct(schedule)
      ensures schedule == AddSchedule(old(schedule), rows)
    {
      ghost var base := schedule;
      for j := 0 to |rows|
        invariant Distinct(base) ==> Distinct(schedule)
        invariant schedule == AddSchedule(base, rows[..j])
      {
        assert rows[..j + 1][..j] == rows[..j];
        AddEntry(rows[j]);
      }
      assert rows[..|rows|] == rows;
    }

    /**
     * The body of the inner loop of `aggregate`: one member row added under
     * its key. Like `AddRows`, it is a part of `Aggregate`.
     */
    method AddEntry(pay: Row)
      modifies this`schedule
      ensures Distinct(old(schedule)) ==> Distinct(schedule)
      ensures schedule == AddRow(old(schedule), pay)
    {
      var key := pay.month;
      if Find(schedule, key) < 0 {
        schedule := Put(schedule, Zero(key));
      }
      var cur := At(schedule, key);
      schedule := Put(schedule, Row(key, cur.begin + pay.begin, cur.payment + pay.payment,
                                    cur.extraPayment + pay.extraPayment,
                                    cur.appliedPrincipal + pay.appliedPrincipal,
                                    cur.appliedInterest + pay.appliedInterest, cur.end + pay.end));
    }

    /**
     * `return_portfolio_schedule`: the table in insertion order with the
     * running sum of the aggregated interest column.
     */
    method ReturnPortfolioSchedule() returns (table: seq<Line>)
      ensures |table| == |schedule|
      ensures forall i :: 0 <= i < |schedule| ==>
                table[i].row == schedule[i] &&
                table[i].accumulatedInterest == Sum(schedule[..i + 1], AppliedInterest)
      ensures |table| > 0 ==> table[|table| - 1].accumulatedInterest == Sum(schedule, AppliedInterest)
    {
      table := AccumulateInterest(schedule);
      assert |table| > 0 ==> schedule[..|table|] == schedule;
    }

    /**
     * `compute_impact`: how much longer and how much more interest the second
     * loan takes than the first, each also as a percentage of the SECOND
     * loan's value. Python raises, in this order, on fewer than two loans, on
     * a loan never computed (its time is `None`) and on a zero divisor.
     */
    method ComputeImpact() returns (r: Result<Impact, ImpactFailure>)
      ensures r == Failure(IndexError) <==> |loans| < 2
      ensures r == Failure(TypeError) <==>
                |loans| >= 2 && (loans[0].timeToLoanTermination.None? || loans[1].timeToLoanTermination.None?)
      ensures r == Failure(ZeroDivisionError) <==>
                && |loans| >= 2 && loans[0].timeToLoanTermination.Some? && loans[1].timeToLoanTermination.Some?
                && (loans[1].timeToLoanTermination.value == 0 || loans[1].totalInterestPaid == 0.0)
      ensures r.Success? ==>
                && r.value.timeDiff == loans[1].timeToLoanTermination.value - loans[0].timeToLoanTermination.value
                && r.value.interestDiff == loans[1].totalInterestPaid - loans[0].totalInterestPaid
                && r.value.timeImpact * loans[1].timeToLoanTermination.value as real == r.value.timeDiff as real * 100.0
                && r.value.interestImpact * loans[1].totalInterestPaid == r.value.interestDiff * 100.0
      ensures r.Success? && ContributorPair(loans[0], loans[1]) ==>
                && r.value.timeDiff >= 0 && r.value.interestDiff >= 0.0
                && 0.0 <= r.value.timeImpact < 100.0 && 0.0 <= r.value.interestImpact <= 100.0
    {
      if |loans| < 2 {
        return Failure(IndexError);
      }
      var timeAll := loans[0].timeToLoanTermination;
      var interestAll := loans[0].totalInterestPaid;
      var timeContributor := loans[1].timeToLoanTermination;
      var interestContributor := loans[1].totalInterestPaid;
      if timeAll.None? || timeContributor.None? {
        return Failure(TypeError);
      }
      var timeDiff := timeContributor.value - timeAll.value;
      var interestDiff := interestContributor - interestAll;
      if timeContributor.value == 0 || interestContributor == 0.0 {
        return Failure(ZeroDivisionError);
      }
      var timeImpact := timeDiff as real / timeContributor.value as real * 100.0;
      var interestImpact := interestDiff / interestContributor * 100.0;
      var impact := Impact(timeDiff, interestDiff, timeImpact, interestImpact);
      if ContributorPair(loans[0], loans[1]) {
        ImpactBounds(loans[0], loans[1], impact);
      }
      return Success(impact);
    }
  }

  /**
   * The use the source makes of `compute_impact`: two computed loans on the
   * same principal, rate and payment, the first with at least the extra
   * payment of the second.
   */
  ghost predicate ContributorPair(all: Loan, contributor: Loan)
    reads all, contributor
  {
    && all.Computed() && contributor.Computed()
    && all.principal == contributor.principal && all.rate == contributor.rate
    && all.payment == contributor.payment && all.extraPayment >= contributor.extraPayment
  }

  /**
   * For such a pair, the loan with less extra payment lasts no shorter and
   * pays no less interest, so both differences are non-negative and each
   * percentage of the second loan's value lies in [0, 100].
   */
  lemma ImpactBounds(all: Loan, contributor: Loan, r: Impact)
    requires ContributorPair(all, contributor)
    requires contributor.totalInterestPaid != 0.0
    requires r.timeDiff == contributor.timeToLoanTermination.value - all.timeToLoanTermination.value
    requires r.interestDiff == contributor.totalInterestPaid - all.totalInterestPaid
    requires r.timeImpact * contributor.timeToLoanTermination.value as real == r.timeDiff as real * 100.0
    requires r.interestImpact * contributor.totalInterestPaid == r.interestDiff * 100.0
    ensures r.timeDiff >= 0 && r.interestDiff >= 0.0
    ensures 0.0 <= r.timeImpact < 100.0 && 0.0 <= r.interestImpact <= 100.0
  {
    var pa, pc := all.Params(), contributor.Params();
    MoreExtraNoWorse(pc, pa);
    DurationBound(pa);
    InterestNonnegativeFrom(pa, 1, pa.principal);
    var ta, tc := all.timeToLoanTermination.value, contributor.timeToLoanTermination.value;
    assert 1 <= ta <= tc;
    PercentOf(r.timeDiff as real, tc as real, r.timeImpact);
    PercentOf(r.interestDiff, contributor.totalInterestPaid, r.interestImpact);
  }

  /** A part x of a positive whole y, as a percentage q of y, lies in [0, 100], below 100 when x < y. */
  lemma PercentOf(x: real, y: real, q: real)
    requires 0.0 <= x <= y && y > 0.0 && q * y == x * 100.0
    ensures 0.0 <= q <= 100.0 && (x < y ==> q < 100.0)
  {
    assert q == x / y * 100.0;
  }
}

