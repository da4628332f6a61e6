/**
 * Amortization rows and the period-keyed tables built from them.
 *
 * Both `Loan.schedule` and `LoanPortfolio.schedule` are Python dictionaries
 * from a period number to a 7-tuple whose first component is that same period
 * number. Such a dictionary is modelled here by the sequence of its rows in
 * insertion order (the order Python iterates it in); the key of a row is its
 * `month`. `Find`, `At` and `Put` give the dictionary's lookup and store.
 */
module Schedules {

  /** One row of a schedule: the tuple written for one period. */
  datatype Row = Row(month: int, begin: real, payment: real, extraPayment: real,
                     appliedPrincipal: real, appliedInterest: real, end: real)

  /** The six amount columns of a row. */
  datatype Field = Begin | Payment | ExtraPayment | AppliedPrincipal | AppliedInterest | End

  function Get(r: Row, f: Field): real
  {
    match f
    case Begin => r.begin
    case Payment => r.payment
    case ExtraPayment => r.extraPayment
    case AppliedPrincipal => r.appliedPrincipal
    case AppliedInterest => r.appliedInterest
    case End => r.end
  }

  /** The row a dictionary entry starts from when a period is first seen. */
  function Zero(key: int): Row
  {
    Row(key, 0.0, 0.0, 0.0, 0.0, 0.0, 0.0)
  }

  /** Sum of one column, added up front to back as the source's loops do. */
  function Sum(rows: seq<Row>, f: Field): real
  {
    if rows == [] then 0.0 else Sum(rows[..|rows| - 1], f) + Get(rows[|rows| - 1], f)
  }

  /** Splitting off the first row of a column sum. */
  lemma {:induction false} SumCons(r: Row, rows: seq<Row>, f: Field)
    ensures Sum([r] + rows, f) == Get(r, f) + Sum(rows, f)
  {
    if rows != [] {
      var init := rows[..|rows| - 1];
      assert ([r] + rows)[..|[r] + rows| - 1] == [r] + init;
      SumCons(r, init, f);
    }
  }

  /** A sum over one more row of a prefix adds that row. */
  lemma SumSnoc(rows: seq<Row>, i: nat, f: Field)
    requires i < |rows|
    ensures Sum(rows[..i + 1], f) == Sum(rows[..i], f) + Get(rows[i], f)
  {
    assert rows[..i + 1][..i] == rows[..i];
  }

  /** With no negative entries, a longer prefix never has a smaller column sum. */
  lemma {:induction false} SumPrefixMonotone(rows: seq<Row>, f: Field, i: nat, j: nat)
    requires i <= j <= |rows|
    requires forall n :: 0 <= n < |rows| ==> Get(rows[n], f) >= 0.0
    ensures Sum(rows[..i], f) <= Sum(rows[..j], f)
  {
    if i < j {
      SumPrefixMonotone(rows, f, i, j - 1);
      assert rows[..j][..j - 1] == rows[..j - 1];
    }
  }

  /** Keys of the table: the months of its rows. */
  function Months(d: seq<Row>): set<int>
  {
    set i | 0 <= i < |d| :: d[i].month
  }

  /** No key is stored twice (true of every Python dictionary). */
  predicate Distinct(d: seq<Row>)
  {
    forall i, j :: 0 <= i < j < |d| ==> d[i].month != d[j].month
  }

  /** Position of the entry with the given key, or -1 when the key is absent. */
  function Find(d: seq<Row>, key: int): (i: int)
    ensures -1 <= i < |d|
    ensures 0 <= i ==> d[i].month == key && forall j :: 0 <= j < i ==> d[j].month != key
    ensures i < 0 <==> forall j :: 0 <= j < |d| ==> d[j].month != key
  {
    if d == [] then -1
    else if d[0].month == key then 0
    else
      var i := Find(d[1..], key);
      assert forall j :: 1 <= j < |d| ==> d[j] == d[1..][j - 1];
      if i < 0 then -1 else i + 1
  }

  /** In a table without repeated keys, an entry's position is where `Find` looks. */
  lemma FindDistinct(d: seq<Row>, j: int)
    requires Distinct(d) && 0 <= j < |d|
    ensures Find(d, d[j].month) == j
  {
  }

  /** `d[key]`, reading a missing key as the zero row for that key. */
  function At(d: seq<Row>, key: int): (r: Row)
    ensures r.month == key
    ensures key in Months(d) ==> r in d
    ensures key !in Months(d) ==> r == Zero(key)
  {
    var i := Find(d, key);
    if i < 0 then Zero(key) else d[i]
  }

  /** `d[r.month] = r`: overwrite in place when the key exists, append otherwise. */
  function Put(d: seq<Row>, r: Row): (d': seq<Row>)
    ensures Distinct(d) ==> Distinct(d')
    ensures Months(d') == Months(d) + {r.month}
    ensures r.month in Months(d) ==> |d'| == |d|
    ensures r.month !in Months(d) ==> d' == d + [r]
    ensures 0 <= Find(d, r.month) ==> d' == d[Find(d, r.month) := r]
  {
    var i := Find(d, r.month);
    if i < 0 then
      assert Months(d + [r]) == Months(d) + {r.month} by {
        forall x ensures x in Months(d + [r]) <==> x in Months(d) + {r.month} {
          if x in Months(d) {
            var j :| 0 <= j < |d| && d[j].month == x;
            assert (d + [r])[j] == d[j];
          }
          if x == r.month {
            assert (d + [r])[|d|] == r;
          }
        }
      }
      d + [r]
    else
      assert Months(d[i := r]) == Months(d) by {
        forall x ensures x in Months(d[i := r]) <==> x in Months(d) {
          if x in Months(d) {
            var j :| 0 <= j < |d| && d[j].month == x;
            assert d[i := r][j].month == x;
          }
        }
      }
      d[i := r]
  }

  /** Storing a key changes that key and no other (the dictionary's law). */
  lemma AtPut(d: seq<Row>, r: Row, key: int)
    requires Distinct(d)
    ensures At(Put(d, r), key) == if r.month == key then r else At(d, key)
  {
    var d' := Put(d, r);
    var i := Find(d, r.month);
    if r.month == key {
      var j := if i < 0 then |d| else i;
      assert d'[j] == r;
      FindDistinct(d', j);
    } else if key in Months(d) {
      var j := Find(d, key);
      assert d'[j] == d[j];
      FindDistinct(d', j);
    } else {
      assert key !in Months(d');
    }
  }

  /** Storing a row that is already there changes nothing. */
  lemma PutPresent(d: seq<Row>, j: int)
    requires Distinct(d) && 0 <= j < |d|
    ensures Put(d, d[j]) == d
  {
    FindDistinct(d, j);
  }

  /** A table row with the running interest total the source appends as a column. */
  datatype Line = Line(row: Row, accumulatedInterest: real)

  /**
   * The accumulated-interest loop of `return_loan_schedule` and
   * `return_portfolio_schedule`: line i carries row i and the interest of
   * rows 0..i.
   */
  method AccumulateInterest(rows: seq<Row>) returns (table: seq<Line>)
    ensures |table| == |rows|
    ensures forall i :: 0 <= i < |rows| ==>
              table[i].row == rows[i] && table[i].accumulatedInterest == Sum(rows[..i + 1], AppliedInterest)
  {
    var accumulated := 0.0;
    table := [];
    for i := 0 to |rows|
      invariant |table| == i
      invariant accumulated == Sum(rows[..i], AppliedInterest)
      invariant forall j :: 0 <= j < i ==>
                  table[j].row == rows[j] && table[j].accumulatedInterest == Sum(rows[..j + 1], AppliedInterest)
    {
      SumSnoc(rows, i, AppliedInterest);
      accumulated := accumulated + rows[i].appliedInterest;
      table := table + [Line(rows[i], accumulated)];
    }
  }

  /** The accumulated column never decreases when no period has negative interest. */
  lemma AccumulatedNondecreasing(rows: seq<Row>, table: seq<Line>, i: int, j: int)
    requires |table| == |rows|
    requires forall n :: 0 <= n < |rows| ==>
               table[n].row == rows[n] && table[n].accumulatedInterest == Sum(rows[..n + 1], AppliedInterest)
    requires forall n :: 0 <= n < |rows| ==> rows[n].appliedInterest >= 0.0
    requires 0 <= i <= j < |rows|
    ensures table[i].accumulatedInterest <= table[j].accumulatedInterest
  {
    SumPrefixMonotone(rows, AppliedInterest, i + 1, j + 1);
  }

  /** `max(d.keys())` over a non-empty table. */
  method MaxMonth(d: seq<Row>) returns (m: int)
    requires |d| > 0
    ensures m in Months(d)
    ensures forall i :: 0 <= i < |d| ==> d[i].month <= m
  {
    m := d[0].month;
    for i := 1 to |d|
      invariant m in Months(d)
      invariant forall j :: 0 <= j < i ==> d[j].month <= m
    {
      if d[i].month > m {
        m := d[i].month;
      }
    }
  }
}
