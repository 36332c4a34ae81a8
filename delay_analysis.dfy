/**
 The late-return analysis of the dashboard: which valid rentals came back
 late, which of those late returns ran over the buffer before the next
 rental on the same car (a conflict), the shares shown beside those counts,
 and the interquartile outlier filter applied to the late returns before
 their delay statistics are shown.
 */
module DelayAnalysis {
  import opened Masks
  import opened Rentals

  /** A row the late-return analysis keeps: both its delay and its buffer are recorded. */
  predicate HasDelayAndGap(r: Rental) {
    r.delayAtCheckout.Some? && r.timeDeltaWithPreviousRental.Some?
  }

  predicate IsNotDelayed(r: Rental) {
    !IsDelayed(r)
  }

  predicate NoConflict(r: Rental) {
    !DelayExceedsGap(r)
  }

  /** The valid rentals: the rows with both a delay and a buffer, in table order. */
  function ValidRentals(df: seq<Rental>): (r: seq<Rental>)
    ensures forall x :: x in r <==> x in df && HasDelayAndGap(x)
    ensures forall x :: multiset(r)[x] == (if HasDelayAndGap(x) then multiset(df)[x] else 0)
  {
    Select(df, HasDelayAndGap)
  }

  /** The late returns: the valid rentals that came back strictly late. */
  function DelayedRentals(df: seq<Rental>): (r: seq<Rental>)
    ensures forall x :: x in r <==> x in df && HasDelayAndGap(x) && IsDelayed(x)
    ensures forall x :: multiset(r)[x] == (if HasDelayAndGap(x) && IsDelayed(x) then multiset(df)[x] else 0)
  {
    Select(ValidRentals(df), IsDelayed)
  }

  /**
   The conflicts: the late returns whose lateness exceeds their buffer. Each
   has a recorded delay above zero and above its recorded buffer.
   */
  function Conflicts(df: seq<Rental>): (r: seq<Rental>)
    ensures forall x :: x in r <==> x in df && HasDelayAndGap(x) && IsDelayed(x) && DelayExceedsGap(x)
    ensures forall x :: (multiset(r)[x] ==
      if HasDelayAndGap(x) && IsDelayed(x) && DelayExceedsGap(x) then multiset(df)[x] else 0)
    ensures forall x :: x in r ==>
      && x.delayAtCheckout.Some? && x.timeDeltaWithPreviousRental.Some?
      && x.delayAtCheckout.value > 0.0
      && x.delayAtCheckout.value > x.timeDeltaWithPreviousRental.value
  {
    Select(DelayedRentals(df), DelayExceedsGap)
  }

  datatype DelayCounts = DelayCounts(totalRentals: nat, totalDelayed: nat, totalConflicts: nat)

  /** The three key figures: valid rentals, late returns among them, conflicts among those. */
  function CountDelays(df: seq<Rental>): (c: DelayCounts)
    ensures c.totalConflicts <= c.totalDelayed <= c.totalRentals <= |df|
  {
    DelayCounts(|ValidRentals(df)|, |DelayedRentals(df)|, |Conflicts(df)|)
  }

  /**
   The second slices of the two pie charts: the valid rentals that were not
   late number `total_rentals - total_delayed`, and the late ones without a
   conflict number `total_delayed - total_conflicts`.
   */
  lemma PieSlicesPartition(df: seq<Rental>)
    ensures |Select(ValidRentals(df), IsNotDelayed)| == CountDelays(df).totalRentals - CountDelays(df).totalDelayed
    ensures |Select(DelayedRentals(df), NoConflict)| == CountDelays(df).totalDelayed - CountDelays(df).totalConflicts
  {
    SelectPartition(ValidRentals(df), IsDelayed, IsNotDelayed);
    SelectPartition(DelayedRentals(df), DelayExceedsGap, NoConflict);
  }

  datatype DelayShares = DelayShares(delayShare: real, conflictShare: real)

  /**
   The share of valid rentals that were late and the share of late returns
   that caused a conflict, from the counts of `CountDelays`. Neither division
   is guarded, so the computation raises a division by zero when no valid
   rental was late (in particular when the table has no valid rental at all).
   */
  function ShareDelays(c: DelayCounts): (r: Result<DelayShares, ArithmeticError>)
    requires c.totalConflicts <= c.totalDelayed <= c.totalRentals
    ensures r.Failure? <==> c.totalDelayed == 0
    ensures r.Success? ==> 0.0 < r.value.delayShare <= 1.0 && 0.0 <= r.value.conflictShare <= 1.0
    ensures r.Success? ==>
      && r.value.delayShare * c.totalRentals as real == c.totalDelayed as real
      && r.value.conflictShare * c.totalDelayed as real == c.totalConflicts as real
  {
    if c.totalRentals == 0 then Failure(ZeroDivisionError)
    else
      var delayShare := Share(c.totalDelayed as real, c.totalRentals as real);
      if c.totalDelayed == 0 then Failure(ZeroDivisionError)
      else
        var conflictShare := Share(c.totalConflicts as real, c.totalDelayed as real);
        Success(DelayShares(delayShare, conflictShare))
  }

  /** The numeric columns the outlier filter can be applied to. */
  datatype Column = DelayAtCheckout | TimeDeltaWithPreviousRental

  function ColumnValue(r: Rental, column: Column): Option<real> {
    match column
    case DelayAtCheckout => r.delayAtCheckout
    case TimeDeltaWithPreviousRental => r.timeDeltaWithPreviousRental
  }

  /** The lower fence: the first quartile minus one and a half interquartile ranges. */
  function LowerFence(q1: real, q3: real): real {
    q1 - 1.5 * (q3 - q1)
  }

  /** The upper fence: the third quartile plus one and a half interquartile ranges. */
  function UpperFence(q1: real, q3: real): real {
    q3 + 1.5 * (q3 - q1)
  }

  predicate WithinFences(r: Rental, column: Column, q1: real, q3: real) {
    var v := ColumnValue(r, column);
    v.Some? && LowerFence(q1, q3) <= v.value <= UpperFence(q1, q3)
  }

  function FenceMask(column: Column, q1: real, q3: real): Rental -> bool {
    r => WithinFences(r, column, q1, q3)
  }

  /**
   The outlier filter for given quartiles `q1` and `q3` of `column`: the rows
   whose value lies between the two fences, bounds included, in their
   original order; a row whose value is missing is dropped.
   */
  function FilterOutliersIqr(df: seq<Rental>, column: Column, q1: real, q3: real): (r: seq<Rental>)
    ensures Subsequence(r, df)
    ensures forall x :: x in r <==>
      (x in df && ColumnValue(x, column).Some? && LowerFence(q1, q3) <= ColumnValue(x, column).value <= UpperFence(q1, q3))
    ensures forall x :: multiset(r)[x] == (if WithinFences(x, column, q1, q3) then multiset(df)[x] else 0)
  {
    Select(df, FenceMask(column, q1, q3))
  }

  /**
   With ordered quartiles the fences enclose the interquartile range, so the
   filter keeps every row whose value lies between the quartiles and never
   keeps fewer rows than there are such rows.
   */
  lemma InterquartileRowsKept(df: seq<Rental>, column: Column, q1: real, q3: real)
    requires q1 <= q3
    ensures forall x :: x in df && QuartileMask(column, q1, q3)(x) ==> x in FilterOutliersIqr(df, column, q1, q3)
    ensures |Select(df, QuartileMask(column, q1, q3))| <= |FilterOutliersIqr(df, column, q1, q3)|
  {
    SelectMonotone(df, QuartileMask(column, q1, q3), FenceMask(column, q1, q3));
  }

  function QuartileMask(column: Column, q1: real, q3: real): Rental -> bool {
    r => ColumnValue(r, column).Some? && q1 <= ColumnValue(r, column).value <= q3
  }
}
