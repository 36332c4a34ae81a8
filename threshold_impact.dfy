/**
 The threshold impact calculator of the dashboard: for a scope (all cars, or
 only cars checked in through the connected device) and a minimum buffer
 `threshold` in minutes between two rentals of the same car, how many
 rentals the threshold would touch, how many conflicts it would have
 avoided, and what share of the (estimated) revenue it puts at risk.
 */
module ThresholdImpact {
  import opened Masks
  import opened Rentals
  import DelayAnalysis

  /** The scope label that keeps every car; any other label keeps only connected check-ins. */
  const AllCars: string := "Toutes les voitures"

  /** The label the dashboard passes for the connected-only scope. */
  const ConnectOnly: string := "Connect uniquement"

  /** The value credited per avoided conflict, per scope. */
  const AllCarsValue: real := 120.7
  const ConnectOnlyValue: real := 132.0

  /** A row the calculator keeps: it follows a previous rental and both its buffer and its delay are recorded. */
  predicate IsComplete(r: Rental) {
    && r.previousEndedRentalId.Some?
    && r.timeDeltaWithPreviousRental.Some?
    && r.delayAtCheckout.Some?
  }

  /** The rows the calculator works on, in table order and with their repetitions. */
  function CompleteRentals(df: seq<Rental>): (r: seq<Rental>)
    ensures forall x :: x in r <==> x in df && IsComplete(x)
    ensures forall x :: multiset(r)[x] == (if IsComplete(x) then multiset(df)[x] else 0)
  {
    Select(df, IsComplete)
  }

  /** The rows of the scope: all of them for the all-cars label, the connected check-ins for any other. */
  function ScopeRentals(valid: seq<Rental>, scope: string): (r: seq<Rental>)
    ensures scope == AllCars ==> r == valid
    ensures forall x :: x in r <==> x in valid && (scope == AllCars || IsConnect(x))
    ensures forall x :: multiset(r)[x] == (if scope == AllCars || IsConnect(x) then multiset(valid)[x] else 0)
  {
    if scope == AllCars then valid else Select(valid, IsConnect)
  }

  function ScopeValue(scope: string): real {
    if scope == AllCars then AllCarsValue else ConnectOnlyValue
  }

  /** Revenue proxy: each rental is worth the mean daily price of its check-in category. */
  function Revenue(connect: nat, nonConnect: nat, priceConnect: real, priceNonConnect: real): real {
    connect as real * priceConnect + nonConnect as real * priceNonConnect
  }

  /** The rentals of the scope whose buffer is shorter than the threshold. */
  function Affected(rows: seq<Rental>, threshold: int): (r: seq<Rental>)
    ensures forall x :: x in r <==> x in rows && GapBelow(x, threshold)
    ensures forall x :: multiset(r)[x] == (if GapBelow(x, threshold) then multiset(rows)[x] else 0)
  {
    Select(rows, GapBelowMask(threshold))
  }

  /** The rentals of the scope whose predecessor's lateness overran the buffer. */
  function ConflictCases(rows: seq<Rental>): (r: seq<Rental>)
    ensures forall x :: x in r <==> x in rows && DelayExceedsGap(x)
    ensures forall x :: multiset(r)[x] == (if DelayExceedsGap(x) then multiset(rows)[x] else 0)
  {
    Select(rows, DelayExceedsGap)
  }

  /** The conflicts a minimum buffer of `threshold` minutes would have avoided. */
  function Saved(rows: seq<Rental>, threshold: int): (r: seq<Rental>)
    ensures forall x :: x in r <==> x in rows && DelayExceedsGap(x) && GapBelow(x, threshold)
    ensures forall x :: (multiset(r)[x] ==
      if DelayExceedsGap(x) && GapBelow(x, threshold) then multiset(rows)[x] else 0)
  {
    Select(ConflictCases(rows), GapBelowMask(threshold))
  }

  datatype ScopeCounts = ScopeCounts(
    totalRentals: nat,
    totalConnect: nat,
    totalNonConnect: nat,
    affectedConnect: nat,
    affectedNonConnect: nat,
    affectedTotal: nat,
    savedCount: nat)

  /**
   The row counts of the calculator for one scope and threshold: no count
   exceeds the table, and the affected rentals of each category are among
   the affected rentals and among that category's rentals of the scope.
   */
  function CountScope(df: seq<Rental>, scope: string, threshold: int): (c: ScopeCounts)
    ensures c.totalRentals <= |df|
    ensures c.affectedTotal <= c.totalRentals
    ensures c.totalConnect <= c.totalRentals && c.totalNonConnect <= c.totalRentals
    ensures c.affectedConnect <= c.affectedTotal && c.affectedNonConnect <= c.affectedTotal
  {
    var rows := ScopeRentals(CompleteRentals(df), scope);
    var affected := Affected(rows, threshold);
    ScopeCounts(
      |rows|,
      |Select(rows, IsConnect)|,
      |Select(rows, IsNotConnect)|,
      |Select(affected, IsConnect)|,
      |Select(affected, IsNotConnect)|,
      |affected|,
      |Saved(rows, threshold)|)
  }

  /**
   The relations the counts of any scope and threshold satisfy (proved in
   `CountsConsistent`); the revenue figures are argued from these alone.
   */
  ghost predicate Consistent(c: ScopeCounts) {
    && c.totalConnect + c.totalNonConnect == c.totalRentals
    && c.affectedConnect + c.affectedNonConnect == c.affectedTotal
    && c.affectedConnect <= c.totalConnect
    && c.affectedNonConnect <= c.totalNonConnect
    && c.savedCount <= c.affectedTotal
  }

  datatype ScopeMetrics = ScopeMetrics(
    counts: ScopeCounts,
    totalRevenue: real,
    affectedRevenue: real,
    revenueShare: real,
    savedPct: real,
    estimatedBenefit: real,
    costBenefitScore: real)

  /**
   Every intermediate figure of the calculator, before rounding, from the
   counts, the two mean daily prices and the value credited per saved rental.
   */
  function Measure(c: ScopeCounts, priceConnect: real, priceNonConnect: real, valuePerSaved: real): (m: ScopeMetrics)
    ensures m.counts == c
    ensures c.affectedTotal == 0 ==> m.savedPct == 0.0
    ensures m.totalRevenue <= 0.0 ==> m.revenueShare == 0.0
    ensures m.affectedRevenue <= 0.0 ==> m.costBenefitScore == 0.0
    ensures c.affectedConnect == 0 && c.affectedNonConnect == 0 ==> m.affectedRevenue == 0.0 && m.costBenefitScore == 0.0
    ensures c.savedCount == 0 ==> m.estimatedBenefit == 0.0 && m.costBenefitScore == 0.0
  {
    var totalRevenue := Revenue(c.totalConnect, c.totalNonConnect, priceConnect, priceNonConnect);
    var affectedRevenue := Revenue(c.affectedConnect, c.affectedNonConnect, priceConnect, priceNonConnect);
    var revenueShare := if totalRevenue > 0.0 then affectedRevenue / totalRevenue else 0.0;
    var savedPct := if c.affectedTotal > 0 then c.savedCount as real / c.affectedTotal as real * 100.0 else 0.0;
    var estimatedBenefit := c.savedCount as real * valuePerSaved;
    var costBenefitScore := if affectedRevenue > 0.0 then estimatedBenefit / affectedRevenue * 100.0 else 0.0;
    ScopeMetrics(c, totalRevenue, affectedRevenue, revenueShare, savedPct, estimatedBenefit, costBenefitScore)
  }

  /** The six figures the dashboard shows for a scope, before display rounding. */
  datatype ImpactReport = ImpactReport(
    affectedRentals: nat,
    savedRentals: nat,
    savedPct: real,
    revenueLossPct: real,
    revenueLoss: real,
    efficiency: real)

  /**
   The six figures of a report from counts that satisfy the relations every
   table's counts satisfy: no more rentals saved than affected, an all-zero
   report when nothing is affected, and, with non-negative prices and value,
   both percentages in [0, 100] and a non-negative revenue loss and efficiency.
   */
  function Report(c: ScopeCounts, priceConnect: real, priceNonConnect: real, valuePerSaved: real): (r: ImpactReport)
    requires Consistent(c)
    ensures r.affectedRentals == c.affectedTotal && r.savedRentals == c.savedCount
    ensures r.savedRentals <= r.affectedRentals
    ensures r.affectedRentals == 0 ==> r == ImpactReport(0, 0, 0.0, 0.0, 0.0, 0.0)
    ensures priceConnect >= 0.0 && priceNonConnect >= 0.0 && valuePerSaved >= 0.0 ==>
      && 0.0 <= r.savedPct <= 100.0
      && 0.0 <= r.revenueLossPct <= 100.0
      && 0.0 <= r.revenueLoss
      && 0.0 <= r.efficiency
  {
    var m := Measure(c, priceConnect, priceNonConnect, valuePerSaved);
    var r := ImpactReport(c.affectedTotal, c.savedCount, m.savedPct, m.revenueShare * 100.0, m.affectedRevenue, m.costBenefitScore);
    if priceConnect >= 0.0 && priceNonConnect >= 0.0 && valuePerSaved >= 0.0 then
      MetricBounds(c, priceConnect, priceNonConnect, valuePerSaved);
      r
    else r
  }

  /**
   The calculator itself: the counts of the table for the scope and
   threshold, measured with the two mean prices and the scope's value per
   saved rental. Whatever the prices, no more rentals are saved than
   affected, and a threshold that affects no rental yields an all-zero
   report. With non-negative prices both percentages lie in [0, 100] and the
   revenue at risk and the efficiency are non-negative.
   */
  function CalculateScopeData(df: seq<Rental>, priceConnect: real, priceNonConnect: real, scope: string, threshold: int)
    : (r: ImpactReport)
    ensures r.savedRentals <= r.affectedRentals
    ensures r.affectedRentals == 0 ==> r == ImpactReport(0, 0, 0.0, 0.0, 0.0, 0.0)
    ensures priceConnect >= 0.0 && priceNonConnect >= 0.0 ==>
      && 0.0 <= r.savedPct <= 100.0
      && 0.0 <= r.revenueLossPct <= 100.0
      && 0.0 <= r.revenueLoss
      && 0.0 <= r.efficiency
  {
    CountsConsistent(df, scope, threshold);
    Report(CountScope(df, scope, threshold), priceConnect, priceNonConnect, ScopeValue(scope))
  }

  /** Saved rentals are affected rentals, and affected rentals belong to the scope. */
  lemma SavedWithinAffected(df: seq<Rental>, scope: string, threshold: int)
    ensures var rows := ScopeRentals(CompleteRentals(df), scope);
      forall x :: x in Saved(rows, threshold) ==> x in Affected(rows, threshold)
    ensures var c := CountScope(df, scope, threshold);
      c.savedCount <= c.affectedTotal <= c.totalRentals
  {
    var rows := ScopeRentals(CompleteRentals(df), scope);
    SelectCommutes(rows, DelayExceedsGap, GapBelowMask(threshold));
  }

  /** Connected and other check-ins split the scope, and split the affected rentals. */
  lemma CheckinPartition(df: seq<Rental>, scope: string, threshold: int)
    ensures var c := CountScope(df, scope, threshold);
      && c.totalConnect + c.totalNonConnect == c.totalRentals
      && c.affectedConnect + c.affectedNonConnect == c.affectedTotal
  {
    var rows := ScopeRentals(CompleteRentals(df), scope);
    SelectPartition(rows, IsConnect, IsNotConnect);
    SelectPartition(Affected(rows, threshold), IsConnect, IsNotConnect);
  }

  /** Each check-in category has no more affected rentals than it has rentals in the scope. */
  lemma AffectedCategoriesWithinScope(df: seq<Rental>, scope: string, threshold: int)
    ensures var c := CountScope(df, scope, threshold);
      c.affectedConnect <= c.totalConnect && c.affectedNonConnect <= c.totalNonConnect
  {
    var rows := ScopeRentals(CompleteRentals(df), scope);
    SelectCommutes(rows, GapBelowMask(threshold), IsConnect);
    SelectCommutes(rows, GapBelowMask(threshold), IsNotConnect);
  }

  lemma CountsConsistent(df: seq<Rental>, scope: string, threshold: int)
    ensures Consistent(CountScope(df, scope, threshold))
  {
    SavedWithinAffected(df, scope, threshold);
    CheckinPartition(df, scope, threshold);
    AffectedCategoriesWithinScope(df, scope, threshold);
  }

  /**
   Any scope label other than the all-cars one keeps connected check-ins
   only, so the non-connected counts vanish and the connected counts are
   the totals.
   */
  lemma ConnectScopeHasOnlyConnect(df: seq<Rental>, scope: string, threshold: int)
    requires scope != AllCars
    ensures forall x :: x in ScopeRentals(CompleteRentals(df), scope) ==> x in df && IsComplete(x) && IsConnect(x)
    ensures var c := CountScope(df, scope, threshold);
      && c.totalNonConnect == 0 && c.affectedNonConnect == 0
      && c.totalConnect == c.totalRentals && c.affectedConnect == c.affectedTotal
  {
    var rows := ScopeRentals(CompleteRentals(df), scope);
    var affected := Affected(rows, threshold);
    SelectKeepsNone(rows, IsNotConnect);
    SelectKeepsNone(affected, IsNotConnect);
    SelectKeepsAll(rows, IsConnect);
    SelectKeepsAll(affected, IsConnect);
  }

  /**
   The share of revenue at risk is zero when the scope's revenue is not
   positive, and otherwise the revenue at risk divided by the scope's revenue.
   */
  lemma RevenueShareGuarded(c: ScopeCounts, priceConnect: real, priceNonConnect: real, valuePerSaved: real)
    ensures var m := Measure(c, priceConnect, priceNonConnect, valuePerSaved);
      && (m.totalRevenue <= 0.0 ==> m.revenueShare == 0.0)
      && (m.totalRevenue > 0.0 ==> m.revenueShare * m.totalRevenue == m.affectedRevenue)
  {
  }

  /**
   The saved percentage is zero when no rental is affected, and otherwise
   the saved rentals per affected rental, in percent.
   */
  lemma SavedPctGuarded(c: ScopeCounts, priceConnect: real, priceNonConnect: real, valuePerSaved: real)
    ensures var m := Measure(c, priceConnect, priceNonConnect, valuePerSaved);
      && (c.affectedTotal == 0 ==> m.savedPct == 0.0)
      && (c.affectedTotal > 0 ==> m.savedPct * c.affectedTotal as real == 100.0 * c.savedCount as real)
  {
  }

  /**
   The efficiency is zero when no revenue is at risk, and otherwise the
   value credited for the saved rentals per unit of revenue at risk, in
   percent.
   */
  lemma EfficiencyGuarded(c: ScopeCounts, priceConnect: real, priceNonConnect: real, valuePerSaved: real)
    ensures var m := Measure(c, priceConnect, priceNonConnect, valuePerSaved);
      && m.estimatedBenefit == c.savedCount as real * valuePerSaved
      && (m.affectedRevenue <= 0.0 ==> m.costBenefitScore == 0.0)
      && (m.affectedRevenue > 0.0 ==>
            m.costBenefitScore * m.affectedRevenue == 100.0 * c.savedCount as real * valuePerSaved)
  {
  }

  /**
   With consistent counts, non-negative prices and a non-negative value per
   saved rental, the revenue at risk is part of the scope's revenue, so the
   revenue share lies in [0, 1]; the saved percentage lies in [0, 100] and
   the efficiency is non-negative.
   */
  lemma MetricBounds(c: ScopeCounts, priceConnect: real, priceNonConnect: real, valuePerSaved: real)
    requires Consistent(c)
    requires priceConnect >= 0.0 && priceNonConnect >= 0.0 && valuePerSaved >= 0.0
    ensures var m := Measure(c, priceConnect, priceNonConnect, valuePerSaved);
      && 0.0 <= m.affectedRevenue <= m.totalRevenue
      && 0.0 <= m.revenueShare <= 1.0
      && 0.0 <= m.savedPct <= 100.0
      && 0.0 <= m.estimatedBenefit
      && 0.0 <= m.costBenefitScore
  {
    var m := Measure(c, priceConnect, priceNonConnect, valuePerSaved);
    RevenueMonotone(c.affectedConnect, c.affectedNonConnect, c.totalConnect, c.totalNonConnect,
      priceConnect, priceNonConnect);
    RevenueMonotone(0, 0, c.affectedConnect, c.affectedNonConnect, priceConnect, priceNonConnect);
    if m.totalRevenue > 0.0 {
      assert m.revenueShare == Share(m.affectedRevenue, m.totalRevenue);
    }
    if c.affectedTotal > 0 {
      assert m.savedPct == Share(c.savedCount as real, c.affectedTotal as real) * 100.0;
    }
    assert 0.0 <= m.estimatedBenefit;
    if m.affectedRevenue > 0.0 {
      assert m.estimatedBenefit / m.affectedRevenue >= 0.0;
    }
  }

  /** With non-negative prices, more rentals in each category never make less revenue. */
  lemma RevenueMonotone(connect: nat, nonConnect: nat, connect': nat, nonConnect': nat,
                        priceConnect: real, priceNonConnect: real)
    requires connect <= connect' && nonConnect <= nonConnect'
    requires priceConnect >= 0.0 && priceNonConnect >= 0.0
    ensures Revenue(connect, nonConnect, priceConnect, priceNonConnect)
         <= Revenue(connect', nonConnect', priceConnect, priceNonConnect)
  {
  }

  /**
   Raising the threshold never shrinks the affected or the saved rentals,
   in either check-in category, and with non-negative prices never lowers
   the revenue at risk.
   */
  lemma ThresholdMonotone(df: seq<Rental>, priceConnect: real, priceNonConnect: real, scope: string, low: int, high: int)
    requires low <= high
    ensures var c, d := CountScope(df, scope, low), CountScope(df, scope, high);
      && c.affectedTotal <= d.affectedTotal
      && c.affectedConnect <= d.affectedConnect
      && c.affectedNonConnect <= d.affectedNonConnect
      && c.savedCount <= d.savedCount
      && (priceConnect >= 0.0 && priceNonConnect >= 0.0 ==>
            Revenue(c.affectedConnect, c.affectedNonConnect, priceConnect, priceNonConnect)
              <= Revenue(d.affectedConnect, d.affectedNonConnect, priceConnect, priceNonConnect))
  {
    var rows := ScopeRentals(CompleteRentals(df), scope);
    var lowMask, highMask := GapBelowMask(low), GapBelowMask(high);
    SelectMonotone(rows, lowMask, highMask);
    SelectMonotone(ConflictCases(rows), lowMask, highMask);
    SelectCommutes(rows, lowMask, IsConnect);
    SelectCommutes(rows, highMask, IsConnect);
    SelectMonotone(Select(rows, IsConnect), lowMask, highMask);
    SelectCommutes(rows, lowMask, IsNotConnect);
    SelectCommutes(rows, highMask, IsNotConnect);
    SelectMonotone(Select(rows, IsNotConnect), lowMask, highMask);
    var c, d := CountScope(df, scope, low), CountScope(df, scope, high);
    if priceConnect >= 0.0 && priceNonConnect >= 0.0 {
      RevenueMonotone(c.affectedConnect, c.affectedNonConnect, d.affectedConnect, d.affectedNonConnect,
        priceConnect, priceNonConnect);
    }
  }

  /**
   The connected-only scope is the connected part of the all-cars scope:
   its rentals and affected rentals are the all-cars scope's connected
   ones, and it saves no more rentals than the all-cars scope.
   */
  lemma ScopesNested(df: seq<Rental>, threshold: int)
    ensures var all, connect := CountScope(df, AllCars, threshold), CountScope(df, ConnectOnly, threshold);
      && connect.totalRentals == all.totalConnect
      && connect.affectedTotal == all.affectedConnect
      && connect.savedCount <= all.savedCount
  {
    var valid := CompleteRentals(df);
    var mask := GapBelowMask(threshold);
    SelectCommutes(valid, IsConnect, mask);
    SelectCommutes(valid, IsConnect, DelayExceedsGap);
    SelectCommutes(Select(valid, DelayExceedsGap), IsConnect, mask);
    SelectCommutes(Select(valid, mask), IsConnect, DelayExceedsGap);
    SelectCommutes(valid, DelayExceedsGap, mask);
  }

  /**
   The calculator counts a conflict whenever the delay exceeds the buffer,
   while the late-return analysis also asks for a positive delay. On a table
   whose buffers are never negative the two agree: a saved rental is exactly
   a conflict of the late-return analysis that the calculator keeps, that
   lies in the scope and whose buffer is below the threshold.
   */
  lemma SavedAreDelayConflicts(df: seq<Rental>, scope: string, threshold: int)
    requires forall i :: 0 <= i < |df| && df[i].timeDeltaWithPreviousRental.Some? ==>
      df[i].timeDeltaWithPreviousRental.value >= 0.0
    ensures forall x :: x in Saved(ScopeRentals(CompleteRentals(df), scope), threshold) <==>
      (&& x in DelayAnalysis.Conflicts(df)
       && IsComplete(x)
       && (scope == AllCars || IsConnect(x))
       && GapBelow(x, threshold))
  {
  }
}
