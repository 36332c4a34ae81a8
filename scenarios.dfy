/**
 Worked examples of the threshold impact calculator on one- and zero-row
 tables: a late return that overran a 20-minute buffer, seen under a
 30-minute and a 10-minute threshold and under the connected-only scope.
 */
module Scenarios {
  import opened Rentals
  import opened ThresholdImpact

  /** A rental checked in by phone that followed rental 1 after 20 minutes and came back 25 minutes late. */
  function LateMobileRental(): Rental {
    Rental(Some(1), Some(20.0), Some(25.0), "mobile")
  }

  /** An empty table gives an all-zero report for every scope, threshold and price. */
  lemma EmptyTableReport(priceConnect: real, priceNonConnect: real, scope: string, threshold: int)
    ensures CalculateScopeData([], priceConnect, priceNonConnect, scope, threshold)
         == ImpactReport(0, 0, 0.0, 0.0, 0.0, 0.0)
  {
  }

  /**
   Under a 30-minute threshold the 20-minute buffer is affected and its
   conflict (25 > 20) saved: every affected rental is saved, it is the only
   revenue, and the efficiency is the all-cars value of one saved rental.
   */
  lemma ThirtyMinutesSavesTheConflict(priceConnect: real)
    ensures CalculateScopeData([LateMobileRental()], priceConnect, 100.0, AllCars, 30)
         == ImpactReport(1, 1, 100.0, 100.0, 100.0, 120.7)
  {
  }

  /** Under a 10-minute threshold the 20-minute buffer is not affected, and the report is all zero. */
  lemma TenMinutesAffectsNothing(priceConnect: real)
    ensures CalculateScopeData([LateMobileRental()], priceConnect, 100.0, AllCars, 10)
         == ImpactReport(0, 0, 0.0, 0.0, 0.0, 0.0)
  {
  }

  /** The connected-only scope drops the phone check-in whatever its buffer and delay: nothing is left to count. */
  lemma ConnectScopeDropsMobileRental(priceConnect: real, threshold: int)
    ensures CountScope([LateMobileRental()], ConnectOnly, threshold) == ScopeCounts(0, 0, 0, 0, 0, 0, 0)
    ensures CalculateScopeData([LateMobileRental()], priceConnect, 100.0, ConnectOnly, threshold)
         == ImpactReport(0, 0, 0.0, 0.0, 0.0, 0.0)
  {
  }
}
