/**
 The rental-delay table the dashboard analyses, one row per rental, and the
 row-wise tests its masks are built from. A cell that the table leaves empty
 is `None`; as with a missing value in a data frame, every ordering
 comparison (`<`, `>`) that involves one is false.
 */
module Rentals {

  datatype Option<T> = None | Some(value: T)

  datatype Result<T, E> = Success(value: T) | Failure(error: E)

  /** The one failure the dashboard's arithmetic can raise. */
  datatype ArithmeticError = ZeroDivisionError

  /**
   One row of the rental-delay table, with the columns the analytics read:
   the rental this one follows on the same car, the minutes between that
   rental's planned end and this one's start, the minutes this rental was
   returned late (zero or less: on time or early), and how the car was
   checked in ("connect" or "mobile").
   */
  datatype Rental = Rental(
    previousEndedRentalId: Option<int>,
    timeDeltaWithPreviousRental: Option<real>,
    delayAtCheckout: Option<real>,
    checkinType: string)

  /** The `checkin_type` value of cars checked in through the connected device. */
  const Connect: string := "connect"

  predicate IsConnect(r: Rental) {
    r.checkinType == Connect
  }

  predicate IsNotConnect(r: Rental) {
    r.checkinType != Connect
  }

  /** The car came back strictly later than planned. */
  predicate IsDelayed(r: Rental) {
    r.delayAtCheckout.Some? && r.delayAtCheckout.value > 0.0
  }

  /** The lateness is larger than the buffer left before the next rental. */
  predicate DelayExceedsGap(r: Rental) {
    && r.delayAtCheckout.Some?
    && r.timeDeltaWithPreviousRental.Some?
    && r.delayAtCheckout.value > r.timeDeltaWithPreviousRental.value
  }

  /** The buffer before this rental is strictly shorter than `threshold` minutes. */
  predicate GapBelow(r: Rental, threshold: int) {
    r.timeDeltaWithPreviousRental.Some? && r.timeDeltaWithPreviousRental.value < threshold as real
  }

  /** `GapBelow` as a mask for a fixed threshold. */
  function GapBelowMask(threshold: int): Rental -> bool {
    r => GapBelow(r, threshold)
  }

  /** `part / whole` for a part of a positive whole: it lies in [0, 1] and gives the part back when multiplied by the whole. */
  function Share(part: real, whole: real): (q: real)
    requires 0.0 <= part <= whole && 0.0 < whole
    ensures 0.0 <= q <= 1.0
    ensures q * whole == part
  {
    var q := part / whole;
    assert q * whole == part;
    q
  }
}
