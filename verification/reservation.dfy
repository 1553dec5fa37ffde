/** `Reservation`: an immutable record of a stay in one room. */
module Reservation {
  import opened Common
  import Identity
  import CreditCard

  /** The customer who pays; the booking core only passes it along. */
  datatype ReserverPayer = ReserverPayer(id: Identity.Identity, creditCardDetails: CreditCard.CreditCard)

  /** The room a reservation points at. A Java reservation holds a
      reference to the very `Room` object in its hotel's inventory; `slot`
      is that object's position in the inventory (rooms are only ever
      appended), and `number` is its room number, which is what
      `Room.equals` compares. */
  datatype RoomRef = RoomRef(slot: nat, number: int)

  /** Dates are day numbers (`LocalDate` as days since an epoch). */
  datatype Reservation = Reservation(
    reservationNumber: int,
    startDate: int,
    endDate: int,
    payer: ReserverPayer,
    room: RoomRef)

  /** The constructor: null dates, an end before the start, a null payer
      and a null room are each rejected. A stay that ends on the day it
      starts is accepted. */
  function NewReservation(reservationNumber: int, startDate: Option<int>, endDate: Option<int>,
                          payer: Option<ReserverPayer>, room: Option<RoomRef>): (r: Result<Reservation>)
    ensures r.Ok? <==>
      startDate.Some? && endDate.Some? && startDate.value <= endDate.value && payer.Some? && room.Some?
    ensures r.Ok? ==>
      && r.value.reservationNumber == reservationNumber
      && r.value.startDate == startDate.value && r.value.endDate == endDate.value
      && r.value.payer == payer.value && r.value.room == room.value
    ensures r.Ok? ==> Valid(r.value) && DurationInNights(r.value) >= 0
    ensures r.Err? ==> r.error == IllegalArgument
  {
    if startDate.None? || endDate.None? then Err(IllegalArgument)
    else if endDate.value < startDate.value then Err(IllegalArgument)
    else if payer.None? then Err(IllegalArgument)
    else if room.None? then Err(IllegalArgument)
    else Ok(Reservation(reservationNumber, startDate.value, endDate.value, payer.value, room.value))
  }

  /** What every constructed reservation satisfies. */
  predicate Valid(res: Reservation) {
    res.startDate <= res.endDate
  }

  /** `getDurationInNights`: whole days from start to end. */
  function DurationInNights(res: Reservation): int {
    res.endDate - res.startDate
  }

  /** `isActiveOn`: neither before the start nor after the end. */
  predicate IsActiveOn(res: Reservation, date: int) {
    !(date < res.startDate) && !(date > res.endDate)
  }

  /** A reservation is active on a day exactly when that day lies within
      its nights counted from the start; a valid one has a non-negative
      duration and is active on both its first and its last day. */
  lemma ActiveWithinDuration(res: Reservation, date: int)
    ensures IsActiveOn(res, date) <==> 0 <= date - res.startDate <= DurationInNights(res)
    ensures Valid(res) <==> DurationInNights(res) >= 0
    ensures Valid(res) ==> IsActiveOn(res, res.startDate) && IsActiveOn(res, res.endDate)
  {
  }

  /** `equals`: reservations with the same number are equal, whatever
      their dates, payer or room. */
  predicate Equals(a: Reservation, b: Reservation) {
    a.reservationNumber == b.reservationNumber
  }

  /** Two reservations that differ in everything but their number are still
      `equals`, while the model values differ. */
  lemma EqualityIgnoresContent(a: Reservation, b: Reservation)
    requires a.reservationNumber == b.reservationNumber && a.startDate != b.startDate
    ensures Equals(a, b) && a != b
  {
  }
}
