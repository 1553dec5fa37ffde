/** `Hotel`: a room inventory and a reservation ledger, both in insertion
    order, with the availability search and the booking operations. */
module Hotel {
  import opened Common
  import Text
  import Room
  import Reservation

  datatype Hotel = Hotel(name: string, rooms: seq<Room.Room>, reservations: seq<Reservation.Reservation>)

  /** A ledger entry points at an inventory slot holding a room with the
      entry's room number. */
  predicate RefersToInventory(rooms: seq<Room.Room>, ref: Reservation.RoomRef) {
    ref.slot < |rooms| && rooms[ref.slot].number == ref.number
  }

  /** The hotel invariant: every room keeps its occupancy invariant and
      every reservation points into this hotel's inventory. */
  predicate Valid(h: Hotel) {
    && (forall i | 0 <= i < |h.rooms| :: Room.Valid(h.rooms[i]))
    && (forall j | 0 <= j < |h.reservations| :: RefersToInventory(h.rooms, h.reservations[j].room))
  }

  /** The constructor: a null name or one that `isBlank` are rejected; a
      new hotel has no rooms and no reservations. */
  function NewHotel(name: Option<string>): (r: Result<Hotel>)
    ensures r.Ok? <==> name.Some? && !Text.IsBlank(name.value)
    ensures r.Ok? ==> r.value.name == name.value && r.value.rooms == [] && r.value.reservations == []
    ensures r.Ok? ==> Valid(r.value)
    ensures r.Err? ==> r.error == IllegalArgument
  {
    if name.None? || Text.IsBlank(name.value) then Err(IllegalArgument)
    else Ok(Hotel(name.value, [], []))
  }

  /** `addRoom`: a null room is rejected; otherwise the room goes at the end
      of the inventory and nothing else changes. No uniqueness of room
      numbers is checked. */
  function AddRoom(h: Hotel, room: Option<Room.Room>): (r: Result<Hotel>)
    ensures r.Ok? <==> room.Some?
    ensures r.Ok? ==> r.value.name == h.name && r.value.reservations == h.reservations
    ensures r.Ok? ==> |r.value.rooms| == |h.rooms| + 1 && r.value.rooms[..|h.rooms|] == h.rooms
    ensures r.Ok? ==> r.value.rooms[|h.rooms|] == room.value
    ensures r.Ok? && Valid(h) && Room.Valid(room.value) ==> Valid(r.value)
    ensures r.Err? ==> r.error == IllegalArgument
  {
    if room.None? then Err(IllegalArgument)
    else Ok(h.(rooms := h.rooms + [room.value]))
  }

  // ---------------------------------------------------------------------
  // Availability

  /** The date test: the requested stay starts before the booked one ends
      and ends after the booked one starts, both strictly. */
  predicate Overlaps(startDate: int, endDate: int, res: Reservation.Reservation) {
    startDate < res.endDate && endDate > res.startDate
  }

  /** A ledger entry blocks a room when it is for a room with the same
      number (`Room.equals`) and its dates overlap the request. */
  predicate Blocks(res: Reservation.Reservation, roomNumber: int, startDate: int, endDate: int) {
    res.room.number == roomNumber && Overlaps(startDate, endDate, res)
  }

  /** `isRoomAvailable`: the loop over the ledger that returns false at the
      first blocking entry. The room's state is not looked at. */
  function IsRoomAvailable(ledger: seq<Reservation.Reservation>, roomNumber: int, startDate: int, endDate: int): (r: bool)
    ensures r <==> forall j | 0 <= j < |ledger| :: !Blocks(ledger[j], roomNumber, startDate, endDate)
  {
    if ledger == [] then true
    else if Blocks(ledger[0], roomNumber, startDate, endDate) then false
    else IsRoomAvailable(ledger[1..], roomNumber, startDate, endDate)
  }

  /** A room passes both stream filters: the requested type, and no
      blocking ledger entry. */
  predicate Qualifies(room: Room.Room, ledger: seq<Reservation.Reservation>, roomType: Room.RoomType,
                      startDate: int, endDate: int) {
    room.roomType == roomType && IsRoomAvailable(ledger, room.number, startDate, endDate)
  }

  /** `available`: some room of the requested type is free of blocking
      ledger entries. */
  predicate Available(h: Hotel, startDate: int, endDate: int, roomType: Room.RoomType) {
    exists i | 0 <= i < |h.rooms| :: Qualifies(h.rooms[i], h.reservations, roomType, startDate, endDate)
  }

  /** Slot `i` holds the first qualifying room in insertion order. */
  predicate FirstQualifying(rooms: seq<Room.Room>, ledger: seq<Reservation.Reservation>, i: int,
                            roomType: Room.RoomType, startDate: int, endDate: int) {
    && 0 <= i < |rooms|
    && Qualifies(rooms[i], ledger, roomType, startDate, endDate)
    && forall k | 0 <= k < i :: !Qualifies(rooms[k], ledger, roomType, startDate, endDate)
  }

  /** The `filter ... findFirst` search over `rooms`, as a slot number. */
  function FindRoom(rooms: seq<Room.Room>, ledger: seq<Reservation.Reservation>, roomType: Room.RoomType,
                    startDate: int, endDate: int): (r: Option<nat>)
    ensures r.Some? ==> FirstQualifying(rooms, ledger, r.value, roomType, startDate, endDate)
    ensures r.None? ==> forall k | 0 <= k < |rooms| :: !Qualifies(rooms[k], ledger, roomType, startDate, endDate)
  {
    if rooms == [] then None
    else if Qualifies(rooms[0], ledger, roomType, startDate, endDate) then Some(0)
    else match FindRoom(rooms[1..], ledger, roomType, startDate, endDate)
      case None => None
      case Some(i) => Some(i + 1)
  }

  /** The search finds a room exactly when `available` holds. */
  lemma AvailableIffFound(h: Hotel, startDate: int, endDate: int, roomType: Room.RoomType)
    ensures Available(h, startDate, endDate, roomType) <==> FindRoom(h.rooms, h.reservations, roomType, startDate, endDate).Some?
  {
  }

  /** A stay that begins on the day a booked stay ends, or ends on the day
      it begins, does not conflict with it. */
  lemma BackToBackStaysDoNotConflict(res: Reservation.Reservation, startDate: int, endDate: int)
    ensures startDate == res.endDate ==> !Overlaps(startDate, endDate, res)
    ensures endDate == res.startDate ==> !Overlaps(startDate, endDate, res)
    ensures res.startDate < res.endDate ==> Overlaps(res.startDate, res.endDate, res)
  {
  }

  /** The state of a room never affects `available`: putting any room in
      any state gives the same answer. */
  lemma AvailabilityIgnoresRoomState(h: Hotel, i: nat, st: Room.RoomState,
                                     startDate: int, endDate: int, roomType: Room.RoomType)
    requires i < |h.rooms|
    ensures Available(h.(rooms := h.rooms[i := h.rooms[i].(state := st)]), startDate, endDate, roomType)
        == Available(h, startDate, endDate, roomType)
  {
    var h' := h.(rooms := h.rooms[i := h.rooms[i].(state := st)]);
    forall k | 0 <= k < |h.rooms|
      ensures Qualifies(h'.rooms[k], h'.reservations, roomType, startDate, endDate)
          == Qualifies(h.rooms[k], h.reservations, roomType, startDate, endDate)
    {
    }
    if Available(h, startDate, endDate, roomType) {
      var k :| 0 <= k < |h.rooms| && Qualifies(h.rooms[k], h.reservations, roomType, startDate, endDate);
      assert Qualifies(h'.rooms[k], h'.reservations, roomType, startDate, endDate);
    }
    if Available(h', startDate, endDate, roomType) {
      var k :| 0 <= k < |h'.rooms| && Qualifies(h'.rooms[k], h'.reservations, roomType, startDate, endDate);
      assert Qualifies(h.rooms[k], h.reservations, roomType, startDate, endDate);
    }
  }

  // ---------------------------------------------------------------------
  // Booking and cancellation

  /** `createReservation`. The first qualifying room is chosen and the new
      reservation is numbered one more than the ledger's size. Building
      the record can fail (end before start, null payer) before anything
      changes. The record is then appended, and only after that is the
      room asked to become RESERVED, which fails unless it is FREE: that
      failure leaves the appended record in the ledger. */
  function CreateReservation(h: Hotel, startDate: int, endDate: int, roomType: Room.RoomType,
                             payer: Option<Reservation.ReserverPayer>): (r: Outcome<Hotel, Reservation.Reservation>)
    // no room qualifies: nothing changes
    ensures (r.Failed? && r.error == NoAvailability) <==> !Available(h, startDate, endDate, roomType)
    ensures !Available(h, startDate, endDate, roomType) ==> r.state == h
    // the record cannot be built: nothing changes
    ensures (r.Failed? && r.error == IllegalArgument) <==>
      Available(h, startDate, endDate, roomType) && (payer.None? || endDate < startDate)
    ensures r.Failed? && r.error == IllegalArgument ==> r.state == h
    // otherwise the record for the first qualifying room is appended
    ensures r.Failed? ==> r.error in {NoAvailability, IllegalArgument, InvalidStateTransition}
    ensures r.Done? || (r.Failed? && r.error == InvalidStateTransition) ==>
      && |r.state.reservations| == |h.reservations| + 1
      && r.state.reservations[..|h.reservations|] == h.reservations
      && var res := r.state.reservations[|h.reservations|];
      && FirstQualifying(h.rooms, h.reservations, res.room.slot, roomType, startDate, endDate)
      && res == Reservation.Reservation(|h.reservations| + 1, startDate, endDate, payer.value,
                                        Reservation.RoomRef(res.room.slot, h.rooms[res.room.slot].number))
      && r.state.name == h.name
    // ... and the room is booked if it was FREE
    ensures r.Done? ==>
      var i := r.value.room.slot;
      && r.value == r.state.reservations[|h.reservations|]
      && h.rooms[i].state == Room.Free
      && r.state.rooms == h.rooms[i := h.rooms[i].(state := Room.Reserved)]
    // ... or the call fails with the record left behind
    ensures r.Failed? && r.error == InvalidStateTransition ==>
      && r.state.rooms == h.rooms
      && h.rooms[r.state.reservations[|h.reservations|].room.slot].state != Room.Free
    ensures Valid(h) ==> Valid(r.state)
  {
    match FindRoom(h.rooms, h.reservations, roomType, startDate, endDate)
    case None => AvailableIffFound(h, startDate, endDate, roomType); Failed(NoAvailability, h)
    case Some(i) =>
      AvailableIffFound(h, startDate, endDate, roomType);
      var room := h.rooms[i];
      var resNum := |h.reservations| + 1;
      match Reservation.NewReservation(resNum, Some(startDate), Some(endDate), payer,
                                       Some(Reservation.RoomRef(i, room.number)))
      case Err(e) => Failed(e, h)
      case Ok(res) =>
        var h1 := h.(reservations := h.reservations + [res]);
        match Room.MakeReservation(room)
        case Err(e) => Failed(e, h1)
        case Ok(booked) => Done(h1.(rooms := h.rooms[i := booked]), res)
  }

  /** The room a booking lands in, whether the room accepts it or refuses
      and leaves the record behind, is the one the `findFirst` search
      returns. */
  lemma BookedSlotIsSearchResult(h: Hotel, startDate: int, endDate: int, roomType: Room.RoomType,
                                 payer: Option<Reservation.ReserverPayer>)
    ensures
      var r := CreateReservation(h, startDate, endDate, roomType, payer);
      r.Done? || (r.Failed? && r.error == InvalidStateTransition) ==>
        FindRoom(h.rooms, h.reservations, roomType, startDate, endDate)
          == Some(r.state.reservations[|h.reservations|].room.slot)
  {
  }

  /** The ledger position of the first reservation with number `n`. */
  predicate FirstNumbered(ledger: seq<Reservation.Reservation>, j: int, n: int) {
    && 0 <= j < |ledger|
    && ledger[j].reservationNumber == n
    && forall k | 0 <= k < j :: ledger[k].reservationNumber != n
  }

  /** The `filter ... findFirst` search over the ledger. */
  function FindReservation(ledger: seq<Reservation.Reservation>, n: int): (r: Option<nat>)
    ensures r.Some? ==> FirstNumbered(ledger, r.value, n)
    ensures r.None? ==> forall k | 0 <= k < |ledger| :: ledger[k].reservationNumber != n
  {
    if ledger == [] then None
    else if ledger[0].reservationNumber == n then Some(0)
    else match FindReservation(ledger[1..], n)
      case None => None
      case Some(j) => Some(j + 1)
  }

  /** The ledger without its entry at position `j`. */
  function RemoveAt<T>(s: seq<T>, j: nat): (r: seq<T>)
    requires j < |s|
    ensures |r| == |s| - 1
    ensures forall k | 0 <= k < j :: r[k] == s[k]
    ensures forall k | j <= k < |r| :: r[k] == s[k + 1]
  {
    s[..j] + s[j + 1..]
  }

  /** `cancelReservation(n)`. An unknown number fails with no change.
      Otherwise the first reservation with that number leaves the ledger
      (`List.remove` finds it by the number-based `equals`), and only then
      is its room asked to go from RESERVED to FREE; if the room is in any
      other state the call fails, and the removal stays. */
  function CancelReservation(h: Hotel, n: int): (r: Outcome<Hotel, ()>)
    requires Valid(h)
    ensures (r.Failed? && r.error == ReservationNotFound) <==>
      forall k | 0 <= k < |h.reservations| :: h.reservations[k].reservationNumber != n
    ensures r.Failed? && r.error == ReservationNotFound ==> r.state == h
    ensures r.Failed? ==> r.error in {ReservationNotFound, InvalidStateTransition}
    ensures forall j | FirstNumbered(h.reservations, j, n) ::
      var i := h.reservations[j].room.slot;
      && r.state.name == h.name
      && r.state.reservations == RemoveAt(h.reservations, j)
      && (h.rooms[i].state == Room.Reserved ==>
            r == Done(r.state, ()) && r.state.rooms == h.rooms[i := h.rooms[i].(state := Room.Free)])
      && (h.rooms[i].state != Room.Reserved ==>
            r.Failed? && r.error == InvalidStateTransition && r.state.rooms == h.rooms)
    ensures Valid(r.state)
  {
    match FindReservation(h.reservations, n)
    case None => Failed(ReservationNotFound, h)
    case Some(j) =>
      var res := h.reservations[j];
      var h1 := h.(reservations := RemoveAt(h.reservations, j));
      var i := res.room.slot;
      assert RefersToInventory(h.rooms, res.room);
      match Room.CancelReservation(h.rooms[i])
      case Err(e) => Failed(e, h1)
      case Ok(freed) => Done(h1.(rooms := h.rooms[i := freed]), ())
  }

  // ---------------------------------------------------------------------
  // Properties of booking and cancellation together

  /** Booking and then cancelling the number handed back restores the
      ledger and every room, provided no reservation already carried that
      number. */
  lemma CreateThenCancel(h: Hotel, startDate: int, endDate: int, roomType: Room.RoomType,
                         payer: Option<Reservation.ReserverPayer>)
    requires Valid(h)
    requires CreateReservation(h, startDate, endDate, roomType, payer).Done?
    requires forall k | 0 <= k < |h.reservations| :: h.reservations[k].reservationNumber != |h.reservations| + 1
    ensures CancelReservation(CreateReservation(h, startDate, endDate, roomType, payer).state,
                              CreateReservation(h, startDate, endDate, roomType, payer).value.reservationNumber)
         == Done(h, ())
  {
    var c := CreateReservation(h, startDate, endDate, roomType, payer);
    var h1 := c.state;
    var n := c.value.reservationNumber;
    var last := |h.reservations|;
    var i := c.value.room.slot;
    assert h1.reservations[last] == c.value;
    assert FirstNumbered(h1.reservations, last, n) by {
      forall k | 0 <= k < last ensures h1.reservations[k].reservationNumber != n {
        assert h1.reservations[k] == h.reservations[k];
      }
    }
    assert RemoveAt(h1.reservations, last) == h.reservations;
    assert h1.rooms[i].state == Room.Reserved;
    var r := CancelReservation(h1, n);
    assert r.state.rooms == h1.rooms[i := h1.rooms[i].(state := Room.Free)];
    assert r.state.rooms == h.rooms;
  }

  /** Numbers come from the ledger's size, so after a cancellation a new
      booking can get a number that is still in use. Cancelling that number
      then removes the older reservation and leaves the new one in place. */
  lemma ReusedNumberCancelsTheOlderBooking(h: Hotel, startDate: int, endDate: int, roomType: Room.RoomType,
                                           payer: Option<Reservation.ReserverPayer>, j: nat)
    requires Valid(h)
    requires CreateReservation(h, startDate, endDate, roomType, payer).Done?
    requires j < |h.reservations| && h.reservations[j].reservationNumber == |h.reservations| + 1
    ensures var c := CreateReservation(h, startDate, endDate, roomType, payer);
      && c.value in CancelReservation(c.state, c.value.reservationNumber).state.reservations
      && |CancelReservation(c.state, c.value.reservationNumber).state.reservations| == |h.reservations|
  {
  }
}
