/** `HotelChain`: a list of hotels and a customer registry, routing
    requests to a hotel by name and to a room by number. */
module HotelChain {
  import opened Common
  import Text
  import Identity
  import CreditCard
  import Guest
  import Room
  import Reservation
  import Hotel

  datatype HotelChain = HotelChain(name: string, hotels: seq<Hotel.Hotel>, customers: seq<Reservation.ReserverPayer>)

  /** Every hotel of the chain keeps the hotel invariant. */
  predicate Valid(c: HotelChain) {
    forall i | 0 <= i < |c.hotels| :: Hotel.Valid(c.hotels[i])
  }

  /** The constructor: a null name or one that is empty after trimming is
      rejected. */
  function NewHotelChain(name: Option<string>): (r: Result<HotelChain>)
    ensures r.Ok? <==> name.Some? && !Text.IsTrimEmpty(name.value)
    ensures r.Ok? ==> r.value == HotelChain(name.value, [], []) && Valid(r.value)
    ensures r.Err? ==> r.error == IllegalArgument
  {
    if name.None? || Text.IsTrimEmpty(name.value) then Err(IllegalArgument)
    else Ok(HotelChain(name.value, [], []))
  }

  /** `addHotel`: a null hotel is rejected; otherwise it is appended, even
      when a hotel with the same name is already there. */
  function AddHotel(c: HotelChain, hotel: Option<Hotel.Hotel>): (r: Result<HotelChain>)
    ensures r.Ok? <==> hotel.Some?
    ensures r.Ok? ==> r.value.name == c.name && r.value.customers == c.customers
    ensures r.Ok? ==> |r.value.hotels| == |c.hotels| + 1 && r.value.hotels[..|c.hotels|] == c.hotels
    ensures r.Ok? ==> r.value.hotels[|c.hotels|] == hotel.value
    ensures r.Ok? && Valid(c) && Hotel.Valid(hotel.value) ==> Valid(r.value)
    ensures r.Err? ==> r.error == IllegalArgument
  {
    if hotel.None? then Err(IllegalArgument)
    else Ok(c.(hotels := c.hotels + [hotel.value]))
  }

  /** `createReserverPayer`: builds a payer from the identity and card,
      registers it as the last customer, and hands back that same payer. */
  function CreateReserverPayer(c: HotelChain, id: Identity.Identity, card: CreditCard.CreditCard)
    : (r: (HotelChain, Reservation.ReserverPayer))
    ensures r.1.id == id && r.1.creditCardDetails == card
    ensures r.0.customers == c.customers + [r.1]
    ensures r.0.name == c.name && r.0.hotels == c.hotels
  {
    var payer := Reservation.ReserverPayer(id, card);
    (c.(customers := c.customers + [payer]), payer)
  }

  // ---------------------------------------------------------------------
  // Lookup

  /** Position `i` holds the first hotel whose name matches `name` ignoring
      case. */
  predicate FirstNamed(hotels: seq<Hotel.Hotel>, i: int, name: string) {
    && 0 <= i < |hotels|
    && Text.EqualsIgnoreCase(hotels[i].name, name)
    && forall k | 0 <= k < i :: !Text.EqualsIgnoreCase(hotels[k].name, name)
  }

  /** No hotel's name matches `name` ignoring case. */
  predicate NoneNamed(hotels: seq<Hotel.Hotel>, name: string) {
    forall k | 0 <= k < |hotels| :: !Text.EqualsIgnoreCase(hotels[k].name, name)
  }

  /** `findHotelByName`: the first case-insensitive match. */
  function FindHotelByName(hotels: seq<Hotel.Hotel>, name: string): (r: Option<nat>)
    ensures r.Some? ==> FirstNamed(hotels, r.value, name)
    ensures r.None? <==> NoneNamed(hotels, name)
  {
    if hotels == [] then None
    else if Text.EqualsIgnoreCase(hotels[0].name, name) then Some(0)
    else match FindHotelByName(hotels[1..], name)
      case None => None
      case Some(i) => Some(i + 1)
  }

  /** Position `k` holds the first room with exactly this number. */
  predicate FirstNumbered(rooms: seq<Room.Room>, k: int, number: int) {
    && 0 <= k < |rooms|
    && rooms[k].number == number
    && forall m | 0 <= m < k :: rooms[m].number != number
  }

  /** `findRoomInHotel`: the first room with exactly this number. */
  function FindRoomInHotel(rooms: seq<Room.Room>, number: int): (r: Option<nat>)
    ensures r.Some? ==> FirstNumbered(rooms, r.value, number)
    ensures r.None? <==> forall m | 0 <= m < |rooms| :: rooms[m].number != number
  {
    if rooms == [] then None
    else if rooms[0].number == number then Some(0)
    else match FindRoomInHotel(rooms[1..], number)
      case None => None
      case Some(k) => Some(k + 1)
  }

  /** The chain with hotel `i` replaced. */
  function WithHotel(c: HotelChain, i: nat, h: Hotel.Hotel): (r: HotelChain)
    requires i < |c.hotels|
    ensures r.name == c.name && r.customers == c.customers
    ensures |r.hotels| == |c.hotels| && r.hotels[i] == h
    ensures forall k | 0 <= k < |c.hotels| && k != i :: r.hotels[k] == c.hotels[k]
  {
    c.(hotels := c.hotels[i := h])
  }

  /** The chain with room `k` of hotel `i` replaced; no ledger changes. */
  function WithRoom(c: HotelChain, i: nat, k: nat, room: Room.Room): (r: HotelChain)
    requires i < |c.hotels| && k < |c.hotels[i].rooms|
    ensures r == WithHotel(c, i, c.hotels[i].(rooms := c.hotels[i].rooms[k := room]))
    ensures r.hotels[i].reservations == c.hotels[i].reservations
  {
    WithHotel(c, i, c.hotels[i].(rooms := c.hotels[i].rooms[k := room]))
  }

  /** Replacing a room by a valid room with the same number keeps every
      ledger entry pointing into the inventory. */
  lemma WithRoomPreservesValid(c: HotelChain, i: nat, k: nat, room: Room.Room)
    requires i < |c.hotels| && k < |c.hotels[i].rooms|
    requires room.number == c.hotels[i].rooms[k].number && Room.Valid(room)
    ensures Valid(c) ==> Valid(WithRoom(c, i, k, room))
  {
    if !Valid(c) {
      return;
    }
    var h := c.hotels[i];
    var h' := h.(rooms := h.rooms[k := room]);
    assert Hotel.Valid(h) by { assert Valid(c); }
    forall j | 0 <= j < |h'.reservations|
      ensures Hotel.RefersToInventory(h'.rooms, h'.reservations[j].room)
    {
      assert Hotel.RefersToInventory(h.rooms, h.reservations[j].room);
    }
    assert Hotel.Valid(h');
  }

  // ---------------------------------------------------------------------
  // Routed operations

  /** `makeReservation`: resolve the hotel, refuse with no change when it
      has nothing available, and otherwise do exactly what that hotel's
      `createReservation` does, leaving every other hotel alone. */
  function MakeReservation(c: HotelChain, hotelName: string, startDate: int, endDate: int,
                           roomType: Room.RoomType, customer: Option<Reservation.ReserverPayer>)
    : (r: Outcome<HotelChain, Reservation.Reservation>)
    ensures NoneNamed(c.hotels, hotelName) ==> r == Failed(HotelNotFound, c)
    ensures forall i | FirstNamed(c.hotels, i, hotelName) ::
      && (!Hotel.Available(c.hotels[i], startDate, endDate, roomType) ==> r == Failed(NoAvailability, c))
      && (Hotel.Available(c.hotels[i], startDate, endDate, roomType) ==>
            var o := Hotel.CreateReservation(c.hotels[i], startDate, endDate, roomType, customer);
            && r.state == WithHotel(c, i, o.state)
            && (o.Done? <==> r.Done?)
            && (o.Done? ==> r.value == o.value)
            && (o.Failed? ==> r.error == o.error))
    ensures Valid(c) ==> Valid(r.state)
  {
    match FindHotelByName(c.hotels, hotelName)
    case None => Failed(HotelNotFound, c)
    case Some(i) =>
      var target := c.hotels[i];
      if !Hotel.Available(target, startDate, endDate, roomType) then Failed(NoAvailability, c)
      else match Hotel.CreateReservation(target, startDate, endDate, roomType, customer)
        case Done(h, res) => Done(WithHotel(c, i, h), res)
        case Failed(e, h) => Failed(e, WithHotel(c, i, h))
  }

  /** `cancelReservation`: resolve the hotel and do exactly what its
      `cancelReservation` does. */
  function CancelReservation(c: HotelChain, hotelName: string, reservationId: int): (r: Outcome<HotelChain, ()>)
    requires Valid(c)
    ensures NoneNamed(c.hotels, hotelName) ==> r == Failed(HotelNotFound, c)
    ensures forall i | FirstNamed(c.hotels, i, hotelName) ::
      var o := Hotel.CancelReservation(c.hotels[i], reservationId);
      && r.state == WithHotel(c, i, o.state)
      && (o.Done? <==> r.Done?)
      && (o.Failed? ==> r.error == o.error)
    ensures Valid(r.state)
  {
    match FindHotelByName(c.hotels, hotelName)
    case None => Failed(HotelNotFound, c)
    case Some(i) =>
      match Hotel.CancelReservation(c.hotels[i], reservationId)
      case Done(h, u) => Done(WithHotel(c, i, h), u)
      case Failed(e, h) => Failed(e, WithHotel(c, i, h))
  }

  /** `checkInGuest`: resolve the hotel and the room, then apply the room's
      own check-in to that room alone. No ledger is consulted or changed. */
  function CheckInGuest(c: HotelChain, hotelName: string, roomNumber: int, guest: Option<Guest.Guest>)
    : (r: Outcome<HotelChain, ()>)
    ensures NoneNamed(c.hotels, hotelName) ==> r == Failed(HotelNotFound, c)
    ensures forall i | FirstNamed(c.hotels, i, hotelName) ::
      && ((forall m | 0 <= m < |c.hotels[i].rooms| :: c.hotels[i].rooms[m].number != roomNumber) ==>
            r == Failed(RoomNotFound, c))
      && (forall k | FirstNumbered(c.hotels[i].rooms, k, roomNumber) ::
            var o := Room.CheckInGuest(c.hotels[i].rooms[k], guest);
            && (o.Ok? ==> r == Done(WithRoom(c, i, k, o.value), ()))
            && (o.Err? ==> r == Failed(o.error, c)))
    ensures Valid(c) ==> Valid(r.state)
  {
    match FindHotelByName(c.hotels, hotelName)
    case None => Failed(HotelNotFound, c)
    case Some(i) =>
      match FindRoomInHotel(c.hotels[i].rooms, roomNumber)
      case None => Failed(RoomNotFound, c)
      case Some(k) =>
        match Room.CheckInGuest(c.hotels[i].rooms[k], guest)
        case Err(e) => Failed(e, c)
        case Ok(room) =>
          WithRoomPreservesValid(c, i, k, room);
          Done(WithRoom(c, i, k, room), ())
  }

  /** `checkOutGuest`: resolve the hotel and the room, then apply the
      room's own check-out to that room alone. */
  function CheckOutGuest(c: HotelChain, hotelName: string, roomNumber: int): (r: Outcome<HotelChain, ()>)
    ensures NoneNamed(c.hotels, hotelName) ==> r == Failed(HotelNotFound, c)
    ensures forall i | FirstNamed(c.hotels, i, hotelName) ::
      && ((forall m | 0 <= m < |c.hotels[i].rooms| :: c.hotels[i].rooms[m].number != roomNumber) ==>
            r == Failed(RoomNotFound, c))
      && (forall k | FirstNumbered(c.hotels[i].rooms, k, roomNumber) ::
            var o := Room.CheckOutGuest(c.hotels[i].rooms[k]);
            && (o.Ok? ==> r == Done(WithRoom(c, i, k, o.value), ()))
            && (o.Err? ==> r == Failed(o.error, c)))
    ensures Valid(c) ==> Valid(r.state)
  {
    match FindHotelByName(c.hotels, hotelName)
    case None => Failed(HotelNotFound, c)
    case Some(i) =>
      match FindRoomInHotel(c.hotels[i].rooms, roomNumber)
      case None => Failed(RoomNotFound, c)
      case Some(k) =>
        match Room.CheckOutGuest(c.hotels[i].rooms[k])
        case Err(e) => Failed(e, c)
        case Ok(room) =>
          WithRoomPreservesValid(c, i, k, room);
          Done(WithRoom(c, i, k, room), ())
  }
}
