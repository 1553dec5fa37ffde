/** `Room`: a bookable unit with a three-state occupancy lifecycle. */
module Room {
  import opened Common
  import Money
  import Guest

  /** The room categories seen in the system. */
  datatype RoomKind = Single | Double | Family

  /** A category and its nightly rate; compared as a pair. */
  datatype RoomType = RoomType(kind: RoomKind, rate: Money.Money)

  datatype RoomState = Free | Reserved | Occupied

  /** `number` and `roomType` are fixed at construction; `state` and
      `occupant` change only through the four transitions below. */
  datatype Room = Room(number: int, roomType: RoomType, state: RoomState, occupant: Option<Guest.Guest>)

  /** The occupancy invariant: a guest is recorded exactly when the room is
      occupied. */
  predicate Valid(room: Room) {
    room.occupant.Some? <==> room.state == Occupied
  }

  /** `after` is the same room as `before`: same number and same type. */
  predicate SameUnit(before: Room, after: Room) {
    after.number == before.number && after.roomType == before.roomType
  }

  /** The constructor: a null room type is rejected; a new room is free and
      empty. */
  function NewRoom(number: int, roomType: Option<RoomType>): (r: Result<Room>)
    ensures r.Ok? <==> roomType.Some?
    ensures r.Ok? ==> r.value.number == number && r.value.roomType == roomType.value
    ensures r.Ok? ==> r.value.state == Free && r.value.occupant.None? && Valid(r.value)
    ensures r.Err? ==> r.error == IllegalArgument
  {
    if roomType.None? then Err(IllegalArgument) else Ok(Room(number, roomType.value, Free, None))
  }

  /** `makeReservation`: FREE to RESERVED, refused from any other state. */
  function MakeReservation(room: Room): (r: Result<Room>)
    ensures r.Ok? <==> room.state == Free
    ensures r.Ok? ==> SameUnit(room, r.value) && r.value.state == Reserved && r.value.occupant == room.occupant
    ensures r.Err? ==> r.error == InvalidStateTransition
  {
    if room.state != Free then Err(InvalidStateTransition) else Ok(room.(state := Reserved))
  }

  /** `cancelReservation`: RESERVED to FREE, refused from any other state. */
  function CancelReservation(room: Room): (r: Result<Room>)
    ensures r.Ok? <==> room.state == Reserved
    ensures r.Ok? ==> SameUnit(room, r.value) && r.value.state == Free && r.value.occupant == room.occupant
    ensures r.Err? ==> r.error == InvalidStateTransition
  {
    if room.state != Reserved then Err(InvalidStateTransition) else Ok(room.(state := Free))
  }

  /** `checkInGuest`: allowed from RESERVED and also from FREE (a walk-in).
      The state is checked before the guest, so an occupied room reports
      the state error even for a null guest. */
  function CheckInGuest(room: Room, guest: Option<Guest.Guest>): (r: Result<Room>)
    ensures r.Ok? <==> room.state != Occupied && guest.Some?
    ensures room.state == Occupied ==> r == Err(InvalidStateTransition)
    ensures room.state != Occupied && guest.None? ==> r == Err(IllegalArgument)
    ensures r.Ok? ==> SameUnit(room, r.value) && r.value.state == Occupied && r.value.occupant == guest
  {
    if room.state == Occupied then Err(InvalidStateTransition)
    else if guest.None? then Err(IllegalArgument)
    else Ok(room.(state := Occupied, occupant := guest))
  }

  /** `checkOutGuest`: OCCUPIED to FREE, clearing the occupant. */
  function CheckOutGuest(room: Room): (r: Result<Room>)
    ensures r.Ok? <==> room.state == Occupied
    ensures r.Ok? ==> SameUnit(room, r.value) && r.value.state == Free && r.value.occupant.None?
    ensures r.Err? ==> r.error == InvalidStateTransition
  {
    if room.state != Occupied then Err(InvalidStateTransition) else Ok(room.(state := Free, occupant := None))
  }

  /** `equals`: rooms are the same when their numbers are. */
  predicate Equals(a: Room, b: Room) {
    a.number == b.number
  }

  /** One call on a room, for reasoning about arbitrary call sequences. */
  datatype RoomCall = Reserve | Cancel | CheckIn(guest: Option<Guest.Guest>) | CheckOut

  /** A call applied to a room; a refused call leaves the room as it was,
      just as the Java methods throw before assigning anything. */
  function Apply(room: Room, call: RoomCall): Room {
    var r := match call
      case Reserve => MakeReservation(room)
      case Cancel => CancelReservation(room)
      case CheckIn(g) => CheckInGuest(room, g)
      case CheckOut => CheckOutGuest(room);
    if r.Ok? then r.value else room
  }

  /** A sequence of calls applied in order. */
  function Run(room: Room, calls: seq<RoomCall>): Room
    decreases |calls|
  {
    if calls == [] then room else Run(Apply(room, calls[0]), calls[1..])
  }

  /** Each single call keeps the occupancy invariant and the room's
      identity, so the room stays `equals` to what it was. */
  lemma ApplyPreserves(room: Room, call: RoomCall)
    requires Valid(room)
    ensures Valid(Apply(room, call)) && SameUnit(room, Apply(room, call))
    ensures Equals(room, Apply(room, call))
  {
  }

  /** Whatever calls are made, a valid room stays valid, and its number
      and type never change. */
  lemma {:induction false} RunPreserves(room: Room, calls: seq<RoomCall>)
    requires Valid(room)
    ensures Valid(Run(room, calls)) && SameUnit(room, Run(room, calls))
    decreases |calls|
  {
    if calls != [] {
      ApplyPreserves(room, calls[0]);
      RunPreserves(Apply(room, calls[0]), calls[1..]);
    }
  }

  /** Reserving and then cancelling gives back the room unchanged. */
  lemma ReserveThenCancel(room: Room)
    requires MakeReservation(room).Ok?
    ensures CancelReservation(MakeReservation(room).value) == Ok(room)
  {
  }

  /** Checking in and then out frees the room and forgets the guest;
      starting from a valid free room, that is the room as it was. */
  lemma CheckInThenOut(room: Room, guest: Guest.Guest)
    requires room.state != Occupied
    ensures CheckInGuest(room, Some(guest)).Ok?
    ensures CheckOutGuest(CheckInGuest(room, Some(guest)).value) == Ok(room.(state := Free, occupant := None))
    ensures Valid(room) && room.state == Free ==> CheckOutGuest(CheckInGuest(room, Some(guest)).value) == Ok(room)
  {
  }

  /** The refused transitions, state by state: reserve only from FREE,
      cancel only from RESERVED, check out only from OCCUPIED, and check in
      from anything but OCCUPIED, so a FREE room takes a walk-in. */
  lemma RefusedTransitions(room: Room, guest: Guest.Guest)
    ensures room.state == Free ==>
      CancelReservation(room).Err? && CheckOutGuest(room).Err? && CheckInGuest(room, Some(guest)).Ok?
    ensures room.state == Reserved ==>
      MakeReservation(room).Err? && CheckOutGuest(room).Err? && CheckInGuest(room, Some(guest)).Ok?
    ensures room.state == Occupied ==>
      MakeReservation(room).Err? && CancelReservation(room).Err? && CheckInGuest(room, Some(guest)).Err?
  {
  }
}
