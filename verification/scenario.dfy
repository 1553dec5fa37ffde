/** The booking sequence of the console demo, replayed on the model with
    the current date as a parameter. */
module Scenario {
  import opened Common
  import Text
  import Money
  import Address
  import Identity
  import CreditCard
  import Guest
  import Room
  import Reservation
  import Hotel
  import HotelChain

  const HotelName: string := "The Grand Budapest"
  const Usd: Money.Currency := Money.Currency("USD")
  /** `new Money(150.00, "USD")`: `BigDecimal.valueOf(150.0)` is 1500 at scale 1. */
  const DoubleType: Room.RoomType := Room.RoomType(Room.Double, Money.Money(Money.Decimal(1500, 1), Usd))
  const FamilyType: Room.RoomType := Room.RoomType(Room.Family, Money.Money(Money.Decimal(2500, 1), Usd))
  const Passport: Identity.Identity := Identity.Identity("Passport", "UK-123456789")
  const Card: CreditCard.CreditCard := CreditCard.CreditCard("4444-5555-6666-7777", "12/28", "123")
  const MainGuest: Guest.Guest :=
    Guest.Guest("John Doe", Address.Address("123 Baker St", "London", "NW1 6XE"), Some(Passport))

  const Payer: Reservation.ReserverPayer := Reservation.ReserverPayer(Passport, Card)

  /** The demo's rooms in inventory order, DOUBLE 101 and 102 and FAMILY
      201, in the given states; only room 101 ever has an occupant. */
  function Rooms(s101: Room.RoomState, s102: Room.RoomState, s201: Room.RoomState,
                 occupant: Option<Guest.Guest>): seq<Room.Room>
  {
    [Room.Room(101, DoubleType, s101, occupant),
     Room.Room(102, DoubleType, s102, None),
     Room.Room(201, FamilyType, s201, None)]
  }

  /** The demo chain: its one hotel holding `rooms` and `ledger`, and the
      one registered customer. */
  function Chain(rooms: seq<Room.Room>, ledger: seq<Reservation.Reservation>): HotelChain.HotelChain {
    HotelChain.HotelChain("Global Hotel Group", [Hotel.Hotel(HotelName, rooms, ledger)], [Payer])
  }

  /** A demo booking: one to two weeks from `today`. */
  function Booking(today: int, n: int, slot: nat, number: int): Reservation.Reservation {
    Reservation.Reservation(n, today + 7, today + 14, Payer, Reservation.RoomRef(slot, number))
  }

  /** A string whose first character is a visible ASCII character passes
      both the `trim().isEmpty()` and the `isBlank` tests. */
  lemma StartsVisible(s: string)
    requires |s| > 0 && '!' <= s[0] <= '~'
    ensures !Text.IsTrimEmpty(s) && !Text.IsBlank(s)
  {
    Text.TrimEmptyIff(s);
  }

  /** The demo's address constructor call is accepted and gives the
      guest's address. */
  lemma DemoAddressConstructs()
    ensures Address.NewAddress(Some("123 Baker St"), Some("London"), Some("NW1 6XE")) == Ok(MainGuest.addressDetails)
  {
    StartsVisible("123 Baker St");
    StartsVisible("London");
    StartsVisible("NW1 6XE");
  }

  /** The demo address, postal code "NW1 6XE" included, reads back from
      the text `toString` prints. */
  lemma DemoAddressPrintsBack()
    ensures Address.Parse(Address.ToString(MainGuest.addressDetails)) == MainGuest.addressDetails
  {
    var city := MainGuest.addressDetails.city;
    assert city == ['L', 'o', 'n', 'd', 'o', 'n'];
    Address.ToStringRoundTrip(MainGuest.addressDetails);
  }

  /** The demo's passport constructor call is accepted. */
  lemma DemoPassportConstructs()
    ensures Identity.NewIdentity(Some("Passport"), Some("UK-123456789")) == Ok(Passport)
  {
    StartsVisible("Passport");
    StartsVisible("UK-123456789");
  }

  /** The demo's card constructor call is accepted. */
  lemma DemoCardConstructs()
    ensures CreditCard.NewCreditCard(Some("4444-5555-6666-7777"), Some("12/28"), Some("123")) == Ok(Card)
  {
    StartsVisible("12/28");
  }

  /** The demo's guest constructor call, with that address and passport,
      is accepted and gives the guest who checks in. */
  lemma DemoGuestConstructs()
    ensures Guest.NewGuest(Some("John Doe"), Some(MainGuest.addressDetails), Some(Passport)) == Ok(MainGuest)
  {
    StartsVisible("John Doe");
  }

  /** The demo's chain and hotel constructor calls accept its names and
      give an empty chain and an empty hotel. */
  lemma DemoChainAndHotelConstruct()
    ensures HotelChain.NewHotelChain(Some("Global Hotel Group")) == Ok(HotelChain.HotelChain("Global Hotel Group", [], []))
    ensures Hotel.NewHotel(Some(HotelName)) == Ok(Hotel.Hotel(HotelName, [], []))
  {
    StartsVisible("Global Hotel Group");
    StartsVisible(HotelName);
  }

  /** The setup: the chain, hotel and room constructors accept the demo's
      arguments, and adding the rooms, joining the hotel to the chain and
      registering the customer gives the demo chain. In Java the rooms are
      added after the hotel joins the chain; the hotel is one shared
      object, so adding them first gives the same chain. */
  lemma SetupBuildsDemoChain()
    ensures HotelChain.NewHotelChain(Some("Global Hotel Group")).Ok?
    ensures Hotel.NewHotel(Some(HotelName)).Ok?
    ensures Room.NewRoom(101, Some(DoubleType)).Ok?
    ensures Room.NewRoom(102, Some(DoubleType)).Ok?
    ensures Room.NewRoom(201, Some(FamilyType)).Ok?
    ensures
      var chain := HotelChain.NewHotelChain(Some("Global Hotel Group")).value;
      var hotel := Hotel.NewHotel(Some(HotelName)).value;
      var withRooms := Hotel.AddRoom(Hotel.AddRoom(Hotel.AddRoom(hotel,
        Some(Room.NewRoom(101, Some(DoubleType)).value)).value,
        Some(Room.NewRoom(102, Some(DoubleType)).value)).value,
        Some(Room.NewRoom(201, Some(FamilyType)).value)).value;
      var joined := HotelChain.AddHotel(chain, Some(withRooms)).value;
      HotelChain.CreateReserverPayer(joined, Passport, Card) == (Chain(Rooms(Room.Free, Room.Free, Room.Free, None), []), Payer)
  {
    DemoChainAndHotelConstruct();
    var chain := HotelChain.NewHotelChain(Some("Global Hotel Group")).value;
    assert chain == HotelChain.HotelChain("Global Hotel Group", [], []);
    var h0 := Hotel.NewHotel(Some(HotelName)).value;
    assert h0 == Hotel.Hotel(HotelName, [], []);
    var rooms := Rooms(Room.Free, Room.Free, Room.Free, None);
    assert Room.NewRoom(101, Some(DoubleType)).value == rooms[0];
    assert Room.NewRoom(102, Some(DoubleType)).value == rooms[1];
    assert Room.NewRoom(201, Some(FamilyType)).value == rooms[2];
    var h1 := Hotel.AddRoom(h0, Some(rooms[0])).value;
    assert h1.rooms == [rooms[0]];
    var h2 := Hotel.AddRoom(h1, Some(rooms[1])).value;
    assert h2.rooms == [rooms[0], rooms[1]];
    var h3 := Hotel.AddRoom(h2, Some(rooms[2])).value;
    assert h3.rooms == rooms;
    var joined := HotelChain.AddHotel(chain, Some(h3)).value;
    assert joined.hotels == [h3];
    var registered := HotelChain.CreateReserverPayer(joined, Passport, Card);
    assert registered.1 == Payer;
    assert registered.0.customers == [Payer];
    assert registered.0 == Chain(rooms, []);
  }

  /** In a three-room inventory, the search picks slot `i` when that room
      qualifies and none before it does. */
  lemma FindsThird(rooms: seq<Room.Room>, ledger: seq<Reservation.Reservation>, roomType: Room.RoomType,
                   startDate: int, endDate: int, i: nat)
    requires |rooms| == 3 && i < 3
    requires Hotel.Qualifies(rooms[i], ledger, roomType, startDate, endDate)
    requires forall k | 0 <= k < i :: !Hotel.Qualifies(rooms[k], ledger, roomType, startDate, endDate)
    ensures Hotel.FindRoom(rooms, ledger, roomType, startDate, endDate) == Some(i)
  {
  }

  /** Step 1: the first DOUBLE booking takes room 101 as number 1. */
  lemma FirstDoubleBooking(today: int)
    ensures HotelChain.MakeReservation(Chain(Rooms(Room.Free, Room.Free, Room.Free, None), []),
                                       HotelName, today + 7, today + 14, DoubleType, Some(Payer))
         == Done(Chain(Rooms(Room.Reserved, Room.Free, Room.Free, None), [Booking(today, 1, 0, 101)]),
                 Booking(today, 1, 0, 101))
  {
    var c := Chain(Rooms(Room.Free, Room.Free, Room.Free, None), []);
    var h := c.hotels[0];
    var s, e := today + 7, today + 14;
    assert HotelChain.FindHotelByName(c.hotels, HotelName) == Some(0);
    assert Hotel.Qualifies(h.rooms[0], [], DoubleType, s, e);
    assert Hotel.Available(h, s, e, DoubleType);
    assert Hotel.FindRoom(h.rooms, [], DoubleType, s, e) == Some(0);
    var res := Booking(today, 1, 0, 101);
    assert Reservation.NewReservation(1, Some(s), Some(e), Some(Payer), Some(Reservation.RoomRef(0, 101))) == Ok(res);
    var booked := Room.Room(101, DoubleType, Room.Reserved, None);
    assert Room.MakeReservation(h.rooms[0]) == Ok(booked);
    var h' := Hotel.Hotel(HotelName, Rooms(Room.Reserved, Room.Free, Room.Free, None), [res]);
    assert h.rooms[0 := booked] == h'.rooms;
    assert Hotel.CreateReservation(h, s, e, DoubleType, Some(Payer)) == Done(h', res);
    assert HotelChain.WithHotel(c, 0, h') == Chain(h'.rooms, [res]);
  }

  /** Step 2: the second DOUBLE booking for the same dates takes room 102
      as number 2, because room 101's booking overlaps. */
  lemma SecondDoubleBooking(today: int)
    ensures HotelChain.MakeReservation(Chain(Rooms(Room.Reserved, Room.Free, Room.Free, None), [Booking(today, 1, 0, 101)]),
                                       HotelName, today + 7, today + 14, DoubleType, Some(Payer))
         == Done(Chain(Rooms(Room.Reserved, Room.Reserved, Room.Free, None),
                       [Booking(today, 1, 0, 101), Booking(today, 2, 1, 102)]),
                 Booking(today, 2, 1, 102))
  {
    var ledger := [Booking(today, 1, 0, 101)];
    var c := Chain(Rooms(Room.Reserved, Room.Free, Room.Free, None), ledger);
    var h := c.hotels[0];
    var s, e := today + 7, today + 14;
    assert HotelChain.FindHotelByName(c.hotels, HotelName) == Some(0);
    assert !Hotel.IsRoomAvailable(ledger, 101, s, e) by {
      assert Hotel.Blocks(ledger[0], 101, s, e);
    }
    assert Hotel.IsRoomAvailable(ledger, 102, s, e);
    assert Hotel.Qualifies(h.rooms[1], ledger, DoubleType, s, e);
    assert Hotel.Available(h, s, e, DoubleType);
    FindsThird(h.rooms, ledger, DoubleType, s, e, 1);
    var res := Booking(today, 2, 1, 102);
    assert Reservation.NewReservation(2, Some(s), Some(e), Some(Payer), Some(Reservation.RoomRef(1, 102))) == Ok(res);
    var booked := Room.Room(102, DoubleType, Room.Reserved, None);
    assert Room.MakeReservation(h.rooms[1]) == Ok(booked);
    var h' := Hotel.Hotel(HotelName, Rooms(Room.Reserved, Room.Reserved, Room.Free, None), ledger + [res]);
    assert h.rooms[1 := booked] == h'.rooms;
    assert Hotel.CreateReservation(h, s, e, DoubleType, Some(Payer)) == Done(h', res);
    assert ledger + [res] == [Booking(today, 1, 0, 101), Booking(today, 2, 1, 102)];
    assert HotelChain.WithHotel(c, 0, h') == Chain(h'.rooms, ledger + [res]);
  }

  /** Step 3: a third DOUBLE booking for the same dates is refused and
      nothing changes. */
  lemma ThirdDoubleBookingRefused(today: int)
    ensures
      var c := Chain(Rooms(Room.Reserved, Room.Reserved, Room.Free, None),
                     [Booking(today, 1, 0, 101), Booking(today, 2, 1, 102)]);
      HotelChain.MakeReservation(c, HotelName, today + 7, today + 14, DoubleType, Some(Payer))
        == Failed(NoAvailability, c)
  {
    var ledger := [Booking(today, 1, 0, 101), Booking(today, 2, 1, 102)];
    var c := Chain(Rooms(Room.Reserved, Room.Reserved, Room.Free, None), ledger);
    assert HotelChain.FindHotelByName(c.hotels, HotelName) == Some(0);
    assert !Hotel.IsRoomAvailable(ledger, 101, today + 7, today + 14) by {
      assert Hotel.Blocks(ledger[0], 101, today + 7, today + 14);
    }
    assert !Hotel.IsRoomAvailable(ledger, 102, today + 7, today + 14) by {
      assert Hotel.Blocks(ledger[1], 102, today + 7, today + 14);
    }
    assert Hotel.FindRoom(c.hotels[0].rooms, ledger, DoubleType, today + 7, today + 14) == None;
    Hotel.AvailableIffFound(c.hotels[0], today + 7, today + 14, DoubleType);
  }

  /** Steps 4 and 5: the guest checks in to room 101 and out again; the
      ledger is untouched and the room ends FREE with no occupant. */
  lemma CheckInThenOut(today: int)
    ensures
      var ledger := [Booking(today, 1, 0, 101), Booking(today, 2, 1, 102)];
      var ci := HotelChain.CheckInGuest(Chain(Rooms(Room.Reserved, Room.Reserved, Room.Free, None), ledger),
                                        HotelName, 101, Some(MainGuest));
      && ci == Done(Chain(Rooms(Room.Occupied, Room.Reserved, Room.Free, Some(MainGuest)), ledger), ())
      && HotelChain.CheckOutGuest(ci.state, HotelName, 101)
           == Done(Chain(Rooms(Room.Free, Room.Reserved, Room.Free, None), ledger), ())
  {
    var ledger := [Booking(today, 1, 0, 101), Booking(today, 2, 1, 102)];
    var c := Chain(Rooms(Room.Reserved, Room.Reserved, Room.Free, None), ledger);
    assert HotelChain.FindHotelByName(c.hotels, HotelName) == Some(0);
    assert HotelChain.FindRoomInHotel(c.hotels[0].rooms, 101) == Some(0);
    var occupied := Room.Room(101, DoubleType, Room.Occupied, Some(MainGuest));
    assert Room.CheckInGuest(c.hotels[0].rooms[0], Some(MainGuest)) == Ok(occupied);
    var c' := Chain(Rooms(Room.Occupied, Room.Reserved, Room.Free, Some(MainGuest)), ledger);
    assert c.hotels[0].rooms[0 := occupied] == c'.hotels[0].rooms;
    assert HotelChain.WithRoom(c, 0, 0, occupied) == c';
    assert HotelChain.CheckInGuest(c, HotelName, 101, Some(MainGuest)) == Done(c', ());
    assert HotelChain.FindHotelByName(c'.hotels, HotelName) == Some(0);
    assert HotelChain.FindRoomInHotel(c'.hotels[0].rooms, 101) == Some(0);
    var freed := Room.Room(101, DoubleType, Room.Free, None);
    assert Room.CheckOutGuest(c'.hotels[0].rooms[0]) == Ok(freed);
    var c'' := Chain(Rooms(Room.Free, Room.Reserved, Room.Free, None), ledger);
    assert c'.hotels[0].rooms[0 := freed] == c''.hotels[0].rooms;
    assert HotelChain.WithRoom(c', 0, 0, freed) == c'';
  }

  /** Step 6: the FAMILY booking gets number 3 in room 201. */
  lemma FamilyBooking(today: int)
    ensures
      var ledger := [Booking(today, 1, 0, 101), Booking(today, 2, 1, 102)];
      HotelChain.MakeReservation(Chain(Rooms(Room.Free, Room.Reserved, Room.Free, None), ledger),
                                 HotelName, today + 7, today + 14, FamilyType, Some(Payer))
        == Done(Chain(Rooms(Room.Free, Room.Reserved, Room.Reserved, None), ledger + [Booking(today, 3, 2, 201)]),
                Booking(today, 3, 2, 201))
  {
    var ledger := [Booking(today, 1, 0, 101), Booking(today, 2, 1, 102)];
    var c := Chain(Rooms(Room.Free, Room.Reserved, Room.Free, None), ledger);
    var h := c.hotels[0];
    var s, e := today + 7, today + 14;
    assert HotelChain.FindHotelByName(c.hotels, HotelName) == Some(0);
    assert Hotel.IsRoomAvailable(ledger, 201, s, e);
    assert Hotel.Qualifies(h.rooms[2], ledger, FamilyType, s, e);
    assert Hotel.Available(h, s, e, FamilyType);
    FindsThird(h.rooms, ledger, FamilyType, s, e, 2);
    var res := Booking(today, 3, 2, 201);
    assert Reservation.NewReservation(3, Some(s), Some(e), Some(Payer), Some(Reservation.RoomRef(2, 201))) == Ok(res);
    var booked := Room.Room(201, FamilyType, Room.Reserved, None);
    assert Room.MakeReservation(h.rooms[2]) == Ok(booked);
    var h' := Hotel.Hotel(HotelName, Rooms(Room.Free, Room.Reserved, Room.Reserved, None), ledger + [res]);
    assert h.rooms[2 := booked] == h'.rooms;
    assert Hotel.CreateReservation(h, s, e, FamilyType, Some(Payer)) == Done(h', res);
    assert HotelChain.WithHotel(c, 0, h') == Chain(h'.rooms, ledger + [res]);
  }

  /** Step 7: cancelling number 3 frees room 201 and takes the ledger back
      to the two DOUBLE bookings. */
  lemma CancelFamilyBooking(today: int)
    ensures
      var ledger := [Booking(today, 1, 0, 101), Booking(today, 2, 1, 102)];
      var c := Chain(Rooms(Room.Free, Room.Reserved, Room.Reserved, None), ledger + [Booking(today, 3, 2, 201)]);
      HotelChain.Valid(c)
      && HotelChain.CancelReservation(c, HotelName, 3)
           == Done(Chain(Rooms(Room.Free, Room.Reserved, Room.Free, None), ledger), ())
  {
    var ledger := [Booking(today, 1, 0, 101), Booking(today, 2, 1, 102)];
    var ledger' := ledger + [Booking(today, 3, 2, 201)];
    var c := Chain(Rooms(Room.Free, Room.Reserved, Room.Reserved, None), ledger');
    var h := c.hotels[0];
    assert Hotel.Valid(h) by {
      assert Hotel.RefersToInventory(h.rooms, ledger'[0].room);
      assert Hotel.RefersToInventory(h.rooms, ledger'[1].room);
      assert Hotel.RefersToInventory(h.rooms, ledger'[2].room);
    }
    assert HotelChain.FindHotelByName(c.hotels, HotelName) == Some(0);
    assert Hotel.FirstNumbered(ledger', 2, 3);
    assert Hotel.FindReservation(ledger', 3) == Some(2);
    assert Hotel.RemoveAt(ledger', 2) == ledger;
    var freed := Room.Room(201, FamilyType, Room.Free, None);
    assert Room.CancelReservation(h.rooms[2]) == Ok(freed);
    var h' := Hotel.Hotel(HotelName, Rooms(Room.Free, Room.Reserved, Room.Free, None), ledger);
    assert h.rooms[2 := freed] == h'.rooms;
    assert Hotel.CancelReservation(h, 3) == Done(h', ());
    assert HotelChain.WithHotel(c, 0, h') == Chain(h'.rooms, ledger);
  }

  /** Availability looks only at dates: once room 101 is RESERVED for days
      10 to 15, it is still reported available for days 20 to 25. Booking
      it then appends reservation number 2 and fails on the room's state,
      with the new entry left in the ledger. */
  lemma ReservedRoomStillReportedAvailable(today: int)
    ensures
      var first := Reservation.Reservation(1, today + 10, today + 15, Payer, Reservation.RoomRef(0, 101));
      var h := Hotel.Hotel(HotelName, [Room.Room(101, DoubleType, Room.Reserved, None)], [first]);
      var second := Reservation.Reservation(2, today + 20, today + 25, Payer, Reservation.RoomRef(0, 101));
      && Hotel.Available(h, today + 20, today + 25, DoubleType)
      && Hotel.CreateReservation(h, today + 20, today + 25, DoubleType, Some(Payer))
           == Failed(InvalidStateTransition, h.(reservations := [first, second]))
  {
    var first := Reservation.Reservation(1, today + 10, today + 15, Payer, Reservation.RoomRef(0, 101));
    var h := Hotel.Hotel(HotelName, [Room.Room(101, DoubleType, Room.Reserved, None)], [first]);
    assert Hotel.IsRoomAvailable([first], 101, today + 20, today + 25);
    assert Hotel.Qualifies(h.rooms[0], h.reservations, DoubleType, today + 20, today + 25);
    assert Hotel.FindRoom(h.rooms, h.reservations, DoubleType, today + 20, today + 25) == Some(0);
    var second := Reservation.Reservation(2, today + 20, today + 25, Payer, Reservation.RoomRef(0, 101));
    assert Reservation.NewReservation(2, Some(today + 20), Some(today + 25), Some(Payer),
                                      Some(Reservation.RoomRef(0, 101))) == Ok(second);
    assert Room.MakeReservation(h.rooms[0]) == Err(InvalidStateTransition);
    assert [first] + [second] == [first, second];
  }
}
