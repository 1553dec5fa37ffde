# Hotel booking engine — Dafny model

This project models the booking core of a single-process hotel reservation
system written in Java. It covers:

- the three-state room lifecycle: FREE, RESERVED, OCCUPIED;
- the immutable reservation record;
- a hotel's room inventory and reservation ledger, with the date-overlap
  availability search, booking and cancellation;
- the hotel chain, which routes requests by case-insensitive hotel name and
  exact room number;
- the value objects: credit card, money, address, identity and guest.

Everything is immutable. Each Java class is a `datatype` in a module of the
same name. Each Java method is a pure function. Where a member takes an `Option`, a
Java `null` argument is `Common.Option.None`. Elsewhere the model takes the
argument as non-null, and "## Left out" says what Java does with a null
there. Exceptions become results:

- `Common.Result` is used where a failure changes nothing.
- `Common.Outcome` is used for hotel and chain operations. Both of its arms
  carry the state after the call. The Java code can fail after mutating:
  `createReservation` appends the reservation before the room refuses to be
  reserved, and `cancelReservation` removes the reservation before the room
  refuses to be freed. The failed outcome shows that left-over change.

Dates are day numbers (`int`). A reservation refers to its room through a
`RoomRef`, which holds two things:

- `slot`: the position of the Java `Room` object in the hotel's inventory.
  Rooms are only ever appended, so the position identifies the object.
- `number`: the room number, which is what `Room.equals` compares.

The availability test matches ledger entries by room number. Cancellation
changes the referenced room object, which is the one at `slot`.

`Hotel.Valid` states that every ledger entry points into the inventory and
that every room keeps the invariant "occupant present ⇔ OCCUPIED". Every
constructor establishes it, and every operation preserves it (the
`Valid(h) ==> Valid(r.state)` clauses).

The code's own comments and tests expect two things that the code does not
do. The model follows the code in both.

- Availability never looks at room state. The test at
  src/test/java/com/hotel/core/HotelTest.java:91-107 expects a RESERVED room
  to be reported unavailable. In the code, a RESERVED room is still reported
  available for dates that do not overlap its bookings. Booking it then
  appends the reservation and fails on the room's state
  (`Scenario.ReservedRoomStillReportedAvailable`).
- Check-in is allowed from FREE as well as from RESERVED (a walk-in). The
  state-chart comments at src/main/java/com/hotel/domain/Room.java:55-59
  describe only RESERVED to OCCUPIED. In the code, only OCCUPIED refuses
  check-in.

Two predicates are the model's reading of Java methods without contracts of
their own:

- `Hotel.Available` is `available` (src/main/java/com/hotel/core/Hotel.java:48-52).
  `Hotel.AvailableIffFound` relates it to the booking search.
- `Room.Equals` is `Room.equals` (src/main/java/com/hotel/domain/Room.java:77-87),
  a comparison of room numbers. `Room.ApplyPreserves` uses it.

## Model

| member | source | states |
|---|---|---|
| Room.NewRoom | src/main/java/com/hotel/domain/Room.java:13-20 | a null room type is rejected; a new room has the given number and type, is FREE, has no occupant and satisfies the occupancy invariant |
| Room.MakeReservation | src/main/java/com/hotel/domain/Room.java:38-44 | succeeds exactly from FREE, ending RESERVED with number, type and occupant kept; any other state gives the state error |
| Room.CancelReservation | src/main/java/com/hotel/domain/Room.java:46-51 | succeeds exactly from RESERVED, ending FREE with number, type and occupant kept; any other state gives the state error |
| Room.CheckInGuest | src/main/java/com/hotel/domain/Room.java:53-67 | succeeds exactly when the room is not OCCUPIED and the guest is non-null; OCCUPIED gives the state error even for a null guest; a null guest otherwise gives the argument error; success records the guest and makes the room OCCUPIED |
| Room.CheckOutGuest | src/main/java/com/hotel/domain/Room.java:69-75 | succeeds exactly from OCCUPIED, ending FREE with no occupant |
| Room.ApplyPreserves | src/main/java/com/hotel/domain/Room.java:38-87 | every transition, successful or refused, keeps the occupancy invariant, the number and the type, so the room stays `equals` to itself |
| Room.RunPreserves | src/main/java/com/hotel/domain/Room.java:8-11 | after any sequence of transitions a valid room is still valid, with the same number and type |
| Room.ReserveThenCancel | src/main/java/com/hotel/domain/Room.java:38-51 | reserving and then cancelling gives back the original room |
| Room.CheckInThenOut | src/main/java/com/hotel/domain/Room.java:53-75 | check-in then check-out frees the room and clears the occupant; a valid FREE room comes back unchanged |
| Room.RefusedTransitions | src/main/java/com/hotel/domain/Room.java:38-75 | for each state, which transitions are refused; FREE accepts check-in |
| Reservation.NewReservation | src/main/java/com/hotel/domain/Reservation.java:17-58 | accepted exactly when both dates are present, the end is not before the start, and payer and room are present; the fields are the arguments; the duration is never negative |
| Reservation.ActiveWithinDuration | src/main/java/com/hotel/domain/Reservation.java:63-73 | active on a day iff it lies between 0 and the night count after the start; a valid reservation is active on its first and last day |
| Reservation.EqualityIgnoresContent | src/main/java/com/hotel/domain/Reservation.java:95-105 | reservations with the same number are `equals` even when their contents differ |
| Hotel.NewHotel | src/main/java/com/hotel/core/Hotel.java:20-27 | a null name or a name that `isBlank` is rejected; a new hotel is empty and valid |
| Hotel.AddRoom | src/main/java/com/hotel/core/Hotel.java:29-34 | a null room is rejected; otherwise the room is appended at the end and name and ledger are unchanged |
| Hotel.IsRoomAvailable | src/main/java/com/hotel/core/Hotel.java:54-73 | the early-return scan is true iff no ledger entry with the same room number strictly overlaps the request |
| Hotel.FindRoom | src/main/java/com/hotel/core/Hotel.java:76-79 | returns the first room in insertion order that has the requested type and no blocking entry, or none when no room qualifies |
| Hotel.AvailableIffFound | src/main/java/com/hotel/core/Hotel.java:48-52 | `available` holds exactly when the booking search finds a room |
| Hotel.BackToBackStaysDoNotConflict | src/main/java/com/hotel/core/Hotel.java:67 | a stay that starts on another's end day, or ends on its start day, does not conflict |
| Hotel.AvailabilityIgnoresRoomState | src/main/java/com/hotel/core/Hotel.java:48-73 | changing any room's state never changes `available` |
| Hotel.CreateReservation | src/main/java/com/hotel/core/Hotel.java:75-101 | fails with no change exactly when nothing is available; fails with no change on a bad date order or a null payer; otherwise appends reservation number ledger size + 1 for the first qualifying room; that room becomes RESERVED, or if it was not FREE the call fails and keeps the appended entry; validity is preserved |
| Hotel.BookedSlotIsSearchResult | src/main/java/com/hotel/core/Hotel.java:75-87 | the room a booking is recorded against, whether the room accepts it or refuses, is the one the `filter ... findFirst` search returns |
| Hotel.FindReservation | src/main/java/com/hotel/core/Hotel.java:104-107 | returns the first ledger position with the number, or none when no entry has it |
| Hotel.CancelReservation | src/main/java/com/hotel/core/Hotel.java:103-111 | an unknown number fails with no change; otherwise the first entry with the number is removed; its room goes RESERVED to FREE, or if the room is in another state the call fails and keeps the removal; validity is preserved |
| Hotel.CreateThenCancel | src/main/java/com/hotel/core/Hotel.java:75-111 | when no entry already has number ledger size + 1, booking and then cancelling the returned number restores the hotel exactly |
| Hotel.ReusedNumberCancelsTheOlderBooking | src/main/java/com/hotel/core/Hotel.java:87-110 | when the new number is already in use, cancelling it removes the older entry and keeps the new one |
| HotelChain.NewHotelChain | src/main/java/com/hotel/core/HotelChain.java:25-36 | a null name or one that is empty after `trim` is rejected; a new chain is empty |
| HotelChain.AddHotel | src/main/java/com/hotel/core/HotelChain.java:41-46 | a null hotel is rejected; otherwise it is appended with no name check |
| HotelChain.CreateReserverPayer | src/main/java/com/hotel/core/HotelChain.java:55-59 | appends exactly one customer built from the identity and card and returns it |
| HotelChain.FindHotelByName | src/main/java/com/hotel/core/HotelChain.java:106-111 | returns the first hotel whose name matches ignoring case, or none iff no hotel matches |
| HotelChain.FindRoomInHotel | src/main/java/com/hotel/core/HotelChain.java:116-121 | returns the first room with exactly the number, or none iff no room has it |
| HotelChain.MakeReservation | src/main/java/com/hotel/core/HotelChain.java:64-74 | an unknown hotel or a hotel with nothing available fails with no change; otherwise the result is that hotel's `createReservation`, with every other hotel untouched |
| HotelChain.CancelReservation | src/main/java/com/hotel/core/HotelChain.java:79-81 | an unknown hotel fails with no change; otherwise the result is that hotel's `cancelReservation` |
| HotelChain.CheckInGuest | src/main/java/com/hotel/core/HotelChain.java:86-91 | an unknown hotel or room number fails with no change; otherwise the room check-in is applied to the first room with that number and no ledger changes |
| HotelChain.CheckOutGuest | src/main/java/com/hotel/core/HotelChain.java:96-101 | an unknown hotel or room number fails with no change; otherwise the room check-out is applied to the first room with that number and no ledger changes |
| CreditCard.NewCreditCard | src/main/java/com/hotel/domain/CreditCard.java:14-65 | accepted iff the number has at least 13 characters of any kind, the expiry is not empty after trim, and the CVV has at least 3 characters; a null in any position is rejected; every accepted card can be masked |
| CreditCard.MaskedNumber | src/main/java/com/hotel/domain/CreditCard.java:70-79 | 19 characters: the fixed prefix, then the number's last four characters |
| CreditCard.ToString | src/main/java/com/hotel/domain/CreditCard.java:98-101 | `toString` is 19 characters: the fixed prefix `XXXX-XXXX-XXXX-`, then the number's last four characters |
| CreditCard.MaskRespectsEquals | src/main/java/com/hotel/domain/CreditCard.java:82-91 | equality ignores expiry and CVV, and equal cards mask to the same text |
| CreditCard.CardExamples | src/main/java/com/hotel/domain/CreditCard.java:38-40 | the demo card is accepted and masks to its last four digits; a 12-character number is rejected |
| Money.NewMoney | src/main/java/com/hotel/domain/Money.java:18-60 | accepted iff the amount is present and not negative and the currency is present |
| Money.CompareWithZero | src/main/java/com/hotel/domain/Money.java:49-51 | comparing with zero gives the sign of the unscaled value at any scale |
| Money.PositiveXorZero | src/main/java/com/hotel/domain/Money.java:65-74 | for a constructed amount, exactly one of `isPositive` and `isZero` holds |
| Money.EqualsIsIdentity | src/main/java/com/hotel/domain/Money.java:85-95 | `equals` holds iff unscaled value, scale and currency all agree |
| Money.RescaleKeepsValue | src/main/java/com/hotel/domain/Money.java:65-95 | rescaling keeps the numeric value and the sign tests, but breaks `equals` |
| Money.ScaleSensitiveEquality | src/main/java/com/hotel/domain/Money.java:85-95 | 100.0 and 100.00 compare equal but are not `equals` |
| Address.NewAddress | src/main/java/com/hotel/domain/Address.java:13-55 | accepted iff street, city and zip are all present and none is empty after trim |
| Address.CompleteIffConstructible | src/main/java/com/hotel/domain/Address.java:60-64 | `hasCompleteAddress` holds iff the constructor would accept the fields, so it holds for every constructed address |
| Address.EqualsIsIdentity | src/main/java/com/hotel/domain/Address.java:79-90 | equality is field by field on all three fields |
| Address.ToString | src/main/java/com/hotel/domain/Address.java:97-100 | street, then ", ", then city, then a space, then zip |
| Address.ToStringRoundTrip | src/main/java/com/hotel/domain/Address.java:97-100 | the text `toString` prints determines the address, as long as the street has no comma and the city has no space; the postal code may contain anything |
| Identity.NewIdentity | src/main/java/com/hotel/domain/Identity.java:13-44 | accepted iff type and number are present and not empty after trim; takes arguments in (type, number) order |
| Identity.ValidIffConstructible | src/main/java/com/hotel/domain/Identity.java:49-52 | `isValid` holds iff the constructor would accept the fields |
| Identity.EqualsIsIdentity | src/main/java/com/hotel/domain/Identity.java:63-73 | equality needs both fields equal |
| Identity.ToString | src/main/java/com/hotel/domain/Identity.java:80-83 | type, then ": ", then number |
| Identity.ToStringRoundTrip | src/main/java/com/hotel/domain/Identity.java:80-83 | the text `toString` prints determines the identity, as long as the type has no colon |
| Guest.NewGuest | src/main/java/com/hotel/domain/Guest.java:11-36 | accepted iff the name is present and not empty after trim and the address is present; the identity is not checked; the fields are the arguments |
| Guest.IdentificationFollowsConstructor | src/main/java/com/hotel/domain/Guest.java:41-43 | `hasIdentification` holds iff an identity was given |
| Text.TrimEmptyIff | src/main/java/com/hotel/domain/Address.java:53-55 | `trim().isEmpty()` holds iff every character is at most U+0020 |
| Text.BlankTestsDiffer | src/main/java/com/hotel/core/Hotel.java:20-22 | the hotel's `isBlank` test and the other classes' `trim().isEmpty()` test disagree on some names |
| Text.EqualsIgnoreCaseIffSameLower | src/main/java/com/hotel/core/HotelChain.java:106-111 | names match ignoring case iff their lower-cased forms are equal |
| Text.EqualsIgnoreCaseIsEquivalence | src/main/java/com/hotel/core/HotelChain.java:108 | matching names ignoring case is reflexive, symmetric and transitive |
| Text.EqualsIgnoreCaseExample | src/test/java/com/hotel/core/HotelChainTest.java:74-86 | the hotel's own name matches in another case; "Ghost Hotel" does not match it |
| Scenario.DemoChainAndHotelConstruct | src/main/java/com/hotel/Main.java:33-34 | the chain and hotel constructors accept the demo's names and give an empty chain and an empty hotel |
| Scenario.DemoAddressConstructs | src/main/java/com/hotel/Main.java:51 | the demo's address constructor call is accepted and gives the guest's address |
| Scenario.DemoAddressPrintsBack | src/main/java/com/hotel/domain/Address.java:97-100 | the demo address, whose postal code "NW1 6XE" contains a space, reads back from its `toString` text |
| Scenario.DemoPassportConstructs | src/main/java/com/hotel/Main.java:52 | the demo's passport constructor call is accepted and gives the passport used for booking |
| Scenario.DemoCardConstructs | src/main/java/com/hotel/Main.java:53 | the demo's card constructor call is accepted and gives the card used for booking |
| Scenario.DemoGuestConstructs | src/main/java/com/hotel/Main.java:55 | the demo's guest constructor call is accepted and gives the guest who later checks in |
| Scenario.SetupBuildsDemoChain | src/main/java/com/hotel/Main.java:33-56 | the chain, hotel and room constructors accept the demo's arguments, and adding the rooms, joining the hotel to the chain and registering the customer gives the demo chain |
| Scenario.FirstDoubleBooking | src/main/java/com/hotel/Main.java:63-72 | the first DOUBLE booking is number 1 in room 101, which becomes RESERVED |
| Scenario.SecondDoubleBooking | src/main/java/com/hotel/Main.java:78-80 | the second DOUBLE booking for the same dates is number 2 in room 102 |
| Scenario.ThirdDoubleBookingRefused | src/main/java/com/hotel/Main.java:82-88 | a third DOUBLE booking fails with no availability and no change |
| Scenario.CheckInThenOut | src/main/java/com/hotel/Main.java:94-100 | check-in makes room 101 OCCUPIED with the guest; check-out makes it FREE with no occupant; the ledger is unchanged |
| Scenario.FamilyBooking | src/main/java/com/hotel/Main.java:108-110 | the FAMILY booking is number 3 in room 201 |
| Scenario.CancelFamilyBooking | src/main/java/com/hotel/Main.java:111-113 | cancelling number 3 frees room 201 and removes that entry from the ledger |
| Scenario.ReservedRoomStillReportedAvailable | src/main/java/com/hotel/core/Hotel.java:48-91 | a RESERVED room is still available for non-overlapping dates; booking it fails on the room's state after appending the entry |

## Left out

- Console printing, the demo's banner and `LocalDate.now()`: output and the clock. The demo's date is a parameter of the scenario lemmas.
- `Money(double, String)`: it goes through floating point and the currency registry. A currency is an opaque value, and `Money.toString` (currency symbol lookup) is not modelled.
- `hashCode`, exception message text and the unmodifiable list views: the model's sequences are already immutable.
- The Java classes `ReserverPayer`, `RoomType`, `RoomKind`, `RoomState` and `HotelException` are not modelled in their own right. They are represented minimally: the payer is a pair of identity and card, the room type is a pair of kind and rate compared as a whole, and the exception is an error kind.
- Text.EqualsIgnoreCase: folds only ASCII letters. Java also matches other letters that have case, so for non-ASCII names the model finds fewer matches.
- Text.IsJavaWhitespace: lists the Unicode separators of current Unicode versions. The exact set in Java depends on the JDK's Unicode version.
- String lengths count code points. Java counts UTF-16 units, so the two differ for characters outside the Basic Multilingual Plane. This affects the card number and CVV length checks and the last four characters of the masked number.
- `int` room and reservation numbers and `long` durations are unbounded here. The ledger would need more than two billion entries to overflow.
- Hotel.CreateReservation: takes its dates and room type as non-null, so it does not model what Java does with a null there. A null room type matches no room, so Java goes on to throw the no-availability error, but building its message calls `roomType.getKind()` (Hotel.java:82) and ends in a NullPointerException instead. Through the chain the same happens at HotelChain.java:70, after `available` returns false. A null date has one of three outcomes in Java. With no room of the requested type, Java reports no availability (Hotel.java:81-83). When the search meets no ledger entry carrying the number of a room of that type, the overlap test never runs. Java then reaches the Reservation constructor, which throws an IllegalArgumentException before anything changes (Reservation.java:34-36). When the search does meet such an entry, the overlap test (Hotel.java:67) throws a NullPointerException. With a null start date it always does. With a null end date it does so only when the start date is before that entry's end date. The Reservation constructor's null-date checks are modelled in `Reservation.NewReservation`.
- HotelChain.CreateReserverPayer: takes identity and card as non-null. The `ReserverPayer` constructor (HotelChain.java:56) decides what Java does with a null, and that class is not modelled.
- Reservation.IsActiveOn: takes a non-null date. On a null date Java throws a NullPointerException (Reservation.java:72).
- HotelChain.FindHotelByName: takes the name as non-null. Java's `equalsIgnoreCase(null)` is false, so a null name is reported as an unknown hotel.
- HotelChain.AddHotel and Hotel.AddRoom: hotels and rooms are values here, while Java stores references to the caller's objects. In Java a caller can keep changing a hotel or room through its own reference after `addHotel`/`addRoom`, for example by adding rooms to a hotel that has already joined the chain (Main.java:35-44), and those changes show up in the chain. The model does not reflect such changes. A hotel added twice is one shared object in Java but two independent copies here. Likewise, the same `Room` object added twice, or to two hotels, is one room in Java but a separate room per inventory slot here.
- Concurrency: the code has no locking, and the model is sequential.
