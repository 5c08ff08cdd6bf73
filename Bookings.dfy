/** Booking creation, listing and cancellation. Each handler's decision is a
    function of the tables it reads; the handler methods, given the store, apply it and
    make the one insert or update the handler performs. */
module Bookings {
  import opened Common
  import opened Json
  import opened Entities
  import opened Tables
  import opened Store
  import BookingSchema

  const HourMs: int := 1000 * 60 * 60
  const DayMs: int := 1000 * 60 * 60 * 24

  // ---- creation ----

  /** The room with `roomId` joined with its hotel's owner; absent when either row is. */
  datatype RoomWithOwner = RoomWithOwner(room: Room, ownerId: string)

  function FindRoomWithOwner(rooms: seq<Room>, hotels: seq<Hotel>, roomId: string): (r: Option<RoomWithOwner>)
    ensures r.Some? ==> r.value.room in rooms && r.value.room.id == roomId
    ensures r.Some? ==> exists h :: h in hotels && h.id == r.value.room.hotelId && h.ownerId == r.value.ownerId
    ensures r.None? ==> Find(rooms, RoomId, roomId).None?
                        || Find(hotels, HotelId, rooms[Find(rooms, RoomId, roomId).value].hotelId).None?
  {
    match Find(rooms, RoomId, roomId)
    case None => None
    case Some(i) =>
      match Find(hotels, HotelId, rooms[i].hotelId)
      case None => None
      case Some(j) => Some(RoomWithOwner(rooms[i], hotels[j].ownerId))
  }

  /** JavaScript's `guests > room.max_occupancy`, where a null capacity compares as 0. */
  function CapacityExceeded(guests: int, maxOccupancy: Option<int>): bool {
    guests > (if maxOccupancy.Some? then maxOccupancy.value else 0)
  }

  /** Some confirmed booking of room `roomId` overlaps [checkIn, checkOut). */
  predicate HasConflict(bookings: seq<Booking>, roomId: string, checkIn: int, checkOut: int) {
    exists i :: 0 <= i < |bookings| && bookings[i].roomId == roomId && bookings[i].status == Confirmed
                && checkIn < bookings[i].checkOut && checkOut > bookings[i].checkIn
  }

  /** `(checkOut - checkIn) / (1000 * 60 * 60 * 24)`. */
  function Nights(checkIn: int, checkOut: int): real {
    (checkOut - checkIn) as real / DayMs as real
  }

  /** Check-in strictly after today's midnight and check-out strictly after check-in. */
  predicate DatesAccepted(checkIn: int, checkOut: int, today: int) {
    today < checkIn && checkIn < checkOut
  }

  /** Every check before the room lookup passes: role, body, dates. */
  predicate PassesRequestChecks(user: Identity, body: Json, today: int, dateOf: string -> int) {
    && user.role == Customer
    && BookingSchema.Parse(body).Some?
    && var req := BookingSchema.Parse(body).value;
       DatesAccepted(dateOf(req.checkInDate), dateOf(req.checkOutDate), today)
  }

  /** Every check before the overlap query passes: the above, then room, owner, capacity. */
  predicate PassesRoomChecks(rooms: seq<Room>, hotels: seq<Hotel>, user: Identity, body: Json,
                             today: int, dateOf: string -> int) {
    && PassesRequestChecks(user, body, today, dateOf)
    && var req := BookingSchema.Parse(body).value;
       var info := FindRoomWithOwner(rooms, hotels, req.roomId);
       && info.Some?
       && info.value.ownerId != user.id
       && !CapacityExceeded(req.guests, info.value.room.maxOccupancy)
  }

  /** The decision of `createBooking` on the current tables: the new booking
      row with status 201, or the first check that fails. `dateOf` is `new Date(s)`. */
  function CreateOutcome(bookings: seq<Booking>, rooms: seq<Room>, hotels: seq<Hotel>,
                         user: Identity, body: Json, today: int, dateOf: string -> int,
                         id: string, now: int): (r: Response<Booking>)
    // the role gate comes first
    ensures user.role != Customer ==> r == Err(Forbidden, 403)
    ensures user.role == Customer && BookingSchema.Parse(body).None? ==> r == Err(InvalidRequest, 400)
    // the date checks use no table
    ensures user.role == Customer && BookingSchema.Parse(body).Some? ==>
      var req := BookingSchema.Parse(body).value;
      var checkIn, checkOut := dateOf(req.checkInDate), dateOf(req.checkOutDate);
      && (checkIn <= today ==> r == Err(InvalidDates, 400))
      && (today < checkIn && checkOut <= checkIn ==> r == Err(InvalidRequest, 400))
    // then the room, the owner, the capacity
    ensures PassesRequestChecks(user, body, today, dateOf) ==>
      var req := BookingSchema.Parse(body).value;
      var info := FindRoomWithOwner(rooms, hotels, req.roomId);
      && (info.None? ==> r == Err(RoomNotFound, 404))
      && (info.Some? && info.value.ownerId == user.id ==> r == Err(Forbidden, 403))
      && (info.Some? && info.value.ownerId != user.id && CapacityExceeded(req.guests, info.value.room.maxOccupancy)
          ==> r == Err(InvalidCapacity, 400))
    // and the overlap query decides the rest
    ensures r == Err(RoomNotAvailable, 400) <==>
      PassesRoomChecks(rooms, hotels, user, body, today, dateOf)
      && var req := BookingSchema.Parse(body).value;
         HasConflict(bookings, req.roomId, dateOf(req.checkInDate), dateOf(req.checkOutDate))
    ensures r.Ok? <==>
      PassesRoomChecks(rooms, hotels, user, body, today, dateOf)
      && var req := BookingSchema.Parse(body).value;
         !HasConflict(bookings, req.roomId, dateOf(req.checkInDate), dateOf(req.checkOutDate))
    // the row that is inserted
    ensures r.Ok? ==>
      var req := BookingSchema.Parse(body).value;
      var room := FindRoomWithOwner(rooms, hotels, req.roomId).value.room;
      && r.status == 201
      && r.data == Booking(id, user.id, req.roomId, room.hotelId, dateOf(req.checkInDate),
                           dateOf(req.checkOutDate), req.guests,
                           Nights(dateOf(req.checkInDate), dateOf(req.checkOutDate)) * room.pricePerNight,
                           Confirmed, now, None)
  {
    if user.role != Customer then Err(Forbidden, 403)
    else match BookingSchema.Parse(body)
      case None => Err(InvalidRequest, 400)
      case Some(req) =>
        var checkIn, checkOut := dateOf(req.checkInDate), dateOf(req.checkOutDate);
        if checkIn <= today then Err(InvalidDates, 400)
        else if checkOut <= checkIn then Err(InvalidRequest, 400)
        else match FindRoomWithOwner(rooms, hotels, req.roomId)
          case None => Err(RoomNotFound, 404)
          case Some(info) =>
            if info.ownerId == user.id then Err(Forbidden, 403)
            else if CapacityExceeded(req.guests, info.room.maxOccupancy) then Err(InvalidCapacity, 400)
            else if HasConflict(bookings, req.roomId, checkIn, checkOut) then Err(RoomNotAvailable, 400)
            else
              var nights := Nights(checkIn, checkOut);
              Ok(Booking(id, user.id, req.roomId, info.room.hotelId, checkIn, checkOut, req.guests,
                         nights * info.room.pricePerNight, Confirmed, now, None), 201)
  }

  // ---- cancellation ----

  datatype Cancellation = Cancellation(id: string, cancelledAt: int)

  /** `(checkIn - now) / (1000 * 60 * 60) < 24`. */
  predicate DeadlinePassed(checkIn: int, now: int) {
    (checkIn - now) as real / HourMs as real < 24.0
  }

  /** The decision of `cancelBooking`. */
  function CancelOutcome(bookings: seq<Booking>, user: Identity, bookingId: string, now: int): (r: Response<Cancellation>)
    ensures user.role != Customer ==> r == Err(Forbidden, 403)
    ensures user.role == Customer && Find(bookings, BookingId, bookingId).None? ==> r == Err(BookingNotFound, 404)
    ensures r.Ok? <==>
      && user.role == Customer
      && Find(bookings, BookingId, bookingId).Some?
      && var b := bookings[Find(bookings, BookingId, bookingId).value];
         b.userId == user.id && b.status == Confirmed && b.checkIn - now >= DayMs
    ensures r.Ok? ==> r == Ok(Cancellation(bookingId, now), 200)
    ensures user.role == Customer && Find(bookings, BookingId, bookingId).Some? ==>
      var b := bookings[Find(bookings, BookingId, bookingId).value];
      && (b.userId != user.id ==> r == Err(Forbidden, 403))
      && (b.userId == user.id && b.status == Cancelled ==> r == Err(AlreadyCancelled, 400))
      && (b.userId == user.id && b.status == Confirmed && b.checkIn - now < DayMs
          ==> r == Err(CancellationDeadlinePassed, 400))
  {
    if user.role != Customer then Err(Forbidden, 403)
    else match Find(bookings, BookingId, bookingId)
      case None => Err(BookingNotFound, 404)
      case Some(i) =>
        var b := bookings[i];
        DeadlineInMilliseconds(b.checkIn, now);
        if b.userId != user.id then Err(Forbidden, 403)
        else if b.status == Cancelled then Err(AlreadyCancelled, 400)
        else if DeadlinePassed(b.checkIn, now) then Err(CancellationDeadlinePassed, 400)
        else Ok(Cancellation(bookingId, now), 200)
  }

  /** Fewer than 24 hours in the source's units is fewer than a day of milliseconds:
      exactly 24 hours ahead may still be cancelled. */
  lemma DeadlineInMilliseconds(checkIn: int, now: int)
    ensures DeadlinePassed(checkIn, now) <==> checkIn - now < DayMs
  {
    var d := (checkIn - now) as real;
    assert d / HourMs as real < 24.0 <==> d < 24.0 * HourMs as real;
  }

  /** `UPDATE bookings SET status = 'cancelled', cancelled_at = now WHERE id = bookingId`. */
  function CancelRows(bookings: seq<Booking>, bookingId: string, now: int): (r: seq<Booking>)
    ensures |r| == |bookings|
    ensures forall k :: 0 <= k < |r| ==>
      r[k] == if bookings[k].id == bookingId then bookings[k].(status := Cancelled, cancelledAt := Some(now))
              else bookings[k]
  {
    seq(|bookings|, k requires 0 <= k < |bookings| =>
      if bookings[k].id == bookingId then bookings[k].(status := Cancelled, cancelledAt := Some(now))
      else bookings[k])
  }

  // ---- listing ----

  /** One row of the listing: the booking joined with its hotel's name and room's descriptors. */
  datatype BookingView = BookingView(
    id: string, roomId: string, hotelId: string, hotelName: string,
    roomNumber: Option<string>, roomType: Option<string>, checkIn: int, checkOut: int,
    guests: int, totalPrice: real, status: BookingStatus, bookingDate: int)

  /** The `WHERE` of the listing query: the caller's bookings, and those with the
      given status when a non-empty status is asked for. */
  predicate Selected(b: Booking, userId: string, status: Option<string>) {
    b.userId == userId && (status.Some? && status.value != "" ==> StatusName(b.status) == status.value)
  }

  /** The booking with its hotel and room, when both rows exist (the inner joins). */
  function Joined(b: Booking, hotels: seq<Hotel>, rooms: seq<Room>): Option<BookingView> {
    match (Find(hotels, HotelId, b.hotelId), Find(rooms, RoomId, b.roomId))
    case (Some(h), Some(r)) =>
      Some(BookingView(b.id, b.roomId, b.hotelId, hotels[h].name, rooms[r].roomNumber, rooms[r].roomType,
                       b.checkIn, b.checkOut, b.guests, b.totalPrice, b.status, b.bookingDate))
    case _ => None
  }

  /** The listing rows for `bookings`, in table order. */
  function Views(bookings: seq<Booking>, hotels: seq<Hotel>, rooms: seq<Room>,
                 userId: string, status: Option<string>): (r: seq<BookingView>)
    ensures |r| <= |bookings|
    ensures forall v :: v in r ==>
      exists b :: b in bookings && Selected(b, userId, status) && Joined(b, hotels, rooms) == Some(v)
    ensures forall b :: b in bookings && Selected(b, userId, status) && Joined(b, hotels, rooms).Some? ==>
      Joined(b, hotels, rooms).value in r
  {
    if bookings == [] then []
    else
      var rest := Views(bookings[1..], hotels, rooms, userId, status);
      var b := bookings[0];
      if Selected(b, userId, status) && Joined(b, hotels, rooms).Some?
      then [Joined(b, hotels, rooms).value] + rest
      else rest
  }

  /** `getBookings`: only customers may list, and they see only their own bookings. */
  function ListBookings(bookings: seq<Booking>, hotels: seq<Hotel>, rooms: seq<Room>,
                        user: Identity, status: Option<string>): (r: Response<seq<BookingView>>)
    ensures user.role != Customer ==> r == Err(Forbidden, 403)
    ensures user.role == Customer ==> r.Ok? && r.status == 200
    ensures r.Ok? ==> forall v :: v in r.data ==>
      exists b :: b in bookings && b.userId == user.id && b.id == v.id
    ensures r.Ok? ==> r.data == Views(bookings, hotels, rooms, user.id, status)
  {
    if user.role != Customer then Err(Forbidden, 403)
    else Ok(Views(bookings, hotels, rooms, user.id, status), 200)
  }

  // ---- the handler methods, given the store ----

  /** `createBooking`: inserts the decided row, and nothing else, on success. */
  method CreateBooking(db: Db, user: Identity, body: Json, today: int, dateOf: string -> int,
                       uuid: string, now: int) returns (resp: Response<Booking>)
    requires db.Valid()
    requires Find(db.bookings, BookingId, "booking_" + uuid).None?
    modifies db`bookings
    ensures db.Valid()
    ensures resp == CreateOutcome(old(db.bookings), db.rooms, db.hotels, user, body, today, dateOf,
                                  "booking_" + uuid, now)
    ensures db.bookings == if resp.Ok? then old(db.bookings) + [resp.data] else old(db.bookings)
  {
    resp := CreateOutcome(db.bookings, db.rooms, db.hotels, user, body, today, dateOf, "booking_" + uuid, now);
    if resp.Ok? {
      CreatedBookingFits(db.bookings, db.rooms, db.hotels, user, body, today, dateOf, "booking_" + uuid, now);
      DistinctAppend(db.bookings, BookingId, resp.data);
      db.bookings := db.bookings + [resp.data];
    }
  }

  /** `cancelBooking`: on success the one booking becomes cancelled at `now`. */
  method CancelBooking(db: Db, user: Identity, bookingId: string, now: int) returns (resp: Response<Cancellation>)
    requires db.Valid()
    modifies db`bookings
    ensures db.Valid()
    ensures resp == CancelOutcome(old(db.bookings), user, bookingId, now)
    ensures db.bookings == if resp.Ok? then CancelRows(old(db.bookings), bookingId, now) else old(db.bookings)
  {
    resp := CancelOutcome(db.bookings, user, bookingId, now);
    if resp.Ok? {
      CancelKeepsConsistent(db.bookings, bookingId, now);
      CancelKeepsIds(db.bookings, bookingId, now);
      db.bookings := CancelRows(db.bookings, bookingId, now);
    }
  }

  /** `getBookings` reads the tables and changes nothing. */
  method GetBookings(db: Db, user: Identity, status: Option<string>) returns (resp: Response<seq<BookingView>>)
    ensures resp == ListBookings(db.bookings, db.hotels, db.rooms, user, status)
  {
    resp := ListBookings(db.bookings, db.hotels, db.rooms, user, status);
  }

  // ---- properties ----

  /** A confirmed booking that overlaps no confirmed booking of its room keeps the calendar free of clashes. */
  lemma {:induction false} AppendKeepsNoDoubleBooking(bs: seq<Booking>, b: Booking)
    requires NoDoubleBooking(bs)
    requires !HasConflict(bs, b.roomId, b.checkIn, b.checkOut)
    ensures NoDoubleBooking(bs + [b])
  {
    var s := bs + [b];
    forall i, j | 0 <= i < j < |s| ensures !Clash(s[i], s[j]) {
      if j == |bs| {
        assert s[i] == bs[i] && s[j] == b;
      }
    }
  }

  /** The row `createBooking` inserts keeps every constraint on bookings. */
  lemma CreatedBookingFits(bookings: seq<Booking>, rooms: seq<Room>, hotels: seq<Hotel>,
                           user: Identity, body: Json, today: int, dateOf: string -> int,
                           id: string, now: int)
    requires NoDoubleBooking(bookings) && BookingsWellFormed(bookings) && RoomsPriced(rooms)
    requires CreateOutcome(bookings, rooms, hotels, user, body, today, dateOf, id, now).Ok?
    ensures var b := CreateOutcome(bookings, rooms, hotels, user, body, today, dateOf, id, now).data;
      && b.id == id
      && NoDoubleBooking(bookings + [b])
      && BookingsWellFormed(bookings + [b])
  {
    var b := CreateOutcome(bookings, rooms, hotels, user, body, today, dateOf, id, now).data;
    var req := BookingSchema.Parse(body).value;
    var room := FindRoomWithOwner(rooms, hotels, req.roomId).value.room;
    NightsPositive(b.checkIn, b.checkOut);
    assert room.pricePerNight > 0.0;
    assert b.totalPrice > 0.0;
    AppendKeepsNoDoubleBooking(bookings, b);
  }

  /** `nights` is positive once check-out follows check-in, and a whole number of
      nights when the stay is a whole number of days. */
  lemma NightsPositive(checkIn: int, checkOut: int)
    requires checkIn < checkOut
    ensures Nights(checkIn, checkOut) > 0.0
    ensures (checkOut - checkIn) % DayMs == 0 ==>
      Nights(checkIn, checkOut) == ((checkOut - checkIn) / DayMs) as real
  {
    var d := checkOut - checkIn;
    if d % DayMs == 0 {
      var n := d / DayMs;
      assert d == n * DayMs;
      assert d as real == n as real * DayMs as real;
    }
  }

  /** `totalPrice = nights * price_per_night`, a positive amount for a positive rate. */
  lemma TotalPriceOfStay(checkIn: int, nights: nat, price: real)
    requires nights >= 1 && price > 0.0
    ensures Nights(checkIn, checkIn + nights * DayMs) == nights as real
    ensures Nights(checkIn, checkIn + nights * DayMs) * price == nights as real * price
    ensures nights as real * price > 0.0
  {
    NightsPositive(checkIn, checkIn + nights * DayMs);
    assert (nights * DayMs) % DayMs == 0 && (nights * DayMs) / DayMs == nights;
  }

  /** Cancelling a booking never creates a clash: only confirmed bookings can clash. */
  lemma {:induction false} CancelKeepsConsistent(bs: seq<Booking>, bookingId: string, now: int)
    requires NoDoubleBooking(bs) && BookingsWellFormed(bs)
    ensures NoDoubleBooking(CancelRows(bs, bookingId, now))
    ensures BookingsWellFormed(CancelRows(bs, bookingId, now))
  {
    var s := CancelRows(bs, bookingId, now);
    forall i, j | 0 <= i < j < |s| ensures !Clash(s[i], s[j]) {
      assert !Clash(bs[i], bs[j]);
    }
  }

  /** The update changes no booking id. */
  lemma CancelKeepsIds(bs: seq<Booking>, bookingId: string, now: int)
    requires Distinct(bs, BookingId)
    ensures Distinct(CancelRows(bs, bookingId, now), BookingId)
  {
    var s := CancelRows(bs, bookingId, now);
    forall i, j | 0 <= i < j < |s| ensures BookingId(s[i]) != BookingId(s[j]) {
      assert BookingId(bs[i]) != BookingId(bs[j]);
    }
  }

  /** Once a cancellation succeeded, cancelling the same booking again always
      fails, and for its owner with ALREADY_CANCELLED. */
  lemma SecondCancelFails(bs: seq<Booking>, user: Identity, other: Identity, bookingId: string,
                          now: int, later: int)
    requires Distinct(bs, BookingId)
    requires CancelOutcome(bs, user, bookingId, now).Ok?
    ensures CancelOutcome(CancelRows(bs, bookingId, now), other, bookingId, later).Err?
    ensures CancelOutcome(CancelRows(bs, bookingId, now), user, bookingId, later) == Err(AlreadyCancelled, 400)
  {
    var i := Find(bs, BookingId, bookingId).value;
    var s := CancelRows(bs, bookingId, now);
    assert BookingId(s[i]) == bookingId;
    CancelKeepsIds(bs, bookingId, now);
    FindUnique(s, BookingId, bookingId, i);
  }

  /** A rejection before the room lookup does not depend on any table. */
  lemma RequestChecksUseNoTable(bookings: seq<Booking>, rooms: seq<Room>, hotels: seq<Hotel>,
                                bookings': seq<Booking>, rooms': seq<Room>, hotels': seq<Hotel>,
                                user: Identity, body: Json, today: int, dateOf: string -> int,
                                id: string, now: int)
    requires !PassesRequestChecks(user, body, today, dateOf)
    ensures CreateOutcome(bookings, rooms, hotels, user, body, today, dateOf, id, now)
         == CreateOutcome(bookings', rooms', hotels', user, body, today, dateOf, id, now)
    ensures CreateOutcome(bookings, rooms, hotels, user, body, today, dateOf, id, now).Err?
  {
  }

  /** Cancelled bookings and bookings of other rooms never block a request. */
  lemma OnlyConfirmedSameRoomBlocks(bookings: seq<Booking>, b: Booking, roomId: string, checkIn: int, checkOut: int)
    requires b.status == Cancelled || b.roomId != roomId
    ensures HasConflict(bookings + [b], roomId, checkIn, checkOut) <==> HasConflict(bookings, roomId, checkIn, checkOut)
  {
    var s := bookings + [b];
    if HasConflict(s, roomId, checkIn, checkOut) {
      var i :| 0 <= i < |s| && s[i].roomId == roomId && s[i].status == Confirmed
               && checkIn < s[i].checkOut && checkOut > s[i].checkIn;
      assert i < |bookings| && bookings[i] == s[i];
    }
    if HasConflict(bookings, roomId, checkIn, checkOut) {
      var i :| 0 <= i < |bookings| && bookings[i].roomId == roomId && bookings[i].status == Confirmed
               && checkIn < bookings[i].checkOut && checkOut > bookings[i].checkIn;
      assert s[i] == bookings[i];
    }
  }

  /** A room whose capacity is null refuses every request that reaches the capacity
      check: schema-valid guest counts are positive and `guests > null` holds. */
  lemma NullCapacityRejectsAll(bookings: seq<Booking>, rooms: seq<Room>, hotels: seq<Hotel>,
                               user: Identity, body: Json, today: int, dateOf: string -> int,
                               id: string, now: int)
    requires PassesRequestChecks(user, body, today, dateOf)
    requires var info := FindRoomWithOwner(rooms, hotels, BookingSchema.Parse(body).value.roomId);
      info.Some? && info.value.ownerId != user.id && info.value.room.maxOccupancy.None?
    ensures CreateOutcome(bookings, rooms, hotels, user, body, today, dateOf, id, now) == Err(InvalidCapacity, 400)
  {
  }
}
