/** Room creation under a hotel: owners only, a schema-valid body, the hotel
    must exist and belong to the caller, then one insert. */
module Rooms {
  import opened Common
  import opened Json
  import opened Entities
  import opened Tables
  import opened Store
  import RoomSchema
  import BookingSchema
  import Bookings

  /** The amenities stored for a request: the given list or `[]`. */
  function AmenitiesOrEmpty(amenities: Option<seq<string>>): seq<string> {
    if amenities.Some? then amenities.value else []
  }

  /** The decision of `createRoom` for path parameter `hotelId`. `duplicateKey`
      says whether the database refuses the insert with a unique-constraint
      violation. The row takes its hotel from the path; room number, room type
      and capacity are not schema members, so they are stored as null. */
  function RoomOutcome(hotels: seq<Hotel>, user: Identity, hotelId: string, body: Json, id: string,
                       duplicateKey: bool): (r: Response<Room>)
    ensures user.role != Owner ==> r == Err(Forbidden, 403)
    ensures user.role == Owner && RoomSchema.Parse(body).None? ==> r == Err(InvalidRequest, 400)
    ensures user.role == Owner && RoomSchema.Parse(body).Some? ==>
      var i := Find(hotels, HotelId, hotelId);
      && (i.None? ==> r == Err(HotelNotFound, 404))
      && (i.Some? && hotels[i.value].ownerId != user.id ==> r == Err(Forbidden, 403))
      && (i.Some? && hotels[i.value].ownerId == user.id && duplicateKey ==> r == Err(RoomAlreadyExists, 400))
    ensures r.Ok? <==>
      && user.role == Owner && RoomSchema.Parse(body).Some?
      && Find(hotels, HotelId, hotelId).Some? && hotels[Find(hotels, HotelId, hotelId).value].ownerId == user.id
      && !duplicateKey
    ensures r.Ok? ==>
      var req := RoomSchema.Parse(body).value;
      && r.status == 201
      && r.data.id == id && r.data.hotelId == hotelId
      && r.data.pricePerNight == req.pricePerNight && r.data.pricePerNight > 0.0
      && r.data.roomNumber.None? && r.data.roomType.None? && r.data.maxOccupancy.None?
      && r.data.amenities == AmenitiesOrEmpty(req.amenities)
  {
    if user.role != Owner then Err(Forbidden, 403)
    else match RoomSchema.Parse(body)
      case None => Err(InvalidRequest, 400)
      case Some(req) =>
        match Find(hotels, HotelId, hotelId)
        case None => Err(HotelNotFound, 404)
        case Some(i) =>
          if hotels[i].ownerId != user.id then Err(Forbidden, 403)
          else if duplicateKey then Err(RoomAlreadyExists, 400)
          else Ok(Room(id, hotelId, None, None, req.pricePerNight, None, AmenitiesOrEmpty(req.amenities)), 201)
  }

  /** Sending `roomNumber`, `roomType` or `maxOccupancy` in the body changes
      nothing: the schema drops them before the handler reads them. */
  lemma UndeclaredMembersIgnored(hotels: seq<Hotel>, user: Identity, hotelId: string,
                                 f: map<string, Json>, k: string, v: Json, id: string, duplicateKey: bool)
    requires k in {"roomNumber", "roomType", "maxOccupancy"}
    ensures RoomOutcome(hotels, user, hotelId, JObj(f[k := v]), id, duplicateKey)
         == RoomOutcome(hotels, user, hotelId, JObj(f), id, duplicateKey)
  {
    RoomSchema.ParseIgnoresUndeclared(f, k, v);
  }

  /** `createRoom`: a rejection changes nothing; success appends the decided row. */
  method CreateRoom(db: Db, user: Identity, hotelId: string, body: Json, uuid: string, duplicateKey: bool)
    returns (resp: Response<Room>)
    requires db.Valid()
    requires Find(db.rooms, RoomId, "room_" + uuid).None?
    modifies db`rooms
    ensures db.Valid()
    ensures resp == RoomOutcome(db.hotels, user, hotelId, body, "room_" + uuid, duplicateKey)
    ensures db.rooms == if resp.Ok? then old(db.rooms) + [resp.data] else old(db.rooms)
  {
    resp := RoomOutcome(db.hotels, user, hotelId, body, "room_" + uuid, duplicateKey);
    if resp.Ok? {
      DistinctAppend(db.rooms, RoomId, resp.data);
      db.rooms := db.rooms + [resp.data];
    }
  }

  /** A room created through this handler has a null capacity, so every booking
      request for it that reaches the capacity check is refused with
      INVALID_CAPACITY: a positive guest count exceeds a null capacity. */
  lemma CreatedRoomRefusesBookings(hotels: seq<Hotel>, rooms: seq<Room>, bookings: seq<Booking>,
                                   owner: Identity, hotelId: string, roomBody: Json, id: string,
                                   customer: Identity, bookingBody: Json, today: int,
                                   dateOf: string -> int, bookingId: string, now: int)
    requires Distinct(rooms, RoomId) && Find(rooms, RoomId, id).None?
    requires RoomOutcome(hotels, owner, hotelId, roomBody, id, false).Ok?
    requires Bookings.PassesRequestChecks(customer, bookingBody, today, dateOf)
    requires BookingSchema.Parse(bookingBody).value.roomId == id
    requires customer.id != owner.id
    ensures var room := RoomOutcome(hotels, owner, hotelId, roomBody, id, false).data;
      Bookings.CreateOutcome(bookings, rooms + [room], hotels, customer, bookingBody, today, dateOf, bookingId, now)
        == Err(InvalidCapacity, 400)
  {
    var room := RoomOutcome(hotels, owner, hotelId, roomBody, id, false).data;
    var rooms' := rooms + [room];
    DistinctAppend(rooms, RoomId, room);
    FindUnique(rooms', RoomId, id, |rooms|);
    var j := Find(hotels, HotelId, hotelId).value;
    assert Bookings.FindRoomWithOwner(rooms', hotels, id) == Some(Bookings.RoomWithOwner(room, hotels[j].ownerId));
    Bookings.NullCapacityRejectsAll(bookings, rooms', hotels, customer, bookingBody, today, dateOf, bookingId, now);
  }
}
