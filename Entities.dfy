/** The rows of the five tables. Dates are instants in milliseconds; prices
    and ratings are exact reals standing for the database's numerics. */
module Entities {
  import opened Common

  datatype User = User(
    id: string, name: string, email: string, passwordHash: string, role: Role, phone: Option<string>)

  datatype Hotel = Hotel(
    id: string, ownerId: string, name: string, description: Option<string>, city: string,
    country: string, amenities: seq<string>, rating: real, totalReviews: nat)

  /** `roomNumber`, `roomType` and `maxOccupancy` are nullable columns. */
  datatype Room = Room(
    id: string, hotelId: string, roomNumber: Option<string>, roomType: Option<string>,
    pricePerNight: real, maxOccupancy: Option<int>, amenities: seq<string>)

  datatype BookingStatus = Confirmed | Cancelled

  function StatusName(s: BookingStatus): string {
    match s
    case Confirmed => "confirmed"
    case Cancelled => "cancelled"
  }

  datatype Booking = Booking(
    id: string, userId: string, roomId: string, hotelId: string, checkIn: int, checkOut: int,
    guests: int, totalPrice: real, status: BookingStatus, bookingDate: int, cancelledAt: Option<int>)

  datatype Review = Review(
    id: string, userId: string, hotelId: string, bookingId: string, rating: int,
    comment: Option<string>, createdAt: int)

  // Column projections, used as keys of uniqueness constraints and lookups.
  function UserId(u: User): string { u.id }
  function UserEmail(u: User): string { u.email }
  function HotelId(h: Hotel): string { h.id }
  function RoomId(r: Room): string { r.id }
  function BookingId(b: Booking): string { b.id }
  function ReviewId(r: Review): string { r.id }
  function ReviewBookingId(r: Review): string { r.bookingId }
}
