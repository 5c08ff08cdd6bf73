/** The database as one mutable object: each table a sequence of rows that
    the handlers read, append to and update in place. */
module Store {
  import opened Entities
  import opened Tables

  class Db {
    var users: seq<User>
    var hotels: seq<Hotel>
    var rooms: seq<Room>
    var bookings: seq<Booking>
    var reviews: seq<Review>

    ghost predicate Valid()
      reads this
    {
      Consistent(users, hotels, rooms, bookings, reviews)
    }

    constructor ()
      ensures Valid()
      ensures users == [] && hotels == [] && rooms == [] && bookings == [] && reviews == []
    {
      users, hotels, rooms, bookings, reviews := [], [], [], [], [];
    }
  }
}
