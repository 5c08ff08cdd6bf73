/** Lookups over the tables and the constraints that the stored rows keep:
    unique keys, the room calendar and the hotel rating as a running mean. */
module Tables {
  import opened Common
  import opened Entities

  // ---- keys and lookups ----

  /** No two rows share a value of the column `key`. */
  predicate Distinct<T>(s: seq<T>, key: T -> string) {
    forall i, j :: 0 <= i < j < |s| ==> key(s[i]) != key(s[j])
  }

  /** `SELECT ... WHERE key = $1`, first row: the index of the first row whose `key` is `v`. */
  function Find<T>(s: seq<T>, key: T -> string, v: string): (r: Option<nat>)
    ensures r.Some? ==> r.value < |s| && key(s[r.value]) == v
    ensures r.Some? ==> forall j :: 0 <= j < r.value ==> key(s[j]) != v
    ensures r.None? <==> forall j :: 0 <= j < |s| ==> key(s[j]) != v
  {
    if s == [] then None
    else if key(s[0]) == v then Some(0)
    else match Find(s[1..], key, v)
      case None => None
      case Some(k) => Some(k + 1)
  }

  /** Under a uniqueness constraint the row found is the only one with that key. */
  lemma FindUnique<T>(s: seq<T>, key: T -> string, v: string, i: nat)
    requires Distinct(s, key)
    requires i < |s| && key(s[i]) == v
    ensures Find(s, key, v) == Some(i)
  {
  }

  /** Appending a row whose key is new keeps the column unique. */
  lemma DistinctAppend<T>(s: seq<T>, key: T -> string, x: T)
    requires Distinct(s, key)
    requires Find(s, key, key(x)).None?
    ensures Distinct(s + [x], key)
  {
  }

  // ---- the room calendar ----

  /** Half-open intervals [aIn, aOut) and [bIn, bOut) share an instant. */
  predicate Overlaps(aIn: int, aOut: int, bIn: int, bOut: int) {
    aIn < bOut && bIn < aOut
  }

  /** Two bookings that hold the same room at the same time. */
  predicate Clash(a: Booking, b: Booking) {
    && a.roomId == b.roomId
    && a.status == Confirmed && b.status == Confirmed
    && Overlaps(a.checkIn, a.checkOut, b.checkIn, b.checkOut)
  }

  /** Confirmed bookings of one room never overlap. */
  predicate NoDoubleBooking(bs: seq<Booking>) {
    forall i, j :: 0 <= i < j < |bs| ==> !Clash(bs[i], bs[j])
  }

  predicate BookingsWellFormed(bs: seq<Booking>) {
    forall i :: 0 <= i < |bs| ==>
      bs[i].checkIn < bs[i].checkOut && bs[i].guests >= 1 && bs[i].totalPrice > 0.0
  }

  predicate RoomsPriced(rooms: seq<Room>) {
    forall i :: 0 <= i < |rooms| ==> rooms[i].pricePerNight > 0.0
  }

  // ---- ratings ----

  function Sum(s: seq<int>): int {
    if s == [] then 0 else Sum(s[..|s| - 1]) + s[|s| - 1]
  }

  function Mean(s: seq<int>): real
    requires s != []
  {
    Sum(s) as real / |s| as real
  }

  /** The scores of the reviews of hotel `hotelId`, in insertion order. */
  function ScoresOf(reviews: seq<Review>, hotelId: string): (r: seq<int>)
    ensures |r| <= |reviews|
  {
    if reviews == [] then []
    else
      var last := reviews[|reviews| - 1];
      ScoresOf(reviews[..|reviews| - 1], hotelId) + (if last.hotelId == hotelId then [last.rating] else [])
  }

  /** A hotel's `(rating, total_reviews)` pair summarises `scores`: the count is
      their number and the rating is their mean (any rating while there are none). */
  predicate Summarises(h: Hotel, scores: seq<int>) {
    h.totalReviews == |scores| && h.rating * (|scores| as real) == Sum(scores) as real
  }

  predicate RatingsConsistent(hotels: seq<Hotel>, reviews: seq<Review>) {
    forall i :: 0 <= i < |hotels| ==> Summarises(hotels[i], ScoresOf(reviews, hotels[i].id))
  }

  /** Every constraint the stored rows keep. */
  predicate Consistent(users: seq<User>, hotels: seq<Hotel>, rooms: seq<Room>,
                       bookings: seq<Booking>, reviews: seq<Review>) {
    && Distinct(users, UserId) && Distinct(users, UserEmail)
    && Distinct(hotels, HotelId)
    && Distinct(rooms, RoomId) && RoomsPriced(rooms)
    && Distinct(bookings, BookingId) && BookingsWellFormed(bookings) && NoDoubleBooking(bookings)
    && Distinct(reviews, ReviewId) && Distinct(reviews, ReviewBookingId)
    && RatingsConsistent(hotels, reviews)
  }
}
