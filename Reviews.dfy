/** Review creation: an eligibility gate over the caller's booking, one
    insert into the reviews table, and the incremental update of the hotel's
    `(rating, total_reviews)` pair. */
module Reviews {
  import opened Common
  import opened Json
  import opened Entities
  import opened Tables
  import opened Store
  import ReviewSchema

  // ---- the eligibility gate ----

  datatype Gate = Eligible(req: ReviewSchema.ReviewRequest, booking: Booking) | Rejected(code: ErrorCode, status: nat)

  /** The checks of `createReview` before the insert, in order; the first failing one decides. */
  function ReviewGate(bookings: seq<Booking>, reviews: seq<Review>, user: Identity, body: Json, today: int): (g: Gate)
    ensures user.role != Customer ==> g == Rejected(Forbidden, 403)
    ensures user.role == Customer && ReviewSchema.Parse(body).None? ==> g == Rejected(InvalidRequest, 400)
    ensures user.role == Customer && ReviewSchema.Parse(body).Some? ==>
      var req := ReviewSchema.Parse(body).value;
      var i := Find(bookings, BookingId, req.bookingId);
      && (i.None? ==> g == Rejected(BookingNotFound, 404))
      && (i.Some? ==>
            var b := bookings[i.value];
            && (b.userId != user.id ==> g == Rejected(Forbidden, 403))
            && (b.userId == user.id && b.status != Confirmed ==> g == Rejected(BookingNotEligible, 400))
            && (b.userId == user.id && b.status == Confirmed && b.checkOut >= today
                ==> g == Rejected(BookingNotEligible, 400))
            && ((b.userId == user.id && b.status == Confirmed && b.checkOut < today
                 && Find(reviews, ReviewBookingId, req.bookingId).Some?) ==> g == Rejected(AlreadyReviewed, 400)))
    ensures g.Eligible? <==>
      && user.role == Customer && ReviewSchema.Parse(body).Some?
      && var req := ReviewSchema.Parse(body).value;
         var i := Find(bookings, BookingId, req.bookingId);
         && i.Some?
         && bookings[i.value].userId == user.id
         && bookings[i.value].status == Confirmed
         && bookings[i.value].checkOut < today
         && Find(reviews, ReviewBookingId, req.bookingId).None?
    ensures g.Eligible? ==>
      && g.req == ReviewSchema.Parse(body).value && 1 <= g.req.rating <= 5
      && g.booking in bookings && g.booking.id == g.req.bookingId
  {
    if user.role != Customer then Rejected(Forbidden, 403)
    else match ReviewSchema.Parse(body)
      case None => Rejected(InvalidRequest, 400)
      case Some(req) =>
        match Find(bookings, BookingId, req.bookingId)
        case None => Rejected(BookingNotFound, 404)
        case Some(i) =>
          var b := bookings[i];
          if b.userId != user.id then Rejected(Forbidden, 403)
          else if b.status != Confirmed then Rejected(BookingNotEligible, 400)
          else if !(b.checkOut < today) then Rejected(BookingNotEligible, 400)
          else if Find(reviews, ReviewBookingId, req.bookingId).Some? then Rejected(AlreadyReviewed, 400)
          else Eligible(req, b)
  }

  /** The row inserted for an eligible request: the booking's hotel, the comment or null. */
  function NewReview(g: Gate, user: Identity, id: string, now: int): (r: Review)
    requires g.Eligible?
    ensures r.hotelId == g.booking.hotelId && r.bookingId == g.req.bookingId && r.userId == user.id
    ensures r.rating == g.req.rating
    ensures r.comment.Some? <==> g.req.comment.Some? && g.req.comment.value != ""
    ensures r.comment == OrNull(g.req.comment)
  {
    Review(id, user.id, g.booking.hotelId, g.req.bookingId, g.req.rating, OrNull(g.req.comment), now)
  }

  // ---- the rating update ----

  /** `((rating * total_reviews) + score) / (total_reviews + 1)`. */
  function NewRating(rating: real, total: nat, score: int): real {
    (rating * total as real + score as real) / (total as real + 1.0)
  }

  /** `UPDATE hotels SET rating, total_reviews WHERE id = hotelId`, with the values
      computed from the first row the preceding `SELECT` returned; no update when
      there is no such row (the handler fails before it). */
  function RateHotel(hotels: seq<Hotel>, hotelId: string, score: int): (r: seq<Hotel>)
    ensures |r| == |hotels|
    ensures Find(hotels, HotelId, hotelId).None? ==> r == hotels
    ensures Find(hotels, HotelId, hotelId).Some? ==>
      var h := hotels[Find(hotels, HotelId, hotelId).value];
      forall k :: 0 <= k < |r| ==>
        r[k] == if hotels[k].id == hotelId
                then hotels[k].(rating := NewRating(h.rating, h.totalReviews, score), totalReviews := h.totalReviews + 1)
                else hotels[k]
  {
    match Find(hotels, HotelId, hotelId)
    case None => hotels
    case Some(i) =>
      var h := hotels[i];
      seq(|hotels|, k requires 0 <= k < |hotels| =>
        if hotels[k].id == hotelId
        then hotels[k].(rating := NewRating(h.rating, h.totalReviews, score), totalReviews := h.totalReviews + 1)
        else hotels[k])
  }

  /** If the stored pair summarised the hotel's previous scores, the updated pair
      summarises them with the new score appended: the count grows by one and the
      rating is the mean of all scores. */
  lemma IncrementalMean(h: Hotel, scores: seq<int>, score: int)
    requires Summarises(h, scores)
    ensures Summarises(h.(rating := NewRating(h.rating, h.totalReviews, score), totalReviews := h.totalReviews + 1),
                       scores + [score])
    ensures NewRating(h.rating, h.totalReviews, score) == Mean(scores + [score])
  {
    var n := |scores| as real;
    var s' := scores + [score];
    assert s'[..|s'| - 1] == scores;
    assert Sum(s') == Sum(scores) + score;
    var x := NewRating(h.rating, h.totalReviews, score);
    assert x * (n + 1.0) == h.rating * n + score as real;
  }

  /** The new rating stays within 1..5 when the score and the old rating do, and
      the first review's score becomes the rating exactly. */
  lemma RatingStaysInRange(rating: real, total: nat, score: int)
    requires 1 <= score <= 5
    requires total == 0 || 1.0 <= rating <= 5.0
    ensures 1.0 <= NewRating(rating, total, score) <= 5.0
    ensures total == 0 ==> NewRating(rating, total, score) == score as real
  {
    var t := total as real;
    var num := rating * t + score as real;
    assert NewRating(rating, total, score) == num / (t + 1.0);
    if total == 0 {
      assert num == score as real;
    } else {
      NumeratorBounds(rating, t, score as real);
      QuotientBounds(num, t + 1.0, 1.0, 5.0);
    }
  }

  /** `rating * t + s` lies between `t + 1` and `5 * (t + 1)` when both rating and score do. */
  lemma NumeratorBounds(rating: real, t: real, s: real)
    requires t > 0.0 && 1.0 <= rating <= 5.0 && 1.0 <= s <= 5.0
    ensures 1.0 * (t + 1.0) <= rating * t + s <= 5.0 * (t + 1.0)
  {
    ProductNonNegative(rating - 1.0, t);
    ProductNonNegative(5.0 - rating, t);
    assert (rating - 1.0) * t == rating * t - t;
    assert (5.0 - rating) * t == 5.0 * t - rating * t;
  }

  lemma QuotientBounds(num: real, d: real, lo: real, hi: real)
    requires d > 0.0 && lo * d <= num <= hi * d
    ensures lo <= num / d <= hi
  {
    assert (num - lo * d) / d == num / d - lo;
    assert (hi * d - num) / d == hi - num / d;
  }

  lemma ProductNonNegative(a: real, b: real)
    requires a >= 0.0 && b >= 0.0
    ensures a * b >= 0.0
  {
  }

  /** The pair after a sequence of reviews submitted one after another, starting from `(rating, total)`. */
  function Replay(rating: real, total: nat, scores: seq<int>): (real, nat) {
    if scores == [] then (rating, total)
    else
      var (r, n) := Replay(rating, total, scores[..|scores| - 1]);
      (NewRating(r, n, scores[|scores| - 1]), n + 1)
  }

  /** From a fresh hotel (rating 0, no reviews), reviews submitted one at a time
      leave the mean of their scores and their number. */
  lemma {:induction false} ReplayFromFreshIsMean(scores: seq<int>)
    ensures Replay(0.0, 0, scores).1 == |scores|
    ensures Replay(0.0, 0, scores).0 * (|scores| as real) == Sum(scores) as real
    ensures scores != [] ==> Replay(0.0, 0, scores).0 == Mean(scores)
  {
    if scores != [] {
      var init := scores[..|scores| - 1];
      ReplayFromFreshIsMean(init);
      var (r, n) := Replay(0.0, 0, init);
      var h := Hotel("", "", "", None, "", "", [], r, n);
      IncrementalMean(h, init, scores[|scores| - 1]);
      assert init + [scores[|scores| - 1]] == scores;
    }
  }

  /** The sum of scores does not depend on their order, so neither does the final rating. */
  lemma {:induction false} SumOfPermutation(a: seq<int>, b: seq<int>)
    requires multiset(a) == multiset(b)
    ensures Sum(a) == Sum(b)
    decreases |a|
  {
    if a != [] {
      var x := a[|a| - 1];
      assert x in multiset(b);
      var k :| 0 <= k < |b| && b[k] == x;
      var b' := b[..k] + b[k + 1..];
      assert b == b[..k] + [x] + b[k + 1..];
      assert multiset(a[..|a| - 1]) == multiset(b') by {
        assert a == a[..|a| - 1] + [x];
        assert multiset(a) == multiset(a[..|a| - 1]) + multiset{x};
        assert multiset(b) == multiset(b[..k]) + multiset{x} + multiset(b[k + 1..]);
        assert multiset(b') == multiset(b[..k]) + multiset(b[k + 1..]);
        forall y ensures multiset(a[..|a| - 1])[y] == multiset(b')[y] {
          assert multiset(a)[y] == multiset(a[..|a| - 1])[y] + multiset{x}[y];
          assert multiset(b)[y] == multiset(b')[y] + multiset{x}[y];
        }
      }
      SumOfPermutation(a[..|a| - 1], b');
      SumSplit(b[..k], x, b[k + 1..]);
    }
  }

  /** Removing one element from anywhere in a sequence takes it off the sum. */
  lemma {:induction false} SumSplit(p: seq<int>, x: int, q: seq<int>)
    ensures Sum(p + [x] + q) == Sum(p + q) + x
    decreases |q|
  {
    if q == [] {
      assert p + [x] + q == p + [x];
      assert (p + [x])[..|p + [x]| - 1] == p;
      assert p + q == p;
    } else {
      var q' := q[..|q| - 1];
      var y := q[|q| - 1];
      SumSplit(p, x, q');
      assert p + [x] + q == (p + [x] + q') + [y];
      assert p + q == (p + q') + [y];
      assert ((p + [x] + q') + [y])[..|p + [x] + q| - 1] == p + [x] + q';
      assert ((p + q') + [y])[..|p + q| - 1] == p + q';
    }
  }

  /** A review row of hotel `hotelId` adds its score to that hotel's scores only. */
  lemma ScoresOfAppend(reviews: seq<Review>, r: Review, hotelId: string)
    ensures ScoresOf(reviews + [r], hotelId) ==
      ScoresOf(reviews, hotelId) + (if r.hotelId == hotelId then [r.rating] else [])
  {
    assert (reviews + [r])[..|reviews|] == reviews;
  }

  /** Inserting a review and applying the rating update keeps every hotel's pair
      the summary of its reviews' scores. */
  lemma ReviewKeepsRatings(hotels: seq<Hotel>, reviews: seq<Review>, r: Review)
    requires Distinct(hotels, HotelId)
    requires RatingsConsistent(hotels, reviews)
    ensures RatingsConsistent(RateHotel(hotels, r.hotelId, r.rating), reviews + [r])
  {
    var hs := RateHotel(hotels, r.hotelId, r.rating);
    forall k | 0 <= k < |hs| ensures Summarises(hs[k], ScoresOf(reviews + [r], hs[k].id)) {
      RatedHotelSummarises(hotels, reviews, r, k);
    }
  }

  lemma RatedHotelSummarises(hotels: seq<Hotel>, reviews: seq<Review>, r: Review, k: nat)
    requires Distinct(hotels, HotelId)
    requires RatingsConsistent(hotels, reviews)
    requires k < |hotels|
    ensures k < |RateHotel(hotels, r.hotelId, r.rating)|
    ensures var h := RateHotel(hotels, r.hotelId, r.rating)[k];
      Summarises(h, ScoresOf(reviews + [r], h.id))
  {
    var h := hotels[k];
    var old_scores := ScoresOf(reviews, h.id);
    assert Summarises(h, old_scores);
    ScoresOfAppend(reviews, r, h.id);
    RateHotelAt(hotels, r.hotelId, r.rating, k);
    var h' := RateHotel(hotels, r.hotelId, r.rating)[k];
    if h.id == r.hotelId {
      IncrementalMean(h, old_scores, r.rating);
      assert h' == h.(rating := NewRating(h.rating, h.totalReviews, r.rating), totalReviews := h.totalReviews + 1);
      assert ScoresOf(reviews + [r], h'.id) == old_scores + [r.rating];
    } else {
      assert h' == h;
      assert ScoresOf(reviews + [r], h'.id) == old_scores;
    }
  }

  /** With distinct ids, the row at `k` after the update is either rated from its
      own pair or left alone. */
  lemma RateHotelAt(hotels: seq<Hotel>, hotelId: string, score: int, k: nat)
    requires Distinct(hotels, HotelId)
    requires k < |hotels|
    ensures |RateHotel(hotels, hotelId, score)| == |hotels|
    ensures var h := hotels[k];
      RateHotel(hotels, hotelId, score)[k] ==
        if h.id == hotelId
        then h.(rating := NewRating(h.rating, h.totalReviews, score), totalReviews := h.totalReviews + 1)
        else h
  {
    if hotels[k].id == hotelId {
      FindUnique(hotels, HotelId, hotelId, k);
    }
  }

  // ---- the handler method, given the store ----

  /** Rating a hotel changes no hotel id. */
  lemma RateHotelKeepsIds(hotels: seq<Hotel>, hotelId: string, score: int)
    requires Distinct(hotels, HotelId)
    ensures Distinct(RateHotel(hotels, hotelId, score), HotelId)
  {
    var hs := RateHotel(hotels, hotelId, score);
    forall i, j | 0 <= i < j < |hs| ensures HotelId(hs[i]) != HotelId(hs[j]) {
      assert HotelId(hotels[i]) != HotelId(hotels[j]);
    }
  }

  /** Storing a review with a fresh id for a booking not yet reviewed, and
      rating its hotel, keeps every constraint of the stored rows. */
  lemma ReviewKeepsConsistent(users: seq<User>, hotels: seq<Hotel>, rooms: seq<Room>,
                              bookings: seq<Booking>, reviews: seq<Review>, r: Review)
    requires Consistent(users, hotels, rooms, bookings, reviews)
    requires Find(reviews, ReviewId, r.id).None?
    requires Find(reviews, ReviewBookingId, r.bookingId).None?
    ensures Consistent(users, RateHotel(hotels, r.hotelId, r.rating), rooms, bookings, reviews + [r])
  {
    DistinctAppend(reviews, ReviewId, r);
    DistinctAppend(reviews, ReviewBookingId, r);
    ReviewKeepsRatings(hotels, reviews, r);
    RateHotelKeepsIds(hotels, r.hotelId, r.rating);
  }

  /** `createReview`. A rejection changes nothing. An eligible request inserts
      one review and updates its hotel's pair; if the hotel row is missing the
      handler fails with INVALID_REQUEST after the insert. */
  method CreateReview(db: Db, user: Identity, body: Json, today: int, uuid: string, now: int)
    returns (resp: Response<Review>)
    requires db.Valid()
    requires Find(db.reviews, ReviewId, "review_" + uuid).None?
    modifies db`reviews, db`hotels
    ensures db.Valid()
    ensures var g := ReviewGate(db.bookings, old(db.reviews), user, body, today);
      g.Rejected? ==> resp == Err(g.code, g.status) && db.reviews == old(db.reviews) && db.hotels == old(db.hotels)
    ensures var g := ReviewGate(db.bookings, old(db.reviews), user, body, today);
      g.Eligible? ==>
        var review := NewReview(g, user, "review_" + uuid, now);
        && db.reviews == old(db.reviews) + [review]
        && db.hotels == RateHotel(old(db.hotels), review.hotelId, review.rating)
        && resp == if Find(old(db.hotels), HotelId, review.hotelId).Some? then Ok(review, 201)
                   else Err(InvalidRequest, 400)
  {
    var g := ReviewGate(db.bookings, db.reviews, user, body, today);
    if g.Rejected? {
      return Err(g.code, g.status);
    }
    var review := NewReview(g, user, "review_" + uuid, now);
    ReviewKeepsConsistent(db.users, db.hotels, db.rooms, db.bookings, db.reviews, review);
    db.reviews := db.reviews + [review];
    var hotels' := RateHotel(db.hotels, review.hotelId, review.rating);
    match Find(db.hotels, HotelId, review.hotelId)
    case None =>
      resp := Err(InvalidRequest, 400);
    case Some(_) =>
      db.hotels := hotels';
      resp := Ok(review, 201);
  }
}
