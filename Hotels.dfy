/** The hotel catalogue: creation by an owner, and the listing query whose
    WHERE clause is assembled from the optional query-string filters. */
module Hotels {
  import opened Common
  import opened Json
  import opened Entities
  import opened Tables
  import opened Store
  import HotelSchema

  // ---- createHotel ----

  /** The checks of `createHotel` and the row it inserts: owners only, then the
      schema; the new hotel belongs to the caller and starts unrated. */
  function HotelOutcome(user: Identity, body: Json, id: string): (r: Response<Hotel>)
    ensures user.role != Owner ==> r == Err(Forbidden, 403)
    ensures user.role == Owner && HotelSchema.Parse(body).None? ==> r == Err(InvalidRequest, 400)
    ensures r.Ok? <==> user.role == Owner && HotelSchema.Parse(body).Some?
    ensures r.Ok? ==>
      var req := HotelSchema.Parse(body).value;
      && r.status == 201
      && r.data.id == id && r.data.ownerId == user.id
      && r.data.name == req.name && r.data.city == req.city && r.data.country == req.country
      && r.data.description == OrNull(req.description)
      && r.data.amenities == (if req.amenities.Some? then req.amenities.value else [])
      && r.data.rating == 0.0 && r.data.totalReviews == 0
  {
    if user.role != Owner then Err(Forbidden, 403)
    else match HotelSchema.Parse(body)
      case None => Err(InvalidRequest, 400)
      case Some(req) =>
        var amenities := if req.amenities.Some? then req.amenities.value else [];
        Ok(Hotel(id, user.id, req.name, OrNull(req.description), req.city, req.country, amenities, 0.0, 0), 201)
  }

  /** An owner posting the encoding of a well-formed request gets back a hotel
      carrying exactly that request's name, place, description and amenities. */
  lemma CreateEchoesRequest(user: Identity, req: HotelSchema.HotelRequest, id: string)
    requires user.role == Owner && HotelSchema.WellFormed(req)
    requires req.description != Some("")
    ensures var r := HotelOutcome(user, HotelSchema.ToJson(req), id);
      && r.Ok?
      && r.data.name == req.name && r.data.city == req.city && r.data.country == req.country
      && r.data.description == req.description
      && (req.amenities.Some? ==> r.data.amenities == req.amenities.value)
  {
    HotelSchema.ParseToJson(req);
  }

  /** A new hotel with no reviews is summarised by its starting pair, so every
      hotel's pair still summarises its reviews. */
  lemma NewHotelKeepsRatings(hotels: seq<Hotel>, reviews: seq<Review>, h: Hotel)
    requires RatingsConsistent(hotels, reviews)
    requires h.rating == 0.0 && h.totalReviews == 0
    requires forall i :: 0 <= i < |reviews| ==> reviews[i].hotelId != h.id
    ensures RatingsConsistent(hotels + [h], reviews)
  {
    NoScoresWithoutReviews(reviews, h.id);
    var hs := hotels + [h];
    forall i | 0 <= i < |hs| ensures Summarises(hs[i], ScoresOf(reviews, hs[i].id)) {
      if i < |hotels| {
        assert hs[i] == hotels[i];
      }
    }
  }

  lemma {:induction false} NoScoresWithoutReviews(reviews: seq<Review>, hotelId: string)
    requires forall i :: 0 <= i < |reviews| ==> reviews[i].hotelId != hotelId
    ensures ScoresOf(reviews, hotelId) == []
  {
    if reviews != [] {
      NoScoresWithoutReviews(reviews[..|reviews| - 1], hotelId);
    }
  }

  /** `createHotel`: a rejection changes nothing; success appends the decided row. */
  method CreateHotel(db: Db, user: Identity, body: Json, uuid: string) returns (resp: Response<Hotel>)
    requires db.Valid()
    requires Find(db.hotels, HotelId, "hotel_" + uuid).None?
    requires forall i :: 0 <= i < |db.reviews| ==> db.reviews[i].hotelId != "hotel_" + uuid
    modifies db`hotels
    ensures db.Valid()
    ensures resp == HotelOutcome(user, body, "hotel_" + uuid)
    ensures db.hotels == if resp.Ok? then old(db.hotels) + [resp.data] else old(db.hotels)
  {
    resp := HotelOutcome(user, body, "hotel_" + uuid);
    if resp.Ok? {
      DistinctAppend(db.hotels, HotelId, resp.data);
      NewHotelKeepsRatings(db.hotels, db.reviews, resp.data);
      db.hotels := db.hotels + [resp.data];
    }
  }

  // ---- getHotels: the query string and the WHERE clause ----

  /** The query-string parameters; each is absent or the text the client sent. */
  datatype HotelQuery = HotelQuery(
    city: Option<string>, country: Option<string>,
    minPrice: Option<string>, maxPrice: Option<string>, minRating: Option<string>)

  /** A parameter takes part in the filter when it is present and not empty. */
  predicate Truthy(p: Option<string>) {
    p.Some? && p.value != ""
  }

  datatype Kind = City | Country | MinRating | MinPrice | MaxPrice

  /** One pushed condition: what it compares and the `$k` placeholder it refers to. */
  datatype Cond = Cond(kind: Kind, k: nat)

  function Param(q: HotelQuery, kind: Kind): Option<string> {
    match kind
    case City => q.city
    case Country => q.country
    case MinRating => q.minRating
    case MinPrice => q.minPrice
    case MaxPrice => q.maxPrice
  }

  /** `kinds` with `kind` appended when its parameter is given. */
  function Push(kinds: seq<Kind>, q: HotelQuery, kind: Kind): seq<Kind> {
    if Truthy(Param(q, kind)) then kinds + [kind] else kinds
  }

  /** The kinds of condition the handler pushes, in the order it tests them. */
  function Requested(q: HotelQuery): seq<Kind> {
    Push(Push(Push(Push(Push([], q, City), q, Country), q, MinRating), q, MinPrice), q, MaxPrice)
  }

  /** A condition of a kind is pushed exactly when its parameter is given. */
  lemma RequestedMembers(q: HotelQuery)
    ensures forall kind :: kind in Requested(q) <==> Truthy(Param(q, kind))
  {
  }

  /** The arrays hold one entry per kind in `kinds`: the `i`-th condition is of
      the `i`-th kind and names placeholder `$(i+1)`, and the value in that slot
      is the parameter the condition is about. */
  predicate Lines(q: HotelQuery, kinds: seq<Kind>, conds: seq<Cond>, values: seq<string>) {
    && |conds| == |values| == |kinds|
    && forall i :: 0 <= i < |conds| ==>
         conds[i] == Cond(kinds[i], i + 1) && Param(q, kinds[i]) == Some(values[i])
  }

  /** The two arrays line up with the filters the query requests. */
  predicate Aligned(q: HotelQuery, conds: seq<Cond>, values: seq<string>) {
    Lines(q, Requested(q), conds, values)
  }

  /** Decimal digits of `n`, as a placeholder number is written into the SQL text. */
  function Digits(n: nat): (r: string)
    ensures r != [] && forall i :: 0 <= i < |r| ==> '0' <= r[i] <= '9'
  {
    if n < 10 then [(48 + n) as char]
    else Digits(n / 10) + [(48 + n % 10) as char]
  }

  /** The number a string of decimal digits denotes. */
  function DigitsValue(s: string): nat
    requires forall i :: 0 <= i < |s| ==> '0' <= s[i] <= '9'
  {
    if s == [] then 0
    else 10 * DigitsValue(s[..|s| - 1]) + (s[|s| - 1] as int - 48)
  }

  /** The placeholder text names the slot it was built from. */
  lemma {:induction false} DigitsRoundTrip(n: nat)
    ensures DigitsValue(Digits(n)) == n
  {
    if n >= 10 {
      DigitsRoundTrip(n / 10);
      var d := Digits(n);
      assert d[..|d| - 1] == Digits(n / 10);
    }
  }

  function Placeholder(k: nat): string {
    "$" + Digits(k)
  }

  function ConditionText(c: Cond): string {
    match c.kind
    case City => "LOWER(h.city) = LOWER(" + Placeholder(c.k) + ")"
    case Country => "LOWER(h.country) = LOWER(" + Placeholder(c.k) + ")"
    case MinRating => "h.rating >= " + Placeholder(c.k)
    case MinPrice => "r.price_per_night >= " + Placeholder(c.k)
    case MaxPrice => "r.price_per_night <= " + Placeholder(c.k)
  }

  function Texts(conds: seq<Cond>): (r: seq<string>)
    ensures |r| == |conds| && forall i :: 0 <= i < |conds| ==> r[i] == ConditionText(conds[i])
  {
    seq(|conds|, i requires 0 <= i < |conds| => ConditionText(conds[i]))
  }

  const SelectText: string :=
    "SELECT h.id, h.name, h.description, h.city, h.country, h.amenities, h.rating, h.total_reviews, "
    + "COALESCE(MIN(r.price_per_night), 0) AS min_price_per_night "
    + "FROM hotels h LEFT JOIN rooms r ON h.id = r.hotel_id"
  const GroupByText: string := " GROUP BY h.id"

  /** The statement text for a list of conditions: no WHERE clause without
      conditions, otherwise all of them joined by AND. */
  function QueryText(conds: seq<Cond>): string {
    SelectText + (if conds == [] then "" else " WHERE " + Join(Texts(conds), " AND ")) + GroupByText
  }

  /** The handler's assembly of the statement text around the conditions. */
  method BuildHotelQuery(q: HotelQuery) returns (query: string, conds: seq<Cond>, values: seq<string>)
    ensures Aligned(q, conds, values)
    ensures query == QueryText(conds)
  {
    query := SelectText;
    conds, values := BuildConditions(q);
    if |conds| > 0 {
      query := query + " WHERE " + Join(Texts(conds), " AND ");
    }
    query := query + GroupByText;
  }

  /** The statement has a WHERE clause exactly when some filter parameter is given. */
  lemma WhereOnlyWhenFiltered(q: HotelQuery, conds: seq<Cond>, values: seq<string>)
    requires Aligned(q, conds, values)
    ensures conds == [] <==> forall kind :: !Truthy(Param(q, kind))
  {
    RequestedMembers(q);
    if conds != [] {
      assert Requested(q)[0] in Requested(q);
    }
  }

  /** The pushes onto `values` and `conditions`, one optional filter after
      another in the handler's order. */
  method BuildConditions(q: HotelQuery) returns (conds: seq<Cond>, values: seq<string>)
    ensures Aligned(q, conds, values)
  {
    conds, values := [], [];
    conds, values := PushIfGiven(q, City, [], conds, values);
    conds, values := PushIfGiven(q, Country, Push([], q, City), conds, values);
    conds, values := PushIfGiven(q, MinRating, Push(Push([], q, City), q, Country), conds, values);
    conds, values := PushIfGiven(q, MinPrice, Push(Push(Push([], q, City), q, Country), q, MinRating), conds, values);
    conds, values := PushIfGiven(q, MaxPrice, Push(Push(Push(Push([], q, City), q, Country), q, MinRating), q, MinPrice),
                                 conds, values);
  }

  /** One `if (param) { values.push(param); conditions.push(... $n ...) }` block,
      where `n` is the new length of `values`. `kinds` lists the conditions
      already pushed. */
  method PushIfGiven(q: HotelQuery, kind: Kind, ghost kinds: seq<Kind>, conds: seq<Cond>, values: seq<string>)
    returns (conds': seq<Cond>, values': seq<string>)
    requires Lines(q, kinds, conds, values)
    ensures Lines(q, Push(kinds, q, kind), conds', values')
  {
    conds', values' := conds, values;
    var p := Param(q, kind);
    if p.Some? && p.value != "" {
      values' := values' + [p.value];
      conds' := conds' + [Cond(kind, |values'|)];
    }
  }

  // ---- getHotels: what the statement selects ----

  /** ASCII lower-casing, as `LOWER` does on the stored names. */
  function Lower(s: string): (r: string)
    ensures |r| == |s|
    ensures forall i :: 0 <= i < |s| ==> !('A' <= r[i] <= 'Z')
  {
    seq(|s|, i requires 0 <= i < |s| => if 'A' <= s[i] <= 'Z' then (s[i] as int + 32) as char else s[i])
  }

  /** One row of `hotels h LEFT JOIN rooms r`: the price is null when the hotel has no room. */
  datatype JoinedRow = JoinedRow(hotel: Hotel, price: Option<real>)

  /** The nightly prices of the rooms of `hotelId`, in table order. */
  function PricesOf(rooms: seq<Room>, hotelId: string): (r: seq<real>)
    ensures forall x :: x in r <==> exists i :: 0 <= i < |rooms| && rooms[i].hotelId == hotelId && rooms[i].pricePerNight == x
  {
    if rooms == [] then []
    else
      var last := rooms[|rooms| - 1];
      PricesOf(rooms[..|rooms| - 1], hotelId) + (if last.hotelId == hotelId then [last.pricePerNight] else [])
  }

  /** The joined rows of one hotel: one per room, or a single row with a null price. */
  function JoinOf(h: Hotel, rooms: seq<Room>): (r: seq<JoinedRow>)
    ensures r != []
    ensures forall row :: row in r ==> row.hotel == h
    ensures PricesOf(rooms, h.id) == [] ==> r == [JoinedRow(h, None)]
    ensures PricesOf(rooms, h.id) != [] ==> |r| == |PricesOf(rooms, h.id)|
    ensures PricesOf(rooms, h.id) != [] ==>
      forall i :: 0 <= i < |r| ==> r[i] == JoinedRow(h, Some(PricesOf(rooms, h.id)[i]))
  {
    var ps := PricesOf(rooms, h.id);
    if ps == [] then [JoinedRow(h, None)]
    else seq(|ps|, i requires 0 <= i < |ps| => JoinedRow(h, Some(ps[i])))
  }

  /** A hotel with rooms has one joined row per room price and no null row. */
  lemma JoinedPrices(h: Hotel, rooms: seq<Room>)
    requires PricesOf(rooms, h.id) != []
    ensures forall row :: row in JoinOf(h, rooms) <==>
      row.hotel == h && row.price.Some? && row.price.value in PricesOf(rooms, h.id)
  {
    var ps := PricesOf(rooms, h.id);
    var rows := JoinOf(h, rooms);
    forall row: JoinedRow | row.hotel == h && row.price.Some? && row.price.value in ps ensures row in rows {
      var i :| 0 <= i < |ps| && ps[i] == row.price.value;
      assert rows[i] == row;
    }
  }

  /** A condition on a row; its value is taken from the slot its placeholder
      names. A null price fails every price comparison, and a value that is not
      a number is reported by `Binds`. */
  predicate Holds(c: Cond, values: seq<string>, row: JoinedRow, toNumber: string -> Option<real>)
    requires 1 <= c.k <= |values|
  {
    Compare(c.kind, values[c.k - 1], row, toNumber)
  }

  /** A comparison of one kind against the bound value `v`. */
  predicate Compare(kind: Kind, v: string, row: JoinedRow, toNumber: string -> Option<real>) {
    match kind
    case City => Lower(row.hotel.city) == Lower(v)
    case Country => Lower(row.hotel.country) == Lower(v)
    case MinRating => toNumber(v).Some? && row.hotel.rating >= toNumber(v).value
    case MinPrice => row.price.Some? && toNumber(v).Some? && row.price.value >= toNumber(v).value
    case MaxPrice => row.price.Some? && toNumber(v).Some? && row.price.value <= toNumber(v).value
  }

  /** The WHERE clause: every condition holds. */
  predicate Passing(conds: seq<Cond>, values: seq<string>, row: JoinedRow, toNumber: string -> Option<real>) {
    forall i :: 0 <= i < |conds| ==> 1 <= conds[i].k <= |values| && Holds(conds[i], values, row, toNumber)
  }

  predicate Numeric(kind: Kind) {
    kind == MinRating || kind == MinPrice || kind == MaxPrice
  }

  /** Every value bound to a numeric comparison is a number; otherwise the statement fails. */
  predicate Binds(conds: seq<Cond>, values: seq<string>, toNumber: string -> Option<real>) {
    forall i :: 0 <= i < |conds| && Numeric(conds[i].kind) ==>
      1 <= conds[i].k <= |values| && toNumber(values[conds[i].k - 1]).Some?
  }

  function Filter(rows: seq<JoinedRow>, p: JoinedRow -> bool): (r: seq<JoinedRow>)
    ensures |r| <= |rows|
    ensures forall row :: row in r <==> row in rows && p(row)
  {
    if rows == [] then []
    else Filter(rows[..|rows| - 1], p) + (if p(rows[|rows| - 1]) then [rows[|rows| - 1]] else [])
  }

  /** The least element of a non-empty list. */
  function MinOf(s: seq<real>): (m: real)
    requires s != []
    ensures m in s && forall x :: x in s ==> m <= x
  {
    if |s| == 1 then s[0]
    else
      var rest := MinOf(s[..|s| - 1]);
      assert forall x :: x in s ==> x in s[..|s| - 1] || x == s[|s| - 1];
      if s[|s| - 1] < rest then s[|s| - 1] else rest
  }

  function PricesIn(rows: seq<JoinedRow>): (r: seq<real>)
    ensures forall x :: x in r <==> exists row :: row in rows && row.price == Some(x)
  {
    if rows == [] then []
    else PricesIn(rows[..|rows| - 1]) + (if rows[|rows| - 1].price.Some? then [rows[|rows| - 1].price.value] else [])
  }

  /** `COALESCE(MIN(r.price_per_night), 0)` over a hotel's surviving rows: MIN
      skips nulls, and a group without any price gives 0. */
  function CheapestPrice(rows: seq<JoinedRow>): (r: real)
    ensures (forall row :: row in rows ==> row.price.None?) ==> r == 0.0
    ensures (exists row :: row in rows && row.price.Some?) ==>
      && (exists row :: row in rows && row.price == Some(r))
      && (forall row :: row in rows && row.price.Some? ==> r <= row.price.value)
  {
    var ps := PricesIn(rows);
    if ps == [] then 0.0 else MinOf(ps)
  }

  /** One element of the response array. */
  datatype Listing = Listing(
    id: string, name: string, description: Option<string>, city: string, country: string,
    amenities: seq<string>, rating: real, totalReviews: nat, minPricePerNight: real)

  function ToListing(h: Hotel, minPrice: real): Listing {
    Listing(h.id, h.name, h.description, h.city, h.country, h.amenities, h.rating, h.totalReviews, minPrice)
  }

  /** The group of one hotel: listed when at least one of its rows survives the filter. */
  function GroupOf(h: Hotel, rooms: seq<Room>, p: JoinedRow -> bool): seq<Listing> {
    var kept := Filter(JoinOf(h, rooms), p);
    if kept == [] then [] else [ToListing(h, CheapestPrice(kept))]
  }

  /** The lists `f(x)` of the elements of `xs`, one after another. */
  function Concat<T, U>(xs: seq<T>, f: T -> seq<U>): seq<U> {
    if xs == [] then [] else Concat(xs[..|xs| - 1], f) + f(xs[|xs| - 1])
  }

  /** An element of the concatenation comes from the list of some element. */
  lemma {:induction false} ConcatMembers<T, U>(xs: seq<T>, f: T -> seq<U>)
    ensures forall u :: u in Concat(xs, f) <==> exists i :: 0 <= i < |xs| && u in f(xs[i])
  {
    if xs != [] {
      var init := xs[..|xs| - 1];
      ConcatMembers(init, f);
      forall u ensures u in Concat(xs, f) <==> exists i :: 0 <= i < |xs| && u in f(xs[i]) {
        if u in Concat(init, f) {
          var i :| 0 <= i < |init| && u in f(init[i]);
          assert xs[i] == init[i];
        }
        if exists i :: 0 <= i < |xs| && u in f(xs[i]) {
          var i :| 0 <= i < |xs| && u in f(xs[i]);
          if i < |init| {
            assert xs[i] == init[i];
          }
        }
      }
    }
  }

  /** Lists that agree on every element give the same concatenation. */
  lemma {:induction false} ConcatAgrees<T, U>(xs: seq<T>, f: T -> seq<U>, g: T -> seq<U>)
    requires forall i :: 0 <= i < |xs| ==> f(xs[i]) == g(xs[i])
    ensures Concat(xs, f) == Concat(xs, g)
  {
    if xs != [] {
      ConcatAgrees(xs[..|xs| - 1], f, g);
      assert f(xs[|xs| - 1]) == g(xs[|xs| - 1]);
    }
  }

  /** `GROUP BY h.id` over the filtered join: the groups in table order. */
  function Group(hotels: seq<Hotel>, rooms: seq<Room>, p: JoinedRow -> bool): seq<Listing> {
    Concat(hotels, h => GroupOf(h, rooms, p))
  }

  /** A listing is the group of a hotel with a surviving row, and every such
      hotel is listed. */
  lemma GroupMembers(hotels: seq<Hotel>, rooms: seq<Room>, p: JoinedRow -> bool)
    ensures forall l :: l in Group(hotels, rooms, p) <==>
      exists i :: 0 <= i < |hotels| && GroupOf(hotels[i], rooms, p) == [l]
  {
    ConcatMembers(hotels, h => GroupOf(h, rooms, p));
  }

  /** The statement on the tables: a value that is not a number fails it, and
      the handler answers INVALID_REQUEST. */
  function RunListing(hotels: seq<Hotel>, rooms: seq<Room>, conds: seq<Cond>, values: seq<string>,
                      toNumber: string -> Option<real>): Response<seq<Listing>> {
    if !Binds(conds, values, toNumber) then Err(InvalidRequest, 400)
    else Ok(Group(hotels, rooms, row => Passing(conds, values, row, toNumber)), 200)
  }

  // ---- getHotels: the filter stated on the query itself ----

  predicate AtLeast(x: real, bound: Option<real>) {
    bound.Some? && x >= bound.value
  }

  predicate AtMost(x: real, bound: Option<real>) {
    bound.Some? && x <= bound.value
  }

  /** What a row must satisfy for the query: case-insensitive city and country,
      a minimum rating, and a room price inside the requested range. */
  predicate Wanted(q: HotelQuery, row: JoinedRow, toNumber: string -> Option<real>) {
    && (Truthy(q.city) ==> Lower(row.hotel.city) == Lower(q.city.value))
    && (Truthy(q.country) ==> Lower(row.hotel.country) == Lower(q.country.value))
    && (Truthy(q.minRating) ==> AtLeast(row.hotel.rating, toNumber(q.minRating.value)))
    && (Truthy(q.minPrice) ==> row.price.Some? && AtLeast(row.price.value, toNumber(q.minPrice.value)))
    && (Truthy(q.maxPrice) ==> row.price.Some? && AtMost(row.price.value, toNumber(q.maxPrice.value)))
  }

  predicate NumbersParse(q: HotelQuery, toNumber: string -> Option<real>) {
    && (Truthy(q.minRating) ==> toNumber(q.minRating.value).Some?)
    && (Truthy(q.minPrice) ==> toNumber(q.minPrice.value).Some?)
    && (Truthy(q.maxPrice) ==> toNumber(q.maxPrice.value).Some?)
  }

  /** The listing the query asks for. */
  function Catalogue(hotels: seq<Hotel>, rooms: seq<Room>, q: HotelQuery,
                     toNumber: string -> Option<real>): seq<Listing> {
    Group(hotels, rooms, row => Wanted(q, row, toNumber))
  }

  /** Whether a requested filter of one kind holds, stated on the query. */
  predicate KindHolds(q: HotelQuery, kind: Kind, row: JoinedRow, toNumber: string -> Option<real>)
    requires Truthy(Param(q, kind))
  {
    Compare(kind, Param(q, kind).value, row, toNumber)
  }

  lemma WantedByKind(q: HotelQuery, row: JoinedRow, toNumber: string -> Option<real>)
    ensures Wanted(q, row, toNumber) <==>
      forall kind :: Truthy(Param(q, kind)) ==> KindHolds(q, kind, row, toNumber)
  {
    if Wanted(q, row, toNumber) {
      forall kind | Truthy(Param(q, kind)) ensures KindHolds(q, kind, row, toNumber) {
      }
    } else {
      if !(Truthy(q.city) ==> Lower(row.hotel.city) == Lower(q.city.value)) {
        assert !KindHolds(q, City, row, toNumber);
      } else if !(Truthy(q.country) ==> Lower(row.hotel.country) == Lower(q.country.value)) {
        assert !KindHolds(q, Country, row, toNumber);
      } else if !(Truthy(q.minRating) ==> AtLeast(row.hotel.rating, toNumber(q.minRating.value))) {
        assert !KindHolds(q, MinRating, row, toNumber);
      } else if !(Truthy(q.minPrice) ==> row.price.Some? && AtLeast(row.price.value, toNumber(q.minPrice.value))) {
        assert !KindHolds(q, MinPrice, row, toNumber);
      } else {
        assert !KindHolds(q, MaxPrice, row, toNumber);
      }
    }
  }

  /** The aligned WHERE clause selects exactly the rows the query asks for:
      each placeholder reads the parameter its condition is about. */
  lemma FilterMeaning(q: HotelQuery, conds: seq<Cond>, values: seq<string>, row: JoinedRow,
                      toNumber: string -> Option<real>)
    requires Aligned(q, conds, values)
    ensures Passing(conds, values, row, toNumber) <==> Wanted(q, row, toNumber)
  {
    PassingByKind(q, conds, values, row, toNumber);
    WantedByKind(q, row, toNumber);
  }

  lemma PassingByKind(q: HotelQuery, conds: seq<Cond>, values: seq<string>, row: JoinedRow,
                      toNumber: string -> Option<real>)
    requires Aligned(q, conds, values)
    ensures Passing(conds, values, row, toNumber) <==>
      forall kind :: Truthy(Param(q, kind)) ==> KindHolds(q, kind, row, toNumber)
  {
    if Passing(conds, values, row, toNumber) {
      forall kind | Truthy(Param(q, kind)) ensures KindHolds(q, kind, row, toNumber) {
        PassingSlot(q, conds, values, row, toNumber, kind);
      }
    } else {
      FailingSlot(q, conds, values, row, toNumber);
    }
  }

  /** A passing WHERE clause passes the comparison of every requested kind. */
  lemma PassingSlot(q: HotelQuery, conds: seq<Cond>, values: seq<string>, row: JoinedRow,
                    toNumber: string -> Option<real>, kind: Kind)
    requires Aligned(q, conds, values)
    requires Passing(conds, values, row, toNumber)
    requires Truthy(Param(q, kind))
    ensures KindHolds(q, kind, row, toNumber)
  {
    var i := SlotOf(q, conds, values, kind);
    assert Holds(conds[i], values, row, toNumber);
  }

  /** A failing WHERE clause has a requested kind whose comparison fails. */
  lemma FailingSlot(q: HotelQuery, conds: seq<Cond>, values: seq<string>, row: JoinedRow,
                    toNumber: string -> Option<real>)
    requires Aligned(q, conds, values)
    requires !Passing(conds, values, row, toNumber)
    ensures exists kind :: Truthy(Param(q, kind)) && !KindHolds(q, kind, row, toNumber)
  {
    var i :| 0 <= i < |conds| && !(1 <= conds[i].k <= |values| && Holds(conds[i], values, row, toNumber));
    AlignedAt(q, conds, values, i);
    assert !KindHolds(q, conds[i].kind, row, toNumber);
  }

  /** The statement fails on a bad number exactly when one of the numeric
      parameters does not parse. */
  lemma BindsMeaning(q: HotelQuery, conds: seq<Cond>, values: seq<string>, toNumber: string -> Option<real>)
    requires Aligned(q, conds, values)
    ensures Binds(conds, values, toNumber) <==> NumbersParse(q, toNumber)
  {
    BindsByKind(q, conds, values, toNumber);
    NumbersByKind(q, toNumber);
  }

  lemma BindsByKind(q: HotelQuery, conds: seq<Cond>, values: seq<string>, toNumber: string -> Option<real>)
    requires Aligned(q, conds, values)
    ensures Binds(conds, values, toNumber) <==>
      forall kind :: Numeric(kind) && Truthy(Param(q, kind)) ==> Parses(q, kind, toNumber)
  {
    if Binds(conds, values, toNumber) {
      forall kind | Numeric(kind) && Truthy(Param(q, kind)) ensures Parses(q, kind, toNumber) {
        var i := SlotOf(q, conds, values, kind);
      }
    } else {
      var i :| 0 <= i < |conds| && Numeric(conds[i].kind)
               && !(1 <= conds[i].k <= |values| && toNumber(values[conds[i].k - 1]).Some?);
      AlignedAt(q, conds, values, i);
    }
  }

  /** The slot of an aligned condition holds the parameter of its kind. */
  lemma AlignedAt(q: HotelQuery, conds: seq<Cond>, values: seq<string>, i: nat)
    requires Aligned(q, conds, values)
    requires i < |conds|
    ensures conds[i].k == i + 1 && i < |values| && Truthy(Param(q, conds[i].kind))
    ensures values[i] == Param(q, conds[i].kind).value
  {
    var req := Requested(q);
    RequestedMembers(q);
    assert conds[i] == Cond(req[i], i + 1);
    assert req[i] in req;
  }

  /** Every requested kind has its condition in some slot. */
  lemma SlotOf(q: HotelQuery, conds: seq<Cond>, values: seq<string>, kind: Kind) returns (i: nat)
    requires Aligned(q, conds, values)
    requires Truthy(Param(q, kind))
    ensures i < |conds| && conds[i] == Cond(kind, i + 1) && i < |values| && values[i] == Param(q, kind).value
  {
    var req := Requested(q);
    RequestedMembers(q);
    assert kind in req;
    i :| 0 <= i < |req| && req[i] == kind;
  }

  predicate Parses(q: HotelQuery, kind: Kind, toNumber: string -> Option<real>)
    requires Truthy(Param(q, kind))
  {
    toNumber(Param(q, kind).value).Some?
  }

  lemma NumbersByKind(q: HotelQuery, toNumber: string -> Option<real>)
    ensures NumbersParse(q, toNumber) <==>
      forall kind :: Numeric(kind) && Truthy(Param(q, kind)) ==> Parses(q, kind, toNumber)
  {
    if NumbersParse(q, toNumber) {
      forall kind | Numeric(kind) && Truthy(Param(q, kind)) ensures Parses(q, kind, toNumber) {
      }
    } else if !(Truthy(q.minRating) ==> toNumber(q.minRating.value).Some?) {
      assert !Parses(q, MinRating, toNumber);
    } else if !(Truthy(q.minPrice) ==> toNumber(q.minPrice.value).Some?) {
      assert !Parses(q, MinPrice, toNumber);
    } else {
      assert !Parses(q, MaxPrice, toNumber);
    }
  }

  /** Filters that agree on every joined row give the same listing. */
  lemma GroupAgrees(hotels: seq<Hotel>, rooms: seq<Room>, p: JoinedRow -> bool, p': JoinedRow -> bool)
    requires forall h, row :: h in hotels && row in JoinOf(h, rooms) ==> p(row) == p'(row)
    ensures Group(hotels, rooms, p) == Group(hotels, rooms, p')
  {
    forall i | 0 <= i < |hotels| ensures GroupOf(hotels[i], rooms, p) == GroupOf(hotels[i], rooms, p') {
      FilterAgrees(JoinOf(hotels[i], rooms), p, p');
    }
    ConcatAgrees(hotels, h => GroupOf(h, rooms, p), h => GroupOf(h, rooms, p'));
  }

  lemma {:induction false} FilterAgrees(rows: seq<JoinedRow>, p: JoinedRow -> bool, p': JoinedRow -> bool)
    requires forall row :: row in rows ==> p(row) == p'(row)
    ensures Filter(rows, p) == Filter(rows, p')
  {
    if rows != [] {
      FilterAgrees(rows[..|rows| - 1], p, p');
    }
  }

  /** `getHotels` reads the tables and changes nothing. Its answer is the
      listing the query asks for, or INVALID_REQUEST when a numeric filter is
      not a number. */
  method GetHotels(db: Db, q: HotelQuery, toNumber: string -> Option<real>) returns (resp: Response<seq<Listing>>)
    ensures resp.Ok? <==> NumbersParse(q, toNumber)
    ensures resp.Ok? ==> resp == Ok(Catalogue(db.hotels, db.rooms, q, toNumber), 200)
    ensures resp.Err? ==> resp == Err(InvalidRequest, 400)
  {
    var query, conds, values := BuildHotelQuery(q);
    resp := RunListing(db.hotels, db.rooms, conds, values, toNumber);
    BindsMeaning(q, conds, values, toNumber);
    forall row ensures Passing(conds, values, row, toNumber) == Wanted(q, row, toNumber) {
      FilterMeaning(q, conds, values, row, toNumber);
    }
    GroupAgrees(db.hotels, db.rooms, row => Passing(conds, values, row, toNumber), row => Wanted(q, row, toNumber));
  }

  // ---- properties of the listing ----

  /** A hotel without rooms has only a null-priced row, so a price filter drops it. */
  lemma RoomlessHotelNotListed(h: Hotel, rooms: seq<Room>, q: HotelQuery, toNumber: string -> Option<real>)
    requires PricesOf(rooms, h.id) == []
    requires Truthy(q.minPrice) || Truthy(q.maxPrice)
    ensures GroupOf(h, rooms, row => Wanted(q, row, toNumber)) == []
  {
  }

  /** Without filters every hotel is listed, at the cheapest of its rooms' prices
      or 0 when it has none. */
  lemma UnfilteredListsEveryHotel(h: Hotel, rooms: seq<Room>, q: HotelQuery, toNumber: string -> Option<real>)
    requires !Truthy(q.city) && !Truthy(q.country) && !Truthy(q.minRating)
    requires !Truthy(q.minPrice) && !Truthy(q.maxPrice)
    ensures var g := GroupOf(h, rooms, row => Wanted(q, row, toNumber));
      && |g| == 1 && g[0] == ToListing(h, g[0].minPricePerNight)
      && (PricesOf(rooms, h.id) == [] ==> g[0].minPricePerNight == 0.0)
      && (PricesOf(rooms, h.id) != [] ==>
            && g[0].minPricePerNight in PricesOf(rooms, h.id)
            && forall x :: x in PricesOf(rooms, h.id) ==> g[0].minPricePerNight <= x)
  {
    KeepAllGroup(h, rooms, row => Wanted(q, row, toNumber));
  }

  /** A filter that keeps every row lists the hotel at its cheapest room. */
  lemma KeepAllGroup(h: Hotel, rooms: seq<Room>, p: JoinedRow -> bool)
    requires forall row :: p(row)
    ensures var g := GroupOf(h, rooms, p);
      && |g| == 1 && g[0] == ToListing(h, g[0].minPricePerNight)
      && (PricesOf(rooms, h.id) == [] ==> g[0].minPricePerNight == 0.0)
      && (PricesOf(rooms, h.id) != [] ==>
            && g[0].minPricePerNight in PricesOf(rooms, h.id)
            && forall x :: x in PricesOf(rooms, h.id) ==> g[0].minPricePerNight <= x)
  {
    var rows := JoinOf(h, rooms);
    FilterAgrees(rows, p, _ => true);
    FilterAll(rows);
    var m := CheapestPrice(rows);
    assert GroupOf(h, rooms, p) == [ToListing(h, m)];
    if PricesOf(rooms, h.id) != [] {
      CheapestOfJoin(h, rooms);
    }
  }

  /** Over a hotel with rooms, `MIN(r.price_per_night)` is the cheapest room price. */
  lemma CheapestOfJoin(h: Hotel, rooms: seq<Room>)
    requires PricesOf(rooms, h.id) != []
    ensures CheapestPrice(JoinOf(h, rooms)) in PricesOf(rooms, h.id)
    ensures forall x :: x in PricesOf(rooms, h.id) ==> CheapestPrice(JoinOf(h, rooms)) <= x
  {
    var ps := PricesOf(rooms, h.id);
    var rows := JoinOf(h, rooms);
    var m := CheapestPrice(rows);
    JoinedPrices(h, rooms);
    assert rows[0] in rows && rows[0].price.Some?;
    var row :| row in rows && row.price == Some(m);
    forall x | x in ps ensures m <= x {
      assert JoinedRow(h, Some(x)) in rows;
    }
  }

  lemma {:induction false} FilterAll(rows: seq<JoinedRow>)
    ensures Filter(rows, _ => true) == rows
  {
    if rows != [] {
      FilterAll(rows[..|rows| - 1]);
      assert rows[..|rows| - 1] + [rows[|rows| - 1]] == rows;
    }
  }
}
