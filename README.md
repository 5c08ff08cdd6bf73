# Hotel booking backend — a Dafny model of its handlers

This project models the request handlers of a small hotel-booking REST
backend (Express + PostgreSQL) and the request validators they call:

- **bookings**: create a booking for a room, list the caller's bookings,
  cancel a booking at least 24 hours before check-in;
- **reviews**: review a past stay, folding the score into the hotel's
  running `(rating, total_reviews)` pair;
- **catalogue**: create hotels and rooms (owners only), and list hotels
  filtered by city, country, minimum rating and a price range;
- **identity**: sign-up, log-in, and the bearer-token middleware;
- **validators**: the five zod request schemas.

The database is one object, `Store.Db`, holding one sequence of rows per
table. Each handler is a module-level method that takes the store
`db: Db` as a parameter. A handler answers with a
`Response` (`Ok(data, status)` or `Err(code, status)`) and changes only
the table its SQL statements write.

`Store.Db.Valid` is the invariant that every state-changing handler
preserves. It states:

- ids are unique in every table;
- e-mails are unique;
- every room has a positive price;
- no two confirmed bookings of one room overlap;
- each booking reviewed at most once;
- every hotel's `rating` is the mean of its reviews' scores, and
  `total_reviews` is their count.

Each handler's decision is a pure function of the tables it reads, for
example `Bookings.CreateOutcome`. The method applies that decision, and
the lemmas state what the handler promises in terms of it.

Foreign calls are parameters:

- `new Date(s)` is `dateOf`;
- bcrypt is `hash` and `matches`;
- `jwt.sign` and `jwt.verify` are `sign` and `verify`;
- the e-mail check is `isEmail`;
- Postgres's text-to-number cast is `toNumber`;
- a unique-key failure of the room insert is `duplicateKey`.

The clock values `today` (local midnight) and `now`, and the uuid behind
each new id, are arguments too. Timestamps are integers in milliseconds.

## Model

| member | source | states |
|---|---|---|
| Bookings.CreateOutcome | src/controllers/booking.controller.js:7-109 | first failure wins: FORBIDDEN/403 for a non-customer, INVALID_REQUEST for a bad body, INVALID_DATES when check-in is not after today's midnight, INVALID_REQUEST when check-out is not after check-in, then ROOM_NOT_FOUND/404, FORBIDDEN for the hotel's owner, INVALID_CAPACITY when guests exceed capacity; ROOM_NOT_AVAILABLE iff a confirmed booking of the room overlaps the half-open stay; success iff all checks pass, with the caller, the room's hotel, the dates, guests, nights × price and status confirmed |
| Bookings.CreateBooking | src/controllers/booking.controller.js:82-96 | answers `CreateOutcome` on the tables before the call, appends exactly that row on success, leaves bookings unchanged on every rejection, and keeps the store invariant |
| Bookings.CreatedBookingFits | src/controllers/booking.controller.js:63-96 | the inserted row is well formed and leaves the confirmed bookings of every room pairwise non-overlapping |
| Bookings.AppendKeepsNoDoubleBooking | src/controllers/booking.controller.js:63-73 | a booking that conflicts with no confirmed booking of its room keeps the calendar free of clashes |
| Bookings.OnlyConfirmedSameRoomBlocks | src/controllers/booking.controller.js:64-67 | cancelled bookings and bookings of other rooms never change whether a stay conflicts |
| Bookings.RequestChecksUseNoTable | src/controllers/booking.controller.js:10-35 | a request rejected by the role, body or date checks is rejected identically whatever the tables hold |
| Bookings.NightsPositive | src/controllers/booking.controller.js:33-77 | nights are positive once check-out follows check-in, and whole when the stay is whole days |
| Bookings.TotalPriceOfStay | src/controllers/booking.controller.js:76-77 | a stay of n days at a positive rate costs n × rate, a positive amount |
| Bookings.NullCapacityRejectsAll | src/controllers/booking.controller.js:58-60 | a room with a null capacity refuses with INVALID_CAPACITY every request that reaches the capacity check |
| Bookings.CancelOutcome | src/controllers/booking.controller.js:177-227 | FORBIDDEN for a non-customer, BOOKING_NOT_FOUND/404, FORBIDDEN for another user's booking, ALREADY_CANCELLED, CANCELLATION_DEADLINE_PASSED when fewer than 24 hours remain; success iff the caller's confirmed booking is at least a day ahead |
| Bookings.DeadlineInMilliseconds | src/controllers/booking.controller.js:208-213 | "fewer than 24 hours" is exactly "fewer than 86 400 000 ms", so a booking exactly 24 hours ahead may be cancelled |
| Bookings.CancelBooking | src/controllers/booking.controller.js:215-221 | on success only the named booking changes, to cancelled at `now`; otherwise nothing changes; the invariant is kept |
| Bookings.CancelKeepsConsistent | src/controllers/booking.controller.js:215-221 | cancelling never creates a clash between confirmed bookings |
| Bookings.CancelKeepsIds | src/controllers/booking.controller.js:215-221 | cancelling keeps booking ids unique |
| Bookings.SecondCancelFails | src/controllers/booking.controller.js:200-202 | after a successful cancel, cancelling again fails for everyone, with ALREADY_CANCELLED for the owner |
| Bookings.ListBookings | src/controllers/booking.controller.js:117-169 | FORBIDDEN for a non-customer; otherwise 200 with only the caller's bookings |
| Bookings.Views | src/controllers/booking.controller.js:125-167 | a row is listed iff its booking is the caller's, has the requested status when one is given, and joins with its hotel and room |
| Bookings.GetBookings | src/controllers/booking.controller.js:117-169 | reads the tables and answers `ListBookings` |
| Bookings.FindRoomWithOwner | src/controllers/booking.controller.js:38-50 | the room row with that id joined with its hotel's owner, absent when either row is |
| Bookings.CapacityExceeded | src/controllers/booking.controller.js:58 | `guests > max_occupancy` with a null capacity comparing as 0, so a null capacity exceeds every positive party |
| Bookings.HasConflict | src/controllers/booking.controller.js:63-73 | some confirmed booking of the same room overlaps the half-open stay [checkIn, checkOut) |
| Bookings.Nights | src/controllers/booking.controller.js:76 | the stay length in milliseconds divided by one day, as a real (not rounded) |
| Bookings.DeadlinePassed | src/controllers/booking.controller.js:208-211 | fewer than 24 hours, as a real quotient of milliseconds, remain from `now` to check-in |
| Bookings.CancelRows | src/controllers/booking.controller.js:215-221 | same length; the rows with the given id become cancelled at `now`, every other row is unchanged |
| Bookings.Selected | src/controllers/booking.controller.js:142-148 | a booking is selected iff it is the caller's and, when a non-empty status is asked for, has that status |
| Bookings.Joined | src/controllers/booking.controller.js:125-141 | a booking with its hotel's name and its room's number and type, absent when either joined row is missing |
| Reviews.ReviewGate | src/controllers/review.controller.js:8-56 | FORBIDDEN, INVALID_REQUEST, BOOKING_NOT_FOUND/404, FORBIDDEN for another user's booking, BOOKING_NOT_ELIGIBLE for a non-confirmed booking or a check-out not strictly before today, ALREADY_REVIEWED; eligible iff all pass, with a rating in 1..5 |
| Reviews.NewReview | src/controllers/review.controller.js:60-72 | the review carries the booking's hotel, the booking id, the caller and the score; the comment is null when absent or empty |
| Reviews.RateHotel | src/controllers/review.controller.js:75-94 | only the reviewed hotel changes: total + 1 and the incremental mean; an unknown hotel changes nothing |
| Reviews.NewRating | src/controllers/review.controller.js:84-86 | `((rating × total) + score) / (total + 1)` on reals |
| Reviews.IncrementalMean | src/controllers/review.controller.js:82-86 | if the rating was the mean of n scores, the update makes it the mean of the n + 1 scores |
| Reviews.RatingStaysInRange | src/controllers/review.controller.js:84-86 | a score in 1..5 keeps a rating in [1, 5]; on a hotel with no reviews the rating becomes the score |
| Reviews.ReplayFromFreshIsMean | src/controllers/review.controller.js:82-86 | replaying any sequence of scores from (0, 0) gives their count and their mean |
| Reviews.SumOfPermutation | src/controllers/review.controller.js:82-86 | the sum, and so the mean, of the scores does not depend on the order the reviews arrived in |
| Reviews.ReviewKeepsRatings | src/controllers/review.controller.js:60-94 | after inserting a review and rating its hotel, every hotel still summarises its reviews |
| Reviews.ReviewKeepsConsistent | src/controllers/review.controller.js:49-94 | a review with a fresh id for an unreviewed booking keeps every store constraint |
| Reviews.CreateReview | src/controllers/review.controller.js:6-104 | a rejection changes nothing; success appends one review, rates its hotel and answers 201; the invariant is kept |
| Hotels.HotelOutcome | src/controllers/hotel.controller.js:9-56 | FORBIDDEN/403 for a non-owner, INVALID_REQUEST for a bad body, success iff owner and valid body; the row has the caller as owner, description null when absent or empty, amenities `[]` by default, rating 0 and no reviews |
| Hotels.CreateEchoesRequest | src/controllers/hotel.controller.js:25-56 | a created hotel reports back every member of a valid request |
| Hotels.NewHotelKeepsRatings | src/controllers/hotel.controller.js:30-43 | a new hotel with rating 0 and no reviews keeps every hotel summarising its reviews |
| Hotels.CreateHotel | src/controllers/hotel.controller.js:30-43 | answers `HotelOutcome`, appends exactly that row on success, and keeps the invariant |
| Hotels.RequestedMembers | src/controllers/hotel.controller.js:83-109 | a condition of a kind is pushed exactly when its query parameter is present and non-empty |
| Hotels.Truthy | src/controllers/hotel.controller.js:86-106 | the `if (param)` test: a query parameter takes part iff it is present and not the empty string |
| Hotels.PushIfGiven | src/controllers/hotel.controller.js:86-89 | one push step keeps the i-th condition naming placeholder `$(i+1)` over the i-th value |
| Hotels.BuildConditions | src/controllers/hotel.controller.js:83-109 | the conditions and values line up: equal length, one per given parameter in the handler's order, condition i naming `$(i+1)` |
| Hotels.BuildHotelQuery | src/controllers/hotel.controller.js:68-117 | the aligned arrays and the statement text over them |
| Hotels.QueryText | src/controllers/hotel.controller.js:68-117 | the SELECT over the LEFT JOIN, then ` WHERE ` and the conditions joined by ` AND ` only when there are conditions, then `GROUP BY h.id` |
| Hotels.WhereOnlyWhenFiltered | src/controllers/hotel.controller.js:111-113 | there is a WHERE clause exactly when some filter parameter is given |
| Hotels.DigitsRoundTrip | src/controllers/hotel.controller.js:88 | the number written into a placeholder reads back as the slot number |
| Hotels.AlignedAt | src/controllers/hotel.controller.js:83-109 | condition i names `$(i+1)`, and value i is the parameter of that condition's kind |
| Hotels.Lower | src/controllers/hotel.controller.js:86-94 | ASCII lower-casing: same length, no upper-case ASCII letter left |
| Hotels.JoinOf | src/controllers/hotel.controller.js:80 | a hotel joins one row per room price, or one row with a null price when it has no rooms |
| Hotels.CheapestPrice | src/controllers/hotel.controller.js:78 | the least non-null price of the group, or 0 when there is none |
| Hotels.CheapestOfJoin | src/controllers/hotel.controller.js:78-80 | a hotel's reported minimum is one of its rooms' prices and no higher than any of them |
| Hotels.Compare | src/controllers/hotel.controller.js:86-109 | one condition: city and country equal case-insensitively; rating at least, price at least or at most the bound, a null price never passing |
| Hotels.Passing | src/controllers/hotel.controller.js:111-113 | the AND of the pushed conditions, each over the value in its placeholder slot |
| Hotels.Binds | src/controllers/hotel.controller.js:96-109 | every value bound to a numeric comparison converts to a number |
| Hotels.Filter | src/controllers/hotel.controller.js:111-113 | the rows satisfying the predicate, in order: a row is kept iff it is in the input and satisfies it |
| Hotels.MinOf | src/controllers/hotel.controller.js:78 | the least element of a non-empty list: a member no greater than any member |
| Hotels.RunListing | src/controllers/hotel.controller.js:111-134 | INVALID_REQUEST/400 when a numeric value does not bind; otherwise 200 with the groups of the passing rows |
| Hotels.Wanted | src/controllers/hotel.controller.js:83-109 | the filter stated on the query: each given parameter's comparison holds for the row |
| Hotels.Catalogue | src/controllers/hotel.controller.js:64-139 | the hotels grouped from the rows `Wanted` accepts, the reference the handler is proved against |
| Hotels.ToListing | src/controllers/hotel.controller.js:121-131 | one response element: the hotel's id, name, description, city, country, amenities, rating and review count, with the group's minimum price |
| Hotels.GroupOf | src/controllers/hotel.controller.js:115-117 | one hotel's group: a single listing with the cheapest surviving price when some joined row of it passes, none otherwise |
| Hotels.Group | src/controllers/hotel.controller.js:115-117 | `GROUP BY h.id`: the groups of the hotels, one after another in table order |
| Hotels.FilterMeaning | src/controllers/hotel.controller.js:83-113 | a joined row satisfies the AND of the pushed conditions iff it has the wanted city and country (case-insensitively), a rating of at least minRating, and a price within the bounds |
| Hotels.PassingByKind | src/controllers/hotel.controller.js:83-113 | a row passes iff the comparison of every given parameter holds for it |
| Hotels.BindsMeaning | src/controllers/hotel.controller.js:83-109 | the numeric placeholders all bind iff every given numeric parameter parses as a number |
| Hotels.GroupMembers | src/controllers/hotel.controller.js:115-117 | a listing appears iff one hotel's surviving rows group into it |
| Hotels.GetHotels | src/controllers/hotel.controller.js:64-139 | answers 200 with the catalogue of hotels having some row that meets every given filter, iff every numeric parameter parses; INVALID_REQUEST otherwise |
| Hotels.RoomlessHotelNotListed | src/controllers/hotel.controller.js:101-109 | a hotel without rooms is never listed once a price filter is given |
| Hotels.UnfilteredListsEveryHotel | src/controllers/hotel.controller.js:78-81 | with no filters a hotel yields exactly one listing, with minimum price 0 without rooms and otherwise its cheapest room |
| Rooms.RoomOutcome | src/controllers/room.controller.js:11-101 | FORBIDDEN/403 for a non-owner before validation, INVALID_REQUEST, HOTEL_NOT_FOUND/404, FORBIDDEN for another owner's hotel, ROOM_ALREADY_EXISTS/400 on a unique violation; success iff all pass, with the path's hotel, a positive price, amenities `[]` by default, and null room number, type and capacity |
| Rooms.UndeclaredMembersIgnored | src/controllers/room.controller.js:23-29 | sending `roomNumber`, `roomType` or `maxOccupancy` changes nothing |
| Rooms.CreateRoom | src/controllers/room.controller.js:46-63 | answers `RoomOutcome`, appends exactly that row on success, and keeps the invariant |
| Rooms.AmenitiesOrEmpty | src/controllers/room.controller.js:61 | `amenities \|\| []`: the given list, or the empty list when absent |
| Rooms.CreatedRoomRefusesBookings | src/controllers/room.controller.js:23-29 | a room created through this handler refuses with INVALID_CAPACITY every booking request that reaches the capacity check |
| Auth.SignupOutcome | src/controllers/auth.controller.js:10-45 | INVALID_REQUEST for a bad body; EMAIL_ALREADY_EXISTS/400 iff the e-mail is taken; success iff free, storing the hash of the password, role customer by default and a null phone when absent or empty |
| Auth.Signup | src/controllers/auth.controller.js:21-45 | a rejection changes nothing; success appends exactly the decided row, answers its account without the hash, and keeps e-mails unique |
| Auth.AccountOf | src/controllers/auth.controller.js:39-45 | the signup response: the stored row's id, name, e-mail, role and phone, without the password hash |
| Auth.SecondSignupRefused | src/controllers/auth.controller.js:21-28 | once an e-mail signed up, signing up again with it gets EMAIL_ALREADY_EXISTS |
| Auth.LoginOutcome | src/controllers/auth.controller.js:53-100 | INVALID_REQUEST for a bad body; INVALID_CREDENTIALS/401 for an unknown e-mail and for a wrong password; success iff the password matches, with a token signed over exactly the user's id and role |
| Auth.Login | src/controllers/auth.controller.js:53-100 | reads the users and answers `LoginOutcome` |
| Auth.LoginFailureIsUniform | src/controllers/auth.controller.js:69-79 | every well-formed login that fails gets the same INVALID_CREDENTIALS/401 |
| Auth.SignupThenLogin | src/controllers/auth.controller.js:30-89 | logging in with the e-mail and password just signed up succeeds and carries the new user's id and role |
| Middleware.Split | src/middleware/auth.middleware.js:16 | `split(' ')` gives at least one piece, none holding a space |
| Middleware.StartsWith | src/middleware/auth.middleware.js:11 | `startsWith`: the prefix is no longer than the header and equals its first characters |
| Middleware.SplitJoin | src/middleware/auth.middleware.js:16 | joining the pieces with the separator gives back the header |
| Middleware.TokenOf | src/middleware/auth.middleware.js:16 | the token is the text after "Bearer " up to the next space or the end |
| Middleware.BearerRoundTrip | src/middleware/auth.middleware.js:11-16 | a space-free token sent as "Bearer <token>" is read back exactly |
| Middleware.Authenticate | src/middleware/auth.middleware.js:6-25 | no identity for a missing header or one without the "Bearer " prefix; an identity iff the token verifies, and then it holds the decoded id and role |
| Middleware.AuthMiddleware | src/middleware/auth.middleware.js:4-34 | calls next iff the header authenticates, after setting `req.user` to the decoded id and role; otherwise UNAUTHORIZED/401 with `req.user` untouched |
| Middleware.SignedTokenAuthenticates | src/middleware/auth.middleware.js:11-25 | a token signed for an identity authenticates as that identity when verification returns what was signed |
| BookingSchema.Parse | src/schemas/booking.schema.js:3-8 | accepts iff the four members are present, the ids and dates strings, and guests an integer of at least 1; keeps only those members |
| BookingSchema.ParseToJson | src/schemas/booking.schema.js:3-8 | every valid request survives encoding and parsing |
| BookingSchema.ParseIgnoresUndeclared | src/schemas/booking.schema.js:3-8 | undeclared members do not affect the parse |
| ReviewSchema.Parse | src/schemas/review.schema.js:3-7 | accepts iff bookingId is a string, rating an integer in 1..5, and comment absent or a string |
| ReviewSchema.ParseToJson | src/schemas/review.schema.js:3-7 | every valid request survives encoding and parsing |
| ReviewSchema.ParseIgnoresUndeclared | src/schemas/review.schema.js:3-7 | undeclared members do not affect the parse |
| RoomSchema.Parse | src/schemas/room.schema.js:3-14 | accepts iff name and type are non-empty, price and size positive, maxAdults ≥ 1, maxChildren ≥ 0, totalRooms ≥ 1, the rest optional of the right type; agrees with the body on each declared member; maxChildren defaults to 0 |
| RoomSchema.ParseToJson | src/schemas/room.schema.js:3-14 | every valid request survives encoding and parsing |
| RoomSchema.ParseIgnoresUndeclared | src/schemas/room.schema.js:3-14 | undeclared members, among them `roomNumber`, `roomType` and `maxOccupancy`, do not affect the parse |
| HotelSchema.Parse | src/schemas/hotel.schema.js:3-9 | accepts iff name, city and country are non-empty strings, description is absent or a string, and amenities absent or an array of strings; keeps only those members |
| HotelSchema.ParseToJson | src/schemas/hotel.schema.js:3-9 | every valid request survives encoding and parsing |
| HotelSchema.ParseIgnoresUndeclared | src/schemas/hotel.schema.js:3-9 | `address`, `starRating`, `image` and every other undeclared member do not affect the parse |
| Json.StringsRoundTrip | src/schemas/hotel.schema.js:8 | an array of strings read back from its JSON is the same list |
| Tables.Find | src/controllers/booking.controller.js:46-50 | the index of the first row with that key, absent iff no row has it |
| Tables.NoDoubleBooking | src/controllers/booking.controller.js:63-73 | no two confirmed bookings of one room overlap |
| Tables.RatingsConsistent | src/controllers/review.controller.js:82-94 | each hotel's count is its number of reviews and its rating × count their score sum |
| Tables.Consistent | src/controllers/booking.controller.js:63-96 | unique ids and e-mails, priced rooms, well-formed non-clashing bookings, one review per booking, consistent ratings |
| Store.Db.Valid | src/controllers/booking.controller.js:63-96 | the stored tables are `Consistent` |
| Common.OrNull | src/controllers/auth.controller.js:36 | `x \|\| null`: an absent or empty string becomes null, any other stays |
| Common.Join | src/controllers/hotel.controller.js:112 | `conditions.join(' AND ')`: the parts in order with the separator between neighbours, empty for no parts |
| AuthSchema.RoleFromName | src/schemas/auth.schema.js:7 | exactly "customer" and "owner" are roles, and each names its role |
| AuthSchema.ParseSignup | src/schemas/auth.schema.js:3-10 | accepts iff name is non-empty, the e-mail passes the check, the password has at least 6 characters, role is absent or a role name, and phone absent or a string |
| AuthSchema.ParseSignupJson | src/schemas/auth.schema.js:3-10 | every valid signup request survives encoding and parsing |
| AuthSchema.ParseLogin | src/schemas/auth.schema.js:12-15 | accepts iff the e-mail passes the check and the password is non-empty |
| AuthSchema.ParseLoginJson | src/schemas/auth.schema.js:12-15 | every valid login request survives encoding and parsing |

## Left out

- HTTP wiring: the routes, the app setup and the `{success, data, error}` envelope builder. A response is `Ok(data, status)` or `Err(code, status)`. Where the source sends an object such as `{message: 'INVALID_REQUEST', details}`, only the code is kept.
- Every `catch` that turns a thrown database or library error into INVALID_REQUEST/400 (or DATABASE_ERROR/500 for rooms). Foreign code that throws is not modelled. The one exception is a review whose hotel row is missing; it answers INVALID_REQUEST with the review kept.
- SQL as such: each statement is an operation on the sequences. Its WHERE clause is a predicate, and row order is table order. The listing query's text is built as the handler builds it, with its whitespace normalised, and then given a meaning directly.
- Postgres `LOWER`: it is ASCII lower-casing; locale rules are not modelled.
- Postgres's implicit casts of query-string text to numbers: these are the parameter `toNumber`. A failed cast is the error answer.
- Lookups of the first row with a key: they assume ids and e-mails are unique, which the invariant guarantees.
- Date parsing, local midnight and time zones: these are the parameters `dateOf` and `today`. Dates are integers in milliseconds. Unparseable dates (NaN comparisons) are not modelled.
- Floating point: ratings and prices are `real`, and `parseFloat` of a numeric column is the identity.
- bcrypt and jsonwebtoken: these are the parameters `hash`, `matches`, `sign` and `verify`. The 7-day expiry and the secret are inside `verify`.
- uuid generation: a uuid is an argument, required to give an id not yet in its table. `Hotels.CreateHotel` also requires that no review names the new hotel id; this holds in every reachable state because hotels are never deleted.
- Database defaults for booking status and hotel ratings: the booking insert writes no `status` and the hotel insert writes no `rating` or `total_reviews`. The model stores `Confirmed` and (0, 0), the defaults the handlers' later reads assume; `NoDoubleBooking` and `RatingsConsistent` rely on those defaults.
- AuthSchema.ParseSignup: zod's `min(6)` counts UTF-16 code units, while the model counts characters of `seq<char>`; a password of three astral characters (such as three emoji) passes zod but not the model.
- Room type column: `createRoom` writes column `type` and `getBookings` reads `r.room_type`; the model merges both into the one field `Room.roomType`. A schema in which they are distinct columns is not modelled: there `r.room_type` may fail or read a different value, whereas in the model a listing shows the stored type, which is null for every room this handler creates.
- The room insert's fallback chain: after an error mentioning a column it retries with fewer columns, and any other error gives DATABASE_ERROR/500. The insert either succeeds or fails with a unique violation (`duplicateKey`).
- Database defaults for room columns: the stored room has a null number, type and capacity, because the handler reads members the schema does not declare. Any database default for those columns is not modelled.
- `req.query` values that are arrays (a repeated parameter): each parameter is absent or one string.
- Concurrency: the check-then-insert of bookings, the read-modify-write of ratings and the duplicate-review check are claimed correct only when handlers run one at a time.
- Console logging and an unused `require` of the app module.
- `bookingDate`, `createdAt` and `cancelledAt`: these are the `now` argument, not an ISO string.
