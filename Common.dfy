/** Types shared by every handler: the response envelope, the closed set of
    error codes, caller identities and JavaScript's `x || null` defaulting. */
module Common {

  datatype Option<T> = None | Some(value: T)

  /** The two account roles; `role` in a token is always one of these. */
  datatype Role = Customer | Owner

  /** The `{id, role}` pair that the authentication middleware attaches as `req.user`. */
  datatype Identity = Identity(id: string, role: Role)

  /** The error codes that handlers place in the envelope's `error` field. */
  datatype ErrorCode =
    | InvalidRequest
    | InvalidDates
    | InvalidCapacity
    | RoomNotAvailable
    | EmailAlreadyExists
    | AlreadyCancelled
    | CancellationDeadlinePassed
    | BookingNotEligible
    | AlreadyReviewed
    | RoomAlreadyExists
    | Unauthorized
    | InvalidCredentials
    | Forbidden
    | HotelNotFound
    | RoomNotFound
    | BookingNotFound

  /** The `{success, data, error}` envelope together with the HTTP status it is sent with. */
  datatype Response<T> = Ok(data: T, status: nat) | Err(code: ErrorCode, status: nat)

  /** `s || null` for an optional string: absent and empty both become null. */
  function OrNull(s: Option<string>): Option<string> {
    if s.Some? && s.value != "" then s else None
  }

  /** `Array.prototype.join`: the parts with `sep` between neighbours. */
  function Join(parts: seq<string>, sep: string): string {
    if parts == [] then ""
    else if |parts| == 1 then parts[0]
    else parts[0] + sep + Join(parts[1..], sep)
  }
}
