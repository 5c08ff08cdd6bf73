/** The request body accepted by booking creation: four required members,
    the dates as strings of any format and `guests` a positive integer. */
module BookingSchema {
  import opened Common
  import opened Json

  datatype BookingRequest = BookingRequest(roomId: string, checkInDate: string, checkOutDate: string, guests: int)

  const Keys: set<string> := {"roomId", "checkInDate", "checkOutDate", "guests"}

  /** The field constraints of the schema, member by member. */
  predicate Conforms(body: Json) {
    && body.JObj?
    && IsString(body.fields, "roomId", 0)
    && IsString(body.fields, "checkInDate", 0)
    && IsString(body.fields, "checkOutDate", 0)
    && IsIntIn(body.fields, "guests", 1, None)
  }

  /** What a parsed request may hold. */
  predicate WellFormed(req: BookingRequest) {
    req.guests >= 1
  }

  function ToJson(req: BookingRequest): Json {
    JObj(map["roomId" := JStr(req.roomId), "checkInDate" := JStr(req.checkInDate),
             "checkOutDate" := JStr(req.checkOutDate), "guests" := JNum(req.guests as real)])
  }

  /** `createBookingSchema.safeParse(body)`: the request when the body conforms,
      keeping only the declared members. */
  function Parse(body: Json): (r: Option<BookingRequest>)
    ensures r.Some? <==> Conforms(body)
    ensures r.Some? ==> WellFormed(r.value) && Restrict(body.fields, Keys) == ToJson(r.value).fields
  {
    if !Conforms(body) then None
    else
      var f := body.fields;
      var req := BookingRequest(f["roomId"].s, f["checkInDate"].s, f["checkOutDate"].s, IntAt(f, "guests"));
      assert Restrict(f, Keys) == ToJson(req).fields;
      Some(req)
  }

  /** Every well-formed request survives encoding and parsing unchanged. */
  lemma ParseToJson(req: BookingRequest)
    requires WellFormed(req)
    ensures Parse(ToJson(req)) == Some(req)
  {
    assert Conforms(ToJson(req));
  }

  /** Members the schema does not declare have no influence on the parse. */
  lemma ParseIgnoresUndeclared(f: map<string, Json>, k: string, v: Json)
    requires k !in Keys
    ensures Parse(JObj(f[k := v])) == Parse(JObj(f))
  {
  }
}
