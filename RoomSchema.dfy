/** The request body accepted by room creation. It declares `type`, `maxAdults`
    and `totalRooms` but no `roomNumber`, `roomType` or `maxOccupancy`, so the
    parsed request has no such members. `maxChildren` defaults to 0. */
module RoomSchema {
  import opened Common
  import opened Json

  datatype RoomRequest = RoomRequest(
    name: string, description: Option<string>, roomType: string, pricePerNight: real,
    maxAdults: int, maxChildren: int, totalRooms: int, bedType: Option<string>,
    size: Option<real>, amenities: Option<seq<string>>)

  const Keys: set<string> :=
    {"name", "description", "type", "pricePerNight", "maxAdults", "maxChildren",
     "totalRooms", "bedType", "size", "amenities"}

  predicate Conforms(body: Json) {
    && body.JObj?
    && IsString(body.fields, "name", 1)
    && IsOptString(body.fields, "description")
    && IsString(body.fields, "type", 1)
    && IsNumberAbove(body.fields, "pricePerNight", 0.0)
    && IsIntIn(body.fields, "maxAdults", 1, None)
    && ("maxChildren" !in body.fields || IsIntIn(body.fields, "maxChildren", 0, None))
    && IsIntIn(body.fields, "totalRooms", 1, None)
    && IsOptString(body.fields, "bedType")
    && IsOptNumberAbove(body.fields, "size", 0.0)
    && IsOptStringArray(body.fields, "amenities")
  }

  predicate WellFormed(req: RoomRequest) {
    && req.name != [] && req.roomType != []
    && req.pricePerNight > 0.0
    && req.maxAdults >= 1 && req.maxChildren >= 0 && req.totalRooms >= 1
    && (req.size.Some? ==> req.size.value > 0.0)
  }

  /** The member named `k` of the body that parses to `req`; `maxChildren` is always written out. */
  function Member(req: RoomRequest, k: string): Option<Json> {
    if k == "name" then Some(JStr(req.name))
    else if k == "description" then OptStr(req.description)
    else if k == "type" then Some(JStr(req.roomType))
    else if k == "pricePerNight" then Some(JNum(req.pricePerNight))
    else if k == "maxAdults" then Some(JNum(req.maxAdults as real))
    else if k == "maxChildren" then Some(JNum(req.maxChildren as real))
    else if k == "totalRooms" then Some(JNum(req.totalRooms as real))
    else if k == "bedType" then OptStr(req.bedType)
    else if k == "size" then OptNum(req.size)
    else if k == "amenities" then OptStrs(req.amenities)
    else None
  }

  function ToJson(req: RoomRequest): Json {
    JObj(map k | k in Keys && Member(req, k).Some? :: Member(req, k).value)
  }

  /** The member `k` of `f`, `None` when absent. */
  function Lookup(f: map<string, Json>, k: string): Option<Json> {
    if k in f then Some(f[k]) else None
  }

  /** `createRoomSchema.safeParse(body)`. The parsed request agrees with the
      body on every declared member, except that an absent `maxChildren` reads as 0. */
  function Parse(body: Json): (r: Option<RoomRequest>)
    ensures r.Some? <==> Conforms(body)
    ensures r.Some? ==> WellFormed(r.value)
    ensures r.Some? ==> forall k :: k in Keys && k != "maxChildren" ==> Lookup(body.fields, k) == Member(r.value, k)
    ensures r.Some? ==> r.value.maxChildren == if "maxChildren" in body.fields then body.fields["maxChildren"].n.Floor else 0
  {
    if !Conforms(body) then None
    else
      var f := body.fields;
      var maxChildren := if "maxChildren" in f then IntAt(f, "maxChildren") else 0;
      var req := RoomRequest(f["name"].s, OptStringAt(f, "description"), f["type"].s,
                             NumberAt(f, "pricePerNight"), IntAt(f, "maxAdults"), maxChildren,
                             IntAt(f, "totalRooms"), OptStringAt(f, "bedType"), OptNumberAt(f, "size"),
                             OptStringsAt(f, "amenities"));
      Some(req)
  }

  lemma ParseToJson(req: RoomRequest)
    requires WellFormed(req)
    ensures Parse(ToJson(req)) == Some(req)
  {
    ConformsToJson(req);
    var f := ToJson(req).fields;
    var r := Parse(ToJson(req)).value;
    forall k | k in Keys ensures Member(r, k) == Member(req, k) {
      if k != "maxChildren" {
        assert Lookup(f, k) == Member(req, k);
      }
    }
    MemberInjective(r, req);
  }

  lemma ConformsToJson(req: RoomRequest)
    requires WellFormed(req)
    ensures Conforms(ToJson(req))
  {
    if req.amenities.Some? {
      StringsRoundTrip(req.amenities.value);
    }
  }

  /** A request is determined by its members. */
  lemma MemberInjective(a: RoomRequest, b: RoomRequest)
    requires forall k :: k in Keys ==> Member(a, k) == Member(b, k)
    ensures a == b
  {
    assert Member(a, "name") == Member(b, "name") && Member(a, "type") == Member(b, "type");
    assert Member(a, "description") == Member(b, "description") && Member(a, "bedType") == Member(b, "bedType");
    assert Member(a, "pricePerNight") == Member(b, "pricePerNight") && Member(a, "size") == Member(b, "size");
    assert Member(a, "maxAdults") == Member(b, "maxAdults") && Member(a, "maxChildren") == Member(b, "maxChildren");
    assert Member(a, "totalRooms") == Member(b, "totalRooms");
    assert Member(a, "amenities") == Member(b, "amenities");
    if a.amenities.Some? {
      StringsRoundTrip(a.amenities.value);
      StringsRoundTrip(b.amenities.value);
    }
  }

  lemma ParseIgnoresUndeclared(f: map<string, Json>, k: string, v: Json)
    requires k !in Keys
    ensures Parse(JObj(f[k := v])) == Parse(JObj(f))
  {
  }
}
