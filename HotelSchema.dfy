/** The request body accepted by hotel creation. It declares no `address`,
    `starRating` or `image` member, so those never reach the handler. */
module HotelSchema {
  import opened Common
  import opened Json

  datatype HotelRequest = HotelRequest(
    name: string, description: Option<string>, city: string, country: string,
    amenities: Option<seq<string>>)

  const Keys: set<string> := {"name", "description", "city", "country", "amenities"}

  predicate Conforms(body: Json) {
    && body.JObj?
    && IsString(body.fields, "name", 1)
    && IsOptString(body.fields, "description")
    && IsString(body.fields, "city", 1)
    && IsString(body.fields, "country", 1)
    && IsOptStringArray(body.fields, "amenities")
  }

  predicate WellFormed(req: HotelRequest) {
    req.name != [] && req.city != [] && req.country != []
  }

  function ToJson(req: HotelRequest): Json {
    JObj(map["name" := JStr(req.name), "city" := JStr(req.city), "country" := JStr(req.country)]
         + OptMember("description", OptStr(req.description))
         + OptMember("amenities", OptStrs(req.amenities)))
  }

  /** `createHotelSchema.safeParse(body)`. */
  function Parse(body: Json): (r: Option<HotelRequest>)
    ensures r.Some? <==> Conforms(body)
    ensures r.Some? ==> WellFormed(r.value) && Restrict(body.fields, Keys) == ToJson(r.value).fields
  {
    if !Conforms(body) then None
    else
      var f := body.fields;
      var req := HotelRequest(f["name"].s, OptStringAt(f, "description"), f["city"].s, f["country"].s,
                              OptStringsAt(f, "amenities"));
      assert Restrict(f, Keys) == ToJson(req).fields;
      Some(req)
  }

  lemma ParseToJson(req: HotelRequest)
    requires WellFormed(req)
    ensures Parse(ToJson(req)) == Some(req)
  {
    var f := ToJson(req).fields;
    if req.amenities.Some? {
      StringsRoundTrip(req.amenities.value);
    }
    assert Conforms(ToJson(req));
  }

  lemma ParseIgnoresUndeclared(f: map<string, Json>, k: string, v: Json)
    requires k !in Keys
    ensures Parse(JObj(f[k := v])) == Parse(JObj(f))
  {
  }
}
