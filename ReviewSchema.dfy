/** The request body accepted by review creation. */
module ReviewSchema {
  import opened Common
  import opened Json

  datatype ReviewRequest = ReviewRequest(bookingId: string, rating: int, comment: Option<string>)

  const Keys: set<string> := {"bookingId", "rating", "comment"}

  predicate Conforms(body: Json) {
    && body.JObj?
    && IsString(body.fields, "bookingId", 0)
    && IsIntIn(body.fields, "rating", 1, Some(5))
    && IsOptString(body.fields, "comment")
  }

  predicate WellFormed(req: ReviewRequest) {
    1 <= req.rating <= 5
  }

  function ToJson(req: ReviewRequest): Json {
    JObj(map["bookingId" := JStr(req.bookingId), "rating" := JNum(req.rating as real)]
         + OptMember("comment", OptStr(req.comment)))
  }

  /** `createReviewSchema.safeParse(body)`. */
  function Parse(body: Json): (r: Option<ReviewRequest>)
    ensures r.Some? <==> Conforms(body)
    ensures r.Some? ==> WellFormed(r.value) && Restrict(body.fields, Keys) == ToJson(r.value).fields
  {
    if !Conforms(body) then None
    else
      var f := body.fields;
      var req := ReviewRequest(f["bookingId"].s, IntAt(f, "rating"), OptStringAt(f, "comment"));
      assert Restrict(f, Keys) == ToJson(req).fields;
      Some(req)
  }

  lemma ParseToJson(req: ReviewRequest)
    requires WellFormed(req)
    ensures Parse(ToJson(req)) == Some(req)
  {
    assert Conforms(ToJson(req));
  }

  lemma ParseIgnoresUndeclared(f: map<string, Json>, k: string, v: Json)
    requires k !in Keys
    ensures Parse(JObj(f[k := v])) == Parse(JObj(f))
  {
  }
}
