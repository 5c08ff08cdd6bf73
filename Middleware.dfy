/** The authentication middleware: the bearer token is taken from the
    `Authorization` header, checked by the parameter `verify`, and its id and
    role are attached to the request. */
module Middleware {
  import opened Common

  // ---- header parsing ----

  /** `String.prototype.startsWith`. */
  predicate StartsWith(s: string, prefix: string) {
    |prefix| <= |s| && s[..|prefix|] == prefix
  }

  /** `String.prototype.split` with a one-character separator: the maximal
      runs between separators, empty runs included. */
  function Split(s: string, c: char): (r: seq<string>)
    ensures |r| >= 1
    ensures forall i :: 0 <= i < |r| ==> c !in r[i]
  {
    if s == [] then [""]
    else
      var rest := Split(s[1..], c);
      if s[0] == c then [""] + rest
      else [[s[0]] + rest[0]] + rest[1..]
  }

  /** Joining the pieces with the separator gives back the string. */
  lemma {:induction false} SplitJoin(s: string, c: char)
    ensures Join(Split(s, c), [c]) == s
  {
    if s != [] {
      var rest := Split(s[1..], c);
      SplitJoin(s[1..], c);
      if s[0] == c {
        assert ([""] + rest)[1..] == rest;
      } else {
        var r := [[s[0]] + rest[0]] + rest[1..];
        if |rest| > 1 {
          assert r[1..] == rest[1..];
          assert Join(rest, [c]) == rest[0] + [c] + Join(rest[1..], [c]);
        }
        assert Join(r, [c]) == [s[0]] + Join(rest, [c]);
        assert s == [s[0]] + s[1..];
      }
    }
  }

  /** The first piece is the text before the first separator, or all of it. */
  lemma {:induction false} FirstPiece(s: string, c: char)
    ensures Split(s, c)[0] <= s
    ensures |Split(s, c)[0]| == |s| || s[|Split(s, c)[0]|] == c
  {
    if s != [] && s[0] != c {
      FirstPiece(s[1..], c);
    }
  }

  /** A separator-free prefix and one separator make the first piece. */
  lemma {:induction false} SplitAfterPrefix(p: string, c: char, t: string)
    requires c !in p
    ensures Split(p + [c] + t, c) == [p] + Split(t, c)
  {
    if p == [] {
      assert (p + [c] + t)[1..] == t;
    } else {
      SplitAfterPrefix(p[1..], c, t);
      assert (p + [c] + t)[1..] == p[1..] + [c] + t;
      assert [p[0]] + p[1..] == p;
    }
  }

  lemma {:induction false} SplitWithoutSeparator(s: string, c: char)
    requires c !in s
    ensures Split(s, c) == [s]
  {
    if s != [] {
      SplitWithoutSeparator(s[1..], c);
      assert [s[0]] + s[1..] == s;
    }
  }

  const Bearer: string := "Bearer "

  /** `authHeader.split(' ')[1]` for a header that starts with "Bearer ": the
      text after the prefix up to the next space. */
  function TokenOf(header: string): (t: string)
    requires StartsWith(header, Bearer)
    ensures ' ' !in t
    ensures t <= header[|Bearer|..]
    ensures |t| == |header| - |Bearer| || header[|Bearer| + |t|] == ' '
  {
    var rest := header[|Bearer|..];
    assert header == "Bearer" + [' '] + rest;
    SplitAfterPrefix("Bearer", ' ', rest);
    FirstPiece(rest, ' ');
    Split(header, ' ')[1]
  }

  /** A token without spaces sent as "Bearer <token>" is read back exactly. */
  lemma BearerRoundTrip(t: string)
    requires ' ' !in t
    ensures StartsWith(Bearer + t, Bearer) && TokenOf(Bearer + t) == t
  {
    assert (Bearer + t)[..|Bearer|] == Bearer;
    assert (Bearer + t)[|Bearer|..] == t;
    SplitWithoutSeparator(t, ' ');
    SplitAfterPrefix("Bearer", ' ', t);
    assert Bearer + t == "Bearer" + [' '] + t;
  }

  // ---- the middleware ----

  /** The payload `verify` returns for a valid token: the signed id and role,
      and the issue and expiry times the signing library adds. */
  datatype Claims = Claims(id: string, role: Role, issuedAt: int, expiresAt: int)

  /** The identity the middleware attaches for an `Authorization` header, or
      `None` when it answers UNAUTHORIZED: no header, no "Bearer " prefix, or a
      token that does not verify. */
  function Authenticate(header: Option<string>, verify: string -> Option<Claims>): (r: Option<Identity>)
    ensures header.None? ==> r.None?
    ensures header.Some? && !StartsWith(header.value, Bearer) ==> r.None?
    ensures r.Some? <==> header.Some? && StartsWith(header.value, Bearer) && verify(TokenOf(header.value)).Some?
    ensures r.Some? ==>
      var c := verify(TokenOf(header.value)).value;
      r.value.id == c.id && r.value.role == c.role
  {
    if header.None? || header.value == "" || !StartsWith(header.value, Bearer) then None
    else match verify(TokenOf(header.value))
      case None => None
      case Some(c) => Some(Identity(c.id, c.role))
  }

  /** A request as the middleware sees it: its header, and the `user` it fills in. */
  class Request {
    const authorization: Option<string>
    var user: Option<Identity>

    constructor (authorization: Option<string>)
      ensures this.authorization == authorization && user.None?
    {
      this.authorization := authorization;
      user := None;
    }
  }

  datatype Outcome = CallNext | Respond(code: ErrorCode, status: nat)

  /** `authMiddleware`: either `req.user` becomes the verified id and role and
      the next handler runs, or the answer is UNAUTHORIZED and the request is
      left as it was. */
  method AuthMiddleware(req: Request, verify: string -> Option<Claims>) returns (out: Outcome)
    modifies req`user
    ensures out.CallNext? <==> Authenticate(req.authorization, verify).Some?
    ensures out.CallNext? ==> req.user == Authenticate(req.authorization, verify)
    ensures out.Respond? ==> out == Respond(Unauthorized, 401) && req.user == old(req.user)
  {
    var header := req.authorization;
    if header.None? || header.value == "" || !StartsWith(header.value, Bearer) {
      return Respond(Unauthorized, 401);
    }
    var token := TokenOf(header.value);
    var decoded := verify(token);
    if decoded.None? {
      return Respond(Unauthorized, 401);
    }
    req.user := Some(Identity(decoded.value.id, decoded.value.role));
    return CallNext;
  }

  /** A token signed for an identity and sent back as "Bearer <token>" gives
      that identity, when verification returns what was signed and tokens
      contain no space. */
  lemma SignedTokenAuthenticates(ident: Identity, sign: Identity -> string, verify: string -> Option<Claims>)
    requires ' ' !in sign(ident)
    requires verify(sign(ident)).Some?
    requires verify(sign(ident)).value.id == ident.id && verify(sign(ident)).value.role == ident.role
    ensures Authenticate(Some(Bearer + sign(ident)), verify) == Some(ident)
  {
    BearerRoundTrip(sign(ident));
  }
}
