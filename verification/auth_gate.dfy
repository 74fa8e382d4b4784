/**
 * The `token_required` gate in front of the booking endpoints: it takes the
 * Authorization header apart, decodes the token and loads the user.
 *
 * Signature checking and expiry belong to the JWT library; the gate sees
 * only the outcome of decoding, which is the `decode` parameter (evaluated
 * at the time of the request).
 */
module AuthGate {
  import opened Wrappers
  import opened Seqs
  import opened Models
  import opened Auth
  import opened Words

  /** What `jwt.decode` produces: an expired token, any other invalid token, or the `user_id` claim. */
  datatype Decoded = Expired | Invalid | Claims(userId: int)

  /**
   * The token of the Authorization header: its second space-separated
   * piece. No header, or an empty second piece, is a missing token; a
   * header without a space has no second piece.
   */
  function BearerToken(header: Option<string>): (r: Result<string, Error>)
    ensures header.None? ==> r == Failure(TokenMissing)
    ensures r == Failure(InvalidTokenFormat) <==> header.Some? && ' ' !in header.value
    ensures r.Success? ==> r.value != "" && ' ' !in r.value
  {
    match header
    case None => Failure(TokenMissing)
    case Some(h) =>
      SplitCount(h);
      var pieces := Split(h);
      if |pieces| < 2 then Failure(InvalidTokenFormat)
      else if pieces[1] == "" then Failure(TokenMissing)
      else
        assert pieces[1] in pieces;
        Success(pieces[1])
  }

  /** The token is the second piece whatever the first word, and later pieces are ignored. */
  lemma BearerTokenIsSecondPiece(scheme: string, token: string, more: seq<string>)
    requires ' ' !in scheme && ' ' !in token && token != ""
    requires forall p :: p in more ==> ' ' !in p
    ensures BearerToken(Some(Join([scheme, token] + more))) == Success(token)
  {
    var pieces := [scheme, token] + more;
    forall p | p in pieces ensures ' ' !in p {
      if p !in more { assert p == scheme || p == token; }
    }
    SplitJoin(pieces);
  }

  /**
   * An empty second piece (`"Bearer "`, `"Bearer  tok"`, `"Bearer  "`) means
   * the token is missing rather than malformed, whatever follows it.
   */
  lemma EmptySecondPiece(scheme: string, more: seq<string>)
    requires ' ' !in scheme
    requires forall p :: p in more ==> ' ' !in p
    ensures BearerToken(Some(Join([scheme, ""] + more))) == Failure(TokenMissing)
  {
    var pieces := [scheme, ""] + more;
    forall p | p in pieces ensures ' ' !in p {
      if p !in more { assert p == scheme || p == ""; }
    }
    SplitJoin(pieces);
  }

  /** The two commonest headers with an empty second piece. */
  lemma EmptySecondPieceExamples()
    ensures BearerToken(Some("Bearer ")) == Failure(TokenMissing)
    ensures BearerToken(Some("Bearer  x")) == Failure(TokenMissing)
  {
    EmptySecondPiece("Bearer", []);
    assert Join(["Bearer", ""] + []) == "Bearer ";
    EmptySecondPiece("Bearer", ["x"]);
    var pieces := ["Bearer", ""] + ["x"];
    assert pieces[1..] == ["", "x"] && pieces[1..][1..] == ["x"];
    assert Join(["", "x"]) == " x";
    assert Join(pieces) == "Bearer  x";
  }

  /**
   * `token_required`: the header, then the token, then its decoding, then
   * the user it names. On success the endpoint receives that stored user.
   */
  function Authorize(header: Option<string>, decode: string -> Decoded, users: seq<User>): (r: Result<User, Error>)
    ensures BearerToken(header).Failure? ==> r == Failure(BearerToken(header).error)
    ensures BearerToken(header).Success? ==>
              var d := decode(BearerToken(header).value);
              && (d == Expired <==> r == Failure(TokenExpired))
              && (d == Invalid <==> r == Failure(InvalidToken))
              && (r == Failure(UserNotFound) <==> d.Claims? && d.userId !in UserIds(users))
    ensures r.Success? ==>
              && BearerToken(header).Success?
              && decode(BearerToken(header).value) == Claims(r.value.id)
              && r.value in users
  {
    match BearerToken(header)
    case Failure(e) => Failure(e)
    case Success(token) =>
      match decode(token)
      case Expired => Failure(TokenExpired)
      case Invalid => Failure(InvalidToken)
      case Claims(id) =>
        match FindUser(users, id)
        case None => Failure(UserNotFound)
        case Some(u) => Success(u)
  }

  /** In a store with unique ids, the gate hands over exactly the stored user with the decoded id. */
  lemma AuthorizedUserIsStored(header: Option<string>, decode: string -> Decoded, t: Tables, u: User)
    requires WellFormed(t)
    requires u in t.users
    requires BearerToken(header).Success? && decode(BearerToken(header).value) == Claims(u.id)
    ensures Authorize(header, decode, t.users) == Success(u)
  {
    var found := FindUser(t.users, u.id);
    LookupUnique(t.users, UserKey, found.value, u);
  }

  /**
   * The round trip through the client: the token a login issues, sent back
   * as `Bearer <token>` and decoded to its own claims, lets that user in.
   */
  lemma LoginThenAuthorize(
    t: Tables, req: LoginRequest, hasher: Hasher, issuedAt: int,
    encode: TokenClaims -> string, decode: string -> Decoded, scheme: string)
    requires WellFormed(t)
    requires Login(t.users, req, hasher, issuedAt).Success?
    requires ' ' !in scheme
    requires var token := encode(Login(t.users, req, hasher, issuedAt).value.token);
             token != "" && ' ' !in token && decode(token) == Claims(Login(t.users, req, hasher, issuedAt).value.token.userId)
    ensures var r := Login(t.users, req, hasher, issuedAt);
            var a := Authorize(Some(scheme + " " + encode(r.value.token)), decode, t.users);
            && a.Success?
            && a.value.email == req.email.value
            && UserToDict(a.value) == r.value.user
  {
    var r := Login(t.users, req, hasher, issuedAt);
    var token := encode(r.value.token);
    var u := FindUserByEmail(t.users, req.email.value).value;
    BearerTokenIsSecondPiece(scheme, token, []);
    assert Join([scheme, token] + []) == scheme + " " + token;
    AuthorizedUserIsStored(Some(scheme + " " + token), decode, t, u);
  }
}
