/**
 * The request guards of Middleware/authMiddleware.js: `verifyToken` admits
 * a request carrying a bearer token that verifies, names an existing user
 * and matches that user's token version; `checkAdmin` then admits only an
 * administrator.
 *
 * Each guard is a decision: a response with a status, or `Next` with the
 * user placed on the request (so `next` is called at most once). Token
 * verification and the user lookup are not part of this model and are
 * parameters: the verifier answers the decoded claims or `None` when it
 * throws, and the lookup answers the user, none, or a thrown error.
 */
module Auth {
  import opened Wrappers
  import Schema
  import opened Decimal

  /** A JavaScript value as the guards compare it. */
  datatype JsValue = Undefined | Num(n: int) | Str(s: string)

  /** The payload of a verified token. */
  datatype Claims = Claims(id: string, tokenVersion: JsValue)

  /** A user document as the middleware reads it: `tokenVersion` and `type`. */
  datatype Principal = Principal(id: string, tokenVersion: JsValue, kind: JsValue)

  /** The outcome of `User.findById`. */
  datatype Lookup = Found(user: Principal) | NotFound | Throws

  /** The decision of a guard. */
  datatype Outcome = Respond(status: int, message: string) | Next(user: Principal)

  const Bearer: string := "Bearer "

  /** `a != b` is false: loose equality of two values, a string read as a number. */
  predicate LooseEquals(a: JsValue, b: JsValue)
  {
    match (a, b)
    case (Undefined, Undefined) => true
    case (Num(x), Num(y)) => x == y
    case (Str(x), Str(y)) => x == y
    case (Num(x), Str(y)) => ToNumber(y) == Some(x)
    case (Str(x), Num(y)) => ToNumber(x) == Some(y)
    case _ => false
  }

  /** A version signed as text matches the same stored number: `"2" == 2`. */
  lemma TextVersionMatchesNumber(v: int)
    ensures LooseEquals(Str(IntToString(v)), Num(v)) && LooseEquals(Num(v), Str(IntToString(v)))
  {
    ToNumberRoundTrip(v);
  }

  /** `s.split(" ")`. */
  function Split(s: string): (pieces: seq<string>)
    ensures |pieces| >= 1
    ensures forall i :: 0 <= i < |pieces| ==> ' ' !in pieces[i]
    ensures Join(pieces) == s
  {
    if s == [] then [""]
    else if s[0] == ' ' then [""] + Split(s[1..])
    else
      var rest := Split(s[1..]);
      [[s[0]] + rest[0]] + rest[1..]
  }

  /** `pieces.join(" ")`. */
  function Join(pieces: seq<string>): string
    requires |pieces| >= 1
  {
    if |pieces| == 1 then pieces[0] else pieces[0] + " " + Join(pieces[1..])
  }

  /** Splitting after a word without spaces yields that word, then the pieces of the rest. */
  lemma {:induction false} SplitAfterWord(w: string, rest: string)
    requires ' ' !in w
    ensures Split(w + " " + rest) == [w] + Split(rest)
  {
    if w == [] {
      assert w + " " + rest == [' '] + rest;
    } else {
      assert (w + " " + rest)[1..] == w[1..] + " " + rest;
      SplitAfterWord(w[1..], rest);
      assert [w[0]] + w[1..] == w;
    }
  }

  /** The first piece of a word without spaces, followed by nothing or a space, is the word. */
  lemma {:induction false} SplitFirstWord(w: string, rest: string)
    requires ' ' !in w
    requires rest == [] || rest[0] == ' '
    ensures Split(w + rest)[0] == w
  {
    if w == [] {
      if rest != [] {
        assert (w + rest)[0] == ' ';
      }
    } else {
      assert (w + rest)[1..] == w[1..] + rest;
      SplitFirstWord(w[1..], rest);
      assert [w[0]] + w[1..] == w;
    }
  }

  predicate StartsWithBearer(header: string)
  {
    |header| >= |Bearer| && header[..|Bearer|] == Bearer
  }

  /** `authHeader.split(" ")[1]` for a header that starts with "Bearer ". */
  function TokenOf(header: string): (token: string)
    requires StartsWithBearer(header)
    ensures ' ' !in token
    ensures token == Split(header[|Bearer|..])[0]
  {
    assert header == "Bearer" + " " + header[|Bearer|..];
    SplitAfterWord("Bearer", header[|Bearer|..]);
    Split(header)[1]
  }

  /** The token of "Bearer <t>" is `t`, whatever follows it after a space. */
  lemma BearerToken(t: string, rest: string)
    requires ' ' !in t
    requires rest == [] || rest[0] == ' '
    ensures StartsWithBearer(Bearer + t + rest) && TokenOf(Bearer + t + rest) == t
  {
    var h := Bearer + t + rest;
    assert h[..|Bearer|] == Bearer;
    assert h[|Bearer|..] == t + rest;
    SplitFirstWord(t, rest);
  }

  const MissingToken: string := "Token missing or invalid"
  const BadToken: string := "Invalid or expired token"
  const UnknownUser: string := "User not found"
  const Unauthorized: string := "Unauthorized"

  /** The header is present and announces a bearer token. */
  predicate HasBearer(header: Option<string>)
  {
    header.Some? && StartsWithBearer(header.value)
  }

  /**
   * `verifyToken`: 401 without a bearer header; 403 when the token does not
   * verify or the lookup throws; 404 when the user is gone; 403 when the
   * token's version differs from the user's; otherwise the request goes on
   * with the user.
   */
  function VerifyToken(header: Option<string>, verify: string -> Option<Claims>, lookup: string -> Lookup): (o: Outcome)
    ensures o == Respond(401, MissingToken) <==> !HasBearer(header)
    ensures o.Respond? ==> (o.status == 401 && o.message == MissingToken) || (o.status == 403 && o.message == BadToken)
                           || (o.status == 404 && o.message == UnknownUser)
    ensures HasBearer(header) && verify(TokenOf(header.value)).None? ==> o == Respond(403, BadToken)
    ensures HasBearer(header) && verify(TokenOf(header.value)).Some? ==>
              var claims := verify(TokenOf(header.value)).value;
              && (lookup(claims.id) == Throws ==> o == Respond(403, BadToken))
              && (o == Respond(404, UnknownUser) <==> lookup(claims.id) == NotFound)
              && (o.Next? <==> lookup(claims.id).Found? && LooseEquals(claims.tokenVersion, lookup(claims.id).user.tokenVersion))
              && (o.Next? ==> o.user == lookup(claims.id).user)
    ensures o.Next? ==> HasBearer(header) && verify(TokenOf(header.value)).Some?
  {
    if header.None? || !StartsWithBearer(header.value) then Respond(401, MissingToken)
    else
      var token := TokenOf(header.value);
      match verify(token)
      case None => Respond(403, BadToken)
      case Some(claims) =>
        match lookup(claims.id)
        case Throws => Respond(403, BadToken)
        case NotFound => Respond(404, UnknownUser)
        case Found(user) =>
          if !LooseEquals(claims.tokenVersion, user.tokenVersion) then Respond(403, BadToken)
          else Next(user)
  }

  /**
   * A request with "Bearer <t>" lets the verifier judge exactly `t`, and
   * goes on exactly when `t` verifies to the current version of a user.
   */
  lemma BearerRequestOutcome(t: string, verify: string -> Option<Claims>, lookup: string -> Lookup)
    requires ' ' !in t
    ensures var o := VerifyToken(Some(Bearer + t), verify, lookup);
            && (verify(t).None? ==> o == Respond(403, BadToken))
            && (o.Next? <==> verify(t).Some? && lookup(verify(t).value.id).Found?
                             && LooseEquals(verify(t).value.tokenVersion, lookup(verify(t).value.id).user.tokenVersion))
  {
    BearerToken(t, []);
    assert Bearer + t + [] == Bearer + t;
  }

  /** `checkAdmin`: only a user whose `type` is exactly "admin" goes on. */
  function CheckAdmin(user: Option<Principal>): (o: Outcome)
    ensures o.Next? <==> user.Some? && user.value.kind == Str("admin")
    ensures o.Next? ==> o.user == user.value
    ensures o.Respond? ==> o == Respond(403, Unauthorized)
  {
    if user.None? || user.value.kind != Str("admin") then Respond(403, Unauthorized) else Next(user.value)
  }

  /**
   * A user document of backend/src/models/User.js has a `role` and no `type`,
   * so `checkAdmin` turns it away even when its role is ADMIN.
   */
  function PrincipalOf(id: string, u: Schema.User): (p: Principal)
    ensures p.tokenVersion == Num(u.tokenVersion) && p.kind == Undefined
  {
    Principal(id, Num(u.tokenVersion), Undefined)
  }

  lemma RoleAdminIsNotAdmin(id: string, u: Schema.User)
    requires u.role == Schema.Admin
    ensures CheckAdmin(Some(PrincipalOf(id, u))) == Respond(403, Unauthorized)
  {
  }
}
