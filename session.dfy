/**
 * The `isAuthenticated` middleware (server/server.js:56-77): an ordered chain
 * of checks on the Authorization header, each ending the request on failure.
 */
module Session {

  import opened Wrappers
  import opened Text
  import Js
  import opened TokenCodec
  import opened Users
  import opened Replies

  /** JavaScript truthiness of `req.headers.authorization`: absent and empty both count as missing. */
  predicate HasHeader(header: Option<string>)
  {
    header.Some? && header.value != ""
  }

  /** `header.split(' ')[1]`: the space-free piece after the first space, if there is one. */
  function BearerToken(header: string): (v: Js.Value)
    ensures v.Str? <==> ' ' in header
    ensures v.Str? ==> ' ' !in v.s
  {
    assert ' ' !in header ==> Split(header, ' ') == [header] by {
      if ' ' !in header { SplitWithout(header, ' '); }
    }
    assert |Split(header, ' ')| == 1 ==> ' ' !in header;
    Js.Element(Split(header, ' '), 1)
  }

  /** The claim the header carries, if `jwt.decode` accepts its token: then the token is that claim's encoding. */
  function Presented(secret: Secret, header: string): (r: Option<Claim>)
    ensures r.Some? ==> BearerToken(header).Str? && BearerToken(header).s == Encode(secret, r.value)
  {
    JwtDecode(secret, BearerToken(header))
  }

  /**
   * `isAuthenticated(req, res, next)` at time `now`: on success the user that
   * becomes `req.user`, otherwise the failure the request ends with.
   * `findById` runs without `'+password'`, so the attached user has no digest
   * (the schema's `select: false`, server/server.js:18).
   */
  function IsAuthenticated(secret: Secret, header: Option<string>, now: Time, users: map<Id, User>)
    : (r: Result<User, Failure>)
    ensures r == Failure(MissingToken) <==> !HasHeader(header)
    ensures r == Failure(InvalidToken) <==> HasHeader(header) && Presented(secret, header.value).None?
    ensures r == Failure(TokenExpired) <==>
              HasHeader(header) && Presented(secret, header.value).Some? && now > Presented(secret, header.value).value.exp
    ensures r == Failure(UserNoLongerExists) <==>
              HasHeader(header) && Presented(secret, header.value).Some? && now <= Presented(secret, header.value).value.exp
              && Presented(secret, header.value).value.sub !in users
    ensures r.Success? <==>
              HasHeader(header) && Presented(secret, header.value).Some?
              && now <= Presented(secret, header.value).value.exp
              && Presented(secret, header.value).value.sub in users
    ensures r.Success? ==> r.value == Public(users[Presented(secret, header.value).value.sub])
  {
    if !HasHeader(header) then Failure(MissingToken)
    else
      match Presented(secret, header.value)
      case None => Failure(InvalidToken)
      case Some(payload) =>
        if now > payload.exp then Failure(TokenExpired)
        else if payload.sub !in users then Failure(UserNoLongerExists)
        else Success(Public(users[payload.sub]))
  }

  /** A header "<scheme> <token>" yields the token as its second piece. */
  lemma BearerTokenOf(scheme: string, token: string)
    requires ' ' !in scheme && ' ' !in token
    ensures BearerToken(scheme + " " + token) == Js.Str(token)
  {
    SplitFirst(scheme, ' ', token);
    SplitWithout(token, ' ');
  }

  /**
   * A token minted at `issued` for a record of the store passes the gate at
   * every time up to and including its expiry, and the attached user is that
   * record without its digest.
   */
  lemma GateAdmitsLiveToken(secret: Secret, scheme: string, issued: Time, now: Time, id: Id, users: map<Id, User>)
    requires ' ' !in scheme
    requires id in users
    requires now <= issued + Lifetime
    ensures IsAuthenticated(secret, Some(scheme + " " + CreateToken(secret, issued, id)), now, users)
         == Success(Public(users[id]))
  {
    BearerTokenOf(scheme, CreateToken(secret, issued, id));
  }

  /**
   * Expiry is strict: a token is still accepted in the second it expires and
   * rejected from the next one on, whether or not its user still exists.
   */
  lemma GateExpiryBoundary(secret: Secret, scheme: string, issued: Time, id: Id, users: map<Id, User>)
    requires ' ' !in scheme
    ensures var header := Some(scheme + " " + CreateToken(secret, issued, id));
            IsAuthenticated(secret, header, issued + Lifetime + 1, users) == Failure(TokenExpired)
            && (id in users ==> IsAuthenticated(secret, header, issued + Lifetime, users).Success?)
  {
    BearerTokenOf(scheme, CreateToken(secret, issued, id));
  }

  /** A live token whose subject has been deleted is refused with "User no longer exists". */
  lemma GateRefusesDeletedSubject(secret: Secret, scheme: string, issued: Time, now: Time, id: Id, users: map<Id, User>)
    requires ' ' !in scheme
    requires id !in users
    requires now <= issued + Lifetime
    ensures IsAuthenticated(secret, Some(scheme + " " + CreateToken(secret, issued, id)), now, users)
         == Failure(UserNoLongerExists)
  {
    BearerTokenOf(scheme, CreateToken(secret, issued, id));
  }

  /** A header with no space has no token, and `jwt.decode` throws on the missing one. */
  lemma GateRefusesBareHeader(secret: Secret, header: string, now: Time, users: map<Id, User>)
    requires header != "" && ' ' !in header
    ensures IsAuthenticated(secret, Some(header), now, users) == Failure(InvalidToken)
  {
    SplitWithout(header, ' ');
  }

  /** An absent header and an empty one are both refused with 400, before any decode. */
  lemma GateRefusesMissingHeader(secret: Secret, header: Option<string>, now: Time, users: map<Id, User>)
    requires header.None? || header == Some("")
    ensures !HasHeader(header)
    ensures IsAuthenticated(secret, header, now, users) == Failure(MissingToken)
    ensures Status(MissingToken) == 400
  {
  }
}
