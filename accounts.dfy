/**
 * The account handlers: `/auth/signup`, `/auth/login` and `/auth/instagram`
 * (server/server.js:79-194), over a store of user records keyed by id.
 * Login only reads the store and is a function; signup and the provider
 * exchange change records in place and are methods of `UserStore`.
 */
module Accounts {

  import opened Wrappers
  import opened Text
  import Js
  import opened Credentials
  import opened TokenCodec
  import opened Users
  import opened Replies
  import opened Session

  /** Every id in use is below the next one to hand out, and the record invariants hold. */
  ghost predicate StoreInvariant(users: map<Id, User>, nextId: Id)
  {
    && (forall a | a in users :: a < nextId)
    && EmailsUnique(users)
    && InstagramIdsUnique(users)
    && CredentialsPaired(users)
  }

  // ---------------------------------------------------------------------
  // Login (server/server.js:103-119)

  /** `/auth/login`: the record with the email, checked against its digest, returned without it. */
  function Login(users: map<Id, User>, email: string, password: string, now: Time, secret: Secret): (r: Reply)
    requires EmailsUnique(users)
    ensures r == Rejected(IncorrectEmail) <==> !EmailHeld(users, email)
    ensures r == Rejected(IncorrectPassword) <==>
              exists a | a in users && users[a].email == Some(email) :: !Compare(password, users[a].password)
    ensures r.Authenticated? || r == Rejected(IncorrectEmail) || r == Rejected(IncorrectPassword)
    ensures r.Authenticated? ==>
              exists a | a in users && users[a].email == Some(email) ::
                Compare(password, users[a].password) && r.user == Public(users[a])
                && r.token == CreateToken(secret, now, a)
  {
    match FindByEmail(users, email)
    case None => Rejected(IncorrectEmail)
    case Some(a) =>
      if !Compare(password, users[a].password) then Rejected(IncorrectPassword)
      else Authenticated(CreateToken(secret, now, a), Public(users[a]))
  }

  /** Both login failures are 401 replies whose message names the field at fault. */
  lemma LoginFailuresFieldScoped(users: map<Id, User>, email: string, password: string, now: Time, secret: Secret)
    requires EmailsUnique(users)
    ensures var r := Login(users, email, password, now, secret);
            r.Rejected? ==>
              Status(r.failure) == 401
              && Message(r.failure) == Some(Scoped(if EmailHeld(users, email) then "password" else "email",
                                                   if EmailHeld(users, email) then "Incorrect password" else "Incorrect email"))
  {
  }

  /** The token login returns opens the gate, for the same record, until it expires. */
  lemma LoginTokenPassesGate(users: map<Id, User>, email: string, password: string, now: Time, later: Time,
                             secret: Secret, scheme: string)
    requires ' ' !in scheme
    requires EmailsUnique(users)
    requires Login(users, email, password, now, secret).Authenticated?
    requires now <= later <= now + Lifetime
    ensures var r := Login(users, email, password, now, secret);
            var g := IsAuthenticated(secret, Some(scheme + " " + r.token), later, users);
            g == Success(r.user) && r.user.email == Some(email)
  {
    var a :| a in users && users[a].email == Some(email) && Login(users, email, password, now, secret).token == CreateToken(secret, now, a);
    GateAdmitsLiveToken(secret, scheme, now, later, a, users);
  }

  // ---------------------------------------------------------------------
  // Signup as written (server/server.js:79-101)

  /**
   * `/auth/signup` as the source has it. After the email check it calls
   * `bcrypt.getSalt(10, ...)`; bcryptjs's `getSalt` extracts the salt of an
   * existing digest string and throws on a number, so the handler never
   * reaches the hash or the save.
   */
  function SignupAsWritten(users: map<Id, User>, email: string, password: string): (r: Reply)
    ensures r.Rejected?
    ensures r.failure == EmailTaken <==> EmailHeld(users, email)
    ensures !EmailHeld(users, email) ==> r.failure == Uncaught("Illegal arguments: number")
  {
    if EmailHeld(users, email) then Rejected(EmailTaken)
    else
      GetSaltRejectsRounds(SaltRounds);
      Rejected(Uncaught(GetSalt(Js.Number(SaltRounds)).error))
  }

  // ---------------------------------------------------------------------
  // The session branch of the provider exchange (server/server.js:134-170)

  /**
   * The decode the link branch performs as written: `jwt.decode` receives the
   * whole `split(' ')` array, on which jwt-simple's `token.split('.')` throws.
   */
  function LinkDecodeAsWritten(secret: Secret, header: string): (r: Option<Claim>)
    ensures r.None?
  {
    JwtDecode(secret, Js.Array(Split(header, ' ')))
  }

  /** A session the gate admits is still refused by the link branch as written. */
  lemma LinkDecodeAsWrittenRefusesLiveSession(secret: Secret, scheme: string, issued: Time, now: Time, id: Id,
                                              users: map<Id, User>)
    requires ' ' !in scheme
    requires id in users
    requires now <= issued + Lifetime
    ensures var header := scheme + " " + CreateToken(secret, issued, id);
            IsAuthenticated(secret, Some(header), now, users).Success?
            && LinkDecodeAsWritten(secret, header).None?
  {
    GateAdmitsLiveToken(secret, scheme, issued, now, id, users);
  }

  /** Decoding element [1] instead, as the gate does, recovers the session's claim. */
  lemma LinkDecodeOfSession(secret: Secret, scheme: string, issued: Time, id: Id)
    requires ' ' !in scheme
    ensures Presented(secret, scheme + " " + CreateToken(secret, issued, id)) == Some(MintClaim(issued, id))
  {
    BearerTokenOf(scheme, CreateToken(secret, issued, id));
  }

  /**
   * The session branch never compares the claim's expiry with the clock: a
   * token the gate refuses as expired still resolves the acting user there.
   */
  lemma SessionBranchIgnoresExpiry(secret: Secret, scheme: string, issued: Time, now: Time, id: Id,
                                   users: map<Id, User>)
    requires ' ' !in scheme
    requires now > issued + Lifetime
    ensures var header := scheme + " " + CreateToken(secret, issued, id);
            IsAuthenticated(secret, Some(header), now, users) == Failure(TokenExpired)
            && Presented(secret, header) == Some(MintClaim(issued, id))
  {
    BearerTokenOf(scheme, CreateToken(secret, issued, id));
  }

  /**
   * The store after the merge as written (server/server.js:147-152): the
   * donor is removed first, then the absorber is saved, and a save of a
   * record that is no longer stored updates nothing.
   */
  function AbsorbedAsWritten(users: map<Id, User>, absorber: Id, donor: Id): (r: map<Id, User>)
    requires absorber in users && donor in users
    ensures donor !in r && r.Keys == users.Keys - {donor}
    ensures absorber != donor ==> r[absorber] == Absorbing(users[absorber], users[donor])
    ensures forall k | k in r && k != absorber :: r[k] == users[k]
  {
    var merged := Absorbing(users[absorber], users[donor]);
    var rest := users - {donor};
    if absorber in rest then rest[absorber := merged] else rest
  }

  /**
   * The store after the corrected merge: when the acting user is the owner
   * of the provider id nothing changes; otherwise the absorber carries the
   * donor's credentials and the donor's record is gone.
   */
  function Absorbed(users: map<Id, User>, absorber: Id, donor: Id): (r: map<Id, User>)
    requires absorber in users && donor in users
    ensures absorber in r && r[absorber] == Absorbing(users[absorber], users[donor])
    ensures absorber != donor ==> r.Keys == users.Keys - {donor} && |r| == |users| - 1
    ensures absorber == donor ==> r == users
    ensures forall k | k in r && k != absorber :: r[k] == users[k]
  {
    if absorber == donor then users
    else
      var r := users[absorber := Absorbing(users[absorber], users[donor])] - {donor};
      assert r.Keys == users.Keys - {donor};
      r
  }

  /** For two distinct records, removing the donor and then saving the absorber gives the corrected merge. */
  lemma RemoveThenSave(users: map<Id, User>, absorber: Id, donor: Id)
    requires absorber in users && donor in users && absorber != donor
    ensures (users - {donor})[absorber := Absorbing(users[absorber], users[donor])] == Absorbed(users, absorber, donor)
  {
    var m := (users - {donor})[absorber := Absorbing(users[absorber], users[donor])];
    var e := Absorbed(users, absorber, donor);
    assert m.Keys == e.Keys;
    assert forall k | k in m :: m[k] == e[k];
  }

  /**
   * When the acting user already owns the provider id, the merge as written
   * deletes that user's record and hands out a token the gate then refuses;
   * the corrected merge leaves the store as it was.
   */
  lemma SelfMergeAsWrittenLosesAccount(users: map<Id, User>, id: Id, now: Time, secret: Secret, scheme: string)
    requires ' ' !in scheme
    requires id in users
    ensures id !in AbsorbedAsWritten(users, id, id)
    ensures IsAuthenticated(secret, Some(scheme + " " + CreateToken(secret, now, id)), now, AbsorbedAsWritten(users, id, id))
         == Failure(UserNoLongerExists)
    ensures Absorbed(users, id, id) == users
  {
    GateRefusesDeletedSubject(secret, scheme, now, now, id, AbsorbedAsWritten(users, id, id));
  }

  // ---------------------------------------------------------------------
  // The store invariant under each change

  /** Adding a record with an unused id, email and provider id keeps the invariant. */
  lemma InsertPreserves(users: map<Id, User>, nextId: Id, u: User)
    requires StoreInvariant(users, nextId)
    requires u.email.Some? ==> !EmailHeld(users, u.email.value)
    requires u.instagramId.Some? ==> !InstagramIdHeld(users, u.instagramId.value)
    requires u.email.Some? <==> u.password.Some?
    ensures nextId !in users
    ensures StoreInvariant(users[nextId := u], nextId + 1)
  {
  }

  /** Linking an unclaimed provider id onto a stored record keeps the invariant. */
  lemma LinkPreserves(users: map<Id, User>, nextId: Id, id: Id, p: Profile)
    requires StoreInvariant(users, nextId)
    requires id in users
    requires !InstagramIdHeld(users, p.id)
    ensures StoreInvariant(users[id := WithProfile(users[id], p)], nextId)
  {
  }

  /** The corrected merge keeps the invariant. */
  lemma AbsorbedPreserves(users: map<Id, User>, nextId: Id, absorber: Id, donor: Id)
    requires StoreInvariant(users, nextId)
    requires absorber in users && donor in users
    ensures StoreInvariant(Absorbed(users, absorber, donor), nextId)
  {
  }

  /** The merge as written keeps the invariant too: it only loses a record. */
  lemma AbsorbedAsWrittenPreserves(users: map<Id, User>, nextId: Id, absorber: Id, donor: Id)
    requires StoreInvariant(users, nextId)
    requires absorber in users && donor in users
    ensures StoreInvariant(AbsorbedAsWritten(users, absorber, donor), nextId)
  {
  }

  /** Login succeeds on the record signup has just added, with exactly the password it was given. */
  lemma LoginAfterSignup(users: map<Id, User>, nextId: Id, email: string, password: string, attempt: string,
                         nonce: nat, now: Time, secret: Secret)
    requires StoreInvariant(users, nextId)
    requires !EmailHeld(users, email)
    ensures var u := LocalUser(email, Hash(password, GenSalt(SaltRounds, nonce)));
            var users' := users[nextId := u];
            EmailsUnique(users')
            && Login(users', email, attempt, now, secret)
               == if attempt == password then Authenticated(CreateToken(secret, now, nextId), Public(u))
                  else Rejected(IncorrectPassword)
  {
    var u := LocalUser(email, Hash(password, GenSalt(SaltRounds, nonce)));
    InsertPreserves(users, nextId, u);
    FindByEmailExact(users[nextId := u], email, nextId);
  }

  // ---------------------------------------------------------------------
  // The store

  class UserStore {

    var users: map<Id, User>
    /** The id the next created record receives; stands in for ObjectId generation. */
    var nextId: Id

    ghost predicate Valid()
      reads this
    {
      StoreInvariant(users, nextId)
    }

    constructor ()
      ensures Valid() && users == map[]
    {
      users := map[];
      nextId := 0;
    }

    /** Saves a new record under a fresh id. */
    method Create(u: User) returns (id: Id)
      requires Valid()
      requires u.email.Some? ==> !EmailHeld(users, u.email.value)
      requires u.instagramId.Some? ==> !InstagramIdHeld(users, u.instagramId.value)
      requires u.email.Some? <==> u.password.Some?
      modifies this
      ensures Valid()
      ensures id == old(nextId) && id !in old(users)
      ensures users == old(users)[id := u] && |users| == |old(users)| + 1
    {
      InsertPreserves(users, nextId, u);
      id := nextId;
      users := users[id := u];
      nextId := nextId + 1;
    }

    /**
     * `/auth/signup` with the salt drawn by `bcrypt.genSalt(10)`: refused when
     * the email is held, otherwise one record with the email and the digest
     * of the password, and a token for it.
     */
    method Signup(email: string, password: string, nonce: nat, now: Time, secret: Secret) returns (r: Reply)
      requires Valid()
      modifies this
      ensures Valid()
      ensures EmailHeld(old(users), email) ==>
                r == Rejected(EmailTaken) && Status(r.failure) == 409 && users == old(users) && nextId == old(nextId)
      ensures !EmailHeld(old(users), email) ==>
                var id := old(nextId);
                var u := LocalUser(email, Hash(password, GenSalt(SaltRounds, nonce)));
                id !in old(users) && users == old(users)[id := u] && |users| == |old(users)| + 1
                && r == Authenticated(CreateToken(secret, now, id), u)
    {
      var existing := FindByEmail(users, email);
      if existing.Some? {
        return Rejected(EmailTaken);
      }
      var salt := GenSalt(SaltRounds, nonce);
      var user := LocalUser(email, Hash(password, salt));
      var id := Create(user);
      r := Authenticated(CreateToken(secret, now, id), user);
    }

    /**
     * The anonymous branch (server/server.js:172-191): log in the provider
     * id's owner, or create one. The owner is fetched without `'+password'`,
     * so the login reply carries no digest.
     */
    method ExchangeAnonymous(profile: Profile, now: Time, secret: Secret) returns (r: Reply)
      requires Valid()
      modifies this
      ensures Valid()
      ensures forall a | a in old(users) && old(users)[a].instagramId == Some(profile.id) ::
                users == old(users) && nextId == old(nextId)
                && r == Authenticated(CreateToken(secret, now, a), Public(old(users)[a]))
      ensures !InstagramIdHeld(old(users), profile.id) ==>
                var id := old(nextId);
                id !in old(users) && users == old(users)[id := InstagramUser(profile)]
                && |users| == |old(users)| + 1
                && r == Authenticated(CreateToken(secret, now, id), InstagramUser(profile))
    {
      var existing := FindByInstagramId(users, profile.id);
      if existing.Some? {
        return Authenticated(CreateToken(secret, now, existing.value), Public(users[existing.value]));
      }
      var user := InstagramUser(profile);
      var id := Create(user);
      r := Authenticated(CreateToken(secret, now, id), user);
    }

    /**
     * `/auth/instagram` with the session token taken from element [1] of the
     * header, as the gate takes it, and a merge only of two distinct records. Expiry is not checked in the session branch, as in
     * the source.
     */
    method OAuthExchange(header: Option<string>, profile: Profile, now: Time, secret: Secret) returns (r: Reply)
      requires Valid()
      modifies this
      ensures Valid()
      ensures r.Authenticated? ==>
                exists a | a in users :: r.token == CreateToken(secret, now, a) && Public(r.user) == Public(users[a])
      // anonymous entry
      ensures !HasHeader(header) ==>
                forall a | a in old(users) && old(users)[a].instagramId == Some(profile.id) ::
                  users == old(users) && nextId == old(nextId)
                  && r == Authenticated(CreateToken(secret, now, a), Public(old(users)[a]))
      ensures !HasHeader(header) && !InstagramIdHeld(old(users), profile.id) ==>
                var id := old(nextId);
                id !in old(users) && users == old(users)[id := InstagramUser(profile)]
                && |users| == |old(users)| + 1
                && r == Authenticated(CreateToken(secret, now, id), InstagramUser(profile))
      // session entry: the acting user
      ensures HasHeader(header) && Presented(secret, header.value).None? ==>
                r == Rejected(InvalidToken) && users == old(users) && nextId == old(nextId)
      ensures HasHeader(header) && Presented(secret, header.value).Some?
              && Presented(secret, header.value).value.sub !in old(users) ==>
                r == Rejected(UserNotFound) && users == old(users) && nextId == old(nextId)
      // link
      ensures HasHeader(header) && Presented(secret, header.value).Some?
              && Presented(secret, header.value).value.sub in old(users)
              && !InstagramIdHeld(old(users), profile.id) ==>
                var local := Presented(secret, header.value).value.sub;
                users == old(users)[local := WithProfile(old(users)[local], profile)]
                && nextId == old(nextId)
                && r == Authenticated(CreateToken(secret, now, local), users[local])
      // merge
      ensures HasHeader(header) && Presented(secret, header.value).Some?
              && Presented(secret, header.value).value.sub in old(users) ==>
                var local := Presented(secret, header.value).value.sub;
                forall a | a in old(users) && old(users)[a].instagramId == Some(profile.id) ::
                  users == Absorbed(old(users), a, local) && nextId == old(nextId)
                  && r == Authenticated(CreateToken(secret, now, a), users[a])
    {
      if !HasHeader(header) {
        r := ExchangeAnonymous(profile, now, secret);
        return;
      }
      var existing := FindByInstagramId(users, profile.id);
      var payload := Presented(secret, header.value);
      if payload.None? {
        return Rejected(InvalidToken);
      }
      var local := payload.value.sub;
      if local !in users {
        return Rejected(UserNotFound);
      }
      if existing.Some? {
        r := Merge(existing.value, local, now, secret);
      } else {
        r := Link(local, profile, now, secret);
      }
    }

    /** Attaches the provider profile to the acting user (server/server.js:156-166). */
    method Link(local: Id, profile: Profile, now: Time, secret: Secret) returns (r: Reply)
      requires Valid()
      requires local in users && !InstagramIdHeld(users, profile.id)
      modifies this
      ensures Valid()
      ensures users == old(users)[local := WithProfile(old(users)[local], profile)]
      ensures nextId == old(nextId) && users.Keys == old(users).Keys
      ensures r == Authenticated(CreateToken(secret, now, local), users[local])
    {
      LinkPreserves(users, nextId, local, profile);
      users := users[local := WithProfile(users[local], profile)];
      r := Authenticated(CreateToken(secret, now, local), users[local]);
    }

    /**
     * Folds the acting user into the owner of the provider id
     * (server/server.js:145-154) when they are two records: the donor is
     * removed, then the absorber is saved, in the source's order, which keeps
     * the donor's email from being held twice. When the acting user already
     * owns the provider id there is nothing to fold and nothing changes.
     */
    method Merge(absorber: Id, donor: Id, now: Time, secret: Secret) returns (r: Reply)
      requires Valid()
      requires absorber in users && donor in users
      modifies this
      ensures Valid()
      ensures users == Absorbed(old(users), absorber, donor) && nextId == old(nextId)
      ensures r == Authenticated(CreateToken(secret, now, absorber), users[absorber])
    {
      AbsorbedPreserves(users, nextId, absorber, donor);
      if donor != absorber {
        RemoveThenSave(users, absorber, donor);
        var existingUser := Absorbing(users[absorber], users[donor]);
        users := users - {donor};
        users := users[absorber := existingUser];
      }
      r := Authenticated(CreateToken(secret, now, absorber), users[absorber]);
    }

    /**
     * `/auth/instagram` as written: the anonymous branch as above, and in the
     * session branch `jwt.decode` on the split header array throws before
     * any lookup can act.
     */
    method OAuthExchangeAsWritten(header: Option<string>, profile: Profile, now: Time, secret: Secret)
      returns (r: Reply)
      requires Valid()
      modifies this
      ensures Valid()
      ensures HasHeader(header) ==>
                LinkDecodeAsWritten(secret, header.value).None?
                && r == Rejected(InvalidToken) && users == old(users) && nextId == old(nextId)
      ensures !HasHeader(header) ==>
                forall a | a in old(users) && old(users)[a].instagramId == Some(profile.id) ::
                  users == old(users) && nextId == old(nextId)
                  && r == Authenticated(CreateToken(secret, now, a), Public(old(users)[a]))
      ensures !HasHeader(header) && !InstagramIdHeld(old(users), profile.id) ==>
                var id := old(nextId);
                id !in old(users) && users == old(users)[id := InstagramUser(profile)]
                && r == Authenticated(CreateToken(secret, now, id), InstagramUser(profile))
    {
      if !HasHeader(header) {
        r := ExchangeAnonymous(profile, now, secret);
        return;
      }
      r := Rejected(InvalidToken);
    }

    /**
     * The merge steps as written (server/server.js:147-153), as they run once
     * the acting user is resolved: copy the credentials onto the in-memory
     * absorber, remove the donor, save the absorber, mint its token.
     */
    method MergeAsWritten(absorber: Id, donor: Id, now: Time, secret: Secret) returns (r: Reply)
      requires Valid()
      requires absorber in users && donor in users
      modifies this
      ensures Valid()
      ensures users == AbsorbedAsWritten(old(users), absorber, donor) && nextId == old(nextId)
      ensures r == Authenticated(CreateToken(secret, now, absorber), Absorbing(old(users)[absorber], old(users)[donor]))
    {
      AbsorbedAsWrittenPreserves(users, nextId, absorber, donor);
      var existingUser := Absorbing(users[absorber], users[donor]);
      users := users - {donor};
      if absorber in users {
        users := users[absorber := existingUser];
      }
      r := Authenticated(CreateToken(secret, now, absorber), existingUser);
    }
  }
}
