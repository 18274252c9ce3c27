/**
 * The `User` record of the store (server/server.js:15-23), the lookups the
 * handlers run against the store, and the store invariants: `email` and
 * `instagramId` are each held by at most one record, and a record carries an
 * email exactly when it carries a password digest.
 */
module Users {

  import opened Wrappers
  import opened Credentials

  /** A record's `_id`; the store allocates fresh ones. */
  type Id = nat

  /** Every schema field is optional, as a Mongoose document's are. */
  datatype User = User(
    instagramId: Option<string>,
    email: Option<string>,
    password: Option<Digest>,
    username: Option<string>,
    fullName: Option<string>,
    picture: Option<string>,
    accessToken: Option<string>)

  /** The part of the provider's token response the server reads: `body.user` and `body.access_token`. */
  datatype Profile = Profile(
    id: string,
    username: string,
    fullName: string,
    picture: string,
    accessToken: string)

  /** The record signup creates (server/server.js:84-91). */
  function LocalUser(email: string, digest: Digest): (u: User)
    ensures u.email == Some(email) && u.password == Some(digest)
    ensures u.instagramId.None?
  {
    User(None, Some(email), Some(digest), None, None, None, None)
  }

  /** The record the anonymous provider entry creates (server/server.js:178-184). */
  function InstagramUser(p: Profile): (u: User)
    ensures u.instagramId == Some(p.id) && u.email.None? && u.password.None?
  {
    User(Some(p.id), None, None, Some(p.username), Some(p.fullName), Some(p.picture), Some(p.accessToken))
  }

  /** The five provider fields copied onto a record when it is linked (server/server.js:158-162). */
  function WithProfile(u: User, p: Profile): (v: User)
    ensures v.instagramId == Some(p.id) && v.username == Some(p.username)
    ensures v.fullName == Some(p.fullName) && v.picture == Some(p.picture)
    ensures v.accessToken == Some(p.accessToken)
    ensures v.email == u.email && v.password == u.password
  {
    u.(instagramId := Some(p.id), username := Some(p.username), fullName := Some(p.fullName),
       picture := Some(p.picture), accessToken := Some(p.accessToken))
  }

  /** The absorber of a merge takes the donor's credentials (server/server.js:147-148). */
  function Absorbing(absorber: User, donor: User): (v: User)
    ensures v.email == donor.email && v.password == donor.password
    ensures v.instagramId == absorber.instagramId && v.username == absorber.username
    ensures v.fullName == absorber.fullName && v.picture == absorber.picture
    ensures v.accessToken == absorber.accessToken
  {
    absorber.(email := donor.email, password := donor.password)
  }

  /** The record with its digest deleted, as login returns it (server/server.js:112-113). */
  function Public(u: User): (v: User)
    ensures v.password.None?
    ensures v == u.(password := None)
  {
    u.(password := None)
  }

  ghost predicate EmailsUnique(users: map<Id, User>)
  {
    forall a, b | a in users && b in users && users[a].email.Some? && users[a].email == users[b].email :: a == b
  }

  ghost predicate InstagramIdsUnique(users: map<Id, User>)
  {
    forall a, b | a in users && b in users && users[a].instagramId.Some? && users[a].instagramId == users[b].instagramId :: a == b
  }

  ghost predicate CredentialsPaired(users: map<Id, User>)
  {
    forall a | a in users :: users[a].email.Some? <==> users[a].password.Some?
  }

  /** Some record holds this email. */
  predicate EmailHeld(users: map<Id, User>, email: string)
  {
    exists a | a in users :: users[a].email == Some(email)
  }

  /** Some record holds this provider id. */
  predicate InstagramIdHeld(users: map<Id, User>, pid: string)
  {
    exists a | a in users :: users[a].instagramId == Some(pid)
  }

  /** `User.findOne({ email })`. */
  function FindByEmail(users: map<Id, User>, email: string): (r: Option<Id>)
    requires EmailsUnique(users)
    ensures r.None? <==> !EmailHeld(users, email)
    ensures r.Some? ==> r.value in users && users[r.value].email == Some(email)
  {
    if EmailHeld(users, email) then
      var a :| a in users && users[a].email == Some(email); Some(a)
    else None
  }

  /** `User.findOne({ instagramId })`. */
  function FindByInstagramId(users: map<Id, User>, pid: string): (r: Option<Id>)
    requires InstagramIdsUnique(users)
    ensures r.None? <==> !InstagramIdHeld(users, pid)
    ensures r.Some? ==> r.value in users && users[r.value].instagramId == Some(pid)
  {
    if InstagramIdHeld(users, pid) then
      var a :| a in users && users[a].instagramId == Some(pid); Some(a)
    else None
  }

  /** An email, once held, is held by the record the lookup returns and no other. */
  lemma FindByEmailExact(users: map<Id, User>, email: string, a: Id)
    requires EmailsUnique(users)
    requires a in users && users[a].email == Some(email)
    ensures FindByEmail(users, email) == Some(a)
  {
  }

  lemma FindByInstagramIdExact(users: map<Id, User>, pid: string, a: Id)
    requires InstagramIdsUnique(users)
    requires a in users && users[a].instagramId == Some(pid)
    ensures FindByInstagramId(users, pid) == Some(a)
  {
  }
}
