# Authentication and account linking of instagram-clone, in Dafny

The server of instagram-clone issues signed session tokens to users who sign
up with an email and password or who authorize through Instagram, and it can
attach an Instagram identity to a local account. This project models that
engine and proves what each step does to the user store:

- `TokenCodec`: the claim `createToken` builds, `{exp = now + 14 days, iat = now, sub = id}`,
  and a token codec with the interface and failure behaviour of jwt-simple.
  Decoding a token made with the same secret gives its claim back. For this
  codec, the only string accepted for a claim is that claim's encoding.
- `Session`: the `isAuthenticated` middleware. Its checks run in order and
  each one ends the request: header missing, then token not decodable, then
  expired (strictly after `exp`), then user missing, then success with the
  store's record attached without its password digest (the schema's
  `select: false`, server/server.js:18).
- `Accounts`: `/auth/login` as a function of the store. `/auth/signup` and
  `/auth/instagram` are methods of the class `UserStore`. The class holds a
  `map<Id, User>` and the next free id, and it changes records in place. The
  store invariant holds before and after every method: email and
  `instagramId` are each held by at most one record, and a record has an
  email exactly when it has a password digest.
- `Credentials`: bcrypt as a digest datatype. In this model a digest verifies
  exactly the plaintext it was made from.
- `Users`: the `User` record, the provider profile, the store lookups and the record updates.
- `Text`: JavaScript's `split` and decimal numbers.
- `Js`: the JavaScript value shapes the libraries check.
- `Replies`, `Wrappers`: replies, failures, `Option` and `Result`.

Inputs the server gets from its environment are parameters:

- the clock is `now`, in seconds;
- the salt's random bits are `nonce`;
- the signing key is `secret`;
- the Instagram token response is a `Profile` value.

Three places where the code does something its authors evidently did not
intend are listed under "## Findings". For each, the project has a member
that models the code as written and a lemma that shows the discrepancy. It
also has a corrected member, and the corrected member is the main model:
`UserStore.Signup`, `UserStore.OAuthExchange`, `UserStore.Merge`.

Behaviour of the code that the model keeps as it is:

- **Expiry.** A token is refused only when `now > exp` (server/server.js:65).
  A token is still accepted in the second `now == exp`.
- **Digest in replies.** The schema marks the password `select: false`
  (server/server.js:18), so a query without `'+password'` returns no digest.
  The user the gate attaches and the user of the anonymous provider login
  therefore carry none. Login fetches the digest and deletes it from the
  user it returns (server/server.js:112-113). Signup, link and merge reply
  with the record they saved, digest included.
- **Expiry in the exchange.** The session branch of the provider exchange
  does not check expiry (server/server.js:138-141). The model keeps this,
  and `Accounts.SessionBranchIgnoresExpiry` states it.
- **Merge order.** `UserStore.MergeAsWritten` removes the donor and then
  saves the absorber, even when the two are one record. `UserStore.Merge`
  keeps that order for two distinct records: saving the absorber first
  would give two records the donor's email, which the unique email index
  refuses. For one record it changes nothing. `UserStore.OAuthExchange`
  uses `Merge`.
- **Uniqueness of `instagramId`.** The schema only indexes `instagramId`
  (server/server.js:16) and does not make it unique. Its uniqueness is
  proved here as an invariant that every operation keeps.

## Model

| member | source | states |
|---|---|---|
| `Credentials.GenSalt` | server/server.js:89 | a salt drawn for signup carries the requested cost factor |
| `Credentials.Hash` | server/server.js:90-91 | the digest is tied to the salt it was made with |
| `Credentials.GetSalt` | server/server.js:89 | bcryptjs's `getSalt` succeeds only on a 60-character digest string and throws otherwise |
| `Credentials.GetSaltRejectsRounds` | server/server.js:89 | given the cost factor 10 instead of a digest, `getSalt` throws "Illegal arguments: number" |
| `Credentials.Compare` | server/server.js:108 | a missing digest never matches; a present one matches exactly when it is the password hashed with the digest's own salt |
| `Credentials.CompareHash` | server/server.js:108 | in this model, `compare(q, hash(p))` holds exactly when `q == p` |
| `Credentials.HashSalted` | server/server.js:89-90 | one password hashed with two different salts gives two different digests |
| `Text.SplitJoin` | server/server.js:60 | splitting a join of separator-free pieces gives the pieces back, which is how the header "scheme token" is taken apart |
| `Text.Split` | server/server.js:60 | `split` gives at least one piece, no piece holds the separator, and joining the pieces restores the string |
| `Text.ParseDecimalExact` | server/server.js:62 | a token field reads as `n` exactly when it is the decimal rendering of `n` |
| `Js.Element` | server/server.js:61 | `header[1]` is a string exactly when the split has a second piece, and `undefined` otherwise |
| `TokenCodec.MintClaim` | server/server.js:39-43 | the minted claim has `iat = now`, `exp = now + 14·86400` and `sub` the user's id |
| `TokenCodec.CreateToken` | server/server.js:38-46 | decoding a minted token with the same secret gives its claim; the token is non-empty and has no space |
| `TokenCodec.Encode` | server/server.js:45 | a token's dot-separated pieces are the claim's fields and signature; the token is non-empty and has no space |
| `TokenCodec.Decode` | server/server.js:62 | whatever the decode accepts is the encoding of the claim it returns |
| `TokenCodec.DecodeEncode` | server/server.js:45 | decode after encode with the same secret returns the claim |
| `TokenCodec.DecodeExact` | server/server.js:62 | a string decodes to a claim if and only if it is that claim's encoding under the secret |
| `TokenCodec.JwtDecode` | server/server.js:62 | `jwt.decode` yields a claim only for a non-empty string argument, and then the codec's claim |
| `Users.LocalUser` | server/server.js:84-91 | the signup record holds the email and a digest, and no provider id |
| `Users.InstagramUser` | server/server.js:178-184 | the created provider record holds the profile id and no email or password |
| `Users.WithProfile` | server/server.js:158-162 | linking sets the five profile fields and keeps email and password |
| `Users.Absorbing` | server/server.js:147-148 | the absorber takes the donor's email and password and keeps its own provider fields |
| `Users.Public` | server/server.js:112-113 | the login reply's user is the record with no password field and otherwise unchanged |
| `Users.FindByEmail` | server/server.js:80 | the lookup misses exactly when no record has the email, and a hit has it |
| `Users.FindByInstagramId` | server/server.js:136 | the lookup misses exactly when no record holds the provider id, and a hit holds it |
| `Users.FindByEmailExact` | server/server.js:17 | with unique emails, the lookup returns the one record holding the email |
| `Users.FindByInstagramIdExact` | server/server.js:174 | with unique provider ids, the lookup returns the one record holding it |
| `Session.IsAuthenticated` | server/server.js:56-77 | each outcome exactly when its case holds, in order: missing token exactly when there is no non-empty header; invalid token exactly when the header's token does not decode; expired exactly when `now > exp`; "User no longer exists" exactly when live and `sub` is not stored; success exactly when live and `sub` is stored, attaching that record without its digest |
| `Session.GateRefusesMissingHeader` | server/server.js:57-58 | an absent or empty header counts as missing and gets the 400 missing-token reply |
| `Session.BearerToken` | server/server.js:60-61 | `header[1]` is a string exactly when the header has a space, and then it holds no space |
| `Session.Presented` | server/server.js:62 | a claim comes out of the header only when its token is that claim's encoding |
| `Replies.Message` | server/server.js:106-110 | only the two login failures have a message scoped to a field; a failure the source does not catch has no message |
| `Replies.Status` | server/server.js:58-70 | every failure's status is a 4xx or 5xx code, and 500 exactly when the failure has no message |
| `Session.BearerTokenOf` | server/server.js:60-61 | in a header "scheme token", element [1] of the split is the token |
| `Session.GateAdmitsLiveToken` | server/server.js:56-75 | a token minted at `t` for a stored record passes the gate at any time up to `t + 14 days`, attaching that record without its digest |
| `Session.GateExpiryBoundary` | server/server.js:65-66 | a token is still accepted in the second it expires and refused as expired in the next, whether or not its user exists |
| `Session.GateRefusesDeletedSubject` | server/server.js:68-70 | a live token whose user is gone fails with "User no longer exists" |
| `Session.GateRefusesBareHeader` | server/server.js:60-62 | a header with no space has no token, and decoding the missing token fails |
| `Accounts.Login` | server/server.js:103-119 | "Incorrect email" exactly when no record has the email; "Incorrect password" exactly when the record's digest does not verify; otherwise the record without its digest and a token for its id |
| `Accounts.LoginFailuresFieldScoped` | server/server.js:105-110 | each login failure is a 401 whose message names the field at fault, email when no record has it and password otherwise |
| `Accounts.LoginTokenPassesGate` | server/server.js:115 | the token login returns opens the gate until it expires, and the gate attaches exactly the user login replied with, the record with that email |
| `Accounts.LoginAfterSignup` | server/server.js:84-110 | in this model, after signup adds a record, login with that email succeeds exactly for the signup password and fails on the password otherwise |
| `Accounts.SignupAsWritten` | server/server.js:79-101 | as written, signup never succeeds: "Email is already taken" exactly when the email is held, otherwise bcryptjs's `getSalt` throws |
| `Accounts.LinkDecodeAsWritten` | server/server.js:138-139 | decoding the whole split array never yields a claim |
| `Accounts.LinkDecodeAsWrittenRefusesLiveSession` | server/server.js:138-139 | a header the gate admits is still undecodable by the link branch as written |
| `Accounts.LinkDecodeOfSession` | server/server.js:60-62 | decoding element [1] of the header recovers the session's claim |
| `Accounts.SessionBranchIgnoresExpiry` | server/server.js:138-141 | the link branch resolves the acting user from a token that the gate refuses as expired |
| `Accounts.AbsorbedAsWritten` | server/server.js:147-152 | after the merge as written the donor is gone, no other record is added, and a distinct absorber has the donor's credentials |
| `Accounts.Absorbed` | server/server.js:145-154 | the corrected merge: the absorber has the donor's credentials, a distinct donor is gone and the store is one record smaller, and a self-merge changes nothing |
| `Accounts.RemoveThenSave` | server/server.js:150-152 | for two distinct records, removing the donor and then saving the absorber gives the corrected merge |
| `Accounts.SelfMergeAsWrittenLosesAccount` | server/server.js:145-153 | as written, merging a user with itself deletes its record, and the token handed out is then refused by the gate |
| `Accounts.InsertPreserves` | server/server.js:15-17 | adding a record whose email and provider id are unused keeps the store invariant |
| `Accounts.LinkPreserves` | server/server.js:156-166 | linking an unclaimed provider id keeps the store invariant |
| `Accounts.AbsorbedPreserves` | server/server.js:145-154 | the corrected merge keeps the store invariant |
| `Accounts.AbsorbedAsWrittenPreserves` | server/server.js:147-152 | the merge as written keeps the store invariant |
| `Accounts.UserStore.Create` | server/server.js:93 | a save adds exactly one record under a fresh id and keeps the invariant |
| `Accounts.UserStore.Signup` | server/server.js:79-101 | with the email held: 409 "Email is already taken" and no store change; otherwise exactly one new record with the email and `Hash(password)`, and a token whose subject is its id |
| `Accounts.UserStore.ExchangeAnonymous` | server/server.js:172-191 | if a record holds the provider id: a token for it, that record without its digest, and no store change; otherwise exactly one new record with the profile and no email or password |
| `Accounts.UserStore.OAuthExchange` | server/server.js:121-194 | the four outcomes: login, create, link, merge; plus the failures for an undecodable token and an unknown acting user; every token handed out names a record that exists afterwards, and the reply's user is that record, with or without its digest |
| `Accounts.UserStore.Link` | server/server.js:156-166 | the acting user gains the provider fields; no record is deleted or added and the others are unchanged; the token's subject is the acting user |
| `Accounts.UserStore.Merge` | server/server.js:145-154 | the store becomes `Absorbed(old store, owner, acting user)` and the token's subject is the provider id's owner |
| `Accounts.UserStore.OAuthExchangeAsWritten` | server/server.js:134-139 | as written, every request with a session header fails at the decode with no store change; the anonymous branch is as above |
| `Accounts.UserStore.MergeAsWritten` | server/server.js:147-153 | the store becomes `AbsorbedAsWritten(old store, absorber, donor)` and the token names the absorber |

## Findings

| source | as written | input that shows it | evidently intended | confidence | as-written member | corrected member |
|---|---|---|---|---|---|---|
| server/server.js:89 | `bcrypt.getSalt(10, callback)`. bcryptjs's `getSalt` takes an existing digest string and throws on a number. | a signup with an email no record holds | `bcrypt.genSalt(10, callback)`, then hash and save | medium: rests on bcryptjs's `getSalt` signature, which is not part of this model; not executed | `Accounts.SignupAsWritten` | `Accounts.UserStore.Signup` (with `Accounts.LoginAfterSignup`) |
| server/server.js:138-139 | `jwt.decode(header.split(' '), secret)`, an array where jwt-simple expects a string (it calls `token.split('.')`) | the header "Bearer " followed by a token the gate accepts | decode element [1], as server/server.js:60-62 does | medium: rests on jwt-simple's `decode`, which is not part of this model; not executed | `Accounts.LinkDecodeAsWrittenRefusesLiveSession` | `Accounts.UserStore.OAuthExchange` (with `Accounts.LinkDecodeOfSession`) |
| server/server.js:145-152 | the donor is removed before the absorber is saved, and nothing checks that they are different records | an acting user who already holds the provider id authorizes it again | no merge when the two are one record; for two records, the donor removed and the absorber saved, as written | medium: rests on a Mongoose save of a removed document not re-inserting it; not executed | `Accounts.SelfMergeAsWrittenLosesAccount` | `Accounts.UserStore.Merge` (with `Accounts.Absorbed`) |

## Left out

- HTTP plumbing is not modelled: Express setup, CORS, body parsing, static files, `app.listen` and `mongoose.connect` (server/server.js:11-31, 196-198). The transport layer is the system's plumbing, not its logic.
- The request to Instagram's token endpoint (server/server.js:122-133) is a network call. The model takes its result as a `Profile` input. The source reads `body.user` without checking it, so a failed exchange is not modelled either.
- Callbacks and the order of I/O are not modelled. Each handler runs as one atomic step on the store. So signups or links racing each other are left out. So is the window between removing the donor and saving the absorber.
- Store errors are not modelled. The source ignores the `err` of every `findOne`, `findById` and `save`.
- The schema's `lowercase: true` on email (server/server.js:17) is not modelled: emails are compared exactly as given.
- MongoDB's unique index treats a missing email as a value of its own, so it admits only one record without an email. The model does not have this, and the store has no index constraints of its own. Uniqueness is proved as an invariant, over the records that hold a value.
- `TokenCodec.MintClaim`: `exp` is `now + 14·86400`. moment adds 14 calendar days in local time, which differs by an hour across a daylight-saving change. The model also reads the clock once where the source reads it twice.
- `TokenCodec.Signature` is a keyed checksum in place of jwt-simple's HMAC-SHA256. The token layout (four decimal fields joined by dots) stands in for JWT's base64url segments. Unforgeability is not modelled. Nothing is proved about decoding a token with a different secret.
- `Credentials.CompareHash`: passwords are compared whole. bcrypt only uses the first 72 bytes of a password, so two passwords that agree on those bytes both match a digest; the model does not have this.
- `Credentials.Hash`: the digest keeps the plaintext it was made from. The one-way function, the cost of 10 rounds and constant-time comparison are not modelled.
- `Replies.Status` gives 500 for exceptions the source does not catch, and `Replies.Message` gives them no message. In the gate Express answers a thrown decode with its default error page. Inside a callback the throw goes to Node's uncaught-exception handling and no reply is sent.
- `Accounts.UserStore.MergeAsWritten`: the source cannot reach this merge step, because the decode before it always throws. It models server/server.js:147-153 as they would run once that decode is fixed.
- `client/controllers/home.controller.js` is not part of this model. It only forwards to the client's auth library and writes to `localStorage`.
