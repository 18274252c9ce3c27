/**
 * Session tokens: the claim `createToken` builds (server/server.js:38-46)
 * and the codec jwt-simple applies to it. The codec here is a stand-in with
 * the same interface and the same failure behaviour: a token is the claim's
 * three numbers and a keyed signature, in decimal, joined by dots, and
 * decoding rejects anything that is not exactly such a token for the secret
 * at hand.
 */
module TokenCodec {

  import opened Wrappers
  import opened Text
  import Js
  import Users

  /** Seconds since the Unix epoch, as `moment().unix()` gives them. */
  type Time = nat

  /** The server-held signing key (`config.tokenSecret`). */
  type Secret = string

  const Day: nat := 86400

  /** `moment().add(14, 'days')`, counted as fourteen 24-hour days. */
  const Lifetime: nat := 14 * Day

  /** The token payload `{ exp, iat, sub }`. */
  datatype Claim = Claim(exp: Time, iat: Time, sub: Users.Id)

  /** The four text fields of a token: the claim's three numbers and the signature over them. */
  function Fields(secret: Secret, c: Claim): seq<string>
  {
    var body := [Decimal(c.exp), Decimal(c.iat), Decimal(c.sub)];
    body + [Decimal(Signature(secret, Join(body, '.')))]
  }

  /** A keyed checksum standing in for the HMAC that jwt-simple computes. */
  function Checksum(s: string): nat
  {
    if s == [] then 0 else (Checksum(s[..|s| - 1]) * 31 + s[|s| - 1] as int) % 0x1_0000_0000
  }

  function Signature(secret: Secret, payload: string): nat
  {
    Checksum(secret + "." + payload)
  }

  /** `jwt.encode(payload, secret)`: the four fields joined by dots, so the token holds no space. */
  function Encode(secret: Secret, c: Claim): (t: string)
    ensures Split(t, '.') == Fields(secret, c)
    ensures t != "" && ' ' !in t
  {
    var f := Fields(secret, c);
    FieldsCanonical(secret, c);
    SplitJoin(f, '.');
    JoinWithout(f, '.', ' ');
    assert Join(f, '.')[..|f[0]|] == f[0] && f[0] != "";
    Join(f, '.')
  }

  /**
   * `jwt.decode(token, secret)` on a string: the claim when the token is
   * well formed and its signature matches, nothing (jwt-simple throws) otherwise.
   * Expiry is not looked at here. Whatever it accepts is the encoding of
   * the claim it returns.
   */
  function Decode(secret: Secret, t: string): (r: Option<Claim>)
    ensures r.Some? ==> t == Encode(secret, r.value)
  {
    var parts := Split(t, '.');
    if |parts| != 4 then None
    else
      match (ParseDecimal(parts[0]), ParseDecimal(parts[1]), ParseDecimal(parts[2]), ParseDecimal(parts[3]))
      case (Some(exp), Some(iat), Some(sub), Some(sig)) =>
        if sig == Signature(secret, Join(parts[..3], '.')) then
          ParseDecimalExact(parts[0], exp);
          ParseDecimalExact(parts[1], iat);
          ParseDecimalExact(parts[2], sub);
          ParseDecimalExact(parts[3], sig);
          assert parts[..3] == [Decimal(exp), Decimal(iat), Decimal(sub)];
          assert parts == Fields(secret, Claim(exp, iat, sub));
          Some(Claim(exp, iat, sub))
        else None
      case _ => None
  }

  /**
   * `jwt.decode(token, secret)` on whatever JavaScript value it is given:
   * jwt-simple throws 'No token supplied' for a falsy token, and calls
   * `token.split('.')`, which throws unless the value is a string.
   */
  function JwtDecode(secret: Secret, token: Js.Value): (r: Option<Claim>)
    ensures r.Some? ==> token.Str? && Decode(secret, token.s) == r
    ensures token.Str? && token.s != "" ==> r == Decode(secret, token.s)
  {
    match token
    case Str(s) => if s == "" then None else Decode(secret, s)
    case _ => None
  }

  /** The claim `createToken(user)` signs at time `now`. */
  function MintClaim(now: Time, id: Users.Id): (c: Claim)
    ensures c.iat == now && c.exp == now + 14 * 86400 && c.sub == id
  {
    Claim(now + Lifetime, now, id)
  }

  /** `createToken(user)` at time `now`. */
  function CreateToken(secret: Secret, now: Time, id: Users.Id): (t: string)
    ensures Decode(secret, t) == Some(MintClaim(now, id))
    ensures t != "" && ' ' !in t
  {
    DecodeEncode(secret, MintClaim(now, id));
    Encode(secret, MintClaim(now, id))
  }

  /** A token's fields are decimals, so none of them holds a dot or a space. */
  lemma {:induction false} FieldsCanonical(secret: Secret, c: Claim)
    ensures |Fields(secret, c)| == 4
    ensures forall k :: 0 <= k < 4 ==> Canonical(Fields(secret, c)[k])
    ensures forall k :: 0 <= k < 4 ==> '.' !in Fields(secret, c)[k] && ' ' !in Fields(secret, c)[k]
  {
    var f := Fields(secret, c);
    DecimalCanonical(c.exp);
    DecimalCanonical(c.iat);
    DecimalCanonical(c.sub);
    DecimalCanonical(Signature(secret, Join(f[..3], '.')));
    assert f[..3] == [Decimal(c.exp), Decimal(c.iat), Decimal(c.sub)];
  }

  /** Decoding a token made with the same secret gives the claim back. */
  lemma DecodeEncode(secret: Secret, c: Claim)
    ensures Decode(secret, Encode(secret, c)) == Some(c)
  {
    var f := Fields(secret, c);
    FieldsCanonical(secret, c);
    SplitJoin(f, '.');
    assert f[..3] == [Decimal(c.exp), Decimal(c.iat), Decimal(c.sub)];
    ParseDecimalOfDecimal(c.exp);
    ParseDecimalOfDecimal(c.iat);
    ParseDecimalOfDecimal(c.sub);
    ParseDecimalOfDecimal(Signature(secret, Join(f[..3], '.')));
  }

  /** The only string accepted as a token for a claim is that claim's encoding. */
  lemma DecodeExact(secret: Secret, t: string, c: Claim)
    ensures Decode(secret, t) == Some(c) <==> t == Encode(secret, c)
  {
    if t == Encode(secret, c) {
      DecodeEncode(secret, c);
    }
  }
}
