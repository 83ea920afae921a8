/**
 * An abstract model of the parts of the golang-jwt (v5) library the provider uses: a JWS compact
 * token (section 7.1 of RFC 7515) seen as the triple (alg, claims, tag), the registered claims of
 * section 4.1 of RFC 7519, and `ParseWithClaims` with its default validator.
 *
 * Cryptography and encoding are foreign: the HMAC (section 3.2 of RFC 7518), the verification
 * of every other algorithm, and the base64url/JSON serialization are function values in `Crypto`
 * that the model never looks inside. What the model assumes of them is stated by the predicates
 * `WellFormedCodec` and `SeparatesSecrets`, as `requires` of the lemmas that need them.
 */
module Jwt {
  import opened Wrappers

  /** The `alg` header. HS256/384/512 are the HMAC family; every other name is `Other`. */
  datatype Alg = HS256 | HS384 | HS512 | Other(name: string)

  predicate IsHmac(alg: Alg)
  {
    alg.HS256? || alg.HS384? || alg.HS512?
  }

  function AlgName(alg: Alg): string
  {
    match alg
    case HS256 => "HS256"
    case HS384 => "HS384"
    case HS512 => "HS512"
    case Other(name) => name
  }

  /** A secret key; the source's `[]byte(secret)` conversion is one-to-one, so the string stands in. */
  type Secret = string

  /** `CustomClaims`: the email claim and the registered claims (a NumericDate is whole seconds). */
  datatype Claims = Claims(
    issuer: string,
    subject: string,
    email: string,
    issuedAt: Option<int>,
    notBefore: Option<int>,
    expiresAt: Option<int>)

  type Tag = seq<int>

  /** A decoded compact token: header algorithm, payload, signature. */
  datatype Jws = Jws(alg: Alg, claims: Claims, tag: Tag)

  /** The foreign operations, as values. */
  datatype Crypto = Crypto(
    mac: (Secret, Alg, Claims) -> Tag,                  // HMAC over header and payload
    foreignVerify: (Alg, Secret, Claims, Tag) -> bool,  // any non-HMAC method's Verify
    encode: Jws -> string,                              // compact serialization
    decode: string -> Option<Jws>,                      // ParseUnverified; None when malformed
    signError: Secret -> Option<string>)                // the error SignedString may return

  /**
   * A decoded `alg` header is canonical: the names HS256, HS384 and HS512 are read as the HMAC
   * constructors, so `Other` never carries one of them.
   */
  predicate CanonicalAlg(alg: Alg)
  {
    !(alg.Other? && alg.name in {"HS256", "HS384", "HS512"})
  }

  /**
   * The serialization is a codec: decoding an encoded token with a canonical header gives it
   * back, a compact token (three base64url parts joined by dots) is never empty and holds no
   * space, and whatever decodes has a canonical header. `CodecWitness.AssumptionsSatisfiable`
   * exhibits a `Crypto` meeting this and `SeparatesSecrets`.
   */
  ghost predicate WellFormedCodec(c: Crypto)
  {
    && (forall t: Jws :: CanonicalAlg(t.alg) ==> c.decode(c.encode(t)) == Some(t))
    && (forall t :: c.encode(t) != [] && ' ' !in c.encode(t))
    && (forall s :: c.decode(s).Some? ==> CanonicalAlg(c.decode(s).value.alg))
  }

  /** The cryptographic assumption behind secret separation: a tag made under one secret is never the tag under another. */
  ghost predicate SeparatesSecrets(c: Crypto)
  {
    forall k1, k2, alg, claims :: k1 != k2 ==> c.mac(k1, alg, claims) != c.mac(k2, alg, claims)
  }

  /** Why ParseWithClaims fails. A claims failure lists every failed check, as v5 does. */
  datatype ParseError =
    | Malformed
    | Unverifiable(reason: string)
    | SignatureInvalid
    | ClaimsInvalid(expired: bool, notYetValid: bool)

  /** The error text; the library's sentinel messages, joined the way its error wrapper does. */
  function ParseErrorText(e: ParseError): string
  {
    match e
    case Malformed => "token is malformed"
    case Unverifiable(reason) => "token is unverifiable: error while executing keyfunc: " + reason
    case SignatureInvalid => "token signature is invalid"
    case ClaimsInvalid(expired, notYet) =>
      "token has invalid claims: "
      + (if expired then "token is expired" else "")
      + (if expired && notYet then ", " else "")
      + (if notYet then "token is not valid yet" else "")
  }

  /** Method.Verify with the key the key function returned. */
  predicate MethodVerifies(c: Crypto, t: Jws, key: Secret)
  {
    if IsHmac(t.alg) then t.tag == c.mac(key, t.alg, t.claims)
    else c.foreignVerify(t.alg, key, t.claims, t.tag)
  }

  /** `exp`, when present, must lie strictly after `now`. */
  predicate Expired(claims: Claims, now: int)
  {
    claims.expiresAt.Some? && !(now < claims.expiresAt.value)
  }

  /** `nbf`, when present, must not lie after `now`. */
  predicate NotYetValid(claims: Claims, now: int)
  {
    claims.notBefore.Some? && now < claims.notBefore.value
  }

  /** The default validator: exp and nbf only (iat is checked only on request, and no caller asks). */
  predicate TimeValid(claims: Claims, now: int)
  {
    !Expired(claims, now) && !NotYetValid(claims, now)
  }

  /**
   * `jwt.ParseWithClaims(s, &CustomClaims{}, keyFunc)` at time `now`: decode, ask the key
   * function for a key, verify the signature, then validate the time claims.
   */
  function ParseWithClaims(c: Crypto, s: string, keyFunc: Alg -> Result<Secret, string>, now: int)
    : (r: Result<Claims, ParseError>)
    ensures r.Success? <==>
      && c.decode(s).Some?
      && keyFunc(c.decode(s).value.alg).Success?
      && MethodVerifies(c, c.decode(s).value, keyFunc(c.decode(s).value.alg).value)
      && TimeValid(c.decode(s).value.claims, now)
    ensures r.Success? ==> r.value == c.decode(s).value.claims
  {
    match c.decode(s)
    case None => Failure(Malformed)
    case Some(t) =>
      match keyFunc(t.alg)
      case Failure(reason) => Failure(Unverifiable(reason))
      case Success(key) =>
        if !MethodVerifies(c, t, key) then Failure(SignatureInvalid)
        else if !TimeValid(t.claims, now) then
          Failure(ClaimsInvalid(Expired(t.claims, now), NotYetValid(t.claims, now)))
        else Success(t.claims)
  }

  /** A token whose exp has passed fails with an expiry error whatever its signature. */
  lemma ExpiredTokenFails(c: Crypto, s: string, keyFunc: Alg -> Result<Secret, string>, now: int)
    requires c.decode(s).Some? && Expired(c.decode(s).value.claims, now)
    ensures ParseWithClaims(c, s, keyFunc, now).Failure?
    ensures var e := ParseWithClaims(c, s, keyFunc, now).error;
      e.SignatureInvalid? || e.Unverifiable? || (e.ClaimsInvalid? && e.expired)
  {
  }
}
