/**
 * A concrete `Crypto` showing that the assumptions `Jwt.WellFormedCodec` and
 * `Jwt.SeparatesSecrets` can hold together, so the lemmas that require them are not vacuous.
 *
 * The serialization flattens a token into natural numbers (tagged algorithm, length-prefixed
 * strings, signed integers, optional claims, length-prefixed tag) and writes each number in
 * unary as `a…ab`. The "MAC" is the secret's code points, which separates secrets trivially.
 * Nothing here models the library; it only witnesses that the model's assumptions are consistent.
 */
module CodecWitness {
  import opened Wrappers
  import opened Jwt

  /** What a reader produced and the input left after it. */
  datatype Read<T> = Read(value: T, rest: seq<nat>)

  // ---- Numbers as unary text ----

  function Unary(n: nat): string
  {
    seq(n, _ => 'a') + "b"
  }

  function Pack(xs: seq<nat>): string
  {
    if xs == [] then "" else Unary(xs[0]) + Pack(xs[1..])
  }

  /** Reads one unary number; what is left is strictly shorter. */
  function ReadUnary(s: string): (r: Option<(nat, string)>)
    ensures r.Some? ==> |r.value.1| < |s|
  {
    if s == [] then None
    else if s[0] == 'b' then Some((0, s[1..]))
    else if s[0] == 'a' then
      match ReadUnary(s[1..])
      case None => None
      case Some((n, rest)) => Some((n + 1, rest))
    else None
  }

  function Unpack(s: string): Option<seq<nat>>
    decreases |s|
  {
    if s == [] then Some([])
    else
      match ReadUnary(s)
      case None => None
      case Some((n, rest)) =>
        match Unpack(rest)
        case None => None
        case Some(xs) => Some([n] + xs)
  }

  lemma {:induction false} ReadUnaryOfUnary(n: nat, rest: string)
    ensures ReadUnary(Unary(n) + rest) == Some((n, rest))
  {
    if n > 0 {
      assert (Unary(n) + rest)[0] == 'a';
      assert (Unary(n) + rest)[1..] == Unary(n - 1) + rest;
      ReadUnaryOfUnary(n - 1, rest);
    } else {
      assert (Unary(n) + rest)[1..] == rest;
    }
  }

  lemma {:induction false} UnpackPack(xs: seq<nat>)
    ensures Unpack(Pack(xs)) == Some(xs)
  {
    if xs != [] {
      ReadUnaryOfUnary(xs[0], Pack(xs[1..]));
      UnpackPack(xs[1..]);
      assert [xs[0]] + xs[1..] == xs;
    }
  }

  lemma {:induction false} PackLetters(xs: seq<nat>)
    ensures forall i :: 0 <= i < |Pack(xs)| ==> Pack(xs)[i] in {'a', 'b'}
  {
    if xs != [] {
      PackLetters(xs[1..]);
    }
  }

  // ---- Tokens as numbers ----

  predicate IsCharCode(n: int)
  {
    0 <= n < 0xD800 || 0xE000 <= n < 0x11_0000
  }

  function EncInt(v: int): seq<nat>
  {
    if v >= 0 then [0, v] else [1, -v]
  }

  function ReadInt(xs: seq<nat>): Option<Read<int>>
  {
    if |xs| < 2 then None
    else if xs[0] == 0 then Some(Read(xs[1] as int, xs[2..]))
    else Some(Read(-(xs[1] as int), xs[2..]))
  }

  lemma ReadIntOfEnc(v: int, rest: seq<nat>)
    ensures ReadInt(EncInt(v) + rest) == Some(Read(v, rest))
  {
    assert (EncInt(v) + rest)[2..] == rest;
  }

  function EncString(s: string): seq<nat>
  {
    [|s|] + seq(|s|, i requires 0 <= i < |s| => s[i] as int)
  }

  function ReadString(xs: seq<nat>): Option<Read<string>>
  {
    if |xs| == 0 || |xs| < 1 + xs[0] then None
    else if forall i :: 1 <= i < 1 + xs[0] ==> IsCharCode(xs[i]) then
      Some(Read(seq(xs[0], i requires 0 <= i < xs[0] => xs[1 + i] as char), xs[1 + xs[0]..]))
    else None
  }

  lemma ReadStringOfEnc(s: string, rest: seq<nat>)
    ensures ReadString(EncString(s) + rest) == Some(Read(s, rest))
  {
    var xs := EncString(s) + rest;
    assert xs[0] == |s|;
    forall i | 1 <= i < 1 + |s|
      ensures IsCharCode(xs[i]) && xs[i] as char == s[i - 1]
    {
      assert xs[i] == s[i - 1] as int;
    }
    assert xs[1 + |s|..] == rest;
    assert seq(|s|, i requires 0 <= i < |s| => xs[1 + i] as char) == s;
  }

  function EncOpt(o: Option<int>): seq<nat>
  {
    match o
    case None => [0]
    case Some(v) => [1] + EncInt(v)
  }

  function ReadOpt(xs: seq<nat>): Option<Read<Option<int>>>
  {
    if |xs| == 0 then None
    else if xs[0] == 0 then Some(Read(None, xs[1..]))
    else
      match ReadInt(xs[1..])
      case None => None
      case Some(Read(v, rest)) => Some(Read(Some(v), rest))
  }

  lemma ReadOptOfEnc(o: Option<int>, rest: seq<nat>)
    ensures ReadOpt(EncOpt(o) + rest) == Some(Read(o, rest))
  {
    assert (EncOpt(o) + rest)[1..] == if o.None? then rest else EncInt(o.value) + rest;
    if o.Some? {
      ReadIntOfEnc(o.value, rest);
    }
  }

  function EncInts(vs: seq<int>): seq<nat>
  {
    if vs == [] then [] else EncInt(vs[0]) + EncInts(vs[1..])
  }

  function ReadInts(n: nat, xs: seq<nat>): Option<Read<seq<int>>>
  {
    if n == 0 then Some(Read([], xs))
    else
      match ReadInt(xs)
      case None => None
      case Some(Read(v, rest)) =>
        match ReadInts(n - 1, rest)
        case None => None
        case Some(Read(vs, rest')) => Some(Read([v] + vs, rest'))
  }

  lemma {:induction false} ReadIntsOfEnc(vs: seq<int>, rest: seq<nat>)
    ensures ReadInts(|vs|, EncInts(vs) + rest) == Some(Read(vs, rest))
  {
    if vs != [] {
      assert EncInts(vs) + rest == EncInt(vs[0]) + (EncInts(vs[1..]) + rest);
      ReadIntOfEnc(vs[0], EncInts(vs[1..]) + rest);
      ReadIntsOfEnc(vs[1..], rest);
      assert ReadInt(EncInts(vs) + rest) == Some(Read(vs[0], EncInts(vs[1..]) + rest));
      assert ReadInts(|vs| - 1, EncInts(vs[1..]) + rest) == Some(Read(vs[1..], rest));
      assert [vs[0]] + vs[1..] == vs;
      assert ReadInts(|vs|, EncInts(vs) + rest) == Some(Read([vs[0]] + vs[1..], rest));
    } else {
      assert EncInts(vs) + rest == rest;
    }
  }

  function EncTag(tag: Tag): seq<nat>
  {
    [|tag|] + EncInts(tag)
  }

  function ReadTag(xs: seq<nat>): Option<Read<Tag>>
  {
    if |xs| == 0 then None else ReadInts(xs[0], xs[1..])
  }

  lemma ReadTagOfEnc(tag: Tag, rest: seq<nat>)
    ensures ReadTag(EncTag(tag) + rest) == Some(Read(tag, rest))
  {
    assert (EncTag(tag) + rest)[1..] == EncInts(tag) + rest;
    ReadIntsOfEnc(tag, rest);
  }

  function EncAlg(alg: Alg): seq<nat>
  {
    match alg
    case HS256 => [0]
    case HS384 => [1]
    case HS512 => [2]
    case Other(name) => [3] + EncString(name)
  }

  /** Reads an algorithm; an `Other` spelled like an HMAC name is refused, so every result is canonical. */
  function ReadAlg(xs: seq<nat>): (r: Option<Read<Alg>>)
    ensures r.Some? ==> CanonicalAlg(r.value.value)
  {
    if |xs| == 0 then None
    else if xs[0] == 0 then Some(Read(HS256, xs[1..]))
    else if xs[0] == 1 then Some(Read(HS384, xs[1..]))
    else if xs[0] == 2 then Some(Read(HS512, xs[1..]))
    else if xs[0] == 3 then
      match ReadString(xs[1..])
      case None => None
      case Some(Read(name, rest)) =>
        if name in {"HS256", "HS384", "HS512"} then None else Some(Read(Other(name), rest))
    else None
  }

  lemma ReadAlgOfEnc(alg: Alg, rest: seq<nat>)
    requires CanonicalAlg(alg)
    ensures ReadAlg(EncAlg(alg) + rest) == Some(Read(alg, rest))
  {
    if alg.Other? {
      assert (EncAlg(alg) + rest)[1..] == EncString(alg.name) + rest;
      ReadStringOfEnc(alg.name, rest);
    } else {
      assert (EncAlg(alg) + rest)[1..] == rest;
    }
  }

  function EncClaims(c: Claims): seq<nat>
  {
    EncString(c.issuer) + EncString(c.subject) + EncString(c.email)
    + EncOpt(c.issuedAt) + EncOpt(c.notBefore) + EncOpt(c.expiresAt)
  }

  function ReadClaims(xs: seq<nat>): Option<Read<Claims>>
  {
    match ReadString(xs)
    case None => None
    case Some(Read(issuer, xs1)) =>
      match ReadString(xs1)
      case None => None
      case Some(Read(subject, xs2)) =>
        match ReadString(xs2)
        case None => None
        case Some(Read(email, xs3)) =>
          match ReadOpt(xs3)
          case None => None
          case Some(Read(iat, xs4)) =>
            match ReadOpt(xs4)
            case None => None
            case Some(Read(nbf, xs5)) =>
              match ReadOpt(xs5)
              case None => None
              case Some(Read(exp, xs6)) => Some(Read(Claims(issuer, subject, email, iat, nbf, exp), xs6))
  }

  lemma ReadClaimsOfEnc(c: Claims, rest: seq<nat>)
    ensures ReadClaims(EncClaims(c) + rest) == Some(Read(c, rest))
  {
    var r6 := EncOpt(c.expiresAt) + rest;
    var r5 := EncOpt(c.notBefore) + r6;
    var r4 := EncOpt(c.issuedAt) + r5;
    var r3 := EncString(c.email) + r4;
    var r2 := EncString(c.subject) + r3;
    assert EncClaims(c) + rest == EncString(c.issuer) + r2;
    ReadStringOfEnc(c.issuer, r2);
    ReadStringOfEnc(c.subject, r3);
    ReadStringOfEnc(c.email, r4);
    ReadOptOfEnc(c.issuedAt, r5);
    ReadOptOfEnc(c.notBefore, r6);
    ReadOptOfEnc(c.expiresAt, rest);
  }

  function EncJws(t: Jws): seq<nat>
  {
    EncAlg(t.alg) + EncClaims(t.claims) + EncTag(t.tag)
  }

  function ReadJws(xs: seq<nat>): (r: Option<Jws>)
    ensures r.Some? ==> CanonicalAlg(r.value.alg)
  {
    match ReadAlg(xs)
    case None => None
    case Some(Read(alg, xs1)) =>
      match ReadClaims(xs1)
      case None => None
      case Some(Read(claims, xs2)) =>
        match ReadTag(xs2)
        case None => None
        case Some(Read(tag, _)) => Some(Jws(alg, claims, tag))
  }

  lemma ReadJwsOfEnc(t: Jws)
    requires CanonicalAlg(t.alg)
    ensures ReadJws(EncJws(t)) == Some(t)
  {
    var r2 := EncTag(t.tag) + [];
    var r1 := EncClaims(t.claims) + r2;
    assert EncJws(t) == EncAlg(t.alg) + r1;
    ReadAlgOfEnc(t.alg, r1);
    ReadClaimsOfEnc(t.claims, r2);
    ReadTagOfEnc(t.tag, []);
  }

  // ---- The witness ----

  function Encode(t: Jws): string
  {
    Pack(EncJws(t))
  }

  function Decode(s: string): Option<Jws>
  {
    match Unpack(s)
    case None => None
    case Some(xs) => ReadJws(xs)
  }

  function Codes(k: Secret): Tag
  {
    seq(|k|, i requires 0 <= i < |k| => k[i] as int)
  }

  const Witness: Crypto := Crypto(
    (k: Secret, alg: Alg, claims: Claims) => Codes(k),
    (alg: Alg, k: Secret, claims: Claims, tag: Tag) => false,
    Encode,
    Decode,
    (k: Secret) => None)

  lemma CodesInjective(k1: Secret, k2: Secret)
    requires Codes(k1) == Codes(k2)
    ensures k1 == k2
  {
    assert |k1| == |Codes(k1)|;
    forall i | 0 <= i < |k1|
      ensures k1[i] == k2[i]
    {
      assert Codes(k1)[i] == Codes(k2)[i];
    }
  }

  /** Both assumptions of the token model hold of one concrete `Crypto`. */
  lemma AssumptionsSatisfiable()
    ensures WellFormedCodec(Witness) && SeparatesSecrets(Witness)
  {
    forall t: Jws | CanonicalAlg(t.alg)
      ensures Witness.decode(Witness.encode(t)) == Some(t)
    {
      UnpackPack(EncJws(t));
      ReadJwsOfEnc(t);
    }
    forall t: Jws
      ensures Witness.encode(t) != [] && ' ' !in Witness.encode(t)
    {
      var xs := EncJws(t);
      PackLetters(xs);
      assert Pack(xs) == Unary(xs[0]) + Pack(xs[1..]);
      assert Pack(xs)[|Unary(xs[0])| - 1] == 'b';
    }
    forall s | Witness.decode(s).Some?
      ensures CanonicalAlg(Witness.decode(s).value.alg)
    {
    }
    forall k1, k2, alg, claims | k1 != k2
      ensures Witness.mac(k1, alg, claims) != Witness.mac(k2, alg, claims)
    {
      if Codes(k1) == Codes(k2) {
        CodesInjective(k1, k2);
      }
    }
  }
}
