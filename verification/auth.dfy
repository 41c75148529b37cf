/**
 * Passwords and bearer tokens. Hashing (bcrypt) and token signing and
 * verification (JSON Web Tokens, RFC 7519) happen inside libraries, so they
 * are given to the handlers as a `Crypto` record of functions; the facts the
 * handlers rely on are stated as predicates over that record.
 */
module Auth {
  import opened Responses
  import opened Records
  import opened Header

  /** The payload of a token: the user's id, email and name. */
  datatype Claims = Claims(id: string, email: string, name: string)

  /**
   * `hash` and `compare` stand for `bcrypt.hash` and `bcrypt.compare`;
   * `sign` and `verify` for `jwt.sign` and `jwt.verify` under the server's
   * secret, `verify` giving `None` where the library throws.
   */
  datatype Crypto = Crypto(
    hash: string -> string,
    compare: (string, string) -> bool,
    sign: Claims -> string,
    verify: string -> Option<Claims>)

  /** A password always matches its own hash. */
  ghost predicate PasswordsMatchHashes(crypto: Crypto)
  {
    forall p :: crypto.compare(p, crypto.hash(p))
  }

  /** A token the server signed verifies to its claims and, being base64url text, holds no space. */
  ghost predicate TokensVerify(crypto: Crypto)
  {
    forall c :: crypto.verify(crypto.sign(c)) == Some(c) && ' ' !in crypto.sign(c)
  }

  function ClaimsOf(user: User): Claims
  {
    Claims(user.id, user.email, user.name)
  }

  /** The token issued to `user` at signup and login. */
  function CreateToken(crypto: Crypto, user: User): (token: string)
    ensures TokensVerify(crypto) ==> crypto.verify(token) == Some(ClaimsOf(user))
    ensures TokensVerify(crypto) ==> ' ' !in token
  {
    crypto.sign(ClaimsOf(user))
  }

  /**
   * The optional identification used when an order is placed: the claims of
   * the token after the header's single space, or `None` when the header is
   * absent or empty, does not hold exactly one space, or does not verify.
   */
  function AuthenticateOptional(crypto: Crypto, header: Option<string>): (claims: Option<Claims>)
    ensures header.None? || Occurrences(header.value, ' ') != 1 ==> claims == None
    ensures header.Some? && Occurrences(header.value, ' ') == 1 ==>
      claims == crypto.verify(header.value[IndexOf(header.value, ' ') + 1..])
  {
    match ParseAuthorization(header)
    case Token(t) => crypto.verify(t)
    case _ => None
  }

  /**
   * The required identification used for the order history: each way of
   * failing has its own 401 message.
   */
  function RequireAuth(crypto: Crypto, header: Option<string>): (r: Response<Claims>)
    ensures r.Err? ==> r.status == 401
    ensures r == Err(401, "Missing auth") <==> header == None || header == Some("")
    ensures r == Err(401, "Invalid auth") <==>
      header.Some? && header.value != "" && Occurrences(header.value, ' ') != 1
    ensures r == Err(401, "Invalid token") <==>
      header.Some? && Occurrences(header.value, ' ') == 1 &&
      crypto.verify(header.value[IndexOf(header.value, ' ') + 1..]).None?
    ensures r.Err? ==> r.message == "Missing auth" || r.message == "Invalid auth" || r.message == "Invalid token"
    ensures r.Ok? ==> AuthenticateOptional(crypto, header) == Some(r.value)
  {
    match ParseAuthorization(header)
    case NoHeader => Err(401, "Missing auth")
    case Malformed => Err(401, "Invalid auth")
    case Token(t) =>
      match crypto.verify(t)
      case None => Err(401, "Invalid token")
      case Some(claims) => Ok(claims)
  }

  /** The two copies of the header check accept exactly the same headers, with the same claims. */
  lemma RequiredAgreesWithOptional(crypto: Crypto, header: Option<string>)
    ensures RequireAuth(crypto, header).Ok? <==> AuthenticateOptional(crypto, header).Some?
    ensures RequireAuth(crypto, header).Ok? ==>
      AuthenticateOptional(crypto, header) == Some(RequireAuth(crypto, header).value)
  {
  }

  /** A header made of any space-free scheme word, one space and a server-signed token identifies its claims. */
  lemma {:induction false} SignedHeaderIdentifies(crypto: Crypto, scheme: string, claims: Claims)
    requires TokensVerify(crypto)
    requires ' ' !in scheme
    ensures AuthenticateOptional(crypto, Some(scheme + " " + crypto.sign(claims))) == Some(claims)
    ensures RequireAuth(crypto, Some(scheme + " " + crypto.sign(claims))) == Ok(claims)
  {
    ParseBearer(scheme, crypto.sign(claims));
  }

  /** The id an order is stored under: the claims' id, or `None` when there are no claims or the id is empty. */
  function Owner(claims: Option<Claims>): (user: Option<string>)
    ensures user.Some? <==> claims.Some? && claims.value.id != ""
    ensures user.Some? ==> user.value == claims.value.id
  {
    if claims.Some? && claims.value.id != "" then Some(claims.value.id) else None
  }
}
