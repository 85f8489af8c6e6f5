/** Token claims, issued tokens and the bearer-token guard (`authenticateToken`). */
module Auth {
  import opened JsonValue
  import Text

  /** The claims a token carries. Sign-in issues {user_id, email}; account update adds username. */
  datatype Claims = Claims(userId: int, email: Json, username: Option<Json>)

  /** Which key signed a token: the configured secret, or the literal the account update uses. */
  datatype SigningKey = ConfiguredSecret | HardCodedSecret

  /** An issued token. Signing itself is a library call; the model keeps what was signed and with which key. */
  datatype Token = Token(claims: Claims, key: SigningKey, expiresInSeconds: nat)

  /** `expiresIn: '1h'`. */
  const TokenLifetime: nat := 3600

  /** The three ways the guard can end. */
  datatype Guard = NoToken | InvalidToken | Authenticated(claims: Claims)

  /** `header?.split(' ')[1]` when it is a non-empty string; None for `undefined` and "". */
  function BearerToken(header: Option<string>): (token: Option<string>)
    ensures token.Some? ==> token.value != "" && ' ' !in token.value
  {
    match header
    case None => None
    case Some(h) =>
      var words := Text.Split(h, ' ');
      if |words| >= 2 && words[1] != "" then Some(words[1]) else None
  }

  /**
   * The guard: no usable token is "No token provided" (401); a token the verifier rejects
   * is "Invalid token" (403); otherwise the verifier's claims, unchanged. `verify` stands for
   * `jwt.verify(token, JWT_SECRET)`, which checks signature and expiry together.
   */
  function Authenticate(header: Option<string>, verify: string -> Option<Claims>): (g: Guard)
    ensures g == NoToken <==> BearerToken(header).None?
    ensures g == InvalidToken <==> BearerToken(header).Some? && verify(BearerToken(header).value).None?
    ensures g.Authenticated? ==> verify(BearerToken(header).value) == Some(g.claims)
  {
    match BearerToken(header)
    case None => NoToken
    case Some(token) =>
      match verify(token)
      case None => InvalidToken
      case Some(claims) => Authenticated(claims)
  }

  /** A header that is absent, or a single word such as "Bearer", carries no token. */
  lemma {:induction false} SingleWordHeaderHasNoToken(word: string, verify: string -> Option<Claims>)
    requires ' ' !in word
    ensures Authenticate(None, verify) == NoToken
    ensures Authenticate(Some(word), verify) == NoToken
  {
    Text.SplitNone(word, ' ');
  }

  /**
   * "<scheme> <token>" hands `token` to the verifier, whatever the scheme word is: the guard
   * reads the second word only. The outcome is exactly the verifier's verdict.
   */
  lemma {:induction false} SchemeAndTokenHeader(scheme: string, token: string, verify: string -> Option<Claims>)
    requires ' ' !in scheme && ' ' !in token && token != ""
    ensures BearerToken(Some(scheme + " " + token)) == Some(token)
    ensures Authenticate(Some(scheme + " " + token), verify) ==
            match verify(token) case None => InvalidToken case Some(c) => Authenticated(c)
  {
    Text.SplitCons(scheme, ' ', token);
    Text.SplitNone(token, ' ');
    assert scheme + " " + token == scheme + [' '] + token;
  }

  /** Two spaces after the scheme leave an empty second word: no token. */
  lemma {:induction false} DoubleSpaceHasNoToken(scheme: string, rest: string, verify: string -> Option<Claims>)
    requires ' ' !in scheme
    ensures Authenticate(Some(scheme + "  " + rest), verify) == NoToken
  {
    Text.SplitCons(scheme, ' ', " " + rest);
    Text.SplitCons("", ' ', rest);
    assert scheme + "  " + rest == scheme + [' '] + (" " + rest);
    assert " " + rest == "" + [' '] + rest;
  }
}
