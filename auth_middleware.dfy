/** The session gate in front of the protected routes: it takes the token
    from the `Authorization` header, verifies it, looks the user up, and
    either answers 401 or attaches the caller to the request and passes it
    on. Token verification is the abstract `Jwt.verify`. */
module AuthMiddleware {
  import opened Wrappers
  import opened JsStrings
  import opened Users
  import opened Http
  import opened Tokens

  // ---------------------------------------------------------------------
  // The token in the header
  // ---------------------------------------------------------------------

  /** `req.headers.authorization?.split(" ")[1]`: `None` stands for
      `undefined`, when there is no header or no second piece. */
  function ExtractToken(authorization: Option<string>): (t: Option<string>)
    ensures authorization.None? ==> t.None?
    ensures t.Some? ==> ' ' !in t.value
  {
    if authorization.None? then None
    else
      var parts := Split(authorization.value, ' ');
      if |parts| < 2 then None else Some(parts[1])
  }

  /** The second word of a header, written directly: what follows the first
      space, up to the next space or the end. */
  function SecondWord(h: string): (w: Option<string>)
    ensures w.Some? <==> ' ' in h
    ensures w.Some? ==> ' ' !in w.value
  {
    var i := IndexOf(h, ' ');
    if i < 0 then None
    else
      var rest := h[i + 1..];
      var j := IndexOf(rest, ' ');
      if j < 0 then Some(rest)
      else
        assert ' ' !in rest[..j];
        Some(rest[..j])
  }

  /** A string without the separator splits into itself alone. */
  lemma SplitWithout(t: string, sep: char)
    requires sep !in t
    ensures Split(t, sep) == [t]
  {
    SplitPiece(t, [], sep);
    assert t + [] == t;
  }

  /** Splitting at the first separator: the word before it, then the
      pieces of the rest. */
  lemma SplitAtFirst(w: string, t: string, sep: char)
    requires sep !in w
    ensures Split(w + [sep] + t, sep) == [w] + Split(t, sep)
  {
    SplitPiece(w, [sep] + t, sep);
    assert w + [sep] + t == w + ([sep] + t);
    assert ([sep] + t)[1..] == t;
    assert Split([sep] + t, sep) == [[]] + Split(t, sep);
    assert w + [] == w;
  }

  /** The first piece of a split is everything before the first separator. */
  lemma SplitFirst(t: string, sep: char)
    ensures Split(t, sep)[0] == if sep in t then t[..IndexOf(t, sep)] else t
  {
    if sep in t {
      var j := IndexOf(t, sep);
      assert t == t[..j] + [sep] + t[j + 1..];
      SplitAtFirst(t[..j], t[j + 1..], sep);
    } else {
      SplitWithout(t, sep);
    }
  }

  /** The extracted token is the header's second word. */
  lemma ExtractTokenIsSecondWord(h: string)
    ensures ExtractToken(Some(h)) == SecondWord(h)
  {
    if ' ' in h {
      var i := IndexOf(h, ' ');
      var w, t := h[..i], h[i + 1..];
      assert h == w + [' '] + t;
      SplitAtFirst(w, t, ' ');
      SplitFirst(t, ' ');
    } else {
      SplitWithout(h, ' ');
    }
  }

  /** The first word is never looked at: any scheme (`Bearer` or another)
      followed by a space and a space-free token yields that token. */
  lemma SchemeNotChecked(scheme: string, token: string)
    requires ' ' !in scheme && ' ' !in token
    ensures ExtractToken(Some(scheme + [' '] + token)) == Some(token)
  {
    SplitAtFirst(scheme, token, ' ');
    SplitWithout(token, ' ');
  }

  // ---------------------------------------------------------------------
  // The gate
  // ---------------------------------------------------------------------

  /** What the gate decides: let the request through as the user the token
      names, or answer it. */
  datatype Gate = Admit(userId: UserId, user: PublicUser) | Deny(reply: Reply)

  const NoToken := "No token provided, authorization denied"
  const BadToken := "Token is not valid or has expired"
  const NoSuchUser := "User not found"

  /** A token is there when the header gives a non-empty second piece
      (`!token` rejects both `undefined` and ""). */
  predicate HasToken(token: Option<string>)
  {
    token.Some? && token.value != ""
  }

  /** `authMiddleware`'s decision: no token, a token the library refuses,
      and a token for an unknown user each give a 401 with its own message;
      otherwise the caller is the record the token's `userId` names,
      without its password. */
  function Authenticate(records: seq<UserRecord>, authorization: Option<string>, jwt: Jwt): (g: Gate)
    ensures g.Deny? ==> g.reply.status == 401 && !g.reply.success && g.reply.token == None && g.reply.user == None
    ensures var token := ExtractToken(authorization);
      && (g == Deny(Failure(401, NoToken)) <==> !HasToken(token))
      && (g == Deny(Failure(401, BadToken)) <==> HasToken(token) && jwt.verify(token.value).None?)
      && (g.Admit? <==>
            && HasToken(token) && jwt.verify(token.value).Some?
            && exists k :: 0 <= k < |records| && records[k].id == jwt.verify(token.value).value.userId)
    ensures var token := ExtractToken(authorization);
      g == Deny(Failure(401, NoSuchUser)) <==>
        && HasToken(token) && jwt.verify(token.value).Some?
        && forall k :: 0 <= k < |records| ==> records[k].id != jwt.verify(token.value).value.userId
    ensures var token := ExtractToken(authorization);
      g.Admit? ==>
        && token.Some? && jwt.verify(token.value).Some?
        && g.userId == jwt.verify(token.value).value.userId
    ensures g.Admit? ==> exists u :: u in records && u.id == g.userId && g.user == Sanitize(u)
  {
    var token := ExtractToken(authorization);
    if !HasToken(token) then Deny(Failure(401, NoToken))
    else
      match jwt.verify(token.value)
      case None => Deny(Failure(401, BadToken))
      case Some(decoded) =>
        match FindById(records, decoded.userId)
        case None => Deny(Failure(401, NoSuchUser))
        case Some(user) => Admit(decoded.userId, Sanitize(user))
  }

  /** A token the library itself signed for a stored user gets through, as
      that user, whatever scheme word precedes it. */
  lemma SignedTokenAdmits(records: seq<UserRecord>, u: UserRecord, scheme: string, jwt: Jwt)
    requires ReadsBackOwnTokens(jwt)
    requires u in records
    requires ' ' !in scheme
    requires var t := jwt.sign(ClaimsOf(u), TokenLifetime); t != "" && ' ' !in t
    ensures var t := jwt.sign(ClaimsOf(u), TokenLifetime);
      Authenticate(records, Some(scheme + [' '] + t), jwt).Admit?
    ensures var t := jwt.sign(ClaimsOf(u), TokenLifetime);
      Authenticate(records, Some(scheme + [' '] + t), jwt).userId == u.id
  {
    var t := jwt.sign(ClaimsOf(u), TokenLifetime);
    SchemeNotChecked(scheme, t);
    assert jwt.verify(t) == Some(ClaimsOf(u));
    var k :| 0 <= k < |records| && records[k] == u;
  }

  /** The request as the gate sees it: the header it reads and the two
      fields it sets on success. */
  class Request {
    const authorization: Option<string>
    var userId: Option<UserId>
    var user: Option<PublicUser>

    constructor (authorization: Option<string>)
      ensures this.authorization == authorization && userId == None && user == None
    {
      this.authorization := authorization;
      userId := None;
      user := None;
    }
  }

  /** `authMiddleware` run on a request: on success it sets `req.userId`
      and `req.user` and hands on (`next()` once); on every rejection it
      answers and leaves the request as it was. */
  method Authorize(req: Request, records: seq<UserRecord>, jwt: Jwt) returns (outcome: Outcome)
    modifies req
    ensures var g := Authenticate(records, req.authorization, jwt);
      if g.Admit? then
        outcome == Next && req.userId == Some(g.userId) && req.user == Some(g.user)
      else
        outcome == Respond(g.reply) && req.userId == old(req.userId) && req.user == old(req.user)
  {
    var token := ExtractToken(req.authorization);
    if !HasToken(token) {
      return Respond(Failure(401, NoToken));
    }
    var decoded := jwt.verify(token.value);
    if decoded.None? {
      return Respond(Failure(401, BadToken));
    }
    var found := FindById(records, decoded.value.userId);
    if found.None? {
      return Respond(Failure(401, NoSuchUser));
    }
    req.userId := Some(decoded.value.userId);
    req.user := Some(Sanitize(found.value));
    outcome := Next;
  }
}
