/** backend/auth.js: the `auth` middleware, which takes the token from
    `Authorization: Bearer <token>` and lets the request through when it verifies. */
module Auth {
  import opened Wrappers
  import opened Text
  import opened ChatModel

  /** The JWT payload `{ id, email }` that `/login` signs. */
  datatype Claims = Claims(id: ObjectId, email: string)

  datatype AuthOutcome =
    | NoToken           // 401 "No token provided"
    | BadFormat         // 401 "Invalid token format"
    | Unauthorized      // 401 "Unauthorized": jwt.verify threw
    | Authorized(id: ObjectId)

  function OutcomeMessage(o: AuthOutcome): string
    requires !o.Authorized?
  {
    match o
    case NoToken => "No token provided"
    case BadFormat => "Invalid token format"
    case Unauthorized => "Unauthorized"
  }

  /** `authHeader.split(" ")[1]`, when it exists and is not empty. */
  function BearerToken(header: string): (r: Option<string>)
    ensures r.Some? ==> r.value != "" && ' ' !in r.value
  {
    var parts := Split(header, ' ');
    SplitJoin(header, ' ');
    if |parts| >= 2 && parts[1] != "" then Some(parts[1]) else None
  }

  /** The second space-separated word is the token, whatever the first one says and
      whatever follows it. */
  lemma BearerTokenOf(scheme: string, token: string, tail: string)
    requires ' ' !in scheme && ' ' !in token && token != ""
    requires tail == "" || tail[0] == ' '
    ensures BearerToken(scheme + " " + token + tail) == Some(token)
  {
    var h := scheme + " " + token + tail;
    assert h == scheme + ([' '] + (token + tail));
    assert h[|scheme|] == ' ';
    assert h[|scheme| + 1..] == token + tail;
    var i := FirstIndex(h, ' ');
    assert i == |scheme|;
    var rest := h[i + 1..];
    assert rest == token + tail;
    assert h[..i] == scheme;
    assert Split(h, ' ') == [scheme] + Split(rest, ' ');
    if tail == "" {
      assert rest == token;
      assert Split(rest, ' ') == [token];
    } else {
      assert rest[|token|] == ' ';
      var j := FirstIndex(rest, ' ');
      assert j == |token|;
      assert rest[..j] == token;
      assert Split(rest, ' ')[0] == token;
    }
  }

  /** A scheme with no token, or with two spaces before it, has no token. */
  lemma MalformedHeaders()
    ensures BearerToken("Bearer") == None
    ensures BearerToken("Bearer  x") == None
  {
    assert ' ' !in "Bearer" by {
      forall k | 0 <= k < 6 ensures "Bearer"[k] != ' ' {}
    }
    var h := "Bearer  x";
    assert h[6] == ' ';
    var i := FirstIndex(h, ' ');
    assert i == 6 by {
      assert forall k :: 0 <= k < 6 ==> h[k] != ' ';
    }
    var rest := h[7..];
    assert rest == " x";
    assert FirstIndex(rest, ' ') == 0;
  }

  /** The middleware's decision; `verify` stands for `jwt.verify(token, secret)`,
      `None` when it throws. */
  function Authenticate(header: Option<string>, verify: string -> Option<Claims>): (r: AuthOutcome)
    ensures r == NoToken <==> header.None? || header.value == ""
    ensures r == BadFormat <==> header.Some? && header.value != "" && BearerToken(header.value).None?
    ensures r.Authorized? <==>
      header.Some? && BearerToken(header.value).Some? && verify(BearerToken(header.value).value).Some?
    ensures r.Authorized? ==> r.id == verify(BearerToken(header.value).value).value.id
  {
    if header.None? || header.value == "" then NoToken
    else match BearerToken(header.value)
      case None => BadFormat
      case Some(token) =>
        match verify(token)
        case None => Unauthorized
        case Some(claims) => Authorized(claims.id)
  }

  /** A token from `/login`, sent back in the usual form, lets its user through, given
      that `verify` accepts what `sign` produced. */
  lemma SignedTokenAuthenticates(token: string, id: ObjectId, email: string, verify: string -> Option<Claims>)
    requires token != "" && ' ' !in token
    requires verify(token) == Some(Claims(id, email))
    ensures Authenticate(Some("Bearer " + token), verify) == Authorized(id)
  {
    BearerTokenOf("Bearer", token, "");
    assert "Bearer" + " " + token + "" == "Bearer " + token;
  }

  datatype Response = Response(status: nat, message: string)

  /** The parts of the Express request and response the middleware touches. */
  class Exchange {
    /** `req.user`: the id of the authenticated user. */
    var user: Option<ObjectId>
    /** How many times `next()` was called. */
    var nextCalls: nat
    /** The response sent, if any. */
    var response: Option<Response>

    constructor ()
      ensures user.None? && nextCalls == 0 && response.None?
    {
      user, nextCalls, response := None, 0, None;
    }

    /** `auth(req, res, next)`. */
    method Run(header: Option<string>, verify: string -> Option<Claims>)
      modifies this
      ensures var o := Authenticate(header, verify);
        if o.Authorized? then
          user == Some(o.id) && nextCalls == old(nextCalls) + 1 && response == old(response)
        else
          user == old(user) && nextCalls == old(nextCalls) && response == Some(Response(401, OutcomeMessage(o)))
    {
      if header.None? || header.value == "" {
        response := Some(Response(401, "No token provided"));
        return;
      }
      var token := BearerToken(header.value);
      if token.None? {
        response := Some(Response(401, "Invalid token format"));
        return;
      }
      var decoded := verify(token.value);
      if decoded.None? {
        response := Some(Response(401, "Unauthorized"));
        return;
      }
      user := Some(decoded.value.id);
      nextCalls := nextCalls + 1;
    }
  }
}
