/**
 * The `checkAuth` middleware: it admits a request whose `Authorization` header carries a
 * bearer token that verifies against the configured secret, and records the token's `id`
 * on the request. The environment's secret and the token verifier are parameters here;
 * `verify(token, secret)` returns the decoded payload, or `None` where `jwt.verify` throws.
 */
module CheckAuth {
  import opened Js
  import opened Wrappers

  const BearerPrefix := "Bearer "
  const UnauthorizedMessage := "Unauthorized"
  const MissingSecretMessage := "JWT_SECRET is not set"

  /** What the middleware does with a request: answer it, or pass it on with a user id. */
  datatype Outcome =
    | Respond(status: int, message: string)
    | Proceed(userId: Value)

  /** `authHeader?.startsWith('Bearer ')`, where a missing header counts as false. */
  predicate IsBearerHeader(header: Option<string>)
  {
    header.Some? && StartsWith(header.value, BearerPrefix)
  }

  /** `!!process.env.JWT_SECRET`. */
  predicate SecretSet(secret: Option<string>)
  {
    secret.Some? && secret.value != ""
  }

  /** `authHeader.split(' ')[1]`; the header starts with the prefix, so there is a second piece. */
  function BearerToken(header: string): (t: string)
    requires StartsWith(header, BearerPrefix)
    ensures |t| <= |header| - |BearerPrefix|
  {
    BearerTokenIsNextWord(header);
    Split(header, ' ')[1]
  }

  /** The token is the text after the prefix up to the next space, or to the end. */
  lemma BearerTokenIsNextWord(header: string)
    requires StartsWith(header, BearerPrefix)
    ensures |Split(header, ' ')| >= 2
    ensures Split(header, ' ')[1] == TakeUntil(header[|BearerPrefix|..], ' ')
  {
    var rest := header[|BearerPrefix|..];
    assert header == "Bearer" + [' '] + rest;
    SplitAfter("Bearer", ' ', rest);
    SplitFirst(rest, ' ');
  }

  /** The whole decision, in the order the middleware takes it. */
  function Decide(header: Option<string>, secret: Option<string>,
                  verify: (string, string) -> Option<Value>): (r: Outcome)
    ensures r.Respond? ==> r.status == 401 || r.status == 500
    ensures r.Proceed? ==> IsBearerHeader(header) && SecretSet(secret)
    ensures !IsBearerHeader(header) ==> r == Respond(401, UnauthorizedMessage)
    ensures IsBearerHeader(header) && !SecretSet(secret) ==> r == Respond(500, MissingSecretMessage)
  {
    if !IsBearerHeader(header) then Respond(401, UnauthorizedMessage)
    else
      var token := BearerToken(header.value);
      if !SecretSet(secret) then Respond(500, MissingSecretMessage)
      else match verify(token, secret.value)
        case None => Respond(401, UnauthorizedMessage)
        case Some(payload) => Proceed(Get(payload, "id"))
  }

  /**
   * A request is admitted exactly when it carries a bearer header, a secret is configured and
   * the token after the prefix verifies; the user id is then the payload's `id`.
   */
  lemma AdmittedIffTokenVerifies(header: Option<string>, secret: Option<string>,
                                 verify: (string, string) -> Option<Value>)
    ensures Decide(header, secret, verify).Proceed? <==>
              IsBearerHeader(header) && SecretSet(secret) &&
              verify(TakeUntil(header.value[|BearerPrefix|..], ' '), secret.value).Some?
    ensures Decide(header, secret, verify).Proceed? ==>
              Decide(header, secret, verify).userId ==
                Get(verify(TakeUntil(header.value[|BearerPrefix|..], ' '), secret.value).value, "id")
  {
    if IsBearerHeader(header) {
      BearerTokenIsNextWord(header.value);
    }
  }

  /** Words after the token, such as `Bearer abc extra`, are ignored. */
  lemma {:induction false} TrailingWordsIgnored(token: string, rest: string)
    requires ' ' !in token
    ensures StartsWith(BearerPrefix + token + " " + rest, BearerPrefix)
    ensures BearerToken(BearerPrefix + token + " " + rest) == token
  {
    var h := BearerPrefix + token + " " + rest;
    assert h[..|BearerPrefix|] == BearerPrefix;
    BearerTokenIsNextWord(h);
    assert h[|BearerPrefix|..] == token + [' '] + rest;
    TakeUntilStops(token, rest);
  }

  /** `TakeUntil` stops at the first separator after a separator-free prefix. */
  lemma {:induction false} TakeUntilStops(p: string, rest: string)
    requires ' ' !in p
    ensures TakeUntil(p + [' '] + rest, ' ') == p
  {
    if p == [] {
      assert p + [' '] + rest == [' '] + rest;
    } else {
      TakeUntilStops(p[1..], rest);
      assert (p + [' '] + rest)[1..] == p[1..] + [' '] + rest;
      assert [p[0]] + p[1..] == p;
    }
  }

  /** Without a secret the verifier is never consulted: the outcome does not depend on it. */
  lemma NoSecretIgnoresVerifier(header: Option<string>, secret: Option<string>,
                                v1: (string, string) -> Option<Value>,
                                v2: (string, string) -> Option<Value>)
    requires !SecretSet(secret)
    ensures Decide(header, secret, v1) == Decide(header, secret, v2)
    ensures Decide(header, secret, v1).Respond?
  {
  }

  /** The prefix test is case-sensitive and needs the space: `bearer x` and `Bearer` fail. */
  lemma PrefixIsExact(secret: Option<string>, verify: (string, string) -> Option<Value>)
    ensures Decide(Some("bearer x"), secret, verify) == Respond(401, UnauthorizedMessage)
    ensures Decide(Some("Bearer"), secret, verify) == Respond(401, UnauthorizedMessage)
    ensures Decide(None, secret, verify) == Respond(401, UnauthorizedMessage)
  {
    assert "bearer x"[..7] != BearerPrefix by { assert "bearer x"[0] != BearerPrefix[0]; }
  }

  /** The incoming request; `userId` is the property the middleware sets. */
  class Request {
    const authorization: Option<string>
    var userId: Option<Value>

    constructor (authorization: Option<string>)
      ensures this.authorization == authorization && userId.None?
    {
      this.authorization := authorization;
      userId := None;
    }
  }

  /** The response: status and JSON `message` once one has been sent. */
  class Response {
    var status: Option<int>
    var message: Option<string>

    constructor ()
      ensures status.None? && message.None?
    {
      status := None;
      message := None;
    }
  }

  /** The `next` callback, recorded as the number of times it was called. */
  class Next {
    var calls: nat

    constructor ()
      ensures calls == 0
    {
      calls := 0;
    }
  }

  /**
   * `checkAuth(req, res, next)`: either sends a response and leaves the request alone, or
   * sets `req.userId` and calls `next` once without responding.
   */
  method Run(req: Request, res: Response, next: Next, secret: Option<string>,
             verify: (string, string) -> Option<Value>)
    modifies req, res, next
    ensures match Decide(req.authorization, secret, verify)
      case Respond(status, message) =>
        res.status == Some(status) && res.message == Some(message) &&
        req.userId == old(req.userId) && next.calls == old(next.calls)
      case Proceed(id) =>
        req.userId == Some(id) && next.calls == old(next.calls) + 1 &&
        res.status == old(res.status) && res.message == old(res.message)
  {
    var authHeader := req.authorization;
    if !IsBearerHeader(authHeader) {
      res.status, res.message := Some(401), Some(UnauthorizedMessage);
      return;
    }
    var token := BearerToken(authHeader.value);
    if !SecretSet(secret) {
      res.status, res.message := Some(500), Some(MissingSecretMessage);
      return;
    }
    var payload := verify(token, secret.value);
    if payload.None? {
      res.status, res.message := Some(401), Some(UnauthorizedMessage);
    } else {
      req.userId := Some(Get(payload.value, "id"));
      next.calls := next.calls + 1;
    }
  }
}
