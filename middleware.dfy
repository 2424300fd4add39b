/** The request-handling decisions of cmd/pet_api/main.go: composing
    middlewares with `Chain`, the CORS middleware and the Firebase bearer
    token middleware. A handler is the syntax of a composition; `Serve` gives
    what it does with one request: the headers written, and either the status
    it answered with itself or the request it handed to the generated API
    server. Token verification is the identity provider's and is a parameter. */
module PetApiMiddleware {
  import opened PetModel

  const StatusOK: int := 200
  const StatusUnauthorized: int := 401

  /** The parts of an HTTP request the middlewares look at: `verb` is the
      request method; `authorization`
      is the header's value, "" when absent; `userId` is the request
      context's "userId" value. */
  datatype Request = Request(verb: string, authorization: string, userId: Option<string>)

  /** A reply the middlewares wrote themselves, or the request (as possibly
      rewritten) that reached the API server. */
  datatype Reply = Replied(code: int) | Dispatched(req: Request)

  datatype Outcome = Outcome(headers: map<string, string>, reply: Reply)

  /** The opaque `VerifyIDToken`: the verified token's UID, or None. */
  type Verifier = string -> Option<string>

  /** The two middlewares of the API (`withCORS()`, `withFirebaseAuth(client)`). */
  datatype Middleware = WithCors | WithFirebaseAuth

  /** A handler: the generated API server wrapped in middlewares. */
  datatype Handler =
    | ApiServer
    | CorsHandler(next: Handler)
    | FirebaseAuthHandler(next: Handler)

  const CorsHeaders: map<string, string> := map[
    "Access-Control-Allow-Origin" := "*",
    "Access-Control-Allow-Methods" := "GET, POST, PUT, DELETE, OPTIONS",
    "Access-Control-Allow-Headers" := "Content-Type, Authorization"
  ]

  /** The headers `http.Error` sets on the response it writes. */
  const ErrorHeaders: map<string, string> := map[
    "Content-Type" := "text/plain; charset=utf-8",
    "X-Content-Type-Options" := "nosniff"
  ]

  const BearerPrefix: string := "Bearer "

  /** The number of middleware layers around the API server. */
  function Depth(h: Handler): nat {
    match h
    case ApiServer => 0
    case CorsHandler(next) => Depth(next) + 1
    case FirebaseAuthHandler(next) => Depth(next) + 1
  }

  /** A middleware applied to the handler it wraps: one new outer layer
      around exactly that handler. */
  function Wrap(m: Middleware, next: Handler): (h: Handler)
    ensures !h.ApiServer? && h.next == next
    ensures Depth(h) == Depth(next) + 1
  {
    match m
    case WithCors => CorsHandler(next)
    case WithFirebaseAuth => FirebaseAuthHandler(next)
  }

  /** m1(m2(...mn(h))): the right fold of the middlewares over `h`. Each
      middleware adds exactly one layer, and the outermost is the first's. */
  function Composed(ms: seq<Middleware>, h: Handler): (r: Handler)
    ensures Depth(r) == Depth(h) + |ms|
    ensures ms != [] ==> r == Wrap(ms[0], r.next)
  {
    if ms == [] then h else Wrap(ms[0], Composed(ms[1..], h))
  }

  /** `Chain(handler, middlewares...)`: wraps from the last middleware to the
      first, so the first one listed ends up outermost. */
  method Chain(handler: Handler, middlewares: seq<Middleware>) returns (h: Handler)
    ensures h == Composed(middlewares, handler)
  {
    h := handler;
    var i := |middlewares| - 1;
    while i >= 0
      invariant -1 <= i < |middlewares|
      invariant h == Composed(middlewares[i + 1..], handler)
    {
      assert middlewares[i..][1..] == middlewares[i + 1..];
      h := Wrap(middlewares[i], h);
      i := i - 1;
    }
  }

  /** `strings.TrimPrefix`: `s` without one leading `prefix`, or `s` itself. */
  function TrimPrefix(s: string, prefix: string): (r: string)
    ensures prefix <= s ==> prefix + r == s
    ensures !(prefix <= s) ==> r == s
  {
    if prefix <= s then s[|prefix|..] else s
  }

  /** What a handler does with a request. The middlewares answer only 200
      (a preflight) or 401 themselves; the request the API server receives has
      the method and Authorization header that were sent, and differs at most
      in its "userId". */
  function Serve(h: Handler, req: Request, verify: Verifier): (o: Outcome)
    ensures o.reply.Replied? ==> o.reply.code == StatusOK || o.reply.code == StatusUnauthorized
    ensures o.reply.Replied? && o.reply.code == StatusOK ==> req.verb == "OPTIONS"
    ensures o.reply.Dispatched? ==>
              o.reply.req.verb == req.verb && o.reply.req.authorization == req.authorization
  {
    match h
    case ApiServer =>
      Outcome(map[], Dispatched(req))
    case CorsHandler(next) =>
      if req.verb == "OPTIONS" then
        Outcome(CorsHeaders, Replied(StatusOK))
      else
        var o := Serve(next, req, verify);
        Outcome(CorsHeaders + o.headers, o.reply)
    case FirebaseAuthHandler(next) =>
      if req.authorization == "" then
        Outcome(ErrorHeaders, Replied(StatusUnauthorized))
      else
        match verify(TrimPrefix(req.authorization, BearerPrefix))
        case None => Outcome(ErrorHeaders, Replied(StatusUnauthorized))
        case Some(uid) => Serve(next, req.(userId := Some(uid)), verify)
  }

  /** The API handler of `main`: `Chain(srv, withCORS(), withFirebaseAuth(c))`.
      CORS is the outer layer, authentication the inner one. */
  function ApiHandler(): (h: Handler)
    ensures h == CorsHandler(FirebaseAuthHandler(ApiServer))
  {
    assert [WithCors, WithFirebaseAuth][1..] == [WithFirebaseAuth];
    assert [WithFirebaseAuth][1..] == [];
    Composed([WithCors, WithFirebaseAuth], ApiServer)
  }

  /** Chaining `ms1 + ms2` is chaining `ms1` around the chain of `ms2`. */
  lemma {:induction false} ComposedAppend(ms1: seq<Middleware>, ms2: seq<Middleware>, h: Handler)
    ensures Composed(ms1 + ms2, h) == Composed(ms1, Composed(ms2, h))
  {
    if ms1 == [] {
      assert ms1 + ms2 == ms2;
    } else {
      assert (ms1 + ms2)[0] == ms1[0];
      assert (ms1 + ms2)[1..] == ms1[1..] + ms2;
      ComposedAppend(ms1[1..], ms2, h);
    }
  }

  /** The first middleware listed is the outermost: it sees the request first. */
  lemma {:induction false} FirstIsOutermost(m: Middleware, ms: seq<Middleware>, h: Handler, req: Request, verify: Verifier)
    ensures Serve(Composed([m] + ms, h), req, verify) == Serve(Wrap(m, Composed(ms, h)), req, verify)
  {
    ComposedAppend([m], ms, h);
  }

  /** Every header written is one of the CORS or `http.Error` headers, with
      its fixed value. */
  lemma {:induction false} HeadersAreFixed(h: Handler, req: Request, verify: Verifier)
    ensures forall k :: k in Serve(h, req, verify).headers ==>
              (k in CorsHeaders && Serve(h, req, verify).headers[k] == CorsHeaders[k])
              || (k in ErrorHeaders && Serve(h, req, verify).headers[k] == ErrorHeaders[k])
  {
    match h
    case ApiServer =>
    case CorsHandler(next) =>
      HeadersAreFixed(next, req, verify);
    case FirebaseAuthHandler(next) =>
      if req.authorization != "" {
        match verify(TrimPrefix(req.authorization, BearerPrefix))
        case None =>
        case Some(uid) => HeadersAreFixed(next, req.(userId := Some(uid)), verify);
      }
  }

  /** `withCORS` sets its three headers on every response, whatever it wraps. */
  lemma CorsAlwaysSetsHeaders(next: Handler, req: Request, verify: Verifier)
    ensures forall k :: k in CorsHeaders ==>
              k in Serve(CorsHandler(next), req, verify).headers
              && Serve(CorsHandler(next), req, verify).headers[k] == CorsHeaders[k]
  {
    HeadersAreFixed(next, req, verify);
  }

  /** A preflight is answered 200 by `withCORS` itself: the wrapped handler
      is never run, so the answer is the same whatever it wraps. */
  lemma CorsAnswersPreflight(next: Handler, other: Handler, req: Request, verify: Verifier)
    requires req.verb == "OPTIONS"
    ensures Serve(CorsHandler(next), req, verify).reply == Replied(StatusOK)
    ensures Serve(CorsHandler(next), req, verify) == Serve(CorsHandler(other), req, verify)
  {
  }

  /** Every other method reaches the wrapped handler with the request unchanged. */
  lemma CorsDelegates(next: Handler, req: Request, verify: Verifier)
    requires req.verb != "OPTIONS"
    ensures Serve(CorsHandler(next), req, verify).reply == Serve(next, req, verify).reply
  {
  }

  /** Stripping removes exactly one leading "Bearer ". */
  lemma TrimsOneBearer(token: string)
    ensures TrimPrefix(BearerPrefix + token, BearerPrefix) == token
    ensures TrimPrefix(BearerPrefix + BearerPrefix + token, BearerPrefix) == BearerPrefix + token
  {
    assert BearerPrefix <= BearerPrefix + token;
    assert (BearerPrefix + BearerPrefix + token) == BearerPrefix + (BearerPrefix + token);
    assert BearerPrefix <= BearerPrefix + (BearerPrefix + token);
  }

  /** `withFirebaseAuth` answers 401 itself when the header is missing or
      the provider rejects the token: the wrapped handler is never run, so
      the answer is the same whatever it wraps. */
  lemma AuthRejects(next: Handler, other: Handler, req: Request, verify: Verifier)
    requires req.authorization == "" || verify(TrimPrefix(req.authorization, BearerPrefix)).None?
    ensures Serve(FirebaseAuthHandler(next), req, verify) == Outcome(ErrorHeaders, Replied(StatusUnauthorized))
    ensures Serve(FirebaseAuthHandler(next), req, verify) == Serve(FirebaseAuthHandler(other), req, verify)
  {
  }

  /** A token the provider accepts runs the wrapped handler on the same
      request with the token's UID as the context's "userId". */
  lemma AuthInjectsUid(next: Handler, req: Request, verify: Verifier, uid: string)
    requires req.authorization != ""
    requires verify(TrimPrefix(req.authorization, BearerPrefix)) == Some(uid)
    ensures Serve(FirebaseAuthHandler(next), req, verify) == Serve(next, req.(userId := Some(uid)), verify)
  {
  }

  /** A header "Bearer t" has `t` verified; a non-empty header without the
      prefix is verified whole. */
  lemma {:induction false} AuthVerifiesBearerToken(next: Handler, token: string, header: string, verb: string, verify: Verifier)
    ensures var req := Request(verb, BearerPrefix + token, None);
            Serve(FirebaseAuthHandler(next), req, verify)
            == match verify(token)
               case None => Outcome(ErrorHeaders, Replied(StatusUnauthorized))
               case Some(uid) => Serve(next, req.(userId := Some(uid)), verify)
    ensures header != "" && !(BearerPrefix <= header) ==>
            var req := Request(verb, header, None);
            Serve(FirebaseAuthHandler(next), req, verify)
            == match verify(header)
               case None => Outcome(ErrorHeaders, Replied(StatusUnauthorized))
               case Some(uid) => Serve(next, req.(userId := Some(uid)), verify)
  {
    TrimsOneBearer(token);
  }

  /** Whether a handler has an authentication layer. */
  predicate Authenticates(h: Handler) {
    match h
    case ApiServer => false
    case CorsHandler(next) => Authenticates(next)
    case FirebaseAuthHandler(_) => true
  }

  /** Behind an authentication layer, the API server is reached only by a
      request that carried an Authorization header, with the "userId" the
      provider returned for its token. */
  lemma {:induction false} OnlyVerifiedRequestsDispatched(h: Handler, req: Request, verify: Verifier)
    requires Authenticates(h)
    ensures Serve(h, req, verify).reply.Dispatched? ==>
              && req.authorization != ""
              && Serve(h, req, verify).reply.req.userId == verify(TrimPrefix(req.authorization, BearerPrefix))
              && Serve(h, req, verify).reply.req.userId.Some?
  {
    match h
    case CorsHandler(next) =>
      if req.verb != "OPTIONS" {
        OnlyVerifiedRequestsDispatched(next, req, verify);
      }
    case FirebaseAuthHandler(next) =>
      if req.authorization != "" {
        match verify(TrimPrefix(req.authorization, BearerPrefix))
        case None =>
        case Some(uid) =>
          var req' := req.(userId := Some(uid));
          assert req'.authorization == req.authorization;
          if Authenticates(next) {
            OnlyVerifiedRequestsDispatched(next, req', verify);
          } else {
            ReachesServerUnchanged(next, req', verify);
          }
      }
  }

  /** Without an authentication layer, a request that reaches the server
      reaches it as it was sent. */
  lemma {:induction false} ReachesServerUnchanged(h: Handler, req: Request, verify: Verifier)
    requires !Authenticates(h)
    ensures Serve(h, req, verify).reply.Dispatched? ==> Serve(h, req, verify).reply.req == req
  {
    match h
    case ApiServer =>
    case CorsHandler(next) =>
      ReachesServerUnchanged(next, req, verify);
  }

  /** In the API handler CORS is outermost: a preflight succeeds with no
      Authorization header; any other request without one is refused 401. */
  lemma ApiHandlerDecisions(req: Request, verify: Verifier)
    ensures req.verb == "OPTIONS" ==> Serve(ApiHandler(), req, verify) == Outcome(CorsHeaders, Replied(StatusOK))
    ensures req.verb != "OPTIONS" && req.authorization == "" ==>
              Serve(ApiHandler(), req, verify) == Outcome(CorsHeaders + ErrorHeaders, Replied(StatusUnauthorized))
    ensures req.verb != "OPTIONS" && req.authorization != "" ==>
              Serve(ApiHandler(), req, verify).reply
              == match verify(TrimPrefix(req.authorization, BearerPrefix))
                 case None => Replied(StatusUnauthorized)
                 case Some(uid) => Dispatched(req.(userId := Some(uid)))
  {
    if req.verb != "OPTIONS" && req.authorization != "" {
      match verify(TrimPrefix(req.authorization, BearerPrefix))
      case None =>
      case Some(uid) =>
        assert Serve(ApiServer, req.(userId := Some(uid)), verify).reply == Dispatched(req.(userId := Some(uid)));
    }
  }
}
