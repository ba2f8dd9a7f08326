/**
 * The bearer-token guard placed in front of the account and transfer routes
 * (api/middleware.go). The checks on the `authorization` header are a pure
 * decision (`Authorize`); `AuthMiddleware` performs that decision's effects
 * on the request context, as the gin handler does.
 */
module Middleware {

  const AuthorizationHeaderKey: string := "authorization"
  const AuthorizationTypeBearer: string := "bearer"
  const AuthorizationPayloadKey: string := "authorization_payload"

  const StatusUnauthorized: int := 401

  const NoHeaderMessage: string := "authorization header is not provided"
  const InvalidFormatMessage: string := "invalid authorization header format"
  const UnsupportedTypeMessage: string := "unsupported authorization type"

  // ---------------------------------------------------------------------
  // strings.Fields and strings.ToLower
  // ---------------------------------------------------------------------

  /** Go's `unicode.IsSpace`: the Latin-1 spaces and the other Unicode White_Space runes. */
  predicate IsSpace(c: char)
  {
    || c == '\t' || c == '\n' || c == '\U{B}' || c == '\U{C}' || c == '\r' || c == ' '
    || c == '\U{85}' || c == '\U{A0}' || c == '\U{1680}'
    || ('\U{2000}' <= c <= '\U{200A}')
    || c == '\U{2028}' || c == '\U{2029}' || c == '\U{202F}' || c == '\U{205F}' || c == '\U{3000}'
  }

  /** A non-empty run of non-space runes: what `strings.Fields` yields. */
  predicate IsWord(w: string)
  {
    w != [] && forall i :: 0 <= i < |w| ==> !IsSpace(w[i])
  }

  /** The length of the run of non-space runes at the front of `s`. */
  function WordLength(s: string): (n: nat)
    ensures n <= |s|
    ensures forall i :: 0 <= i < n ==> !IsSpace(s[i])
    ensures n < |s| ==> IsSpace(s[n])
  {
    if s == [] || IsSpace(s[0]) then 0 else 1 + WordLength(s[1..])
  }

  /** `s` with every space rune removed. */
  function Squeeze(s: string): (r: string)
    ensures |r| <= |s|
  {
    if s == [] then []
    else if IsSpace(s[0]) then Squeeze(s[1..])
    else [s[0]] + Squeeze(s[1..])
  }

  /** The fields concatenated, without separators. */
  function Concat(fields: seq<string>): (r: string)
  {
    if fields == [] then [] else fields[0] + Concat(fields[1..])
  }

  /**
   * `strings.Fields`: the maximal runs of non-space runes of `s`, in order.
   * Every field is a word, and together they hold exactly the non-space
   * runes of `s`, in order.
   */
  function Fields(s: string): (fields: seq<string>)
    ensures forall i :: 0 <= i < |fields| ==> IsWord(fields[i])
    ensures Concat(fields) == Squeeze(s)
    decreases |s|
  {
    if s == [] then []
    else if IsSpace(s[0]) then Fields(s[1..])
    else
      var n := WordLength(s);
      SqueezeWord(s, n);
      [s[..n]] + Fields(s[n..])
  }

  lemma {:induction false} SqueezeWord(s: string, n: nat)
    requires n <= |s|
    requires forall i :: 0 <= i < n ==> !IsSpace(s[i])
    ensures Squeeze(s) == s[..n] + Squeeze(s[n..])
    decreases n
  {
    if n > 0 {
      SqueezeWord(s[1..], n - 1);
      assert s[1..][..n - 1] == s[1..n];
      assert s[1..][n - 1..] == s[n..];
      assert s[..n] == [s[0]] + s[1..n];
    }
  }

  /** A rune of `strings.ToLower`, on the ASCII letters. */
  function LowerChar(c: char): (r: char)
  {
    if 'A' <= c <= 'Z' then (c as int + 32) as char else c
  }

  /** `strings.ToLower`, rune by rune. */
  function ToLower(s: string): (r: string)
    ensures |r| == |s|
  {
    seq(|s|, i requires 0 <= i < |s| => LowerChar(s[i]))
  }

  // ---------------------------------------------------------------------
  // The decision
  // ---------------------------------------------------------------------

  /** What `tokenmaker.VerifyToken` answers: a payload, or an error with its message. */
  datatype VerifyResult<P> = Verified(payload: P) | Rejected(message: string)

  /** What the header checks alone decide: the access token, or a 401 message. */
  datatype TokenCheck = Token(accessToken: string) | Reject(message: string)

  /** The outcome of the middleware: abort with 401 and a message, or pass the payload on. */
  datatype Decision<P> = Abort401(message: string) | Next(payload: P)

  /**
   * The three header checks, in order: present, at least two fields, the
   * first field is "bearer" in any case. The token is the second field.
   */
  function ExtractToken(header: string): (r: TokenCheck)
    ensures r.Token? ==> IsWord(r.accessToken) && |Fields(header)| >= 2 && r.accessToken == Fields(header)[1]
    ensures r.Reject? ==> r.message in {NoHeaderMessage, InvalidFormatMessage, UnsupportedTypeMessage}
    ensures r == Reject(NoHeaderMessage) <==> header == []
  {
    if |header| == 0 then Reject(NoHeaderMessage)
    else
      var fields := Fields(header);
      if |fields| < 2 then Reject(InvalidFormatMessage)
      else if ToLower(fields[0]) != AuthorizationTypeBearer then Reject(UnsupportedTypeMessage)
      else Token(fields[1])
  }

  /** The whole guard: the header checks, then the token verifier on the token. */
  function Authorize<P>(header: string, verify: string -> VerifyResult<P>): (r: Decision<P>)
  {
    match ExtractToken(header)
    case Reject(message) => Abort401(message)
    case Token(accessToken) =>
      match verify(accessToken)
      case Rejected(message) => Abort401(message)
      case Verified(payload) => Next(payload)
  }

  // ---------------------------------------------------------------------
  // Properties of the decision
  // ---------------------------------------------------------------------

  /** An empty header is rejected, whatever the verifier would have said: it is never asked. */
  lemma EmptyHeaderRejected<P>(verify: string -> VerifyResult<P>, other: string -> VerifyResult<P>)
    ensures Authorize([], verify) == Abort401(NoHeaderMessage)
    ensures Authorize([], verify) == Authorize([], other)
  {
  }

  /** A non-empty header with fewer than two fields is rejected as malformed; the verifier is not asked. */
  lemma TooFewFieldsRejected<P>(header: string, verify: string -> VerifyResult<P>, other: string -> VerifyResult<P>)
    requires header != [] && |Fields(header)| < 2
    ensures Authorize(header, verify) == Abort401(InvalidFormatMessage)
    ensures Authorize(header, verify) == Authorize(header, other)
  {
  }

  /** The request reaches the next handler exactly when all four checks pass, with the verifier's payload. */
  lemma NextOnlyIfAllChecksPass<P>(header: string, verify: string -> VerifyResult<P>)
    ensures Authorize(header, verify).Next? <==>
      && header != []
      && |Fields(header)| >= 2
      && ToLower(Fields(header)[0]) == AuthorizationTypeBearer
      && verify(Fields(header)[1]).Verified?
    ensures Authorize(header, verify).Next? ==> Authorize(header, verify).payload == verify(Fields(header)[1]).payload
  {
  }

  /**
   * The verifier is consulted on the second field only: two verifiers that
   * agree on it lead to the same decision, whatever they say elsewhere.
   */
  lemma OnlySecondFieldIsVerified<P>(header: string, verify: string -> VerifyResult<P>, other: string -> VerifyResult<P>)
    requires |Fields(header)| >= 2 ==> verify(Fields(header)[1]) == other(Fields(header)[1])
    ensures Authorize(header, verify) == Authorize(header, other)
  {
  }

  /** The scheme comparison accepts exactly "bearer" with each letter in either case. */
  lemma BearerIsCaseInsensitive(scheme: string)
    ensures ToLower(scheme) == AuthorizationTypeBearer <==>
      |scheme| == 6 && forall i :: 0 <= i < 6 ==> scheme[i] == "bearer"[i] || scheme[i] == "BEARER"[i]
  {
    if ToLower(scheme) == AuthorizationTypeBearer {
      forall i | 0 <= i < 6 ensures scheme[i] == "bearer"[i] || scheme[i] == "BEARER"[i] {
        assert LowerChar(scheme[i]) == "bearer"[i];
      }
    }
    if |scheme| == 6 && forall i :: 0 <= i < 6 ==> scheme[i] == "bearer"[i] || scheme[i] == "BEARER"[i] {
      assert forall i :: 0 <= i < 6 ==> ToLower(scheme)[i] == AuthorizationTypeBearer[i];
    }
  }

  /** A word alone is one field. */
  lemma {:induction false} FieldsOfWord(w: string)
    requires IsWord(w)
    ensures Fields(w) == [w]
  {
    assert WordLength(w) == |w| by {
      WordLengthOfWord(w);
    }
    assert w[..|w|] == w;
    assert w[|w|..] == [];
  }

  lemma {:induction false} WordLengthOfWord(w: string)
    requires forall i :: 0 <= i < |w| ==> !IsSpace(w[i])
    ensures WordLength(w) == |w|
    decreases |w|
  {
    if w != [] {
      WordLengthOfWord(w[1..]);
    }
  }

  /** The run at the front of `a` ends where it did once a space and more text follow `a`. */
  lemma {:induction false} WordLengthBeforeSpace(a: string, c: char, b: string)
    requires IsSpace(c)
    ensures WordLength(a + [c] + b) == WordLength(a)
    decreases |a|
  {
    if a == [] {
      assert (a + [c] + b)[0] == c;
    } else if !IsSpace(a[0]) {
      assert (a + [c] + b)[1..] == a[1..] + [c] + b;
      WordLengthBeforeSpace(a[1..], c, b);
    }
  }

  /** A space rune separates fields: the fields of `a c b` are those of `a` then those of `b`. */
  lemma {:induction false} FieldsOfJoin(a: string, c: char, b: string)
    requires IsSpace(c)
    ensures Fields(a + [c] + b) == Fields(a) + Fields(b)
    decreases |a|
  {
    var s := a + [c] + b;
    if a == [] {
      assert s[1..] == b;
    } else if IsSpace(a[0]) {
      assert s[1..] == a[1..] + [c] + b;
      FieldsOfJoin(a[1..], c, b);
    } else {
      var n := WordLength(a);
      WordLengthBeforeSpace(a, c, b);
      assert s[..n] == a[..n];
      assert s[n..] == a[n..] + [c] + b;
      FieldsOfJoin(a[n..], c, b);
    }
  }

  /** A word followed by nothing, or by a space and anything, is the first field. */
  lemma FieldsOfWordThen(w: string, tail: string)
    requires IsWord(w)
    requires tail == [] || IsSpace(tail[0])
    ensures Fields(w + tail) == [w] + Fields(tail)
  {
    FieldsOfWord(w);
    if tail == [] {
      assert w + tail == w;
    } else {
      assert w + tail == w + [tail[0]] + tail[1..];
      FieldsOfJoin(w, tail[0], tail[1..]);
    }
  }

  /**
   * A header `scheme <space> token [tail]` is decided by the scheme, compared
   * without regard to case, and by the verifier on `token`; anything after
   * the token is ignored.
   */
  lemma {:induction false} SchemeAndTokenDecide<P>(scheme: string, sep: char, token: string, tail: string,
                                                 verify: string -> VerifyResult<P>)
    requires IsWord(scheme) && IsSpace(sep) && IsWord(token)
    requires tail == [] || IsSpace(tail[0])
    ensures Authorize(scheme + [sep] + token + tail, verify) ==
      if ToLower(scheme) != AuthorizationTypeBearer then Abort401(UnsupportedTypeMessage)
      else match verify(token)
        case Rejected(message) => Abort401(message)
        case Verified(payload) => Next(payload)
  {
    var header := scheme + [sep] + token + tail;
    assert header == scheme + [sep] + (token + tail);
    FieldsOfJoin(scheme, sep, token + tail);
    FieldsOfWord(scheme);
    FieldsOfWordThen(token, tail);
    assert Fields(header) == [scheme, token] + Fields(tail);
  }

  /** A header that starts with a space before the token has no scheme field and is malformed. */
  lemma {:induction false} MissingSchemeRejected<P>(token: string, sep: char, verify: string -> VerifyResult<P>)
    requires IsWord(token) && IsSpace(sep)
    ensures Authorize([sep] + token, verify) == Abort401(InvalidFormatMessage)
  {
    assert [sep] + token == [] + [sep] + token;
    FieldsOfJoin([], sep, token);
    FieldsOfWord(token);
  }

  // ---------------------------------------------------------------------
  // The request context and the handler
  // ---------------------------------------------------------------------

  /** The part of a gin request context the guard touches. */
  class Context<P> {
    var headers: map<string, string>
    var keys: map<string, P>
    var status: int
    var body: map<string, string>
    var aborted: bool
    var nextCalled: bool

    constructor (headers: map<string, string>)
      ensures this.headers == headers && keys == map[]
      ensures status == 200 && body == map[] && !aborted && !nextCalled
    {
      this.headers := headers;
      keys := map[];
      status := 200;
      body := map[];
      aborted := false;
      nextCalled := false;
    }

    /** `ctx.GetHeader`: the header's value, or the empty string when it is absent. */
    function GetHeader(key: string): (value: string)
      reads this
    {
      if key in headers then headers[key] else ""
    }

    /** `ctx.AbortWithStatusJSON(code, {"error": message})`. */
    method AbortWithStatusJSON(code: int, message: string)
      modifies this
      ensures status == code && body == map["error" := message] && aborted
      ensures headers == old(headers) && keys == old(keys) && nextCalled == old(nextCalled)
    {
      status := code;
      body := map["error" := message];
      aborted := true;
    }

    /** `ctx.Set(key, value)`. */
    method Set(key: string, value: P)
      modifies this
      ensures keys == old(keys)[key := value]
      ensures headers == old(headers) && status == old(status) && body == old(body)
      ensures aborted == old(aborted) && nextCalled == old(nextCalled)
    {
      keys := keys[key := value];
    }

    /** `ctx.Next()`: hand the request on to the rest of the chain. */
    method Next()
      modifies this
      ensures nextCalled
      ensures headers == old(headers) && keys == old(keys) && status == old(status)
      ensures body == old(body) && aborted == old(aborted)
    {
      nextCalled := true;
    }
  }

  /**
   * The handler returned by `authMiddleware`: each failing check aborts with
   * 401 and returns; otherwise the payload is stored under
   * `authorization_payload` and the chain continues. Its effect is exactly
   * the one `Authorize` decides.
   */
  method AuthMiddleware<P>(ctx: Context<P>, verify: string -> VerifyResult<P>)
    modifies ctx
    ensures ctx.headers == old(ctx.headers)
    ensures match Authorize(old(ctx.GetHeader(AuthorizationHeaderKey)), verify)
      case Abort401(message) =>
        && ctx.aborted && ctx.status == StatusUnauthorized && ctx.body == map["error" := message]
        && ctx.keys == old(ctx.keys) && ctx.nextCalled == old(ctx.nextCalled)
      case Next(payload) =>
        && ctx.keys == old(ctx.keys)[AuthorizationPayloadKey := payload] && ctx.nextCalled
        && ctx.status == old(ctx.status) && ctx.body == old(ctx.body) && ctx.aborted == old(ctx.aborted)
  {
    var authorizationHeader := ctx.GetHeader(AuthorizationHeaderKey);
    if |authorizationHeader| == 0 {
      ctx.AbortWithStatusJSON(StatusUnauthorized, NoHeaderMessage);
      return;
    }
    var fields := Fields(authorizationHeader);
    if |fields| < 2 {
      ctx.AbortWithStatusJSON(StatusUnauthorized, InvalidFormatMessage);
      return;
    }
    var authorizationType := ToLower(fields[0]);
    if authorizationType != AuthorizationTypeBearer {
      ctx.AbortWithStatusJSON(StatusUnauthorized, UnsupportedTypeMessage);
      return;
    }
    var accessToken := fields[1];
    var verified := verify(accessToken);
    if verified.Rejected? {
      ctx.AbortWithStatusJSON(StatusUnauthorized, verified.message);
      return;
    }
    ctx.Set(AuthorizationPayloadKey, verified.payload);
    ctx.Next();
  }
}
