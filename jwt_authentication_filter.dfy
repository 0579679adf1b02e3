/**
 * The bearer-token authentication filter: header extraction, RS256 pinning, the mapping of
 * the JWT library's outcomes to a boolean, the per-request decision that attaches an identity,
 * and the clean-up of the PEM text the public key is read from.
 *
 * The JWT library (parsing, base64url decoding, signature verification, expiry against the
 * clock) is an oracle `Parser` that either returns the parsed token or throws one of the
 * exception kinds in `JwtError`.
 */
module JwtAuthentication {
  import opened Wrappers
  import Sequences

  const BearerPrefix: string := "Bearer "
  const Rs256: string := "RS256"
  const RoleUser: string := "ROLE_USER"

  /** The encapsulation boundaries of a public key (section 13 of RFC 7468). */
  const PemBegin: string := "-----BEGIN PUBLIC KEY-----"
  const PemEnd: string := "-----END PUBLIC KEY-----"

  /** What `\s` matches in a java.util.regex pattern: space, \t, \n, \x0B, \f and \r. */
  const RegexWhitespace: set<char> := {' ', '\t', '\n', '\U{B}', '\U{C}', '\r'}

  /** An inbound request, reduced to its `Authorization` header (None when absent). */
  datatype Request = Request(authorization: Option<string>)

  /** The exceptions the JWT library can throw while parsing and verifying a token. */
  datatype JwtError =
    | MalformedJwt    // MalformedJwtException: not a well-formed compact JWS
    | ExpiredJwt      // ExpiredJwtException: the `exp` claim lies in the past
    | UnsupportedJwt  // UnsupportedJwtException: a token form the parser does not accept
    | IllegalArgument // IllegalArgumentException: a null or empty claims string
    | OtherFailure    // any other exception, e.g. a signature that does not verify

  /** A parsed and verified token: the header's `alg` and the payload's `sub` (either may be null). */
  datatype Jws = Jws(algorithm: Option<string>, subject: Option<string>)

  /** What a library call does: return a value or throw. */
  datatype Outcome<+T> = Returns(value: T) | Throws(error: JwtError)

  /** An RSA public key, held as its X.509 SubjectPublicKeyInfo encoding. */
  datatype PublicKey = RsaPublicKey(subjectPublicKeyInfo: seq<bv8>)

  /** A reading of the clock, against which the library checks `exp`. */
  type Instant = int

  /** `Jwts.parser().verifyWith(key).build().parseSignedClaims(token)` at a given instant. */
  type Parser = (PublicKey, string, Instant) -> Outcome<Jws>

  /** `UsernamePasswordAuthenticationToken(principal, credentials, authorities)`. */
  datatype Authentication = Authentication(principal: Option<string>, credentials: Option<string>, authorities: seq<string>)

  /** Why the public key could not be loaded; the constructor turns either into a RuntimeException. */
  datatype KeyLoadError = ResourceMissing | KeyRejected

  /** The library verified the token and its header declares RS256. */
  predicate IsRs256(parsed: Outcome<Jws>) {
    parsed.Returns? && parsed.value.algorithm == Some(Rs256)
  }

  /** The exception kinds that validateToken's four catch clauses handle. */
  predicate Caught(e: JwtError) {
    e != OtherFailure
  }

  /** The identity attached for a verified token: the subject, no credentials, the one role. */
  function UserAuthentication(username: Option<string>): (a: Authentication)
    ensures a.principal == username && a.credentials == None && a.authorities == [RoleUser]
  {
    Authentication(username, None, [RoleUser])
  }

  // ------------------------------------------------------------------ header extraction

  /** getJwtFromRequest: the header minus "Bearer " when it starts with it (case-sensitive). */
  function GetJwtFromRequest(request: Request): (jwt: Option<string>)
    ensures jwt.Some? <==> request.authorization.Some? && BearerPrefix <= request.authorization.value
    ensures jwt.Some? ==> request.authorization.value == BearerPrefix + jwt.value
  {
    match request.authorization
    case None => None
    case Some(header) => if BearerPrefix <= header then Some(header[|BearerPrefix|..]) else None
  }

  /** Extracting from "Bearer " + t gives back t, for every t including the empty one. */
  lemma ExtractAfterPrefix(t: string)
    ensures GetJwtFromRequest(Request(Some(BearerPrefix + t))) == Some(t)
  {
    assert (BearerPrefix + t)[|BearerPrefix|..] == t;
  }

  // ------------------------------------------------------------------ PEM clean-up

  /** `pattern` occurs in `s` starting at index i. */
  predicate MatchesAt(s: string, pattern: string, i: nat) {
    i + |pattern| <= |s| && s[i..i + |pattern|] == pattern
  }

  predicate Occurs(pattern: string, s: string) {
    exists i: nat :: i <= |s| && MatchesAt(s, pattern, i)
  }

  /** `s.replace(pattern, "")`: occurrences removed left to right, without overlap. */
  function RemoveAll(s: string, pattern: string): (r: string)
    ensures |r| <= |s|
    decreases |s|
  {
    if |pattern| == 0 || |s| < |pattern| then s
    else if s[..|pattern|] == pattern then RemoveAll(s[|pattern|..], pattern)
    else [s[0]] + RemoveAll(s[1..], pattern)
  }

  predicate NotWhitespace(c: char) {
    c !in RegexWhitespace
  }

  /** `s.replaceAll("\\s", "")`. */
  function StripWhitespace(s: string): (r: string)
    ensures forall i :: 0 <= i < |r| ==> r[i] !in RegexWhitespace
    ensures forall c :: c in r <==> c in s && c !in RegexWhitespace
  {
    Sequences.Filter(s, NotWhitespace)
  }

  /** A string without whitespace holds nothing that has a space in it, such as either marker. */
  lemma {:induction false} NoSpaceNoMarker(s: string, pattern: string, k: nat)
    requires k < |pattern| && pattern[k] == ' '
    requires forall i :: 0 <= i < |s| ==> s[i] !in RegexWhitespace
    ensures !Occurs(pattern, s)
  {
    forall i: nat | i <= |s| ensures !MatchesAt(s, pattern, i) {
      if i + |pattern| <= |s| {
        assert s[i..i + |pattern|][k] == s[i + k];
      }
    }
  }

  /** Both markers contain a space; BEGIN is longer than END and ends in a dash. */
  lemma MarkerShapes()
    ensures PemBegin[10] == ' ' && PemEnd[8] == ' '
    ensures |PemBegin| == 26 && |PemEnd| == 24 && PemBegin[25] == '-'
    ensures PemBegin[0] == '-' && PemEnd[0] == '-'
  {
  }

  /** The key body left after stripping both markers and then all whitespace from the PEM text. */
  function CleanPem(pem: string): (body: string)
    ensures forall i :: 0 <= i < |body| ==> body[i] !in RegexWhitespace
    ensures !Occurs(PemBegin, body) && !Occurs(PemEnd, body)
  {
    var body := StripWhitespace(RemoveAll(RemoveAll(pem, PemBegin), PemEnd));
    MarkerShapes();
    NoSpaceNoMarker(body, PemBegin, 10);
    NoSpaceNoMarker(body, PemEnd, 8);
    body
  }

  /** Text that cannot start the pattern passes through the removal unchanged. */
  lemma {:induction false} RemoveAllSkips(a: string, b: string, pattern: string)
    requires |pattern| > 0 && pattern[0] !in a
    ensures RemoveAll(a + b, pattern) == a + RemoveAll(b, pattern)
  {
    if a == [] {
      assert a + b == b;
    } else {
      var s := a + b;
      assert s[0] == a[0];
      if |s| >= |pattern| {
        assert s[..|pattern|] != pattern by { assert s[..|pattern|][0] == s[0]; }
        assert RemoveAll(s, pattern) == [s[0]] + RemoveAll(s[1..], pattern);
        assert s[1..] == a[1..] + b;
        RemoveAllSkips(a[1..], b, pattern);
      } else {
        assert RemoveAll(s, pattern) == s;
        assert RemoveAll(b, pattern) == b;
      }
    }
  }

  lemma {:induction false} RemoveAllNoMatch(s: string, pattern: string)
    requires !Occurs(pattern, s)
    ensures RemoveAll(s, pattern) == s
  {
    if |pattern| > 0 && |s| >= |pattern| {
      assert !MatchesAt(s, pattern, 0);
      assert s[..|pattern|] == s[0..|pattern|];
      if Occurs(pattern, s[1..]) {
        var i: nat :| i <= |s[1..]| && MatchesAt(s[1..], pattern, i);
        assert s[1..][i..i + |pattern|] == s[i + 1..i + 1 + |pattern|];
        assert MatchesAt(s, pattern, i + 1);
      }
      RemoveAllNoMatch(s[1..], pattern);
      assert s == [s[0]] + s[1..];
    }
  }

  /** No BEGIN marker can start inside "-----END PUBLIC KEY-----" followed by dash-free text. */
  lemma EndMarkerHidesBegin(y: string)
    requires '-' !in y
    ensures !Occurs(PemBegin, PemEnd + y)
  {
    var s := PemEnd + y;
    MarkerShapes();
    forall i: nat | i <= |s| ensures !MatchesAt(s, PemBegin, i) {
      if i + |PemBegin| <= |s| {
        assert s[i..i + |PemBegin|][25] == s[i + 25] == y[i + 1];
      }
    }
  }

  lemma BeginMarkerRemoved(before: string, body: string, after: string)
    requires '-' !in before && '-' !in body && '-' !in after
    ensures RemoveAll(before + PemBegin + body + PemEnd + after, PemBegin) == before + body + (PemEnd + after)
  {
    MarkerShapes();
    var rest := body + (PemEnd + after);
    assert before + PemBegin + body + PemEnd + after == before + (PemBegin + rest);
    RemoveAllSkips(before, PemBegin + rest, PemBegin);
    assert (PemBegin + rest)[..|PemBegin|] == PemBegin;
    assert (PemBegin + rest)[|PemBegin|..] == rest;
    assert RemoveAll(PemBegin + rest, PemBegin) == RemoveAll(rest, PemBegin);
    RemoveAllSkips(body, PemEnd + after, PemBegin);
    EndMarkerHidesBegin(after);
    RemoveAllNoMatch(PemEnd + after, PemBegin);
    assert before + (body + (PemEnd + after)) == before + body + (PemEnd + after);
  }

  lemma EndMarkerRemoved(head: string, after: string)
    requires '-' !in head && '-' !in after
    ensures RemoveAll(head + (PemEnd + after), PemEnd) == head + after
  {
    MarkerShapes();
    RemoveAllSkips(head, PemEnd + after, PemEnd);
    assert (PemEnd + after)[..|PemEnd|] == PemEnd;
    assert (PemEnd + after)[|PemEnd|..] == after;
    assert RemoveAll(PemEnd + after, PemEnd) == RemoveAll(after, PemEnd);
    RemoveAllSkips(after, [], PemEnd);
    assert after + [] == after;
  }

  /**
   * For PEM text whose surrounding text and body are free of '-', as base64 and line breaks
   * are, clean-up yields exactly the text outside the markers with its whitespace removed.
   */
  lemma PemArmourRemoved(before: string, body: string, after: string)
    requires '-' !in before && '-' !in body && '-' !in after
    ensures CleanPem(before + PemBegin + body + PemEnd + after) == StripWhitespace(before + body + after)
  {
    BeginMarkerRemoved(before, body, after);
    EndMarkerRemoved(before + body, after);
  }

  /** loadPublicKey: the key decoded from the cleaned resource text, or why there is none. */
  function LoadPublicKey(resource: Option<string>, decodeKey: string -> Option<PublicKey>): (r: Result<PublicKey, KeyLoadError>)
    ensures r.Success? <==> resource.Some? && decodeKey(CleanPem(resource.value)).Some?
    ensures r.Success? ==> decodeKey(CleanPem(resource.value)) == Some(r.value)
    ensures r == Failure(ResourceMissing) <==> resource.None?
  {
    match resource
    case None => Failure(ResourceMissing)
    case Some(text) =>
      match decodeKey(CleanPem(text))
      case None => Failure(KeyRejected)
      case Some(key) => Success(key)
  }

  // ------------------------------------------------------------------ request state

  /** The request-scoped security context: the authentication seen by later stages. */
  class SecurityContext {
    var authentication: Option<Authentication>

    constructor ()
      ensures authentication == None
    {
      authentication := None;
    }
  }

  /** The rest of the filter chain; it records each request it receives and the identity then set. */
  class FilterChain {
    var forwarded: seq<(Request, Option<Authentication>)>

    constructor ()
      ensures forwarded == []
    {
      forwarded := [];
    }

    method DoFilter(request: Request, context: SecurityContext)
      modifies this
      ensures forwarded == old(forwarded) + [(request, context.authentication)]
    {
      forwarded := forwarded + [(request, context.authentication)];
    }
  }

  class JwtAuthenticationFilter {
    const publicKey: PublicKey

    constructor (key: PublicKey)
      ensures publicKey == key
    {
      publicKey := key;
    }

    /** validateToken: true only for a verified RS256 token; the four caught kinds give false. */
    function ValidateToken(authToken: string, parse: Parser, now: Instant): (r: Outcome<bool>)
      ensures r == Returns(true) <==> IsRs256(parse(publicKey, authToken, now))
      ensures r.Throws? <==> parse(publicKey, authToken, now) == Throws(OtherFailure)
      ensures r.Throws? ==> r.error == OtherFailure
    {
      match parse(publicKey, authToken, now)
      case Returns(jws) => Returns(jws.algorithm == Some(Rs256))
      case Throws(e) => if Caught(e) then Returns(false) else Throws(e)
    }

    /** getUsernameFromToken: the subject of a verified RS256 token; other algorithms throw. */
    function GetUsernameFromToken(token: string, parse: Parser, now: Instant): (r: Outcome<Option<string>>)
      ensures r.Returns? <==> IsRs256(parse(publicKey, token, now))
      ensures r.Returns? ==> r.value == parse(publicKey, token, now).value.subject
      ensures parse(publicKey, token, now).Returns? && r.Throws? ==> r.error == UnsupportedJwt
      ensures parse(publicKey, token, now).Throws? ==> r == Throws(parse(publicKey, token, now).error)
    {
      match parse(publicKey, token, now)
      case Throws(e) => Throws(e)
      case Returns(jws) =>
        if jws.algorithm != Some(Rs256) then Throws(UnsupportedJwt) else Returns(jws.subject)
    }

    /**
     * The authentication doFilterInternal stores, or None when it leaves the context as it was.
     * The library is consulted twice: by validateToken at `validateAt` and by
     * getUsernameFromToken at `extractAt`; an exception from either ends in the outer catch.
     */
    function AuthenticationFor(request: Request, parse: Parser, validateAt: Instant, extractAt: Instant): (r: Option<Authentication>)
      ensures r.Some? <==>
        && request.authorization.Some?
        && BearerPrefix <= request.authorization.value
        && IsRs256(parse(publicKey, request.authorization.value[|BearerPrefix|..], validateAt))
        && IsRs256(parse(publicKey, request.authorization.value[|BearerPrefix|..], extractAt))
      ensures r.Some? ==>
        r == Some(UserAuthentication(parse(publicKey, request.authorization.value[|BearerPrefix|..], extractAt).value.subject))
    {
      match GetJwtFromRequest(request)
      case None => None
      case Some(jwt) =>
        match ValidateToken(jwt, parse, validateAt)
        case Throws(_) => None
        case Returns(valid) =>
          if !valid then None
          else match GetUsernameFromToken(jwt, parse, extractAt)
            case Throws(_) => None
            case Returns(username) => Some(UserAuthentication(username))
    }

    /**
     * doFilterInternal: sets the context's authentication exactly when AuthenticationFor gives
     * one, leaves it unchanged otherwise, and hands the request on to the chain exactly once.
     */
    method DoFilterInternal(request: Request, context: SecurityContext, chain: FilterChain,
                            parse: Parser, validateAt: Instant, extractAt: Instant)
      modifies context, chain
      ensures context.authentication ==
        if AuthenticationFor(request, parse, validateAt, extractAt).Some?
        then AuthenticationFor(request, parse, validateAt, extractAt)
        else old(context.authentication)
      ensures chain.forwarded == old(chain.forwarded) + [(request, context.authentication)]
    {
      // try {
      var jwt := GetJwtFromRequest(request);
      if jwt.Some? {
        var valid := ValidateToken(jwt.value, parse, validateAt);
        // a Throws outcome here is what the outer catch absorbs
        if valid == Returns(true) {
          var username := GetUsernameFromToken(jwt.value, parse, extractAt);
          if username.Returns? {
            context.authentication := Some(UserAuthentication(username.value));
          }
        }
      }
      // } catch (Exception ex) { log }
      chain.DoFilter(request, context);
    }
  }

  /** The constructor: load the key from the bundled resource, or fail. */
  method CreateFilter(resource: Option<string>, decodeKey: string -> Option<PublicKey>)
    returns (r: Result<JwtAuthenticationFilter, KeyLoadError>)
    ensures r.Success? <==> LoadPublicKey(resource, decodeKey).Success?
    ensures r.Success? ==> fresh(r.value) && r.value.publicKey == LoadPublicKey(resource, decodeKey).value
    ensures r.Failure? ==> r.error == LoadPublicKey(resource, decodeKey).error
  {
    match LoadPublicKey(resource, decodeKey)
    case Failure(e) => r := Failure(e);
    case Success(key) =>
      var filter := new JwtAuthenticationFilter(key);
      r := Success(filter);
  }

  /**
   * Two requests, each with its own request-scoped context, through the same filter: the stage
   * after the filter sees, for each, exactly the identity derived from that request's own header.
   */
  method ServeTwoRequests(filter: JwtAuthenticationFilter, first: Request, second: Request, parse: Parser, now: Instant)
    returns (seenFirst: Option<Authentication>, seenSecond: Option<Authentication>)
    ensures seenFirst == filter.AuthenticationFor(first, parse, now, now)
    ensures seenSecond == filter.AuthenticationFor(second, parse, now, now)
  {
    var chain := new FilterChain();
    var firstContext := new SecurityContext();
    var secondContext := new SecurityContext();
    filter.DoFilterInternal(first, firstContext, chain, parse, now, now);
    filter.DoFilterInternal(second, secondContext, chain, parse, now, now);
    seenFirst := chain.forwarded[0].1;
    seenSecond := chain.forwarded[1].1;
  }
}
