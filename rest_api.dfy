/** The build plugin's authenticated transport (`RestApiServiceImpl`): base URL
    normalisation, endpoint joining, classification of responses, the cookie jar
    that keeps one cookie per case-insensitive name, and the interceptor that
    attaches the XSRF token and the credentials to every request.
    The network, JSON (de)serialisation and the clock are inputs. */
module RestApi {
  import opened Lang

  const ACCEPTED_HTTP_CODES: set<int> := {200, 201, 202, 204}
  const XSRF_COOKIE_NAME: string := "XSRF-TOKEN"
  const XSRF_HEADER: string := "X-XSRF-TOKEN"
  const AUTHORIZATION_HEADER: string := "Authorization"
  const API_KEY_HEADER: string := "X-API-KEY"
  /** Five minutes, in milliseconds. */
  const XSRF_COOKIE_TTL: int := 5 * 60 * 1000
  const LOGIN_ENDPOINT: string := "/api/user"
  const CHUNK_FILENAME: string := "filechunk"
  const OCTET_STREAM: string := "application/octet-stream"
  const APPLICATION_JSON: string := "application/json"

  /** The causes an `ApiCallException` can carry, and the two unchecked
      failures of the HTTP client's request builders (`NoParts`, `BadMethodBody`). */
  datatype ApiCallError =
    | UnexpectedStatus(code: int, content: string)  // exchange: status code and body text, "EMPTY" without a body
    | LoginRejected                                 // the login probe got a status outside the accepted ones
    | MultipartRejected                             // multipart call: bad status or no body
    | NotSerializable                               // the entity could not be written as JSON
    | IoFailure                                     // I/O failure, or a body that is not readable JSON
    | NoParts                                       // `IllegalStateException`: a multipart body needs a part
    | BadMethodBody                                 // `IllegalArgumentException`: the method does not fit the body

  // ---------------------------------------------------------------- URLs

  /** The base URL kept by `validateUrlAndKey`: "http://" is prepended unless the
      URL starts with "http" in any case, then one trailing "/" is removed. */
  function NormalizeServerUrl(url: string): (r: string)
    ensures StartsWithIgnoreCase(Str(r), "http")
    ensures StartsWithIgnoreCase(Str(url), "http") ==> r == url || r + "/" == url
    ensures !StartsWithIgnoreCase(Str(url), "http") ==> r == "http://" + url || r + "/" == "http://" + url
    ensures var p := if StartsWithIgnoreCase(Str(url), "http") then url else "http://" + url;
            && (p[|p| - 1] == '/' ==> r + "/" == p)
            && (p[|p| - 1] != '/' ==> r == p)
  {
    var prefixed := if StartsWithIgnoreCase(Str(url), "http") then url else "http://" + url;
    assert StartsWithIgnoreCase(Str(prefixed), "http") by {
      if !StartsWithIgnoreCase(Str(url), "http") { assert prefixed[..4] == "http"; }
    }
    if EndsWithIgnoreCase(Str(prefixed), "/") then
      assert prefixed[|prefixed| - 1] == '/';
      assert Lower(prefixed[..4])[3] == 'p';
      var r := prefixed[..|prefixed| - 1];
      assert r[..4] == prefixed[..4];
      r
    else
      prefixed
  }

  /** Normalisation strips exactly one trailing slash, so it is idempotent
      on every URL whose normal form does not itself end in "/". */
  lemma NormalizeIdempotent(url: string)
    requires var r := NormalizeServerUrl(url); r == [] || r[|r| - 1] != '/'
    ensures NormalizeServerUrl(NormalizeServerUrl(url)) == NormalizeServerUrl(url)
  {
    var r := NormalizeServerUrl(url);
    if r != [] {
      assert Lower(r[|r| - 1..])[0] != '/';
    }
  }

  /** `getRequestBuilder`: the URL of an endpoint; exactly one "/" separates the
      base from the endpoint whether or not the endpoint starts with one. */
  function EndpointUrl(serverUrl: string, endpoint: string): (url: string)
    ensures url == serverUrl + "/" + (if |endpoint| > 0 && endpoint[0] == '/' then endpoint[1..] else endpoint)
  {
    if StartsWithIgnoreCase(Str(endpoint), "/") then
      assert endpoint == [endpoint[0]] + endpoint[1..];
      assert FoldCase(endpoint[0]) == '/';
      serverUrl + endpoint
    else
      assert |endpoint| > 0 ==> Lower(endpoint[..1]) != Lower("/");
      serverUrl + "/" + endpoint
  }

  lemma LeadingSlashIsOptional(serverUrl: string, endpoint: string)
    requires endpoint == [] || endpoint[0] != '/'
    ensures EndpointUrl(serverUrl, endpoint) == EndpointUrl(serverUrl, "/" + endpoint)
  {
    assert ("/" + endpoint)[1..] == endpoint;
  }

  // ---------------------------------------------------------------- responses

  /** What the JSON mapper makes of a body: a value of the requested type, a
      `MismatchedInputException`, or any other I/O or parse failure. */
  datatype Decoded<T> = Parsed(value: T) | Mismatched | Unreadable

  datatype ResponseBody<T> = ResponseBody(text: string, decoded: Decoded<T>)

  datatype Response<T> = Response(code: int, body: Option<ResponseBody<T>>, setCookies: seq<Cookie>)

  /** The outcome of one network call: a response, or an `IOException`. */
  datatype Network<T> = Answered(response: Response<T>) | Unreachable

  function BodyText<T>(body: Option<ResponseBody<T>>): string {
    if body.None? then "EMPTY" else body.value.text
  }

  /** `exchangeForEntity` after the call: an accepted status yields the decoded
      body or null (no body, or a body of the wrong shape); any other status
      fails with the status code and the body text. */
  function ClassifyExchange<T>(n: Network<T>): (r: Result<Option<T>, ApiCallError>)
    ensures n.Unreachable? ==> r == Err(IoFailure)
    ensures n.Answered? && n.response.code !in ACCEPTED_HTTP_CODES ==>
              r == Err(UnexpectedStatus(n.response.code, BodyText(n.response.body)))
    ensures r.Err? && r.error.UnexpectedStatus? <==> n.Answered? && n.response.code !in ACCEPTED_HTTP_CODES
    ensures r.Ok? && r.value.Some? <==>
              n.Answered? && n.response.code in ACCEPTED_HTTP_CODES && n.response.body.Some? && n.response.body.value.decoded.Parsed?
    ensures r.Ok? && r.value.Some? ==> r.value.value == n.response.body.value.decoded.value
    ensures (n.Answered? && n.response.code in ACCEPTED_HTTP_CODES
             && (n.response.body.None? || n.response.body.value.decoded.Mismatched?)) ==> r == Ok(None)
    ensures (n.Answered? && n.response.code in ACCEPTED_HTTP_CODES && n.response.body.Some?
             && n.response.body.value.decoded.Unreadable?) ==> r == Err(IoFailure)
  {
    match n
    case Unreachable => Err(IoFailure)
    case Answered(resp) =>
      if resp.code in ACCEPTED_HTTP_CODES then
        match resp.body
        case None => Ok(None)
        case Some(b) =>
          match b.decoded
          case Parsed(v) => Ok(Some(v))
          case Mismatched => Ok(None)
          case Unreadable => Err(IoFailure)
      else
        Err(UnexpectedStatus(resp.code, BodyText(resp.body)))
  }

  /** `exchangeMultipartForEntity` after the call: only an accepted status with a
      body that decodes succeeds; a mismatched body is an I/O failure here. */
  function ClassifyMultipart<T>(n: Network<T>): (r: Result<T, ApiCallError>)
    ensures r.Ok? <==> n.Answered? && n.response.code in ACCEPTED_HTTP_CODES
                       && n.response.body.Some? && n.response.body.value.decoded.Parsed?
    ensures r.Ok? ==> r.value == n.response.body.value.decoded.value
    ensures n.Answered? && (n.response.code !in ACCEPTED_HTTP_CODES || n.response.body.None?) ==> r == Err(MultipartRejected)
  {
    match n
    case Unreachable => Err(IoFailure)
    case Answered(resp) =>
      if resp.code in ACCEPTED_HTTP_CODES && resp.body.Some? then
        match resp.body.value.decoded
        case Parsed(v) => Ok(v)
        case Mismatched => Err(IoFailure)
        case Unreadable => Err(IoFailure)
      else
        Err(MultipartRejected)
  }

  /** `login`: the probe succeeds on an accepted status, whatever the body. */
  function ClassifyLogin<T>(n: Network<T>): (r: Option<ApiCallError>)
    ensures r.None? <==> n.Answered? && n.response.code in ACCEPTED_HTTP_CODES
    ensures n.Answered? && n.response.code !in ACCEPTED_HTTP_CODES ==> r == Some(LoginRejected)
  {
    match n
    case Unreachable => Some(IoFailure)
    case Answered(resp) => if resp.code in ACCEPTED_HTTP_CODES then None else Some(LoginRejected)
  }

  /** The three classifications accept exactly the same status codes, and the
      multipart one is stricter: whatever it accepts the plain exchange accepts
      with the same value, while an accepted response without a body is a value
      (null) for the exchange and an error for the multipart call. */
  lemma MultipartIsStricter<T>(n: Network<T>)
    ensures ClassifyMultipart(n).Ok? ==> ClassifyExchange(n) == Ok(Some(ClassifyMultipart(n).value))
    ensures ClassifyMultipart(n).Ok? ==> ClassifyLogin(n).None?
    ensures ClassifyExchange(n).Ok? <==> ClassifyLogin(n).None? && !(n.response.body.Some? && n.response.body.value.decoded.Unreadable?)
    ensures n.Answered? && n.response.code in ACCEPTED_HTTP_CODES && n.response.body.None? ==>
              ClassifyExchange(n) == Ok(None) && ClassifyMultipart(n) == Err(MultipartRejected)
  {
  }

  // ---------------------------------------------------------------- headers

  /** A header value: plain text, or `Credentials.basic(user, password)` (the
      base64 encoding is not modelled). */
  datatype HeaderValue = Text(text: string) | BasicCredentials(user: string, password: string)

  datatype Header = Header(name: string, value: HeaderValue)

  /** `Request.header(name)`: the last value whose name matches ignoring case. */
  function HeaderOf(hs: seq<Header>, name: string): (r: Option<HeaderValue>)
    ensures r.Some? <==> exists i :: 0 <= i < |hs| && SameIgnoringCase(hs[i].name, name)
  {
    if hs == [] then None
    else if SameIgnoringCase(hs[|hs| - 1].name, name) then Some(hs[|hs| - 1].value)
    else
      var r := HeaderOf(hs[..|hs| - 1], name);
      assert forall i :: 0 <= i < |hs| - 1 ==> hs[..|hs| - 1][i] == hs[i];
      r
  }

  /** Every header whose name does not match `name` ignoring case, in order. */
  function WithoutHeader(hs: seq<Header>, name: string): (r: seq<Header>)
    ensures forall h :: h in r <==> h in hs && !SameIgnoringCase(h.name, name)
  {
    if hs == [] then []
    else
      var last := hs[|hs| - 1];
      assert hs == hs[..|hs| - 1] + [last];
      WithoutHeader(hs[..|hs| - 1], name) + (if SameIgnoringCase(last.name, name) then [] else [last])
  }

  /** `Request.Builder.header(name, value)`: replaces every header of that name. */
  function WithHeader(hs: seq<Header>, name: string, v: HeaderValue): seq<Header> {
    WithoutHeader(hs, name) + [Header(name, v)]
  }

  lemma {:induction false} HeaderOfWithout(hs: seq<Header>, name: string, other: string)
    ensures HeaderOf(WithoutHeader(hs, name), other) ==
              if SameIgnoringCase(other, name) then None else HeaderOf(hs, other)
  {
    if hs != [] {
      var init, last := hs[..|hs| - 1], hs[|hs| - 1];
      HeaderOfWithout(init, name, other);
      var wi := WithoutHeader(init, name);
      if SameIgnoringCase(last.name, name) {
        assert WithoutHeader(hs, name) == wi;
        assert !SameIgnoringCase(other, name) ==> HeaderOf(hs, other) == HeaderOf(init, other);
      } else {
        var w := wi + [last];
        assert WithoutHeader(hs, name) == w;
        assert w[..|w| - 1] == wi;
        assert HeaderOf(w, other) == if SameIgnoringCase(last.name, other) then Some(last.value) else HeaderOf(wi, other);
        assert HeaderOf(hs, other) == if SameIgnoringCase(last.name, other) then Some(last.value) else HeaderOf(init, other);
      }
    }
  }

  /** After setting a header, reading it gives the new value and reading any
      other name gives what it gave before. */
  lemma HeaderOfWith(hs: seq<Header>, name: string, v: HeaderValue, other: string)
    ensures HeaderOf(WithHeader(hs, name, v), other) ==
              if SameIgnoringCase(other, name) then Some(v) else HeaderOf(hs, other)
  {
    var w := WithHeader(hs, name, v);
    assert w[..|w| - 1] == WithoutHeader(hs, name);
    HeaderOfWithout(hs, name, other);
  }

  // ---------------------------------------------------------------- cookie jar

  /** A cookie; the jar ignores its domain and path. */
  datatype Cookie = Cookie(name: string, value: string, domain: string, path: string)

  /** No two cookies share a name ignoring case. */
  predicate UniqueNames(cs: seq<Cookie>) {
    forall i, j :: 0 <= i < j < |cs| ==> !SameIgnoringCase(cs[i].name, cs[j].name)
  }

  /** `findFirst` over the cookies whose name matches ignoring case. */
  function FirstNamed(cs: seq<Cookie>, name: string): (r: Option<Cookie>)
    ensures r.Some? ==> r.value in cs && SameIgnoringCase(r.value.name, name)
    ensures r.None? ==> forall c :: c in cs ==> !SameIgnoringCase(c.name, name)
  {
    if cs == [] then None
    else if SameIgnoringCase(cs[0].name, name) then Some(cs[0])
    else FirstNamed(cs[1..], name)
  }

  /** The jar without the first cookie whose name matches ignoring case. */
  function RemoveFirstNamed(cs: seq<Cookie>, name: string): seq<Cookie> {
    if cs == [] then []
    else if SameIgnoringCase(cs[0].name, name) then cs[1..]
    else [cs[0]] + RemoveFirstNamed(cs[1..], name)
  }

  /** Saving one cookie: the stored cookie of the same name goes, the new one is added. */
  function SaveOne(cs: seq<Cookie>, c: Cookie): seq<Cookie> {
    RemoveFirstNamed(cs, c.name) + [c]
  }

  /** Saving the cookies of one response, in order. */
  function SaveAll(cs: seq<Cookie>, received: seq<Cookie>): seq<Cookie> {
    if received == [] then cs
    else SaveOne(SaveAll(cs, received[..|received| - 1]), received[|received| - 1])
  }

  lemma {:induction false} RemoveFirstNamedKeeps(cs: seq<Cookie>, name: string)
    ensures forall c :: c in RemoveFirstNamed(cs, name) ==> c in cs
  {
    if cs != [] && !SameIgnoringCase(cs[0].name, name) {
      RemoveFirstNamedKeeps(cs[1..], name);
    }
  }

  /** Saving never invents a cookie: each one in the jar was stored before or
      received. */
  lemma {:induction false} SaveAllInventsNothing(cs: seq<Cookie>, received: seq<Cookie>)
    ensures forall c :: c in SaveAll(cs, received) ==> c in cs || c in received
  {
    if received != [] {
      var init := received[..|received| - 1];
      SaveAllInventsNothing(cs, init);
      RemoveFirstNamedKeeps(SaveAll(cs, init), received[|received| - 1].name);
      assert forall c :: c in init ==> c in received;
    }
  }

  /** The last cookie of `cs` whose name matches ignoring case. */
  function LastNamed(cs: seq<Cookie>, name: string): Option<Cookie> {
    if cs == [] then None
    else if SameIgnoringCase(cs[|cs| - 1].name, name) then Some(cs[|cs| - 1])
    else LastNamed(cs[..|cs| - 1], name)
  }

  /** Unique names hold of the tail, whose names all differ from the head's. */
  lemma UniqueTail(cs: seq<Cookie>)
    requires UniqueNames(cs) && cs != []
    ensures UniqueNames(cs[1..])
    ensures forall c :: c in cs[1..] ==> !SameIgnoringCase(c.name, cs[0].name)
  {
    forall i, j | 0 <= i < j < |cs[1..]| ensures !SameIgnoringCase(cs[1..][i].name, cs[1..][j].name) {
      assert cs[1..][i] == cs[i + 1] && cs[1..][j] == cs[j + 1];
    }
    forall c | c in cs[1..] ensures !SameIgnoringCase(c.name, cs[0].name) {
      var j :| 0 <= j < |cs[1..]| && cs[1..][j] == c;
      assert cs[j + 1] == c;
    }
  }

  /** A cookie whose name no other cookie shares can be put in front. */
  lemma UniqueCons(x: Cookie, rest: seq<Cookie>)
    requires UniqueNames(rest)
    requires forall c :: c in rest ==> !SameIgnoringCase(c.name, x.name)
    ensures UniqueNames([x] + rest)
  {
    var s := [x] + rest;
    forall i, j | 0 <= i < j < |s| ensures !SameIgnoringCase(s[i].name, s[j].name) {
      assert s[j] == rest[j - 1];
      if i == 0 {
        assert rest[j - 1] in rest;
      } else {
        assert s[i] == rest[i - 1];
      }
    }
  }

  lemma {:induction false} RemoveFirstNamedContents(cs: seq<Cookie>, name: string)
    requires UniqueNames(cs)
    ensures UniqueNames(RemoveFirstNamed(cs, name))
    ensures forall c :: c in RemoveFirstNamed(cs, name) <==> c in cs && !SameIgnoringCase(c.name, name)
  {
    if cs != [] {
      UniqueTail(cs);
      assert cs == [cs[0]] + cs[1..];
      if !SameIgnoringCase(cs[0].name, name) {
        RemoveFirstNamedContents(cs[1..], name);
        var rest := RemoveFirstNamed(cs[1..], name);
        assert RemoveFirstNamed(cs, name) == [cs[0]] + rest;
        UniqueCons(cs[0], rest);
      }
    }
  }

  lemma {:induction false} RemoveAbsent(cs: seq<Cookie>, name: string)
    requires FirstNamed(cs, name).None?
    ensures RemoveFirstNamed(cs, name) == cs
  {
    if cs != [] {
      RemoveAbsent(cs[1..], name);
      assert cs == [cs[0]] + cs[1..];
    }
  }

  /** With unique names, the first match is the only match. */
  lemma FirstNamedIsOnlyMatch(cs: seq<Cookie>, name: string, c: Cookie)
    requires UniqueNames(cs)
    requires c in cs && SameIgnoringCase(c.name, name)
    ensures FirstNamed(cs, name) == Some(c)
  {
    var r := FirstNamed(cs, name);
    var i :| 0 <= i < |cs| && cs[i] == r.value;
    var j :| 0 <= j < |cs| && cs[j] == c;
  }

  /** Saving one cookie keeps the names unique; afterwards a lookup of that name
      (ignoring case) finds the new cookie, and any other lookup is as before. */
  lemma SaveOneLookup(cs: seq<Cookie>, c: Cookie, name: string)
    requires UniqueNames(cs)
    ensures UniqueNames(SaveOne(cs, c))
    ensures FirstNamed(SaveOne(cs, c), name) ==
              if SameIgnoringCase(c.name, name) then Some(c) else FirstNamed(cs, name)
  {
    RemoveFirstNamedContents(cs, c.name);
    var rest := RemoveFirstNamed(cs, c.name);
    var s := rest + [c];
    assert UniqueNames(s) by {
      forall i, j | 0 <= i < j < |s| ensures !SameIgnoringCase(s[i].name, s[j].name) {
        if j == |s| - 1 {
          assert s[i] == rest[i] && rest[i] in rest;
        } else {
          assert s[i] == rest[i] && s[j] == rest[j];
        }
      }
    }
    if SameIgnoringCase(c.name, name) {
      FirstNamedIsOnlyMatch(s, name, c);
    } else {
      var old_ := FirstNamed(cs, name);
      if old_.Some? {
        assert old_.value in s;
        FirstNamedIsOnlyMatch(s, name, old_.value);
      }
    }
  }

  /** After saving a response's cookies, a lookup finds the LAST received cookie
      of that name (ignoring case), or else what it found before; the jar never
      holds two cookies of the same name. */
  lemma {:induction false} SaveAllLookup(cs: seq<Cookie>, received: seq<Cookie>, name: string)
    requires UniqueNames(cs)
    ensures UniqueNames(SaveAll(cs, received))
    ensures FirstNamed(SaveAll(cs, received), name) ==
              if LastNamed(received, name).Some? then LastNamed(received, name) else FirstNamed(cs, name)
  {
    if received != [] {
      var init, last := received[..|received| - 1], received[|received| - 1];
      SaveAllLookup(cs, init, name);
      SaveOneLookup(SaveAll(cs, init), last, name);
    }
  }

  /** `QueryableCookieJar`: the cookie store of the HTTP client. The stored
      cookies are kept in a sequence; with unique names their order never
      changes the result of a lookup. */
  class QueryableCookieJar {
    var cookieSet: seq<Cookie>

    ghost predicate Valid()
      reads this
    {
      UniqueNames(cookieSet)
    }

    constructor ()
      ensures Valid() && cookieSet == []
    {
      cookieSet := [];
    }

    /** `saveFromResponse`: each received cookie replaces the stored cookie of
        the same name ignoring case; the URL plays no part. */
    method SaveFromResponse(url: string, cookies: seq<Cookie>)
      requires Valid()
      modifies this
      ensures Valid()
      ensures cookieSet == SaveAll(old(cookieSet), cookies)
    {
      var i := 0;
      while i < |cookies|
        invariant 0 <= i <= |cookies|
        invariant UniqueNames(cookieSet)
        invariant cookieSet == SaveAll(old(cookieSet), cookies[..i])
      {
        var c := cookies[i];
        ghost var before := cookieSet;
        var previous := FirstNamed(cookieSet, c.name);
        if previous.Some? {
          cookieSet := RemoveFirstNamed(cookieSet, c.name);
        } else {
          RemoveAbsent(cookieSet, c.name);
        }
        cookieSet := cookieSet + [c];
        SaveOneLookup(before, c, c.name);
        assert cookies[..i + 1][..i] == cookies[..i];
        i := i + 1;
      }
      assert cookies[..i] == cookies;
    }

    /** `loadForRequest`: every stored cookie, whatever the URL. */
    function LoadForRequest(url: string): (r: seq<Cookie>)
      reads this
      ensures forall c :: c in r <==> c in cookieSet
    {
      cookieSet
    }

    /** `getCookieByName`: the stored cookie whose name matches ignoring case. */
    function GetCookieByName(name: string): (r: Option<Cookie>)
      reads this
      ensures r.Some? ==> r.value in cookieSet && SameIgnoringCase(r.value.name, name)
      ensures r.None? ==> forall c :: c in cookieSet ==> !SameIgnoringCase(c.name, name)
    {
      FirstNamed(cookieSet, name)
    }
  }

  // ---------------------------------------------------------------- interceptor

  datatype RequestBody = JsonBody(text: string) | MultipartBody(parts: seq<Part>)

  datatype Request = Request(httpMethod: string, url: string, headers: seq<Header>, body: Option<RequestBody>)

  /** The request the interceptor passes on, and its new expiry time. */
  datatype Intercepted = Intercepted(sent: Request, expiry: int)

  /** `AipLoginInterceptor.intercept` as a function of its inputs: the XSRF cookie
      held by the jar, the stored expiry time, the credentials and the clock. */
  function InterceptRequest(request: Request, xsrf: Option<Cookie>, expiry: int,
                            username: JStr, key: string, now: int): (r: Intercepted)
    ensures r.sent == request.(headers := r.sent.headers)
  {
    var attach := xsrf.Some? && now < expiry;
    var withXsrf := if attach then WithHeader(request.headers, XSRF_HEADER, Text(xsrf.value.value))
                    else request.headers;
    var expiry' := if attach then expiry else now + XSRF_COOKIE_TTL;
    var hs :=
      if HeaderOf(request.headers, AUTHORIZATION_HEADER).Some? || HeaderOf(request.headers, API_KEY_HEADER).Some? then
        withXsrf
      else if !IsBlank(username) then
        WithHeader(withXsrf, AUTHORIZATION_HEADER, BasicCredentials(username.s, key))
      else
        WithHeader(withXsrf, API_KEY_HEADER, Text(key));
    Intercepted(request.(headers := hs), expiry')
  }

  lemma HeaderNamesDiffer()
    ensures !SameIgnoringCase(XSRF_HEADER, AUTHORIZATION_HEADER)
    ensures !SameIgnoringCase(XSRF_HEADER, API_KEY_HEADER)
    ensures !SameIgnoringCase(AUTHORIZATION_HEADER, API_KEY_HEADER)
  {
    assert |Lower(XSRF_HEADER)| != |Lower(AUTHORIZATION_HEADER)|;
    assert |Lower(XSRF_HEADER)| != |Lower(API_KEY_HEADER)|;
    assert |Lower(AUTHORIZATION_HEADER)| != |Lower(API_KEY_HEADER)|;
  }

  /** The XSRF rule: the token header is set to the cookie's value iff a token
      cookie is held and the clock is before the expiry; attaching it keeps the
      expiry, not attaching it restarts the five-minute window from now. */
  lemma XsrfTokenRule(request: Request, xsrf: Option<Cookie>, expiry: int, username: JStr, key: string, now: int)
    ensures var r := InterceptRequest(request, xsrf, expiry, username, key, now);
      && (xsrf.Some? && now < expiry ==> HeaderOf(r.sent.headers, XSRF_HEADER) == Some(Text(xsrf.value.value)) && r.expiry == expiry)
      && (!(xsrf.Some? && now < expiry) ==>
            HeaderOf(r.sent.headers, XSRF_HEADER) == HeaderOf(request.headers, XSRF_HEADER) && r.expiry == now + XSRF_COOKIE_TTL)
  {
    HeaderNamesDiffer();
    var attach := xsrf.Some? && now < expiry;
    var withXsrf := if attach then WithHeader(request.headers, XSRF_HEADER, Text(xsrf.value.value))
                    else request.headers;
    if attach {
      HeaderOfWith(request.headers, XSRF_HEADER, Text(xsrf.value.value), XSRF_HEADER);
    }
    if !IsBlank(username) {
      HeaderOfWith(withXsrf, AUTHORIZATION_HEADER, BasicCredentials(username.s, key), XSRF_HEADER);
    }
    HeaderOfWith(withXsrf, API_KEY_HEADER, Text(key), XSRF_HEADER);
  }

  /** The expiry starts at zero, so the first request (at a non-negative time)
      never carries a token, whatever cookie is held. */
  lemma FirstRequestHasNoToken(request: Request, xsrf: Option<Cookie>, username: JStr, key: string, now: int)
    requires now >= 0
    requires HeaderOf(request.headers, XSRF_HEADER).None?
    ensures HeaderOf(InterceptRequest(request, xsrf, 0, username, key, now).sent.headers, XSRF_HEADER).None?
    ensures InterceptRequest(request, xsrf, 0, username, key, now).expiry == now + XSRF_COOKIE_TTL
  {
    XsrfTokenRule(request, xsrf, 0, username, key, now);
  }

  /** The credential rule: a request that already names an Authorization or an
      API-key header keeps both as they were; otherwise exactly one is added,
      Basic credentials when the user name is not blank, the API key if it is. */
  lemma CredentialRule(request: Request, xsrf: Option<Cookie>, expiry: int, username: JStr, key: string, now: int)
    ensures var r := InterceptRequest(request, xsrf, expiry, username, key, now);
      var preset := HeaderOf(request.headers, AUTHORIZATION_HEADER).Some? || HeaderOf(request.headers, API_KEY_HEADER).Some?;
      && (preset ==>
            HeaderOf(r.sent.headers, AUTHORIZATION_HEADER) == HeaderOf(request.headers, AUTHORIZATION_HEADER)
            && HeaderOf(r.sent.headers, API_KEY_HEADER) == HeaderOf(request.headers, API_KEY_HEADER))
      && (!preset && !IsBlank(username) ==>
            HeaderOf(r.sent.headers, AUTHORIZATION_HEADER) == Some(BasicCredentials(username.s, key))
            && HeaderOf(r.sent.headers, API_KEY_HEADER).None?)
      && (!preset && IsBlank(username) ==>
            HeaderOf(r.sent.headers, API_KEY_HEADER) == Some(Text(key))
            && HeaderOf(r.sent.headers, AUTHORIZATION_HEADER).None?)
  {
    HeaderNamesDiffer();
    var attach := xsrf.Some? && now < expiry;
    var withXsrf := if attach then WithHeader(request.headers, XSRF_HEADER, Text(xsrf.value.value))
                    else request.headers;
    if attach {
      HeaderOfWith(request.headers, XSRF_HEADER, Text(xsrf.value.value), AUTHORIZATION_HEADER);
      HeaderOfWith(request.headers, XSRF_HEADER, Text(xsrf.value.value), API_KEY_HEADER);
    }
    if !IsBlank(username) {
      HeaderOfWith(withXsrf, AUTHORIZATION_HEADER, BasicCredentials(username.s, key), AUTHORIZATION_HEADER);
      HeaderOfWith(withXsrf, AUTHORIZATION_HEADER, BasicCredentials(username.s, key), API_KEY_HEADER);
    }
    HeaderOfWith(withXsrf, API_KEY_HEADER, Text(key), API_KEY_HEADER);
    HeaderOfWith(withXsrf, API_KEY_HEADER, Text(key), AUTHORIZATION_HEADER);
  }

  /** `AipLoginInterceptor`: the only state is the XSRF expiry time. */
  class AipLoginInterceptor {
    var xsrfExpirationTime: int

    constructor ()
      ensures xsrfExpirationTime == 0
    {
      xsrfExpirationTime := 0;
    }

    method Intercept(jar: QueryableCookieJar, username: JStr, key: string, request: Request, now: int)
      returns (sent: Request)
      modifies this
      ensures var r := InterceptRequest(request, jar.GetCookieByName(XSRF_COOKIE_NAME), old(xsrfExpirationTime), username, key, now);
              sent == r.sent && xsrfExpirationTime == r.expiry
    {
      var xsrfCookie := jar.GetCookieByName(XSRF_COOKIE_NAME);
      var headers := request.headers;
      if xsrfCookie.Some? && now < xsrfExpirationTime {
        headers := WithHeader(headers, XSRF_HEADER, Text(xsrfCookie.value.value));
      } else {
        xsrfExpirationTime := now + XSRF_COOKIE_TTL;
      }
      if HeaderOf(request.headers, AUTHORIZATION_HEADER).None? && HeaderOf(request.headers, API_KEY_HEADER).None? {
        if !IsBlank(username) {
          headers := WithHeader(headers, AUTHORIZATION_HEADER, BasicCredentials(username.s, key));
        } else {
          headers := WithHeader(headers, API_KEY_HEADER, Text(key));
        }
      }
      sent := request.(headers := headers);
    }
  }

  // ---------------------------------------------------------------- multipart parts

  /** A multipart entry: raw bytes (`byte[]`), or any other object together with
      its JSON text (None when it cannot be serialised). */
  datatype PartValue = RawBytes(bytes: seq<bv8>) | Entity(json: Option<string>)

  datatype PartContent = Bytes(bytes: seq<bv8>) | JsonText(text: string)

  datatype Part = Part(name: string, filename: JStr, mediaType: string, content: PartContent)

  /** What the part for one entry looks like. */
  predicate PartFor(entry: (string, PartValue), p: Part) {
    && p.name == entry.0
    && match entry.1
       case RawBytes(b) => p.filename == Str(CHUNK_FILENAME) && p.mediaType == OCTET_STREAM && p.content == Bytes(b)
       case Entity(j) => j.Some? && p.filename == Null && p.mediaType == APPLICATION_JSON && p.content == JsonText(j.value)
  }

  predicate Serializable(entry: (string, PartValue)) {
    entry.1.RawBytes? || entry.1.json.Some?
  }

  /** The multipart loop of `exchangeMultipartForEntity`: one part per entry in
      order, or the serialisation failure of the first entry that has one. */
  method BuildParts(content: seq<(string, PartValue)>) returns (r: Result<seq<Part>, ApiCallError>)
    ensures r.Ok? <==> forall i :: 0 <= i < |content| ==> Serializable(content[i])
    ensures r.Err? ==> r.error == NotSerializable
    ensures r.Ok? ==> |r.value| == |content| && forall i :: 0 <= i < |content| ==> PartFor(content[i], r.value[i])
  {
    var parts: seq<Part> := [];
    var i := 0;
    while i < |content|
      invariant 0 <= i <= |content|
      invariant |parts| == i
      invariant forall k :: 0 <= k < i ==> Serializable(content[k]) && PartFor(content[k], parts[k])
    {
      var (key, value) := content[i];
      var part: Part;
      if value.RawBytes? {
        part := Part(key, Str(CHUNK_FILENAME), OCTET_STREAM, Bytes(value.bytes));
      } else if value.json.Some? {
        part := Part(key, Null, APPLICATION_JSON, JsonText(value.json.value));
      } else {
        return Err(NotSerializable);
      }
      parts := parts + [part];
      i := i + 1;
    }
    return Ok(parts);
  }

  // ---------------------------------------------------------------- the service

  /** The entity of a JSON exchange: none (no body), its JSON text, or an object
      the mapper cannot write. */
  datatype Entity = NoEntity | Json(text: string) | Unserializable

  /** The methods the HTTP client refuses to send without a body. */
  const BODY_REQUIRED: set<string> := {"POST", "PUT", "PATCH", "PROPPATCH", "REPORT"}

  /** The HTTP client's check when a request is given its method and body
      (OkHttp's `Request.Builder.method`): the method is not empty, GET and
      HEAD carry no body, and the methods of `BODY_REQUIRED` carry one. */
  predicate MethodFitsBody(httpMethod: string, hasBody: bool) {
    && httpMethod != ""
    && (hasBody ==> httpMethod != "GET" && httpMethod != "HEAD")
    && (!hasBody ==> httpMethod !in BODY_REQUIRED)
  }

  /** What the entity wrappers can send: `getForEntity` never has an entity and
      always passes; POST, PUT and PATCH fail without one; DELETE passes either
      way; a multipart GET never passes. */
  lemma WrapperMethodsAndBodies()
    ensures MethodFitsBody("GET", false) && !MethodFitsBody("GET", true)
    ensures forall m :: m in ["POST", "PUT", "PATCH"] ==> MethodFitsBody(m, true) && !MethodFitsBody(m, false)
    ensures MethodFitsBody("DELETE", true) && MethodFitsBody("DELETE", false)
  {
  }

  datatype Validation = LoggedIn | AssertionFailed | LoginFailed(error: ApiCallError)

  /** The jar after a call: the cookies of a response are saved; an unreachable
      server sends none. */
  function JarAfter<T>(cookies: seq<Cookie>, network: Network<T>): seq<Cookie> {
    if network.Answered? then SaveAll(cookies, network.response.setCookies) else cookies
  }

  /** The request of the login probe, before the interceptor. */
  function LoginProbe(serverUrl: string): Request {
    Request("GET", EndpointUrl(serverUrl, LOGIN_ENDPOINT), [], None)
  }

  /** `RestApiServiceImpl`: the base URL and credentials, the cookie jar and the
      interceptor of its HTTP client. */
  class RestApiService {
    const cookieJar: QueryableCookieJar
    const interceptor: AipLoginInterceptor
    var serverUrl: JStr
    var username: JStr
    var key: JStr

    ghost predicate Valid()
      reads this, cookieJar
    {
      cookieJar.Valid()
    }

    /** A URL and a key have been stored by `validateUrlAndKey`. */
    predicate Configured()
      reads this
    {
      serverUrl.Str? && key.Str?
    }

    constructor ()
      ensures Valid() && fresh(cookieJar) && fresh(interceptor)
      ensures cookieJar.cookieSet == [] && interceptor.xsrfExpirationTime == 0
      ensures serverUrl == Null && username == Null && key == Null
    {
      cookieJar := new QueryableCookieJar();
      interceptor := new AipLoginInterceptor();
      serverUrl, username, key := Null, Null, Null;
    }

    /** One call through the client: the interceptor rewrites the request, and
        the cookies of a response are saved in the jar. */
    method Send<T>(request: Request, network: Network<T>, now: int) returns (sent: Request)
      requires Valid() && Configured()
      modifies cookieJar, interceptor
      ensures Valid()
      ensures var r := InterceptRequest(request, old(cookieJar.GetCookieByName(XSRF_COOKIE_NAME)),
                                        old(interceptor.xsrfExpirationTime), username, key.s, now);
              sent == r.sent && interceptor.xsrfExpirationTime == r.expiry
      ensures cookieJar.cookieSet == JarAfter(old(cookieJar.cookieSet), network)
    {
      sent := interceptor.Intercept(cookieJar, username, key.s, request, now);
      if network.Answered? {
        cookieJar.SaveFromResponse(request.url, network.response.setCookies);
      }
    }

    /** `exchangeForEntity` (and the GET/POST/PATCH/PUT/DELETE helpers that call it). */
    method ExchangeForEntity<T>(httpMethod: string, endpoint: string, entity: Entity, network: Network<T>, now: int)
      returns (r: Result<Option<T>, ApiCallError>, sent: Option<Request>)
      requires Valid() && Configured()
      modifies cookieJar, interceptor
      ensures Valid()
      ensures entity.Unserializable? ==>
                r == Err(NotSerializable) && sent == None
                && cookieJar.cookieSet == old(cookieJar.cookieSet)
                && interceptor.xsrfExpirationTime == old(interceptor.xsrfExpirationTime)
      ensures !entity.Unserializable? && !MethodFitsBody(httpMethod, entity.Json?) ==>
                r == Err(BadMethodBody) && sent == None
                && cookieJar.cookieSet == old(cookieJar.cookieSet)
                && interceptor.xsrfExpirationTime == old(interceptor.xsrfExpirationTime)
      ensures !entity.Unserializable? && MethodFitsBody(httpMethod, entity.Json?) ==>
                var request := Request(httpMethod, EndpointUrl(serverUrl.s, endpoint), [],
                                       if entity.Json? then Some(JsonBody(entity.text)) else None);
                var i := InterceptRequest(request, old(cookieJar.GetCookieByName(XSRF_COOKIE_NAME)),
                                          old(interceptor.xsrfExpirationTime), username, key.s, now);
                && r == ClassifyExchange(network) && sent == Some(i.sent)
                && sent.value.url == EndpointUrl(serverUrl.s, endpoint) && sent.value.httpMethod == httpMethod
                && sent.value.body == request.body
                && interceptor.xsrfExpirationTime == i.expiry
                && cookieJar.cookieSet == JarAfter(old(cookieJar.cookieSet), network)
    {
      if entity.Unserializable? {
        return Err(NotSerializable), None;
      }
      if !MethodFitsBody(httpMethod, entity.Json?) {
        return Err(BadMethodBody), None;
      }
      var body := if entity.Json? then Some(JsonBody(entity.text)) else None;
      var request := Request(httpMethod, EndpointUrl(serverUrl.s, endpoint), [], body);
      var s := Send(request, network, now);
      r, sent := ClassifyExchange(network), Some(s);
    }

    /** `exchangeMultipartForEntity`: the parts are built first, and a body
        without parts cannot be built; the extra headers argument of the source
        is unused there and is left out. */
    method ExchangeMultipartForEntity<T>(httpMethod: string, endpoint: string, content: seq<(string, PartValue)>,
                                         network: Network<T>, now: int)
      returns (r: Result<T, ApiCallError>, sent: Option<Request>)
      requires Valid() && Configured()
      modifies cookieJar, interceptor
      ensures Valid()
      ensures ((exists i :: 0 <= i < |content| && !Serializable(content[i])) || content == []) ==>
                r == Err(if content == [] then NoParts else NotSerializable) && sent == None
                && cookieJar.cookieSet == old(cookieJar.cookieSet)
                && interceptor.xsrfExpirationTime == old(interceptor.xsrfExpirationTime)
      ensures content != [] && (forall i :: 0 <= i < |content| ==> Serializable(content[i]))
              && !MethodFitsBody(httpMethod, true) ==>
                r == Err(BadMethodBody) && sent == None
                && cookieJar.cookieSet == old(cookieJar.cookieSet)
                && interceptor.xsrfExpirationTime == old(interceptor.xsrfExpirationTime)
      ensures content != [] && (forall i :: 0 <= i < |content| ==> Serializable(content[i]))
              && MethodFitsBody(httpMethod, true) ==>
                && r == ClassifyMultipart(network) && sent.Some?
                && sent.value.httpMethod == httpMethod
                && sent.value.url == EndpointUrl(serverUrl.s, endpoint) && sent.value.body.Some?
                && sent.value.body.value.MultipartBody?
                && |sent.value.body.value.parts| == |content|
                && (forall i :: 0 <= i < |content| ==> PartFor(content[i], sent.value.body.value.parts[i]))
                && var request := Request(httpMethod, EndpointUrl(serverUrl.s, endpoint), [], sent.value.body);
                   var i := InterceptRequest(request, old(cookieJar.GetCookieByName(XSRF_COOKIE_NAME)),
                                             old(interceptor.xsrfExpirationTime), username, key.s, now);
                   && sent == Some(i.sent)
                   && interceptor.xsrfExpirationTime == i.expiry
                   && cookieJar.cookieSet == JarAfter(old(cookieJar.cookieSet), network)
    {
      var parts := BuildParts(content);
      if parts.Err? {
        return Err(parts.error), None;
      }
      if parts.value == [] {
        return Err(NoParts), None;
      }
      if !MethodFitsBody(httpMethod, true) {
        return Err(BadMethodBody), None;
      }
      var request := Request(httpMethod, EndpointUrl(serverUrl.s, endpoint), [], Some(MultipartBody(parts.value)));
      var s := Send(request, network, now);
      r, sent := ClassifyMultipart(network), Some(s);
    }

    /** `login`: a GET of the current-user endpoint. */
    method Login<T>(network: Network<T>, now: int) returns (r: Option<ApiCallError>, sent: Request)
      requires Valid() && Configured()
      modifies cookieJar, interceptor
      ensures Valid()
      ensures r == ClassifyLogin(network)
      ensures var i := InterceptRequest(LoginProbe(serverUrl.s), old(cookieJar.GetCookieByName(XSRF_COOKIE_NAME)),
                                        old(interceptor.xsrfExpirationTime), username, key.s, now);
              && sent == i.sent && sent.httpMethod == "GET" && sent.url == EndpointUrl(serverUrl.s, LOGIN_ENDPOINT)
              && sent.body.None?
              && interceptor.xsrfExpirationTime == i.expiry
      ensures cookieJar.cookieSet == JarAfter(old(cookieJar.cookieSet), network)
    {
      sent := Send(LoginProbe(serverUrl.s), network, now);
      r := ClassifyLogin(network);
    }

    /** `validateUrlAndKey(serverUrl, apiKey)`: the assertion on blank input (Java
        assertions enabled), then the normalised URL and the key are stored and
        the login probe runs. */
    method ValidateUrlAndKey<T>(url: JStr, apiKey: JStr, network: Network<T>, now: int) returns (r: Validation)
      requires Valid()
      modifies this, cookieJar, interceptor
      ensures Valid()
      ensures username == old(username)
      ensures IsBlank(url) || IsBlank(apiKey) ==>
                r == AssertionFailed && serverUrl == old(serverUrl) && key == old(key)
                && cookieJar.cookieSet == old(cookieJar.cookieSet)
                && interceptor.xsrfExpirationTime == old(interceptor.xsrfExpirationTime)
      ensures !IsBlank(url) && !IsBlank(apiKey) ==>
                && serverUrl == Str(NormalizeServerUrl(url.s)) && key == apiKey
                && r == (if ClassifyLogin(network).None? then LoggedIn else LoginFailed(ClassifyLogin(network).value))
                && cookieJar.cookieSet == JarAfter(old(cookieJar.cookieSet), network)
                && interceptor.xsrfExpirationTime ==
                     InterceptRequest(LoginProbe(NormalizeServerUrl(url.s)), old(cookieJar.GetCookieByName(XSRF_COOKIE_NAME)),
                                      old(interceptor.xsrfExpirationTime), username, apiKey.s, now).expiry
    {
      if IsBlank(url) || IsBlank(apiKey) {
        return AssertionFailed;
      }
      serverUrl := Str(NormalizeServerUrl(url.s));
      key := apiKey;
      var failure, _ := Login(network, now);
      r := if failure.None? then LoggedIn else LoginFailed(failure.value);
    }

    /** `validateUrlAndKey(serverUrl, username, password)`: the user name is
        stored first, even when the assertion then fails. */
    method ValidateUrlUserAndKey<T>(url: JStr, user: JStr, password: JStr, network: Network<T>, now: int)
      returns (r: Validation)
      requires Valid()
      modifies this, cookieJar, interceptor
      ensures Valid()
      ensures username == user
      ensures IsBlank(url) || IsBlank(password) ==>
                r == AssertionFailed && serverUrl == old(serverUrl) && key == old(key)
                && cookieJar.cookieSet == old(cookieJar.cookieSet)
                && interceptor.xsrfExpirationTime == old(interceptor.xsrfExpirationTime)
      ensures !IsBlank(url) && !IsBlank(password) ==>
                && serverUrl == Str(NormalizeServerUrl(url.s)) && key == password
                && r == (if ClassifyLogin(network).None? then LoggedIn else LoginFailed(ClassifyLogin(network).value))
                && cookieJar.cookieSet == JarAfter(old(cookieJar.cookieSet), network)
                && interceptor.xsrfExpirationTime ==
                     InterceptRequest(LoginProbe(NormalizeServerUrl(url.s)), old(cookieJar.GetCookieByName(XSRF_COOKIE_NAME)),
                                      old(interceptor.xsrfExpirationTime), user, password.s, now).expiry
    {
      username := user;
      r := ValidateUrlAndKey(url, password, network, now);
    }
  }
}
