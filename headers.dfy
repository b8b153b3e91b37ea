/** Request headers and the interceptor the client installs on every request. A
    request template holds a map from header name to its list of values; adding a
    header appends a value to that list. */
module Headers {
  import opened Wrappers

  type Headers = map<string, seq<string>>

  const ContentType: string := "Content-Type"
  const Accept: string := "Accept"
  const Authorization: string := "Authorization"
  const ApplicationJson: string := "application/json"

  /** The values a header has so far; none when it is absent. */
  function Values(h: Headers, name: string): seq<string> {
    if name in h then h[name] else []
  }

  /** `requestTemplate.header(name, value)`: appends `value` to the values of `name`
      and leaves every other header alone. */
  function AppendHeader(h: Headers, name: string, value: string): Headers {
    h[name := Values(h, name) + [value]]
  }

  /** Appending touches only the named header, and only by adding `value` at the end. */
  lemma AppendHeaderLaw(h: Headers, name: string, value: string)
    ensures AppendHeader(h, name, value).Keys == h.Keys + {name}
    ensures AppendHeader(h, name, value)[name] == Values(h, name) + [value]
    ensures forall other :: other in h && other != name ==> AppendHeader(h, name, value)[other] == h[other]
  {
  }

  /** The value of the Authorization header for a configured token. */
  function AuthorizationValue(token: string): string {
    "token " + token
  }

  /** What the interceptor makes of the headers `h` of a request template. */
  function InterceptedHeaders(h: Headers, authToken: Option<string>): (r: Headers)
    ensures ContentType in r && Accept in r
    ensures forall name :: name in h ==> name in r && h[name] <= r[name]
  {
    var json := AppendHeader(AppendHeader(h, ContentType, ApplicationJson), Accept, ApplicationJson);
    if authToken.Some? then AppendHeader(json, Authorization, AuthorizationValue(authToken.value))
    else json
  }

  /** The interceptor appends one JSON value to Content-Type and to Accept, one
      "token " + t value to Authorization when a token t is configured, and changes
      nothing else. */
  lemma InterceptedHeadersLaw(h: Headers, authToken: Option<string>)
    ensures var r := InterceptedHeaders(h, authToken);
      && r.Keys == h.Keys + {ContentType, Accept} + (if authToken.Some? then {Authorization} else {})
      && r[ContentType] == Values(h, ContentType) + [ApplicationJson]
      && r[Accept] == Values(h, Accept) + [ApplicationJson]
      && (authToken.Some? ==> r[Authorization] == Values(h, Authorization) + [AuthorizationValue(authToken.value)])
      && (authToken.None? ==> Values(r, Authorization) == Values(h, Authorization))
      && forall other :: other in h && other != ContentType && other != Accept && other != Authorization
           ==> r[other] == h[other]
  {
  }

  /** The headers of every request the client sends: the interceptor applied to a
      template that declares none. */
  function RequestHeaders(authToken: Option<string>): (r: Headers)
    ensures r.Keys == {ContentType, Accept} + (if authToken.Some? then {Authorization} else {})
    ensures forall name :: name in r ==> |r[name]| == 1
  {
    InterceptedHeaders(map[], authToken)
  }

  /** The content type and accept type are JSON, and an Authorization header with
      value "token " + t is present exactly when a token t is configured. Nothing
      else is sent. */
  lemma RequestHeadersLaw(authToken: Option<string>)
    ensures RequestHeaders(authToken)[ContentType] == [ApplicationJson]
    ensures RequestHeaders(authToken)[Accept] == [ApplicationJson]
    ensures Authorization in RequestHeaders(authToken) <==> authToken.Some?
    ensures authToken.Some? ==>
      RequestHeaders(authToken)[Authorization] == ["token " + authToken.value]
    ensures forall name :: name in RequestHeaders(authToken) ==>
      name == ContentType || name == Accept || name == Authorization
  {
  }

  /** Feign's mutable request template, reduced to its headers. */
  class RequestTemplate {
    var headers: Headers

    constructor ()
      ensures headers == map[]
    {
      headers := map[];
    }

    /** `header(name, value)` on the template. */
    method Header(name: string, value: string)
      modifies this
      ensures headers == AppendHeader(old(headers), name, value)
    {
      headers := AppendHeader(headers, name, value);
    }
  }

  /** The request interceptor set up in the client's constructor. */
  method Intercept(template: RequestTemplate, authToken: Option<string>)
    modifies template
    ensures template.headers == InterceptedHeaders(old(template.headers), authToken)
  {
    template.Header(ContentType, ApplicationJson);
    template.Header(Accept, ApplicationJson);
    if authToken.Some? {
      template.Header(Authorization, AuthorizationValue(authToken.value));
    }
  }

  /** A fresh template put through the interceptor carries exactly the headers every
      request of the client carries. */
  method InterceptFresh(authToken: Option<string>) returns (template: RequestTemplate)
    ensures fresh(template)
    ensures template.headers == RequestHeaders(authToken)
  {
    template := new RequestTemplate();
    Intercept(template, authToken);
  }
}
