/** `EasyHttpRequest` and its `Builder`: a mutable builder holding the url, the method, three
    string maps, a fragment and a body, frozen by `build` into an immutable request after
    checking that the url is not blank and that a method was chosen. */
module Request {
  import opened Base
  import opened JavaText
  import opened EntryMaps
  import Headers
  import opened BodyHandler

  datatype HttpMethod = GET | POST | PUT | PATCH | DELETE | HEAD

  /** The exceptions `build` throws. */
  datatype RequestError = IllegalArgument(message: string)

  const BlankUrlMessage: string := "Url can't be null or blank"
  const NoMethodMessage: string := "HttpMethod can't be null"

  /** A built request; every field is final. */
  datatype EasyRequest = EasyRequest(
    url: string,
    httpMethod: HttpMethod,
    pathParams: seq<Entry>,
    queryParams: seq<Entry>,
    headers: seq<Entry>,
    fragment: Option<string>,
    body: Option<Body>)

  /** The private constructor: the url check comes first, then the method check; a request
      that passes both holds every argument unchanged. */
  function NewRequest(url: Option<string>, httpMethod: Option<HttpMethod>, pathParams: seq<Entry>,
                      queryParams: seq<Entry>, headers: seq<Entry>, fragment: Option<string>,
                      body: Option<Body>): (r: Result<EasyRequest, RequestError>)
    ensures r.Ok? <==> !NullOrBlank(url) && httpMethod.Some?
    ensures NullOrBlank(url) ==> r == Err(IllegalArgument(BlankUrlMessage))
    ensures !NullOrBlank(url) && httpMethod.None? ==> r == Err(IllegalArgument(NoMethodMessage))
    ensures r.Ok? ==> Some(r.value.url) == url && Some(r.value.httpMethod) == httpMethod
    ensures r.Ok? ==> r.value.pathParams == pathParams && r.value.queryParams == queryParams && r.value.headers == headers
    ensures r.Ok? ==> r.value.fragment == fragment && r.value.body == body
  {
    if NullOrBlank(url) then Err(IllegalArgument(BlankUrlMessage))
    else if httpMethod.None? then Err(IllegalArgument(NoMethodMessage))
    else Ok(EasyRequest(url.value, httpMethod.value, pathParams, queryParams, headers, fragment, body))
  }

  /** The empty url and a whitespace-only url are both refused, whatever else is set. */
  lemma BlankUrlsRefused(httpMethod: Option<HttpMethod>, pathParams: seq<Entry>, queryParams: seq<Entry>,
                         headers: seq<Entry>, fragment: Option<string>, body: Option<Body>)
    ensures NewRequest(Some(""), httpMethod, pathParams, queryParams, headers, fragment, body).Err?
    ensures NewRequest(Some(" \t\n"), httpMethod, pathParams, queryParams, headers, fragment, body).Err?
    ensures NewRequest(None, httpMethod, pathParams, queryParams, headers, fragment, body).Err?
  {
    assert IsBlank(" \t\n") by {
      forall i | 0 <= i < |" \t\n"| ensures IsWhitespace(" \t\n"[i]) { }
    }
  }

  class Builder {
    const url: Option<string>
    var httpMethod: Option<HttpMethod>
    var pathParams: seq<Entry>
    var queryParams: seq<Entry>
    var headers: seq<Entry>
    var fragment: Option<string>
    var body: Option<Body>

    /** The three maps are maps: no key twice. */
    predicate Valid()
      reads this
    {
      UniqueKeys(pathParams) && UniqueKeys(queryParams) && UniqueKeys(headers)
    }

    /** `EasyHttpRequest.builder(url)`: empty maps, no method, fragment or body. */
    constructor (url: Option<string>)
      ensures Valid()
      ensures this.url == url && httpMethod == None && fragment == None && body == None
      ensures pathParams == [] && queryParams == [] && headers == []
    {
      this.url := url;
      httpMethod := None;
      pathParams := [];
      queryParams := [];
      headers := [];
      fragment := None;
      body := None;
    }

    /** Inserts or overwrites one path parameter; the other maps are untouched. */
    method PathParam(key: string, value: string)
      requires Valid()
      modifies this`pathParams
      ensures Valid()
      ensures pathParams == Put(old(pathParams), key, value)
    {
      PutKeepsUniqueKeys(pathParams, key, value);
      pathParams := Put(pathParams, key, value);
    }

    /** Replaces the whole path map; earlier entries are gone. */
    method PathMap(m: seq<Entry>)
      requires Valid() && UniqueKeys(m)
      modifies this`pathParams
      ensures Valid()
      ensures pathParams == m
    {
      pathParams := m;
    }

    method QueryParam(key: string, value: string)
      requires Valid()
      modifies this`queryParams
      ensures Valid()
      ensures queryParams == Put(old(queryParams), key, value)
    {
      PutKeepsUniqueKeys(queryParams, key, value);
      queryParams := Put(queryParams, key, value);
    }

    method QueryMap(m: seq<Entry>)
      requires Valid() && UniqueKeys(m)
      modifies this`queryParams
      ensures Valid()
      ensures queryParams == m
    {
      queryParams := m;
    }

    method Header(key: string, value: string)
      requires Valid()
      modifies this`headers
      ensures Valid()
      ensures headers == Put(old(headers), key, value)
    {
      PutKeepsUniqueKeys(headers, key, value);
      headers := Put(headers, key, value);
    }

    method HeaderMap(m: seq<Entry>)
      requires Valid() && UniqueKeys(m)
      modifies this`headers
      ensures Valid()
      ensures headers == m
    {
      headers := m;
    }

    method UserAgent(value: string)
      requires Valid()
      modifies this`headers
      ensures Valid()
      ensures headers == Put(old(headers), "User-Agent", value)
    {
      Header(Headers.Code(Headers.UserAgent), value);
    }

    method Accept(value: string)
      requires Valid()
      modifies this`headers
      ensures Valid()
      ensures headers == Put(old(headers), "Accept", value)
    {
      Header(Headers.Code(Headers.Accept), value);
    }

    method AcceptLanguage(value: string)
      requires Valid()
      modifies this`headers
      ensures Valid()
      ensures headers == Put(old(headers), "Accept-Language", value)
    {
      Header(Headers.Code(Headers.AcceptLanguage), value);
    }

    method AcceptEncoding(value: string)
      requires Valid()
      modifies this`headers
      ensures Valid()
      ensures headers == Put(old(headers), "Accept-Encoding", value)
    {
      Header(Headers.Code(Headers.AcceptEncoding), value);
    }

    method Authorization(value: string)
      requires Valid()
      modifies this`headers
      ensures Valid()
      ensures headers == Put(old(headers), "Authorization", value)
    {
      Header(Headers.Code(Headers.Authorization), value);
    }

    method ContentType(value: string)
      requires Valid()
      modifies this`headers
      ensures Valid()
      ensures headers == Put(old(headers), "Content-Type", value)
    {
      Header(Headers.Code(Headers.ContentType), value);
    }

    method Cookie(value: string)
      requires Valid()
      modifies this`headers
      ensures Valid()
      ensures headers == Put(old(headers), "Cookie", value)
    {
      Header(Headers.Code(Headers.Cookie), value);
    }

    method Referer(value: string)
      requires Valid()
      modifies this`headers
      ensures Valid()
      ensures headers == Put(old(headers), "Referer", value)
    {
      Header(Headers.Code(Headers.Referer), value);
    }

    method Origin(value: string)
      requires Valid()
      modifies this`headers
      ensures Valid()
      ensures headers == Put(old(headers), "Origin", value)
    {
      Header(Headers.Code(Headers.Origin), value);
    }

    method Fragment(fragment: Option<string>)
      requires Valid()
      modifies this`fragment
      ensures Valid()
      ensures this.fragment == fragment
    {
      this.fragment := fragment;
    }

    /** `body(content, type)`: a new Body record, even when both are null. */
    method SetBody(content: Option<Value>, declared: Option<ClassTag>)
      requires Valid()
      modifies this`body
      ensures Valid()
      ensures body == Some(Body(content, declared))
    {
      body := Some(Body(content, declared));
    }

    /** The six method setters overwrite one another: the last one called wins. */
    method SetMethod(m: HttpMethod)
      requires Valid()
      modifies this`httpMethod
      ensures Valid()
      ensures httpMethod == Some(m)
    {
      httpMethod := Some(m);
    }

    method MethodGet()
      requires Valid()
      modifies this`httpMethod
      ensures Valid()
      ensures httpMethod == Some(GET)
    {
      SetMethod(GET);
    }

    method MethodPost()
      requires Valid()
      modifies this`httpMethod
      ensures Valid()
      ensures httpMethod == Some(POST)
    {
      SetMethod(POST);
    }

    method MethodPut()
      requires Valid()
      modifies this`httpMethod
      ensures Valid()
      ensures httpMethod == Some(PUT)
    {
      SetMethod(PUT);
    }

    method MethodPatch()
      requires Valid()
      modifies this`httpMethod
      ensures Valid()
      ensures httpMethod == Some(PATCH)
    {
      SetMethod(PATCH);
    }

    method MethodDelete()
      requires Valid()
      modifies this`httpMethod
      ensures Valid()
      ensures httpMethod == Some(DELETE)
    {
      SetMethod(DELETE);
    }

    method MethodHead()
      requires Valid()
      modifies this`httpMethod
      ensures Valid()
      ensures httpMethod == Some(HEAD)
    {
      SetMethod(HEAD);
    }

    /** `build`: the builder's fields, unchanged, through the validating constructor. */
    method Build() returns (r: Result<EasyRequest, RequestError>)
      requires Valid()
      ensures r == NewRequest(url, httpMethod, pathParams, queryParams, headers, fragment, body)
    {
      r := NewRequest(url, httpMethod, pathParams, queryParams, headers, fragment, body);
    }
  }

  /** A builder given no method is refused at build time, after the url check. */
  method NoMethodScenario() returns (r: Result<EasyRequest, RequestError>)
    ensures r == Err(IllegalArgument(NoMethodMessage))
  {
    var b := new Builder(Some("test"));
    assert !IsWhitespace("test"[0]);
    r := b.Build();
  }

  /** Two headers set by the convenience setters and one set by name land in one map: it
      holds the three names, and a second write to a name replaces its value. */
  method ConvenienceHeadersScenario() returns (headers: seq<Entry>)
    ensures |headers| == 3
    ensures Lookup(headers, "Authorization") == Some("token")
    ensures Lookup(headers, "Accept") == Some("application/json")
    ensures Lookup(headers, "X-Trace") == Some("2")
  {
    var b := new Builder(Some("http://localhost/test"));
    b.Authorization("test");
    b.Accept("application/json");
    assert b.headers == [Entry("Authorization", "test"), Entry("Accept", "application/json")];
    b.Header("X-Trace", "1");
    assert b.headers == [Entry("Authorization", "test"), Entry("Accept", "application/json"), Entry("X-Trace", "1")];
    b.Authorization("token");
    assert b.headers == [Entry("Authorization", "token"), Entry("Accept", "application/json"), Entry("X-Trace", "1")];
    ghost var before := b.headers;
    b.Header("X-Trace", "2");
    headers := b.headers;
    PutThenLookup(before, "X-Trace", "2", "X-Trace");
  }
}
