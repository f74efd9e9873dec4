/** The older `EasyHttpRequest` and its builder: the same validation as the newer request, a
    JSON body given as text that defaults to `{}`, and no fragment. */
module LegacyRequest {
  import opened Base
  import opened JavaText
  import opened EntryMaps
  import Request

  /** A built request; every field is final. A null JSON body is None. */
  datatype LegacyEasyRequest = LegacyEasyRequest(
    url: string,
    httpMethod: Request.HttpMethod,
    pathParams: seq<Entry>,
    queryParams: seq<Entry>,
    headers: seq<Entry>,
    jsonBody: Option<string>)

  const DefaultJsonBody: string := "{}"

  /** The private constructor: the url check first, then the method check. */
  function NewLegacyRequest(url: Option<string>, httpMethod: Option<Request.HttpMethod>, pathParams: seq<Entry>,
                            queryParams: seq<Entry>, headers: seq<Entry>, jsonBody: Option<string>)
    : (r: Result<LegacyEasyRequest, Request.RequestError>)
    ensures r.Ok? <==> !NullOrBlank(url) && httpMethod.Some?
    ensures NullOrBlank(url) ==> r == Err(Request.IllegalArgument(Request.BlankUrlMessage))
    ensures !NullOrBlank(url) && httpMethod.None? ==> r == Err(Request.IllegalArgument(Request.NoMethodMessage))
    ensures r.Ok? ==> Some(r.value.url) == url && Some(r.value.httpMethod) == httpMethod
    ensures r.Ok? ==> r.value.pathParams == pathParams && r.value.queryParams == queryParams && r.value.headers == headers
    ensures r.Ok? ==> r.value.jsonBody == jsonBody
  {
    if NullOrBlank(url) then Err(Request.IllegalArgument(Request.BlankUrlMessage))
    else if httpMethod.None? then Err(Request.IllegalArgument(Request.NoMethodMessage))
    else Ok(LegacyEasyRequest(url.value, httpMethod.value, pathParams, queryParams, headers, jsonBody))
  }

  /** Both request classes refuse exactly the same builders, with the same messages, and
      keep the shared fields alike. */
  lemma ValidationAgrees(url: Option<string>, httpMethod: Option<Request.HttpMethod>, pathParams: seq<Entry>,
                         queryParams: seq<Entry>, headers: seq<Entry>, jsonBody: Option<string>)
    ensures var legacy := NewLegacyRequest(url, httpMethod, pathParams, queryParams, headers, jsonBody);
      var current := Request.NewRequest(url, httpMethod, pathParams, queryParams, headers, None, None);
      && (legacy.Ok? <==> current.Ok?)
      && (legacy.Err? ==> legacy.error == current.error)
      && (legacy.Ok? ==> legacy.value.url == current.value.url)
      && (legacy.Ok? ==> legacy.value.httpMethod == current.value.httpMethod)
      && (legacy.Ok? ==> legacy.value.pathParams == current.value.pathParams)
      && (legacy.Ok? ==> legacy.value.queryParams == current.value.queryParams)
      && (legacy.Ok? ==> legacy.value.headers == current.value.headers)
  {
  }

  class Builder {
    const url: Option<string>
    var httpMethod: Option<Request.HttpMethod>
    var pathParams: seq<Entry>
    var queryParams: seq<Entry>
    var headers: seq<Entry>
    var jsonBody: Option<string>

    /** The three maps are maps: no key twice. */
    predicate Valid()
      reads this
    {
      UniqueKeys(pathParams) && UniqueKeys(queryParams) && UniqueKeys(headers)
    }

    /** `EasyHttpRequest.builder(url)`: empty maps, no method, the JSON body `{}`. */
    constructor (url: Option<string>)
      ensures Valid()
      ensures this.url == url && httpMethod == None && jsonBody == Some(DefaultJsonBody)
      ensures pathParams == [] && queryParams == [] && headers == []
    {
      this.url := url;
      httpMethod := None;
      pathParams := [];
      queryParams := [];
      headers := [];
      jsonBody := Some(DefaultJsonBody);
    }

    method PathParam(key: string, value: string)
      requires Valid()
      modifies this`pathParams
      ensures Valid()
      ensures pathParams == Put(old(pathParams), key, value)
    {
      PutKeepsUniqueKeys(pathParams, key, value);
      pathParams := Put(pathParams, key, value);
    }

    method PathMap(m: seq<Entry>)
      requires Valid() && UniqueKeys(m)
      modifies this`pathParams
      ensures Valid()
      ensures pathParams == m
    {
      pathParams := m;
    }

    method QueryParam(key: string, value: string)
      requires Valid()
      modifies this`queryParams
      ensures Valid()
      ensures queryParams == Put(old(queryParams), key, value)
    {
      PutKeepsUniqueKeys(queryParams, key, value);
      queryParams := Put(queryParams, key, value);
    }

    method QueryMap(m: seq<Entry>)
      requires Valid() && UniqueKeys(m)
      modifies this`queryParams
      ensures Valid()
      ensures queryParams == m
    {
      queryParams := m;
    }

    method Header(key: string, value: string)
      requires Valid()
      modifies this`headers
      ensures Valid()
      ensures headers == Put(old(headers), key, value)
    {
      PutKeepsUniqueKeys(headers, key, value);
      headers := Put(headers, key, value);
    }

    method HeaderMap(m: seq<Entry>)
      requires Valid() && UniqueKeys(m)
      modifies this`headers
      ensures Valid()
      ensures headers == m
    {
      headers := m;
    }

    /** `jsonBody(text)`: replaces the default; null is accepted here. */
    method JsonBody(text: Option<string>)
      requires Valid()
      modifies this`jsonBody
      ensures Valid()
      ensures jsonBody == text
    {
      jsonBody := text;
    }

    method SetMethod(m: Request.HttpMethod)
      requires Valid()
      modifies this`httpMethod
      ensures Valid()
      ensures httpMethod == Some(m)
    {
      httpMethod := Some(m);
    }

    method MethodGet()
      requires Valid()
      modifies this`httpMethod
      ensures Valid()
      ensures httpMethod == Some(Request.GET)
    {
      SetMethod(Request.GET);
    }

    method MethodPost()
      requires Valid()
      modifies this`httpMethod
      ensures Valid()
      ensures httpMethod == Some(Request.POST)
    {
      SetMethod(Request.POST);
    }

    method MethodPut()
      requires Valid()
      modifies this`httpMethod
      ensures Valid()
      ensures httpMethod == Some(Request.PUT)
    {
      SetMethod(Request.PUT);
    }

    method MethodPatch()
      requires Valid()
      modifies this`httpMethod
      ensures Valid()
      ensures httpMethod == Some(Request.PATCH)
    {
      SetMethod(Request.PATCH);
    }

    method MethodDelete()
      requires Valid()
      modifies this`httpMethod
      ensures Valid()
      ensures httpMethod == Some(Request.DELETE)
    {
      SetMethod(Request.DELETE);
    }

    method MethodHead()
      requires Valid()
      modifies this`httpMethod
      ensures Valid()
      ensures httpMethod == Some(Request.HEAD)
    {
      SetMethod(Request.HEAD);
    }

    /** `build`: the builder's fields, unchanged, through the validating constructor. */
    method Build() returns (r: Result<LegacyEasyRequest, Request.RequestError>)
      requires Valid()
      ensures r == NewLegacyRequest(url, httpMethod, pathParams, queryParams, headers, jsonBody)
    {
      r := NewLegacyRequest(url, httpMethod, pathParams, queryParams, headers, jsonBody);
    }
  }

  /** A POST built without a body sends `{}`: the default survives to the built request. */
  method DefaultBodyScenario() returns (r: Result<LegacyEasyRequest, Request.RequestError>)
    ensures r.Ok? && r.value.jsonBody == Some("{}") && r.value.httpMethod == Request.POST
  {
    var b := new Builder(Some("http://localhost/test"));
    b.MethodPost();
    assert !IsWhitespace("http://localhost/test"[0]);
    r := b.Build();
  }
}
