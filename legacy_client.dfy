/** The older `EasyHttpClient`: the same trim, path and query steps as the newer client, but
    values are form-encoded (a space becomes `+`), there is no fragment, a rejected URI is not
    wrapped, and the JSON body text goes straight into `ofString`, so a null body fails for
    POST, PUT and PATCH. */
module LegacyClient {
  import opened Base
  import opened JavaText
  import opened EntryMaps
  import opened ParamCodec
  import opened UrlAssembly
  import opened BodyHandler
  import opened LegacyRequest
  import Request
  import Client

  // ---------------------------------------------------------------------------------------
  // URL assembly

  /** The string the older `getUri` hands to `URI.create`: trim, path, query. */
  function LegacyAssembleUrl(template: string, pathParams: seq<Entry>, queryParams: seq<Entry>): string
  {
    SubstitutePathParams(WithoutTrailingSlashes(template), pathParams, FormSpaces) + QueryString(queryParams, FormSpaces)
  }

  /** `replacePathParams` with `URLEncoder.encode`: one `String.replace` per entry. */
  method ReplacePathParams(url: string, pathParams: seq<Entry>) returns (r: string)
    ensures r == SubstitutePathParams(url, pathParams, FormSpaces)
  {
    r := url;
    for i := 0 to |pathParams|
      invariant SubstitutePathParams(r, pathParams[i..], FormSpaces) == SubstitutePathParams(url, pathParams, FormSpaces)
    {
      var entry := pathParams[i];
      assert pathParams[i..][1..] == pathParams[i + 1..];
      r := ReplaceAll(r, Placeholder(entry.key), FormEncode(entry.value));
    }
  }

  /** `addQueryParams` with `URLEncoder.encode`: `?` first, `&` between pairs. */
  method AddQueryParams(url: string, queryParams: seq<Entry>) returns (r: string)
    ensures r == url + QueryString(queryParams, FormSpaces)
  {
    var paramsToAdd := "";
    var justStarted := true;
    for i := 0 to |queryParams|
      invariant paramsToAdd == QueryString(queryParams[..i], FormSpaces)
      invariant justStarted <==> i == 0
    {
      ghost var before := paramsToAdd;
      ghost var separator: string;
      if justStarted {
        paramsToAdd := paramsToAdd + "?";
        separator := "?";
      } else {
        paramsToAdd := paramsToAdd + "&";
        separator := "&";
      }
      paramsToAdd := paramsToAdd + queryParams[i].key + "=" + FormEncode(queryParams[i].value);
      justStarted := false;
      QueryStringSnoc(queryParams, i, FormSpaces);
      Regroup(before, separator, queryParams[i].key, "=", FormEncode(queryParams[i].value));
    }
    assert queryParams[..|queryParams|] == queryParams;
    r := url + paramsToAdd;
  }

  /** `getUri`: trim (the same `removeEndSlashes` as the newer client), path, query, then
      `URI.create`. */
  method GetUri(req: LegacyEasyRequest) returns (r: Result<string, string>)
    ensures r == Client.CreateUri(LegacyAssembleUrl(req.url, req.pathParams, req.queryParams))
  {
    var url := Client.RemoveEndSlashes(req.url);
    url := ReplacePathParams(url, req.pathParams);
    url := AddQueryParams(url, req.queryParams);
    r := Client.CreateUri(url);
  }

  // ---------------------------------------------------------------------------------------
  // Agreement with the newer client's url

  predicate SpaceFree(s: string)
  {
    forall j :: 0 <= j < |s| ==> s[j] != ' '
  }

  /** No parameter value holds a space. */
  predicate SpaceFreeValues(params: seq<Entry>)
  {
    forall e :: e in params ==> SpaceFree(e.value)
  }

  lemma {:induction false} SubstitutionAgreesWithoutSpaces(url: string, params: seq<Entry>)
    requires SpaceFreeValues(params)
    ensures SubstitutePathParams(url, params, FormSpaces) == SubstitutePathParams(url, params, PercentSpaces)
    decreases |params|
  {
    if params != [] {
      EncodingsAgreeWithoutSpaces(params[0].value);
      var next := ReplaceAll(url, Placeholder(params[0].key), Encode(params[0].value));
      SubstitutionAgreesWithoutSpaces(next, params[1..]);
    }
  }

  lemma {:induction false} QueryStringAgreesWithoutSpaces(params: seq<Entry>)
    requires SpaceFreeValues(params)
    ensures QueryString(params, FormSpaces) == QueryString(params, PercentSpaces)
    decreases |params|
  {
    if params != [] {
      var n := |params|;
      EncodingsAgreeWithoutSpaces(params[n - 1].value);
      QueryStringAgreesWithoutSpaces(params[..n - 1]);
    }
  }

  /** Without spaces in any value, and without a fragment, both clients send the same url. */
  lemma UrlsAgreeWithoutSpaces(template: string, pathParams: seq<Entry>, queryParams: seq<Entry>)
    requires SpaceFreeValues(pathParams) && SpaceFreeValues(queryParams)
    ensures LegacyAssembleUrl(template, pathParams, queryParams) == AssembleUrl(template, pathParams, queryParams, None)
  {
    SubstitutionAgreesWithoutSpaces(WithoutTrailingSlashes(template), pathParams);
    QueryStringAgreesWithoutSpaces(queryParams);
  }

  /** A space in a query value: `+` from the older client, `%20` from the newer one. */
  lemma SpacedQueryValue(template: string, key: string, a: string, b: string)
    requires UnreservedText(a) && UnreservedText(b)
    ensures LegacyAssembleUrl(template, [], [Entry(key, a + " " + b)])
         == WithoutTrailingSlashes(template) + ("?" + key + "=" + (a + "+" + b))
    ensures AssembleUrl(template, [], [Entry(key, a + " " + b)], None)
         == WithoutTrailingSlashes(template) + ("?" + key + "=" + (a + "%20" + b))
  {
    var entry := Entry(key, a + " " + b);
    QueryStringOfOne(entry, FormSpaces);
    QueryStringOfOne(entry, PercentSpaces);
    SpacedValueForm(a, b);
    SpacedValue(a, b);
  }

  /** A space in a path value: the placeholder becomes `a+b` in the older client and
      `a%20b` in the newer one. */
  lemma SpacedPathValue(url: string, key: string, a: string, b: string)
    requires UnreservedText(a) && UnreservedText(b)
    ensures SubstitutePathParams(url, [Entry(key, a + " " + b)], FormSpaces) == ReplaceAll(url, Placeholder(key), a + "+" + b)
    ensures SubstitutePathParams(url, [Entry(key, a + " " + b)], PercentSpaces) == ReplaceAll(url, Placeholder(key), a + "%20" + b)
  {
    var entry := Entry(key, a + " " + b);
    assert [entry][1..] == [];
    SpacedValueForm(a, b);
    SpacedValue(a, b);
  }

  // ---------------------------------------------------------------------------------------
  // Specification of the conversion

  /** What `convertRequest` throws: the URI's IllegalArgumentException as it is, or the
      NullPointerException of `ofString(null)`. */
  datatype LegacyConvertError = IllegalUri(url: string) | NullBody

  /** The publisher the built request ends up with: the JSON body text for POST, PUT and
      PATCH, and what GET, DELETE and HEAD keep. */
  function LegacyBody(req: LegacyEasyRequest): Option<Publisher>
    requires Client.CarriesBody(req.httpMethod) ==> req.jsonBody.Some?
  {
    if Client.CarriesBody(req.httpMethod) then Some(OfString(req.jsonBody.value))
    else Client.SentBody(req.httpMethod, NoBody)
  }

  /** `convertRequest`, as one function: the URI check, then the method with the JSON body
      text for POST, PUT and PATCH, then the headers. */
  function LegacyConvert(req: LegacyEasyRequest): (r: Result<Client.WireRequest, LegacyConvertError>)
    ensures var url := LegacyAssembleUrl(req.url, req.pathParams, req.queryParams);
      && (r.Ok? <==> AcceptedRequestUri(url) && !(Client.CarriesBody(req.httpMethod) && req.jsonBody.None?))
      && (!AcceptedRequestUri(url) ==> r == Err(IllegalUri(url)))
      && (AcceptedRequestUri(url) && Client.CarriesBody(req.httpMethod) && req.jsonBody.None? ==> r == Err(NullBody))
      && (r.Ok? ==> r.value.uri == url && r.value.headers == req.headers)
      && (r.Ok? ==> r.value.methodName == Client.MethodName(req.httpMethod))
      && (r.Ok? && Client.CarriesBody(req.httpMethod) ==> r.value.body == Some(OfString(req.jsonBody.value)))
      && (r.Ok? && (req.httpMethod == Request.GET || req.httpMethod == Request.DELETE) ==> r.value.body == None)
      && (r.Ok? && req.httpMethod == Request.HEAD ==> r.value.body == Some(NoBody))
  {
    var url := LegacyAssembleUrl(req.url, req.pathParams, req.queryParams);
    match Client.CreateUri(url)
    case Err(rejected) => Err(IllegalUri(rejected))
    case Ok(uri) =>
      if Client.CarriesBody(req.httpMethod) && req.jsonBody.None? then Err(NullBody)
      else Ok(Client.WireRequest(uri, Client.MethodName(req.httpMethod), LegacyBody(req), req.headers))
  }

  /** A request built without a `jsonBody` call sends `{}` with POST, PUT and PATCH. */
  lemma DefaultBodySent(req: LegacyEasyRequest)
    requires req.jsonBody == Some(DefaultJsonBody) && Client.CarriesBody(req.httpMethod)
    requires AcceptedRequestUri(LegacyAssembleUrl(req.url, req.pathParams, req.queryParams))
    ensures LegacyConvert(req).Ok? && LegacyConvert(req).value.body == Some(OfString("{}"))
  {
  }

  /** Whatever the older client converts, with no space in any parameter value, the newer
      client converts too when given the same fields, no fragment and no body, and both send
      the same uri, method name and headers. */
  lemma ConversionsAgree(serializer: Serializer, readable: string -> bool, legacy: LegacyEasyRequest)
    requires SpaceFreeValues(legacy.pathParams) && SpaceFreeValues(legacy.queryParams)
    requires LegacyConvert(legacy).Ok?
    ensures var current := Request.EasyRequest(legacy.url, legacy.httpMethod, legacy.pathParams,
                                               legacy.queryParams, legacy.headers, None, None);
      && Client.Convert(serializer, readable, current).Ok?
      && Client.Convert(serializer, readable, current).value.uri == LegacyConvert(legacy).value.uri
      && Client.Convert(serializer, readable, current).value.methodName == LegacyConvert(legacy).value.methodName
      && Client.Convert(serializer, readable, current).value.headers == LegacyConvert(legacy).value.headers
  {
    UrlsAgreeWithoutSpaces(legacy.url, legacy.pathParams, legacy.queryParams);
  }

  // ---------------------------------------------------------------------------------------
  // The client object

  class LegacyEasyHttpClient {
    constructor ()
    {
    }

    /** `setHttpMethod`: one builder call chosen by the method; for POST, PUT and PATCH the
        body text is read first, and a null text fails before the builder is touched. */
    method SetHttpMethod(b: Client.WireRequestBuilder, req: LegacyEasyRequest) returns (nullBody: bool)
      modifies b`methodName, b`publisher
      ensures nullBody <==> Client.CarriesBody(req.httpMethod) && req.jsonBody.None?
      ensures nullBody ==> b.methodName == old(b.methodName) && b.publisher == old(b.publisher)
      ensures !nullBody ==> b.methodName == Client.MethodName(req.httpMethod)
      ensures !nullBody && Client.CarriesBody(req.httpMethod) ==> b.publisher == Some(OfString(req.jsonBody.value))
      ensures !Client.CarriesBody(req.httpMethod) ==> b.publisher == Client.SentBody(req.httpMethod, NoBody)
    {
      nullBody := false;
      match req.httpMethod {
        case GET => b.Get();
        case POST =>
          if req.jsonBody.None? {
            return true;
          }
          b.Post(OfString(req.jsonBody.value));
        case PUT =>
          if req.jsonBody.None? {
            return true;
          }
          b.Put(OfString(req.jsonBody.value));
        case PATCH =>
          if req.jsonBody.None? {
            return true;
          }
          b.Method("PATCH", OfString(req.jsonBody.value));
        case DELETE => b.Delete();
        case HEAD => b.Head();
      }
    }

    /** `convertRequest`: URI, method and body, headers, build. */
    method ConvertRequest(req: LegacyEasyRequest) returns (r: Result<Client.WireRequest, LegacyConvertError>)
      ensures r == LegacyConvert(req)
    {
      var b := new Client.WireRequestBuilder();
      var uri := GetUri(req);
      if uri.Err? {
        return Err(IllegalUri(uri.error));
      }
      b.Uri(uri.value);
      var nullBody := SetHttpMethod(b, req);
      if nullBody {
        return Err(NullBody);
      }
      Client.SetHeaders(b, req.headers);
      var w := b.Build();
      r := Ok(w);
      assert w == Client.WireRequest(uri.value, Client.MethodName(req.httpMethod), LegacyBody(req), req.headers);
    }
  }
}
