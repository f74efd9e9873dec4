/** `EasyHttpClient`: turning a built request into a `java.net.http` request. The url is
    assembled step by step, checked as a URI (a rejection becomes MalformedUri before anything
    else happens), the method and body are set by the method-to-body rule, and the headers
    are added in iteration order. */
module Client {
  import opened Base
  import opened JavaText
  import opened EntryMaps
  import opened ParamCodec
  import opened UrlAssembly
  import opened BodyHandler
  import opened Request

  // ---------------------------------------------------------------------------------------
  // URL assembly, as the client computes it

  /** `removeEndSlashes`: counts the trailing slashes down from the end, stopping at the
      first other character. */
  method RemoveEndSlashes(url: string) returns (r: string)
    ensures r == WithoutTrailingSlashes(url)
  {
    var substringEnd := |url|;
    var i := |url| - 1;
    while i >= 0
      invariant -1 <= i < |url|
      invariant substringEnd == i + 1
      invariant forall j :: substringEnd <= j < |url| ==> url[j] == '/'
      decreases i
    {
      if url[i] == '/' {
        substringEnd := substringEnd - 1;
      } else {
        break;
      }
      i := i - 1;
    }
    r := url[..substringEnd];
    TrailingSlashesUnique(url, substringEnd);
  }

  /** `replacePathParams`: one `String.replace` per entry, in iteration order. */
  method ReplacePathParams(url: string, pathParams: seq<Entry>) returns (r: string)
    ensures r == SubstitutePathParams(url, pathParams, PercentSpaces)
  {
    r := url;
    for i := 0 to |pathParams|
      invariant SubstitutePathParams(r, pathParams[i..], PercentSpaces) == SubstitutePathParams(url, pathParams, PercentSpaces)
    {
      var entry := pathParams[i];
      assert pathParams[i..][1..] == pathParams[i + 1..];
      r := ReplaceAll(r, Placeholder(entry.key), Encode(entry.value));
    }
  }

  /** `addQueryParams`: a string builder that opens with `?` and separates with `&`. */
  method AddQueryParams(url: string, queryParams: seq<Entry>) returns (r: string)
    ensures r == url + QueryString(queryParams, PercentSpaces)
  {
    var paramsToAdd := "";
    var justStarted := true;
    for i := 0 to |queryParams|
      invariant paramsToAdd == QueryString(queryParams[..i], PercentSpaces)
      invariant justStarted <==> i == 0
    {
      ghost var before := paramsToAdd;
      ghost var separator: string;
      if justStarted {
        paramsToAdd := paramsToAdd + "?";
        separator := "?";
      } else {
        paramsToAdd := paramsToAdd + "&";
        separator := "&";
      }
      paramsToAdd := paramsToAdd + queryParams[i].key + "=" + Encode(queryParams[i].value);
      justStarted := false;
      QueryStringSnoc(queryParams, i, PercentSpaces);
      Regroup(before, separator, queryParams[i].key, "=", Encode(queryParams[i].value));
    }
    assert queryParams[..|queryParams|] == queryParams;
    r := url + paramsToAdd;
  }

  /** `URI.create` followed by `HttpRequest.Builder.uri`: the url itself, or the
      IllegalArgumentException (carrying the url) either of them throws. */
  function CreateUri(url: string): (r: Result<string, string>)
    ensures r.Ok? <==> AcceptedRequestUri(url)
    ensures r.Ok? ==> r.value == url
    ensures r.Err? ==> r.error == url
  {
    if AcceptedRequestUri(url) then Ok(url) else Err(url)
  }

  /** `getUri`: trim, path, query, fragment, then the URI check. */
  method GetUri(req: EasyRequest) returns (r: Result<string, string>)
    ensures r == CreateUri(AssembleUrl(req.url, req.pathParams, req.queryParams, req.fragment))
  {
    var url := RemoveEndSlashes(req.url);
    url := ReplacePathParams(url, req.pathParams);
    url := AddQueryParams(url, req.queryParams);
    url := AddFragment(url, req.fragment);
    r := CreateUri(url);
  }

  // ---------------------------------------------------------------------------------------
  // The java.net.http request builder

  /** A built `HttpRequest`: URI, method name, body publisher (None where the builder keeps
      none) and headers in the order they were added. */
  datatype WireRequest = WireRequest(uri: string, methodName: string, body: Option<Publisher>, headers: seq<Entry>)

  /** The part of `HttpRequest.Builder` the client drives. */
  class WireRequestBuilder {
    var uri: Option<string>
    var methodName: string
    var publisher: Option<Publisher>
    var headers: seq<Entry>

    /** `HttpRequest.newBuilder()`: GET without a body, no URI, no headers. */
    constructor ()
      ensures uri == None && methodName == "GET" && publisher == None && headers == []
    {
      uri := None;
      methodName := "GET";
      publisher := None;
      headers := [];
    }

    method Uri(u: string)
      modifies this`uri
      ensures uri == Some(u)
    {
      uri := Some(u);
    }

    method Get()
      modifies this`methodName, this`publisher
      ensures methodName == "GET" && publisher == None
    {
      methodName, publisher := "GET", None;
    }

    method Delete()
      modifies this`methodName, this`publisher
      ensures methodName == "DELETE" && publisher == None
    {
      methodName, publisher := "DELETE", None;
    }

    /** `HEAD()` is `method("HEAD", noBody())`. */
    method Head()
      modifies this`methodName, this`publisher
      ensures methodName == "HEAD" && publisher == Some(NoBody)
    {
      methodName, publisher := "HEAD", Some(NoBody);
    }

    method Post(p: Publisher)
      modifies this`methodName, this`publisher
      ensures methodName == "POST" && publisher == Some(p)
    {
      methodName, publisher := "POST", Some(p);
    }

    method Put(p: Publisher)
      modifies this`methodName, this`publisher
      ensures methodName == "PUT" && publisher == Some(p)
    {
      methodName, publisher := "PUT", Some(p);
    }

    method Method(name: string, p: Publisher)
      modifies this`methodName, this`publisher
      ensures methodName == name && publisher == Some(p)
    {
      methodName, publisher := name, Some(p);
    }

    /** `header(name, value)` adds a header line; it never replaces an earlier one. */
    method Header(name: string, value: string)
      modifies this`headers
      ensures headers == old(headers) + [Entry(name, value)]
    {
      headers := headers + [Entry(name, value)];
    }

    /** `build()`; the builder throws without a URI, and the client always sets one first. */
    method Build() returns (w: WireRequest)
      requires uri.Some?
      ensures w == WireRequest(uri.value, methodName, publisher, headers)
    {
      w := WireRequest(uri.value, methodName, publisher, headers);
    }
  }

  /** `setHeaders`: one `header` call per entry, in iteration order. It reads no state of
      the client, so both clients share it. */
  method SetHeaders(b: WireRequestBuilder, headers: seq<Entry>)
    modifies b`headers
    ensures b.headers == old(b.headers) + headers
  {
    for i := 0 to |headers|
      invariant b.headers == old(b.headers) + headers[..i]
    {
      b.Header(headers[i].key, headers[i].value);
      assert headers[..i + 1] == headers[..i] + [headers[i]];
    }
    assert headers[..|headers|] == headers;
  }

  // ---------------------------------------------------------------------------------------
  // Specification of the conversion

  function MethodName(m: HttpMethod): string
  {
    match m
    case GET => "GET"
    case POST => "POST"
    case PUT => "PUT"
    case PATCH => "PATCH"
    case DELETE => "DELETE"
    case HEAD => "HEAD"
  }

  /** Whether the method carries the request's publisher: POST, PUT and PATCH do. */
  predicate CarriesBody(m: HttpMethod)
  {
    m == POST || m == PUT || m == PATCH
  }

  /** The publisher the built request ends up with for method m and computed publisher p. */
  function SentBody(m: HttpMethod, p: Publisher): (b: Option<Publisher>)
    ensures CarriesBody(m) ==> b == Some(p)
    ensures !CarriesBody(m) ==> b == None || b == Some(NoBody)
  {
    match m
    case GET => None
    case DELETE => None
    case HEAD => Some(NoBody)
    case _ => Some(p)
  }

  datatype ConvertError = MalformedUri(url: string) | BodyFailure(error: BodyError)

  /** `convertRequest`, as one function: the URI check, then the body publisher (computed for
      every method), then the method and the headers. */
  function Convert(serializer: Serializer, readable: string -> bool, req: EasyRequest): (r: Result<WireRequest, ConvertError>)
    ensures var url := AssembleUrl(req.url, req.pathParams, req.queryParams, req.fragment);
      && (r.Ok? <==> AcceptedRequestUri(url) && RequestPublisher(serializer, readable, req.body).Ok?)
      && (!AcceptedRequestUri(url) ==> r == Err(MalformedUri(url)))
      && (r.Ok? ==> r.value.uri == url && r.value.headers == req.headers && r.value.methodName == MethodName(req.httpMethod))
  {
    var url := AssembleUrl(req.url, req.pathParams, req.queryParams, req.fragment);
    match CreateUri(url)
    case Err(rejected) => Err(MalformedUri(rejected))
    case Ok(uri) =>
      match RequestPublisher(serializer, readable, req.body)
      case Err(e) => Err(BodyFailure(e))
      case Ok(p) => Ok(WireRequest(uri, MethodName(req.httpMethod), SentBody(req.httpMethod, p), req.headers))
  }

  /** An accepted url and a publisher give the request the method-to-body rule prescribes. */
  lemma ConvertAccepted(serializer: Serializer, readable: string -> bool, req: EasyRequest, p: Publisher)
    requires CreateUri(AssembleUrl(req.url, req.pathParams, req.queryParams, req.fragment)).Ok?
    requires RequestPublisher(serializer, readable, req.body) == Ok(p)
    ensures Convert(serializer, readable, req)
         == Ok(WireRequest(AssembleUrl(req.url, req.pathParams, req.queryParams, req.fragment),
              MethodName(req.httpMethod), SentBody(req.httpMethod, p), req.headers))
  {
  }

  /** The method-to-body rule: GET and DELETE keep no publisher, HEAD sends none, POST, PUT
      and PATCH send the request's publisher (PATCH through the generic `method`). */
  lemma MethodBodyRule(serializer: Serializer, readable: string -> bool, req: EasyRequest)
    requires Convert(serializer, readable, req).Ok?
    ensures var w := Convert(serializer, readable, req).value;
      && (req.httpMethod == GET || req.httpMethod == DELETE ==> w.body == None)
      && (req.httpMethod == HEAD ==> w.body == Some(NoBody))
      && (CarriesBody(req.httpMethod) ==> w.body == Some(RequestPublisher(serializer, readable, req.body).value))
      && (req.httpMethod == PATCH ==> w.methodName == "PATCH")
  {
  }

  /** The publisher is computed before the method is looked at, so a body error surfaces
      for GET, DELETE and HEAD too, once the URI has been accepted. */
  lemma BodyErrorsSurfaceForEveryMethod(serializer: Serializer, readable: string -> bool, req: EasyRequest)
    requires AcceptedRequestUri(AssembleUrl(req.url, req.pathParams, req.queryParams, req.fragment))
    requires RequestPublisher(serializer, readable, req.body).Err?
    ensures Convert(serializer, readable, req) == Err(BodyFailure(RequestPublisher(serializer, readable, req.body).error))
  {
  }

  /** Changing only the method never changes whether the conversion fails, nor how. */
  lemma FailureIndependentOfMethod(serializer: Serializer, readable: string -> bool, req: EasyRequest, m: HttpMethod)
    ensures var other := req.(httpMethod := m);
      && (Convert(serializer, readable, req).Err? <==> Convert(serializer, readable, other).Err?)
      && (Convert(serializer, readable, req).Err? ==> Convert(serializer, readable, req) == Convert(serializer, readable, other))
  {
  }

  // ---------------------------------------------------------------------------------------
  // The client object

  class EasyHttpClient {
    const serializer: Serializer

    constructor (serializer: Serializer)
      ensures this.serializer == serializer
    {
      this.serializer := serializer;
    }

    /** `setHttpMethod`: the publisher first (its failure leaves the builder as it was), then
        one builder call chosen by the method. */
    method SetHttpMethod(b: WireRequestBuilder, req: EasyRequest, readable: string -> bool) returns (failure: Option<BodyError>)
      modifies b`methodName, b`publisher
      ensures RequestPublisher(serializer, readable, req.body).Err? ==>
        failure == Some(RequestPublisher(serializer, readable, req.body).error)
        && b.methodName == old(b.methodName) && b.publisher == old(b.publisher)
      ensures RequestPublisher(serializer, readable, req.body).Ok? ==>
        failure == None && b.methodName == MethodName(req.httpMethod)
        && b.publisher == SentBody(req.httpMethod, RequestPublisher(serializer, readable, req.body).value)
    {
      var p := RequestPublisher(serializer, readable, req.body);
      if p.Err? {
        return Some(p.error);
      }
      match req.httpMethod {
        case GET => b.Get();
        case POST => b.Post(p.value);
        case PUT => b.Put(p.value);
        case PATCH => b.Method("PATCH", p.value);
        case DELETE => b.Delete();
        case HEAD => b.Head();
      }
      failure := None;
    }

    /** `convertRequest`. readable stands for the file system consulted by Path bodies. */
    method ConvertRequest(req: EasyRequest, readable: string -> bool) returns (r: Result<WireRequest, ConvertError>)
      ensures r == Convert(serializer, readable, req)
    {
      var b := new WireRequestBuilder();
      var uri := GetUri(req);
      if uri.Err? {
        return Err(MalformedUri(uri.error));
      }
      b.Uri(uri.value);
      var failure := SetHttpMethod(b, req, readable);
      if failure.Some? {
        return Err(BodyFailure(failure.value));
      }
      SetHeaders(b, req.headers);
      var w := b.Build();
      r := Ok(w);
      var p := RequestPublisher(serializer, readable, req.body);
      assert p.Ok?;
      assert w == WireRequest(uri.value, MethodName(req.httpMethod), SentBody(req.httpMethod, p.value), req.headers);
    }

    /** `send(request, responseClass)` up to the transport: the request is converted first,
        and only then is the response handler chosen. */
    method PrepareSend(req: EasyRequest, responseClass: Option<ClassTag>, readable: string -> bool)
      returns (r: Result<(WireRequest, ResponseHandler), ConvertError>)
      ensures Convert(serializer, readable, req).Err? ==> r == Err(Convert(serializer, readable, req).error)
      ensures Convert(serializer, readable, req).Ok? ==>
        r == Ok((Convert(serializer, readable, req).value, ResponseHandlerFor(responseClass)))
    {
      var request := ConvertRequest(req, readable);
      if request.Err? {
        return Err(request.error);
      }
      r := Ok((request.value, ResponseHandlerFor(responseClass)));
    }
  }

  /** The client's `Builder`, reduced to what decides behaviour here: the serializer. */
  class ClientBuilder {
    var serializer: Option<Serializer>

    constructor ()
      ensures serializer == None
    {
      serializer := None;
    }

    method SetSerializer(s: Option<Serializer>)
      modifies this`serializer
      ensures serializer == s
    {
      serializer := s;
    }

    /** `build`: a serializer left null is replaced by the Jackson one, in the builder too. */
    method Build(jackson: Serializer) returns (c: EasyHttpClient)
      modifies this`serializer
      ensures fresh(c)
      ensures old(serializer).Some? ==> c.serializer == old(serializer).value
      ensures old(serializer).None? ==> c.serializer == jackson
      ensures serializer == Some(c.serializer)
    {
      if serializer.None? {
        serializer := Some(jackson);
      }
      c := new EasyHttpClient(serializer.value);
    }
  }

  // ---------------------------------------------------------------------------------------
  // Scenarios

  /** The test server's base url (`http://localhost:<port>/test` in the scenarios): an
      accepted URI without `{` or `#` and not ending in `/`. */
  predicate ServerBase(base: string)
  {
    && AcceptedRequestUri(base)
    && base[|base| - 1] != '/'
    && forall i :: 0 <= i < |base| ==> base[i] != '{' && base[i] != '#'
  }

  /** Plain text appended to the server base is still an accepted URI without `#`. */
  lemma BaseExtension(base: string, path: string)
    requires ServerBase(base) && PlainText(path)
    ensures AcceptedRequestUri(base + path) && CountChar(base + path, '#') == 0
  {
    CountCharZero(base, '#');
    PlainExtension(base, path);
  }

  /** A url that does not end in `/` is not trimmed. */
  lemma NothingToTrim(url: string)
    requires url != [] && url[|url| - 1] != '/'
    ensures WithoutTrailingSlashes(url) == url
  {
    TrailingSlashesUnique(url, |url|);
    assert url[..|url|] == url;
  }

  // The users scenario: `<base>/users/{user}` with one path and one query parameter.

  lemma UsersScenarioLiterals()
    ensures "/users/{user}" == "/users/" + "{user}"
    ensures "?" + ("findDeleted" + "=") == "?findDeleted="
  {
  }

  lemma UsersScenarioPlain()
    ensures PlainText("/users/") && PlainText("findDeleted")
  {
  }

  /** The path step: nothing to trim, and the one placeholder is replaced by the value. */
  lemma UsersScenarioPath(base: string, user: string)
    requires ServerBase(base) && UnreservedText(user)
    ensures SubstitutePathParams(WithoutTrailingSlashes(base + "/users/{user}"), [Entry("user", user)], PercentSpaces)
         == base + "/users/" + user
  {
    var front := base + "/users/";
    var template := base + "/users/{user}";
    UsersScenarioLiterals();
    UsersScenarioPlain();
    Assoc(base, "/users/", "{user}");
    assert template == front + "{user}";
    assert template[|template| - 1] == '}';
    NothingToTrim(template);
    NoBraceExtension(base, "/users/");
    UnreservedUnchanged(PercentSpaces, user);
    ReplaceAllAtEnd(front, "{user}", user);
    assert Placeholder("user") == "{user}";
    assert [Entry("user", user)][1..] == [];
  }

  /** The query step. */
  lemma UsersScenarioQuery(flag: string)
    requires UnreservedText(flag)
    ensures QueryString([Entry("findDeleted", flag)], PercentSpaces) == "?findDeleted=" + flag
  {
    QueryStringOfOne(Entry("findDeleted", flag), PercentSpaces);
    UnreservedPair("findDeleted", flag, PercentSpaces);
    UsersScenarioLiterals();
    Assoc("?", "findDeleted" + "=", flag);
  }

  /** The assembled url of the users scenario. */
  lemma UsersScenarioUrl(base: string, user: string, flag: string)
    requires ServerBase(base) && UnreservedText(user) && UnreservedText(flag)
    ensures AssembleUrl(base + "/users/{user}", [Entry("user", user)], [Entry("findDeleted", flag)], None)
         == base + "/users/" + user + ("?findDeleted=" + flag)
  {
    UsersScenarioPath(base, user);
    UsersScenarioQuery(flag);
  }

  /** The assembled url of the users scenario is an accepted URI. */
  lemma UsersScenarioAccepted(base: string, user: string, flag: string)
    requires ServerBase(base) && UnreservedText(user) && UnreservedText(flag)
    ensures CreateUri(AssembleUrl(base + "/users/{user}", [Entry("user", user)], [Entry("findDeleted", flag)], None)).Ok?
  {
    UsersScenarioPath(base, user);
    UsersScenarioPlain();
    PlainTextIsUriText("findDeleted");
    PlainTextConcat("/users/", user);
    BaseExtension(base, "/users/" + user);
    Assoc(base, "/users/", user);
    AcceptedWithOneQuery(base + "/users/{user}", [Entry("user", user)], "findDeleted", flag, None, base + ("/users/" + user));
  }

  /** `<base>/users/{user}` with user and findDeleted set to unreserved values (the test uses
      1 and true), for every method and without a body: the placeholder is filled, the query
      appended, the header kept, and only POST, PUT and PATCH carry the (empty) publisher. */
  lemma UsersScenario(serializer: Serializer, readable: string -> bool, m: HttpMethod, base: string, user: string, flag: string)
    requires ServerBase(base) && UnreservedText(user) && UnreservedText(flag)
    ensures Convert(serializer, readable, EasyRequest(base + "/users/{user}", m,
              [Entry("user", user)], [Entry("findDeleted", flag)], [Entry("Authorization", "token")], None, None))
         == Ok(WireRequest(base + "/users/" + user + ("?findDeleted=" + flag), MethodName(m),
              SentBody(m, NoBody), [Entry("Authorization", "token")]))
  {
    var req := EasyRequest(base + "/users/{user}", m,
      [Entry("user", user)], [Entry("findDeleted", flag)], [Entry("Authorization", "token")], None, None);
    UsersScenarioUrl(base, user, flag);
    UsersScenarioAccepted(base, user, flag);
    ConvertAccepted(serializer, readable, req, NoBody);
  }

  // The countries scenario: two placeholders, trailing slashes, two query parameters and a
  // serialized body.

  lemma CountriesScenarioLiterals()
    ensures "/countries/{country}/users/{user}//" == "/countries/" + ("{country}" + ("/users/" + "{user}")) + "//"
    ensures "?" + ("logData" + "=") == "?logData="
    ensures "&" + ("overwrite" + "=") == "&overwrite="
  {
  }

  lemma CountriesScenarioPlaceholders()
    ensures Placeholder("country") == "{country}" && Placeholder("user") == "{user}"
  {
  }

  lemma CountriesScenarioPlain()
    ensures PlainText("/countries/") && PlainText("/users/") && PlainText("logData") && PlainText("overwrite")
  {
  }

  /** The two trailing slashes of the countries template are trimmed. */
  lemma CountriesScenarioTrim(base: string)
    requires ServerBase(base)
    ensures WithoutTrailingSlashes(base + "/countries/{country}/users/{user}//")
         == base + ("/countries/" + ("{country}" + ("/users/" + "{user}")))
  {
    var middle := "/countries/" + ("{country}" + ("/users/" + "{user}"));
    var trimmed := base + middle;
    var template := trimmed + "//";
    CountriesScenarioLiterals();
    Assoc(base, middle, "//");
    assert middle[|middle| - 1] == '}';
    assert template[|trimmed| - 1] == '}';
    TrailingSlashesUnique(template, |trimmed|);
    assert template[..|trimmed|] == trimmed;
  }

  /** The `{country}` placeholder is replaced; `{user}` is too short to hold another. */
  lemma CountriesScenarioCountry(base: string, country: string)
    requires ServerBase(base)
    ensures ReplaceAll(base + ("/countries/" + ("{country}" + ("/users/" + "{user}"))), "{country}", country)
         == base + "/countries/" + (country + ("/users/" + "{user}"))
  {
    var front := base + "/countries/";
    var tail := "{country}" + ("/users/" + "{user}");
    CountriesScenarioPlain();
    Assoc(base, "/countries/", tail);
    NoBraceExtension(base, "/countries/");
    ReplaceAllSkipsPrefix(front, tail, "{country}", country);
    ReplaceAllAtStart("/users/" + "{user}", "{country}", country);
    NoBraceExtension([], "/users/");
    assert [] + "/users/" == "/users/";
    ReplaceAllSkipsPrefix("/users/", "{user}", "{country}", country);
    ReplaceAllShort("{user}", "{country}", country);
  }

  /** The `{user}` placeholder is replaced. */
  lemma CountriesScenarioUser(base: string, country: string, user: string)
    requires ServerBase(base) && UnreservedText(country)
    ensures ReplaceAll(base + "/countries/" + (country + ("/users/" + "{user}")), "{user}", user)
         == base + "/countries/" + country + "/users/" + user
  {
    var front := base + "/countries/";
    CountriesScenarioPlain();
    Assoc(front, country, "/users/" + "{user}");
    Assoc(front + country, "/users/", "{user}");
    NoBraceExtension(base, "/countries/");
    NoBraceExtension(front, country);
    NoBraceExtension(front + country, "/users/");
    ReplaceAllAtEnd(front + country + "/users/", "{user}", user);
  }

  /** The path step of the countries scenario. */
  lemma CountriesScenarioPath(base: string, country: string, user: string)
    requires ServerBase(base) && UnreservedText(country) && UnreservedText(user)
    ensures SubstitutePathParams(WithoutTrailingSlashes(base + "/countries/{country}/users/{user}//"),
              [Entry("country", country), Entry("user", user)], PercentSpaces)
         == base + "/countries/" + country + "/users/" + user
  {
    CountriesScenarioTrim(base);
    CountriesScenarioPlaceholders();
    SubstituteTwoUnreserved(base + ("/countries/" + ("{country}" + ("/users/" + "{user}"))), "country", country, "user", user);
    CountriesScenarioCountry(base, country);
    CountriesScenarioUser(base, country, user);
  }

  /** The substituted path is an accepted URI without `#`. */
  lemma CountriesScenarioPathAccepted(base: string, country: string, user: string)
    requires ServerBase(base) && UnreservedText(country) && UnreservedText(user)
    ensures AcceptedRequestUri(base + "/countries/" + country + "/users/" + user)
    ensures CountChar(base + "/countries/" + country + "/users/" + user, '#') == 0
  {
    CountriesScenarioPlain();
    BaseExtension(base, "/countries/");
    PlainExtension(base + "/countries/", country);
    PlainExtension(base + "/countries/" + country, "/users/");
    PlainExtension(base + "/countries/" + country + "/users/", user);
  }

  /** The query step: both pairs, in order, with `?` then `&`. */
  lemma CountriesScenarioQuery(logData: string, overwrite: string)
    requires UnreservedText(logData) && UnreservedText(overwrite)
    ensures QueryString([Entry("logData", logData), Entry("overwrite", overwrite)], PercentSpaces)
         == "?logData=" + logData + "&overwrite=" + overwrite
  {
    var first := "?logData=" + logData;
    QueryStringOfTwo(Entry("logData", logData), Entry("overwrite", overwrite), PercentSpaces);
    UnreservedPair("logData", logData, PercentSpaces);
    UnreservedPair("overwrite", overwrite, PercentSpaces);
    CountriesScenarioLiterals();
    Assoc("?", "logData" + "=", logData);
    Assoc(first + "&", "overwrite" + "=", overwrite);
    Assoc(first, "&", "overwrite" + "=");
  }

  /** The countries request: PATCH to `<base>/countries/{country}/users/{user}//` with two
      path parameters, two query parameters and a body declared as an application class. */
  function CountriesRequest(base: string, country: string, user: string, logData: string, overwrite: string, data: Value): (req: EasyRequest)
    ensures req.httpMethod == PATCH && req.headers == [] && req.fragment == None
  {
    EasyRequest(base + "/countries/{country}/users/{user}//", PATCH,
      [Entry("country", country), Entry("user", user)],
      [Entry("logData", logData), Entry("overwrite", overwrite)],
      [], None, Some(Body(Some(data), Some(OtherClass("SampleRequest")))))
  }

  /** The assembled url of the countries scenario. */
  lemma CountriesScenarioUrl(base: string, country: string, user: string, logData: string, overwrite: string, data: Value)
    requires ServerBase(base)
    requires UnreservedText(country) && UnreservedText(user) && UnreservedText(logData) && UnreservedText(overwrite)
    ensures var req := CountriesRequest(base, country, user, logData, overwrite, data);
      AssembleUrl(req.url, req.pathParams, req.queryParams, req.fragment)
      == base + "/countries/" + country + "/users/" + user + ("?logData=" + logData + "&overwrite=" + overwrite)
  {
    CountriesScenarioPath(base, country, user);
    CountriesScenarioQuery(logData, overwrite);
  }

  /** The assembled url of the countries scenario is an accepted URI. */
  lemma CountriesScenarioAccepted(base: string, country: string, user: string, logData: string, overwrite: string, data: Value)
    requires ServerBase(base)
    requires UnreservedText(country) && UnreservedText(user) && UnreservedText(logData) && UnreservedText(overwrite)
    ensures var req := CountriesRequest(base, country, user, logData, overwrite, data);
      CreateUri(AssembleUrl(req.url, req.pathParams, req.queryParams, req.fragment)).Ok?
  {
    var req := CountriesRequest(base, country, user, logData, overwrite, data);
    CountriesScenarioPath(base, country, user);
    CountriesScenarioPathAccepted(base, country, user);
    CountriesScenarioPlain();
    PlainTextIsUriText("logData");
    PlainTextIsUriText("overwrite");
    AcceptedWithTwoQueries(req.url, req.pathParams, "logData", logData, "overwrite", overwrite, req.fragment,
      base + "/countries/" + country + "/users/" + user);
  }

  /** The countries request with unreserved values (the test uses italy, 1, false and true):
      trailing slashes trimmed, both placeholders filled, both query pairs appended, and the
      serializer's text sent as the PATCH body. */
  lemma CountriesScenario(serializer: Serializer, readable: string -> bool, base: string,
                          country: string, user: string, logData: string, overwrite: string, data: Value, json: string)
    requires ServerBase(base)
    requires UnreservedText(country) && UnreservedText(user) && UnreservedText(logData) && UnreservedText(overwrite)
    requires serializer.serialize(data) == Ok(Some(json))
    ensures Convert(serializer, readable, CountriesRequest(base, country, user, logData, overwrite, data))
         == Ok(WireRequest(base + "/countries/" + country + "/users/" + user + ("?logData=" + logData + "&overwrite=" + overwrite),
              "PATCH", Some(OfString(json)), []))
  {
    var req := CountriesRequest(base, country, user, logData, overwrite, data);
    CountriesScenarioUrl(base, country, user, logData, overwrite, data);
    CountriesScenarioAccepted(base, country, user, logData, overwrite, data);
    OtherTypesUseSerializer(serializer, readable, data, OtherClass("SampleRequest"));
    ConvertAccepted(serializer, readable, req, OfString(json));
  }

  // The fragment scenario.

  /** The fragment scenario's url: nothing to trim, no query, the fragment after one `#`. */
  lemma FragmentScenarioUrl(base: string, a: string, b: string)
    requires ServerBase(base) && UnreservedText(a) && UnreservedText(b) && a != []
    ensures AssembleUrl(base + "/countries", [], [], Some(a + " " + b)) == base + "/countries" + "#" + (a + "%20" + b)
    ensures CreateUri(AssembleUrl(base + "/countries", [], [], Some(a + " " + b))).Ok?
  {
    var path := base + "/countries";
    assert PlainText("/countries");
    BaseExtension(base, "/countries");
    assert path[|path| - 1] == 's';
    NothingToTrim(path);
    assert QueryString([], PercentSpaces) == [] && path + [] == path;
    assert (a + " " + b)[0] == a[0];
    SpacedValue(a, b);
    AssembledUrlAccepted(path, [], [], Some(a + " " + b), path);
  }

  /** `<base>/countries` with a fragment made of two unreserved words around a space (the
      test uses `test 2`): the fragment follows one `#`, its space written as `%20`. */
  lemma FragmentScenario(serializer: Serializer, readable: string -> bool, base: string, a: string, b: string)
    requires ServerBase(base) && UnreservedText(a) && UnreservedText(b) && a != []
    ensures Convert(serializer, readable, EasyRequest(base + "/countries", GET, [], [], [], Some(a + " " + b), None))
         == Ok(WireRequest(base + "/countries" + "#" + (a + "%20" + b), "GET", None, []))
  {
    var req := EasyRequest(base + "/countries", GET, [], [], [], Some(a + " " + b), None);
    FragmentScenarioUrl(base, a, b);
    ConvertAccepted(serializer, readable, req, NoBody);
  }

  /** The template `/test` with two path parameters, two query parameters, two headers and a
      string body, sent as PATCH: the url has no scheme or host and is refused as MalformedUri
      before the body is looked at. */
  lemma RelativeTemplateScenario(serializer: Serializer, readable: string -> bool)
    ensures var req := EasyRequest("/test", PATCH,
                                   [Entry("country", "italy"), Entry("user", "1")],
                                   [Entry("logData", "false"), Entry("overwrite", "true")],
                                   [Entry("Authorization", "token"), Entry("Accept", "application/json")],
                                   None,
                                   Some(Body(Some(TextValue("{\"username\":\"test\"}")), Some(StringClass))));
      Convert(serializer, readable, req).Err? && Convert(serializer, readable, req).error.MalformedUri?
  {
    RelativeTemplateRejected("/test", [Entry("country", "italy"), Entry("user", "1")],
                             [Entry("logData", "false"), Entry("overwrite", "true")], None);
  }
}
