# EasyHttpClient request assembly, in Dafny

EasyHttpClient is a thin Java wrapper over `java.net.http`. A caller fills an
`EasyHttpRequest` through a fluent builder: a url template with `{key}` placeholders,
a method, path parameters, query parameters, headers, a fragment and a typed body. The
client turns that request into an `HttpRequest`:

- it trims the trailing slashes of the template;
- it substitutes each placeholder with the URL-encoded value;
- it appends a `?k=v&k=v` query string;
- it appends an encoded `#fragment`;
- it checks the result as a URI;
- it picks a body publisher from the body's declared type;
- it sets the method and copies the headers.

The repository also keeps an older client and request under `org.urusso`. They form-encode
values, have no fragment, and take the body as JSON text that defaults to `{}`.

The project models both versions:

| module | file | what it is |
|---|---|---|
| `Base` | base.dfy | Option, Result, bytes, character counts |
| `JavaText` | java_text.dfy | `String.isBlank` and `String.replace`, with a split/join characterisation of replace |
| `EntryMaps` | entry_maps.dfy | a Java `Map<String,String>` as a sequence of entries with unique keys; `put` and `get` |
| `Headers` | headers.dfy | the `Headers` enum |
| `ParamCodec` | param_codec.dfy | `URLEncoder.encode` (UTF-8, form encoding); the newer client's `encode`, which turns `+` into `%20`; a decoder that inverts both |
| `UrlAssembly` | url_assembly.dfy | the url pipeline as functions; what `URI.create` accepts |
| `BodyHandler` | body_handler.dfy | `EasyBodyHandler`: the response handler and the request publisher |
| `Request` | request.dfy | `EasyHttpRequest` and its `Builder` class |
| `Client` | client.dfy | `EasyHttpClient` |
| `LegacyRequest` | legacy_request.dfy | the older `EasyHttpRequest` |
| `LegacyClient` | legacy_client.dfy | the older `EasyHttpClient` |

Every loop of the source is a method with loop invariants. Each such method is proved
equal to a specification function:

- `removeEndSlashes` matches `WithoutTrailingSlashes`;
- `replacePathParams` matches `SubstitutePathParams`;
- `addQueryParams` matches `QueryString`;
- `setHeaders` appends the headers in the map's iteration order.

The builders are classes with `modifies` clauses. `convertRequest` is proved equal to a
total conversion function, and that function is characterised by lemmas.

## Model

| member | source | states |
|---|---|---|
| JavaText.ReplaceAllIsJoinOfSplit | src/main/java/io/github/urusso/easyhttpclient/EasyHttpClient.java:195 | `String.replace` (left to right, non-overlapping) equals splitting at the target and joining with the replacement |
| JavaText.SplitPiecesAreFree | src/main/java/io/github/urusso/easyhttpclient/EasyHttpClient.java:195 | no piece of the split holds the target, so no occurrence is left behind |
| JavaText.ReplaceAllCharacterized | src/main/java/io/github/urusso/easyhttpclient/EasyHttpClient.java:195 | the result of `replace` is the pieces joined by the replacement, and no piece holds the target |
| JavaText.ReplaceAllWithTarget | src/main/java/io/github/urusso/easyhttpclient/EasyHttpClient.java:195 | replacing a target by itself changes nothing |
| JavaText.ReplaceAllAbsent | src/main/java/io/github/urusso/easyhttpclient/EasyHttpClient.java:195 | a string without the target is left unchanged |
| JavaText.ReplaceCharConcat | src/main/java/io/github/urusso/easyhttpclient/EasyHttpClient.java:277 | replacing a single character distributes over concatenation |
| JavaText.ReplaceAllKeepsCharCount | src/main/java/io/github/urusso/easyhttpclient/EasyHttpClient.java:195 | a replacement free of a character never adds that character |
| JavaText.ReplaceAllSkipsPrefix | src/main/java/io/github/urusso/easyhttpclient/EasyHttpClient.java:195 | a prefix that cannot start the target is copied unchanged |
| JavaText.ReplaceAllAtStart | src/main/java/io/github/urusso/easyhttpclient/EasyHttpClient.java:195 | a target at the start is replaced, and replacement continues after it |
| JavaText.ReplaceAllShort | src/main/java/io/github/urusso/easyhttpclient/EasyHttpClient.java:195 | a string shorter than the target is unchanged |
| JavaText.ReplaceAllAtEnd | src/main/java/io/github/urusso/easyhttpclient/EasyHttpClient.java:195 | a target at the end, after text that cannot start it, is the only part replaced |
| EntryMaps.Put | src/main/java/io/github/urusso/easyhttpclient/EasyHttpRequest.java:88 | `Map.put` overwrites an existing key in place, or else appends the entry; every other entry is unchanged |
| EntryMaps.LookupAbsent | src/main/java/io/github/urusso/easyhttpclient/EasyHttpRequest.java:88 | `get` finds nothing exactly when no entry has the key |
| EntryMaps.PutThenLookup | src/main/java/io/github/urusso/easyhttpclient/EasyHttpRequest.java:88 | after `put(k, v)`, `get(k)` is `v`, and every other key reads as before |
| EntryMaps.PutKeepsUniqueKeys | src/main/java/io/github/urusso/easyhttpclient/EasyHttpRequest.java:88 | `put` keeps every key unique |
| EntryMaps.PutSize | src/main/java/io/github/urusso/easyhttpclient/EasyHttpRequest.java:88 | `put` adds one entry exactly when the key was absent |
| Headers.CodesDistinct | src/main/java/io/github/urusso/easyhttpclient/constant/Headers.java:3-18 | two enum constants have the same code if and only if they are the same constant |
| Headers.CodesAreFieldNames | src/main/java/io/github/urusso/easyhttpclient/constant/Headers.java:4-12 | every code is a header field name (a token) as section 3.2 of RFC 7230 defines it |
| ParamCodec.Utf8 | src/main/java/io/github/urusso/easyhttpclient/EasyHttpClient.java:277 | a character's UTF-8 encoding is one to four bytes, and one byte exactly for ASCII |
| ParamCodec.Utf8Decodes | src/main/java/io/github/urusso/easyhttpclient/EasyHttpClient.java:277 | decoding the UTF-8 bytes of a character gives back its code point |
| ParamCodec.EncodeIsPercentEncode | src/main/java/io/github/urusso/easyhttpclient/EasyHttpClient.java:276-278 | form encoding followed by replacing `+` with `%20` equals one encoder that writes a space as `%20` |
| ParamCodec.EncodeAlphabet | src/main/java/io/github/urusso/easyhttpclient/EasyHttpClient.java:276-278 | `encode` outputs only letters, digits, `. - * _` and `%` |
| ParamCodec.FormEncodeAlphabet | src/main/java/org/urusso/EasyHttpClient.java:113 | `URLEncoder.encode` outputs only letters, digits, `. - * _`, `%` and `+` |
| ParamCodec.EncodedHasNoDelimiters | src/main/java/io/github/urusso/easyhttpclient/EasyHttpClient.java:195 | neither encoder outputs `{ } ? & = #` or a space, and `encode` outputs no `+` |
| ParamCodec.EncodingsAgreeWithoutSpaces | src/main/java/io/github/urusso/easyhttpclient/EasyHttpClient.java:276-278 | on a value without spaces, `encode` equals `URLEncoder.encode` |
| ParamCodec.EncodeRoundTrip | src/main/java/io/github/urusso/easyhttpclient/EasyHttpClient.java:276-278 | form decoding the output of either encoder gives back exactly the UTF-8 bytes of the input |
| ParamCodec.SpaceEncodings | src/main/java/io/github/urusso/easyhttpclient/EasyHttpClient.java:277 | a space is `+` under `URLEncoder.encode` and `%20` under `encode` |
| ParamCodec.UnreservedUnchanged | src/main/java/io/github/urusso/easyhttpclient/EasyHttpClient.java:276-278 | letters, digits and `. - * _` pass through both encoders unchanged |
| ParamCodec.SpacedValue | src/main/java/io/github/urusso/easyhttpclient/EasyHttpClient.java:276-278 | `encode` writes a space between two unreserved words as `%20` |
| ParamCodec.SpacedValueForm | src/main/java/org/urusso/EasyHttpClient.java:113 | `URLEncoder.encode` writes a space between two unreserved words as `+` |
| ParamCodec.PathDecodeWithoutPlus | src/main/java/io/github/urusso/easyhttpclient/EasyHttpClient.java:195 | on text without `+`, path decoding and form decoding agree |
| ParamCodec.PathValueRoundTrip | src/main/java/io/github/urusso/easyhttpclient/EasyHttpClient.java:195 | a path value encoded by `encode` decodes, as a path segment, back to its UTF-8 bytes |
| ParamCodec.FormEncodedPathAltersSpace | src/main/java/org/urusso/EasyHttpClient.java:113 | a space that `URLEncoder.encode` puts into a path segment decodes as a plus sign |
| UrlAssembly.WithoutTrailingSlashes | src/main/java/io/github/urusso/easyhttpclient/EasyHttpClient.java:173-183 | the result is a prefix of the url that does not end in `/`, and only slashes were removed |
| UrlAssembly.TrailingSlashesUnique | src/main/java/io/github/urusso/easyhttpclient/EasyHttpClient.java:173-183 | these properties fix the prefix uniquely |
| UrlAssembly.SubstituteStep | src/main/java/io/github/urusso/easyhttpclient/EasyHttpClient.java:192-199 | one substitution step splits the url at the placeholder, which no piece then holds, and joins the pieces with the encoded value |
| UrlAssembly.SubstituteWithoutPlaceholders | src/main/java/io/github/urusso/easyhttpclient/EasyHttpClient.java:192-199 | a url that holds none of the entries' placeholders is unchanged |
| UrlAssembly.NoBraceNoSubstitution | src/main/java/io/github/urusso/easyhttpclient/EasyHttpClient.java:192-199 | a url without `{` is unchanged, whatever the parameters |
| UrlAssembly.SubstituteNeverAddsBraces | src/main/java/io/github/urusso/easyhttpclient/EasyHttpClient.java:192-199 | substitution never increases the number of `{` or `}` |
| UrlAssembly.SubstituteTwo | src/main/java/io/github/urusso/easyhttpclient/EasyHttpClient.java:193-196 | two entries are substituted in iteration order |
| UrlAssembly.QueryStringIsJoin | src/main/java/io/github/urusso/easyhttpclient/EasyHttpClient.java:208-223 | with parameters, the query text is `?` followed by the `key=encoded` pairs joined by `&` |
| UrlAssembly.QueryDelimiterCounts | src/main/java/io/github/urusso/easyhttpclient/EasyHttpClient.java:208-223 | without parameters the query text is empty; otherwise, for keys free of `?` and `&`, it holds exactly one `?` and one `&` fewer than there are parameters |
| UrlAssembly.QueryStringOfTwo | src/main/java/io/github/urusso/easyhttpclient/EasyHttpClient.java:212-220 | two parameters give `?k1=v1&k2=v2` |
| UrlAssembly.AddFragmentSpec | src/main/java/io/github/urusso/easyhttpclient/EasyHttpClient.java:159-165 | a null or blank fragment leaves the url unchanged; any other fragment appends one `#` and text that decodes back to the fragment |
| UrlAssembly.LeftoverBraceRejected | src/main/java/io/github/urusso/easyhttpclient/EasyHttpClient.java:149 | a placeholder with no entry makes the URI invalid |
| UrlAssembly.NoSchemeRejected | src/main/java/io/github/urusso/easyhttpclient/EasyHttpClient.java:149 | a url with no scheme is rejected |
| UrlAssembly.RelativeTemplateRejected | src/main/java/io/github/urusso/easyhttpclient/EasyHttpClient.java:143-150 | a template starting with `/` never gives an accepted URI |
| UrlAssembly.EncodedIsUriText | src/main/java/io/github/urusso/easyhttpclient/EasyHttpClient.java:276-278 | encoded text holds only URI-legal characters and well-formed escapes, and no `#` |
| UrlAssembly.QueryStringIsUriText | src/main/java/io/github/urusso/easyhttpclient/EasyHttpClient.java:208-223 | a query string whose keys are URI-legal and free of `#` is URI-legal and free of `#` |
| UrlAssembly.AssembledUrlAccepted | src/main/java/io/github/urusso/easyhttpclient/EasyHttpClient.java:143-150 | if the substituted path is an accepted URI without `#`, and the query keys are URI-legal and free of `#`, then the query and the fragment keep the url accepted |
| BodyHandler.ResponseHandlerFor | src/main/java/io/github/urusso/easyhttpclient/utils/EasyBodyHandler.java:24-38 | null or `Void` discards the body, `Path` reads into `response.tmp`, and every class without a built-in handler goes to the serializer |
| BodyHandler.BuiltInHandlersByExactClass | src/main/java/io/github/urusso/easyhttpclient/utils/EasyBodyHandler.java:27-32 | the String, byte[] and InputStream handlers are each chosen by exactly one class |
| BodyHandler.DecodeResponseBody | src/main/java/io/github/urusso/easyhttpclient/utils/EasyBodyHandler.java:63-77 | null or blank text is a null value and the serializer is not consulted; any other text goes to the serializer, and its failure becomes exactly a deserialization error carrying its message; every error is such a failure |
| BodyHandler.BlankBodyIgnoresSerializer | src/main/java/io/github/urusso/easyhttpclient/utils/EasyBodyHandler.java:68-71 | a blank response body decodes the same way with any serializer |
| BodyHandler.DecodedValueFromSerializer | src/main/java/io/github/urusso/easyhttpclient/utils/EasyBodyHandler.java:68-69 | a non-blank body decodes to exactly what the serializer returns |
| BodyHandler.SerializedPublisher | src/main/java/io/github/urusso/easyhttpclient/utils/EasyBodyHandler.java:79-86 | the body is the serialized text; a serializer failure becomes a serialization error |
| BodyHandler.RequestPublisher | src/main/java/io/github/urusso/easyhttpclient/utils/EasyBodyHandler.java:40-61 | a null body or null content gives no body; a null declared type is a NullPointerException; a Path body is published from its file when the file can be opened and fails with FileNotFound otherwise; a cast failure names the declared type; InputStream subtypes publish a stream |
| BodyHandler.BuiltInTypesIgnoreSerializer | src/main/java/io/github/urusso/easyhttpclient/utils/EasyBodyHandler.java:46-57 | for String, byte[], InputStream and Path declared types the serializer is never used |
| BodyHandler.OtherTypesUseSerializer | src/main/java/io/github/urusso/easyhttpclient/utils/EasyBodyHandler.java:58-60 | any other declared type is serialized, whatever the content is at run time |
| BodyHandler.OnlyPathsConsultFiles | src/main/java/io/github/urusso/easyhttpclient/utils/EasyBodyHandler.java:52-57 | the file system affects only Path bodies |
| BodyHandler.MatchingContentPublished | src/main/java/io/github/urusso/easyhttpclient/utils/EasyBodyHandler.java:46-51 | content that matches its String, byte[] or InputStream declared type is published as it is |
| BodyHandler.CastFailsOnMismatch | src/main/java/io/github/urusso/easyhttpclient/utils/EasyBodyHandler.java:46-61 | the casts of the String, byte[] and Path arms fail, naming the declared type, exactly when the content does not fit it; the serializer arm never fails with a cast |
| BodyHandler.PathBodyPublished | src/main/java/io/github/urusso/easyhttpclient/utils/EasyBodyHandler.java:52-57 | a Path body whose file can be opened is published from that file; otherwise conversion fails with FileNotFound naming the path |
| Request.NewRequest | src/main/java/io/github/urusso/easyhttpclient/EasyHttpRequest.java:19-34 | the request is built if and only if the url is neither null nor blank and the method is set; the url is checked first; the two exception messages; every field is copied |
| Request.BlankUrlsRefused | src/main/java/io/github/urusso/easyhttpclient/EasyHttpRequest.java:22-23 | a null, empty or whitespace-only url is refused, whatever else is set |
| Request.Builder.constructor | src/main/java/io/github/urusso/easyhttpclient/EasyHttpRequest.java:80-85 | the builder starts with empty maps and no method, fragment or body |
| Request.Builder.PathParam | src/main/java/io/github/urusso/easyhttpclient/EasyHttpRequest.java:87-90 | puts one path parameter; nothing else changes |
| Request.Builder.PathMap | src/main/java/io/github/urusso/easyhttpclient/EasyHttpRequest.java:92-95 | replaces the whole path map |
| Request.Builder.QueryParam | src/main/java/io/github/urusso/easyhttpclient/EasyHttpRequest.java:97-100 | puts one query parameter |
| Request.Builder.QueryMap | src/main/java/io/github/urusso/easyhttpclient/EasyHttpRequest.java:102-105 | replaces the whole query map |
| Request.Builder.Header | src/main/java/io/github/urusso/easyhttpclient/EasyHttpRequest.java:107-110 | puts one header |
| Request.Builder.HeaderMap | src/main/java/io/github/urusso/easyhttpclient/EasyHttpRequest.java:112-115 | replaces the whole header map |
| Request.Builder.UserAgent | src/main/java/io/github/urusso/easyhttpclient/EasyHttpRequest.java:117-120 | puts `User-Agent` |
| Request.Builder.Accept | src/main/java/io/github/urusso/easyhttpclient/EasyHttpRequest.java:122-125 | puts `Accept` |
| Request.Builder.AcceptLanguage | src/main/java/io/github/urusso/easyhttpclient/EasyHttpRequest.java:127-130 | puts `Accept-Language` |
| Request.Builder.AcceptEncoding | src/main/java/io/github/urusso/easyhttpclient/EasyHttpRequest.java:132-135 | puts `Accept-Encoding` |
| Request.Builder.Authorization | src/main/java/io/github/urusso/easyhttpclient/EasyHttpRequest.java:137-140 | puts `Authorization` |
| Request.Builder.ContentType | src/main/java/io/github/urusso/easyhttpclient/EasyHttpRequest.java:142-145 | puts `Content-Type` |
| Request.Builder.Cookie | src/main/java/io/github/urusso/easyhttpclient/EasyHttpRequest.java:147-150 | puts `Cookie` |
| Request.Builder.Referer | src/main/java/io/github/urusso/easyhttpclient/EasyHttpRequest.java:152-155 | puts `Referer` |
| Request.Builder.Origin | src/main/java/io/github/urusso/easyhttpclient/EasyHttpRequest.java:157-160 | puts `Origin` |
| Request.Builder.Fragment | src/main/java/io/github/urusso/easyhttpclient/EasyHttpRequest.java:162-165 | sets the fragment |
| Request.Builder.SetBody | src/main/java/io/github/urusso/easyhttpclient/EasyHttpRequest.java:167-170 | sets a new Body record, even when both of its parts are null |
| Request.Builder.MethodGet | src/main/java/io/github/urusso/easyhttpclient/EasyHttpRequest.java:172-175 | the method is GET; the last method setter called wins |
| Request.Builder.MethodPost | src/main/java/io/github/urusso/easyhttpclient/EasyHttpRequest.java:177-180 | the method is POST |
| Request.Builder.MethodPut | src/main/java/io/github/urusso/easyhttpclient/EasyHttpRequest.java:182-185 | the method is PUT |
| Request.Builder.MethodPatch | src/main/java/io/github/urusso/easyhttpclient/EasyHttpRequest.java:187-190 | the method is PATCH |
| Request.Builder.MethodDelete | src/main/java/io/github/urusso/easyhttpclient/EasyHttpRequest.java:192-195 | the method is DELETE |
| Request.Builder.MethodHead | src/main/java/io/github/urusso/easyhttpclient/EasyHttpRequest.java:197-200 | the method is HEAD |
| Request.Builder.Build | src/main/java/io/github/urusso/easyhttpclient/EasyHttpRequest.java:202-204 | build passes the builder's fields, whose maps have unique keys, to the validating constructor |
| Request.NoMethodScenario | src/test/java/io/github/urusso/easyhttpclient/EasyHttpClientTest.java:235-238 | a builder with no method is refused with "HttpMethod can't be null" |
| Request.ConvenienceHeadersScenario | src/main/java/io/github/urusso/easyhttpclient/EasyHttpRequest.java:107-140 | convenience setters and `header` write one map: after five writes to three names it holds three entries, and each name reads its last value (`Authorization` is `token`, `X-Trace` is `2`) |
| Client.RemoveEndSlashes | src/main/java/io/github/urusso/easyhttpclient/EasyHttpClient.java:173-183 | the loop computes `WithoutTrailingSlashes` |
| Client.ReplacePathParams | src/main/java/io/github/urusso/easyhttpclient/EasyHttpClient.java:192-199 | the loop computes `SubstitutePathParams` with `encode` |
| Client.AddQueryParams | src/main/java/io/github/urusso/easyhttpclient/EasyHttpClient.java:208-223 | the loop appends `QueryString` with `encode` |
| Client.CreateUri | src/main/java/io/github/urusso/easyhttpclient/EasyHttpClient.java:149 | `URI.create` accepts the url exactly when it satisfies `AcceptedRequestUri`; otherwise it throws, carrying the url |
| Client.GetUri | src/main/java/io/github/urusso/easyhttpclient/EasyHttpClient.java:143-150 | trim, path, query, fragment, then the URI check: the result is `CreateUri(AssembleUrl(...))` |
| Client.SetHeaders | src/main/java/io/github/urusso/easyhttpclient/EasyHttpClient.java:262-266 | every header is added, in iteration order, after those already present |
| Client.SentBody | src/main/java/io/github/urusso/easyhttpclient/EasyHttpClient.java:234-253 | POST, PUT and PATCH send the publisher; the other methods send none, or an empty one |
| Client.Convert | src/main/java/io/github/urusso/easyhttpclient/EasyHttpClient.java:122-135 | the conversion succeeds if and only if the URI is accepted and a publisher exists; a rejected URI is MalformedUri and is checked first; on success the uri, headers and method name are as given |
| Client.ConvertAccepted | src/main/java/io/github/urusso/easyhttpclient/EasyHttpClient.java:122-135 | an accepted URI and a publisher give the request the method-to-body rule prescribes |
| Client.MethodBodyRule | src/main/java/io/github/urusso/easyhttpclient/EasyHttpClient.java:234-253 | GET and DELETE send no publisher and HEAD sends an empty one; POST, PUT and PATCH send the request's publisher; PATCH goes through `method("PATCH", ...)` |
| Client.BodyErrorsSurfaceForEveryMethod | src/main/java/io/github/urusso/easyhttpclient/EasyHttpClient.java:231-232 | the publisher is computed before the method is looked at, so a body error fails GET, DELETE and HEAD too |
| Client.FailureIndependentOfMethod | src/main/java/io/github/urusso/easyhttpclient/EasyHttpClient.java:122-135 | changing only the method never changes whether the conversion fails, or how |
| Client.EasyHttpClient.SetHttpMethod | src/main/java/io/github/urusso/easyhttpclient/EasyHttpClient.java:231-254 | a publisher failure leaves the builder unchanged; otherwise one builder call sets the method name and `SentBody` |
| Client.EasyHttpClient.ConvertRequest | src/main/java/io/github/urusso/easyhttpclient/EasyHttpClient.java:122-135 | the step-by-step builder calls produce exactly `Convert` |
| Client.EasyHttpClient.PrepareSend | src/main/java/io/github/urusso/easyhttpclient/EasyHttpClient.java:82-91 | the request is converted before the response handler is chosen, and a conversion error propagates |
| Client.ClientBuilder.SetSerializer | src/main/java/io/github/urusso/easyhttpclient/EasyHttpClient.java:301-304 | `serializer(...)` stores the given serializer, null included, and changes nothing else in the builder |
| Client.ClientBuilder.Build | src/main/java/io/github/urusso/easyhttpclient/EasyHttpClient.java:351-356 | a null serializer is replaced by the default one, in the builder too; a given serializer is kept |
| Client.UsersScenario | src/test/java/io/github/urusso/easyhttpclient/EasyHttpClientTest.java:42-79 | `<base>/users/{user}` with one path parameter and one query parameter converts, for every method, to `<base>/users/<user>?findDeleted=<flag>` with the headers as given |
| Client.CountriesScenario | src/test/java/io/github/urusso/easyhttpclient/EasyHttpClientTest.java:82-121 | two trailing slashes are trimmed and two placeholders substituted, two query parameters are appended, and PATCH sends the serialized body; the test's header map is left empty, since headers are copied unchanged (`Client.Convert`) |
| Client.FragmentScenario | src/test/java/io/github/urusso/easyhttpclient/EasyHttpClientTest.java:142-158 | the test's url and its fragment with a space: the fragment is appended as `#a%20b` and the url is accepted; the scenario sends GET without headers or body, since neither changes the url |
| Client.RelativeTemplateScenario | src/test/java/io/github/urusso/easyhttpclient/EasyHttpClientTest.java:180-190 | the test's PATCH request on the template `/test`, with its path, query and header maps and its string body, fails with MalformedUri whatever the serializer and the file system |
| LegacyRequest.NewLegacyRequest | src/main/java/org/urusso/EasyHttpRequest.java:16-30 | the older request checks the same two conditions in the same order, with the same messages |
| LegacyRequest.ValidationAgrees | src/main/java/org/urusso/EasyHttpRequest.java:19-22 | both request classes refuse exactly the same builders, with the same errors |
| LegacyRequest.Builder.constructor | src/main/java/org/urusso/EasyHttpRequest.java:66-73 | the builder starts with empty maps, no method and the JSON body `{}` |
| LegacyRequest.Builder.PathParam | src/main/java/org/urusso/EasyHttpRequest.java:75-78 | puts one path parameter |
| LegacyRequest.Builder.PathMap | src/main/java/org/urusso/EasyHttpRequest.java:80-83 | replaces the path map |
| LegacyRequest.Builder.QueryParam | src/main/java/org/urusso/EasyHttpRequest.java:85-88 | puts one query parameter |
| LegacyRequest.Builder.QueryMap | src/main/java/org/urusso/EasyHttpRequest.java:90-93 | replaces the query map |
| LegacyRequest.Builder.Header | src/main/java/org/urusso/EasyHttpRequest.java:95-98 | puts one header |
| LegacyRequest.Builder.HeaderMap | src/main/java/org/urusso/EasyHttpRequest.java:100-103 | replaces the header map |
| LegacyRequest.Builder.JsonBody | src/main/java/org/urusso/EasyHttpRequest.java:105-108 | replaces the JSON text; null is allowed |
| LegacyRequest.Builder.MethodGet | src/main/java/org/urusso/EasyHttpRequest.java:110-113 | the method is GET |
| LegacyRequest.Builder.MethodPost | src/main/java/org/urusso/EasyHttpRequest.java:115-118 | the method is POST |
| LegacyRequest.Builder.MethodPut | src/main/java/org/urusso/EasyHttpRequest.java:120-123 | the method is PUT |
| LegacyRequest.Builder.MethodPatch | src/main/java/org/urusso/EasyHttpRequest.java:125-128 | the method is PATCH |
| LegacyRequest.Builder.MethodDelete | src/main/java/org/urusso/EasyHttpRequest.java:130-133 | the method is DELETE |
| LegacyRequest.Builder.MethodHead | src/main/java/org/urusso/EasyHttpRequest.java:135-138 | the method is HEAD |
| LegacyRequest.Builder.Build | src/main/java/org/urusso/EasyHttpRequest.java:140-142 | build passes the builder's fields, whose maps have unique keys, to the validating constructor |
| LegacyRequest.DefaultBodyScenario | src/main/java/org/urusso/EasyHttpRequest.java:66 | a POST built without a `jsonBody` call carries `{}` |
| LegacyClient.ReplacePathParams | src/main/java/org/urusso/EasyHttpClient.java:110-117 | the loop computes `SubstitutePathParams` with `URLEncoder.encode` |
| LegacyClient.AddQueryParams | src/main/java/org/urusso/EasyHttpClient.java:126-141 | the loop appends `QueryString` with `URLEncoder.encode` |
| LegacyClient.GetUri | src/main/java/org/urusso/EasyHttpClient.java:77-83 | trim, path, query, then the URI check; there is no fragment |
| LegacyClient.SubstitutionAgreesWithoutSpaces | src/main/java/org/urusso/EasyHttpClient.java:110-117 | without spaces in any value, both clients substitute the same path |
| LegacyClient.QueryStringAgreesWithoutSpaces | src/main/java/org/urusso/EasyHttpClient.java:126-141 | without spaces in any value, both clients append the same query |
| LegacyClient.UrlsAgreeWithoutSpaces | src/main/java/org/urusso/EasyHttpClient.java:77-83 | without spaces and without a fragment, both clients build the same url |
| LegacyClient.SpacedQueryValue | src/main/java/org/urusso/EasyHttpClient.java:136 | a spaced query value is `a+b` in the older client and `a%20b` in the newer one |
| LegacyClient.SpacedPathValue | src/main/java/org/urusso/EasyHttpClient.java:113 | a spaced path value is `a+b` in the older client and `a%20b` in the newer one |
| LegacyClient.LegacyConvert | src/main/java/org/urusso/EasyHttpClient.java:61-69 | the conversion succeeds if and only if the URI is accepted and no body-carrying method has a null body; the URI exception comes first and is not wrapped; POST, PUT and PATCH send the JSON text; GET and DELETE send no body and HEAD an empty one |
| LegacyClient.DefaultBodySent | src/main/java/org/urusso/EasyHttpRequest.java:66 | with the default body, POST, PUT and PATCH send `{}` |
| LegacyClient.ConversionsAgree | src/main/java/org/urusso/EasyHttpClient.java:61-69 | whatever the older client converts (without spaces), the newer client converts a request with the same fields and no body to the same uri, method name and headers |
| LegacyClient.LegacyEasyHttpClient.SetHttpMethod | src/main/java/org/urusso/EasyHttpClient.java:149-170 | a null body for POST, PUT or PATCH fails before the builder is touched; otherwise one builder call sets the method name and the JSON text body |
| LegacyClient.LegacyEasyHttpClient.ConvertRequest | src/main/java/org/urusso/EasyHttpClient.java:61-69 | the step-by-step builder calls, including the shared `setHeaders`, produce exactly `LegacyConvert` |

## Left out

- Transport. `HttpClient.send` and `sendAsync`, `HttpCallException`, timeouts, redirects, proxies, SSL, authenticator, executor and cookies are not modelled. So are the logging of the older `sendAsync` and the async `CompletableFuture`s. Only the conversion before sending is modelled, and `PrepareSend` stops where the transport starts.
- Client configuration. `ClientBuilder` keeps only the serializer, because the other knobs are passed to `HttpClient` unchanged.
- Jackson. `EasyJacksonSerializer` is a parameter: a `Serializer` value with serialize and deserialize functions that may fail or return null.
- The file system. Whether a Path body is readable is the parameter `readable`.
- The response body handlers. They are modelled as which handler is chosen, and what the Jackson mapping does with the body text; no bytes are read.
- The InputStream body cast. It is lazy (it runs inside the supplier when the body is sent), so a wrong content class is not an error at conversion time.
- BodyHandler.RequestPublisher: for Path bodies, `ofFile` also throws when the path is a directory. The model knows only `readable`, so that case is folded into FileNotFound.
- Client.CreateUri: what `URI.create` accepts is approximated. A url is accepted if it has the scheme http or https (any case) and a non-empty authority, contains no character java.net.URI always rejects, has well-formed `%` escapes and has at most one `#`. The full RFC 2396 grammar, hosts, ports, and `HttpRequest.Builder.uri`'s other checks are not modelled.
- Client.SetHeaders: `HttpRequest.Builder.header` refuses restricted headers such as `Host` or `Connection` and malformed names. Those checks, and the exception that escapes `convertRequest` unwrapped, are not modelled.
- EntryMaps.Put: a new key is appended at the end, as a stand-in for the hash order of `HashMap`, so the order of the headers and the query and path parameters after `put` calls is not the order the program uses. Lookups and sizes are the program's; the scenarios state only those.
- Java maps. A map is a sequence of entries whose order stands for the `HashMap` iteration order, which the source does not fix. A map passed to `pathMap`, `queryMap` or `headerMap` is taken as a value: later changes to the caller's map (aliasing) and null keys or values are not modelled. Those setters require unique keys, as any Java map has.
- Null arguments to setters, such as `pathParam(null, ...)`, are not modelled.
- The older request uses an `HttpMethod` enum that is not part of this model. `Request.HttpMethod`, with the same six constants, stands in for it.
- Characters are Unicode scalar values. Java strings are UTF-16, and unpaired surrogates (which `URLEncoder` replaces by `?`) are not modelled.

## Findings

| source | as written | input that shows it | evidently intended | confidence | as-written member | corrected member |
|---|---|---|---|---|---|---|
| src/main/java/org/urusso/EasyHttpClient.java:113 | path values go through `URLEncoder.encode`, a form encoder that writes a space as `+` | a path parameter whose value holds a space, such as `" "` or `test 2`: the path gets `+`, which a server reads as a plus sign in a path segment | a space in a path value travels as `%20` and comes back as a space, as the newer client does with `.replace("+", "%20")` at src/main/java/io/github/urusso/easyhttpclient/EasyHttpClient.java:277 | high; not executed | ParamCodec.FormEncodedPathAltersSpace | ParamCodec.PathValueRoundTrip |
