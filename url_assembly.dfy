/** The string transforms that turn a url template into the request URI, in the order the
    client applies them: drop trailing slashes, substitute `{key}` placeholders, append the
    query string, append the fragment. Both clients share these definitions; they differ in
    the encoder (see ParamCodec.Encoding) and in whether a fragment is appended. */
module UrlAssembly {
  import opened Base
  import opened JavaText
  import opened EntryMaps
  import opened ParamCodec

  // ---------------------------------------------------------------------------------------
  // Step 1: trailing slashes

  /** `removeEndSlashes`: the longest prefix of url that does not end in `/`; only the
      trailing run of slashes goes, and an all-slash url becomes empty. */
  function WithoutTrailingSlashes(url: string): (r: string)
    ensures r <= url
    ensures r == [] || r[|r| - 1] != '/'
    ensures forall i :: |r| <= i < |url| ==> url[i] == '/'
    decreases |url|
  {
    if url != [] && url[|url| - 1] == '/' then WithoutTrailingSlashes(url[..|url| - 1]) else url
  }

  /** The three properties of WithoutTrailingSlashes pin down one prefix. */
  lemma TrailingSlashesUnique(url: string, k: int)
    requires 0 <= k <= |url|
    requires k == 0 || url[k - 1] != '/'
    requires forall i :: k <= i < |url| ==> url[i] == '/'
    ensures url[..k] == WithoutTrailingSlashes(url)
  {
    var r := WithoutTrailingSlashes(url);
    assert k == 0 || url[k - 1] != '/';
    assert r == [] || url[|r| - 1] == r[|r| - 1] != '/';
    assert |r| == k;
  }

  // ---------------------------------------------------------------------------------------
  // Step 2: path parameters

  function Placeholder(key: string): (p: string)
    ensures |p| >= 2 && p[0] == '{' && p[|p| - 1] == '}'
  {
    "{" + key + "}"
  }

  /** `replacePathParams`: for each entry in iteration order, every `{key}` is replaced by
      the encoded value (Java's `String.replace`, left to right, non-overlapping). */
  function SubstitutePathParams(url: string, params: seq<Entry>, e: Encoding): string
    decreases |params|
  {
    if params == [] then url
    else SubstitutePathParams(ReplaceAll(url, Placeholder(params[0].key), EncodeWith(e, params[0].value)), params[1..], e)
  }

  /** Two path parameters: the first placeholder is replaced, then the second. */
  lemma SubstituteTwo(url: string, a: Entry, b: Entry, e: Encoding)
    ensures SubstitutePathParams(url, [a, b], e)
         == ReplaceAll(ReplaceAll(url, Placeholder(a.key), EncodeWith(e, a.value)), Placeholder(b.key), EncodeWith(e, b.value))
  {
    var first := ReplaceAll(url, Placeholder(a.key), EncodeWith(e, a.value));
    assert [a, b][1..] == [b];
    assert [b][1..] == [];
    assert SubstitutePathParams(url, [a, b], e) == SubstitutePathParams(first, [b], e);
    assert SubstitutePathParams(first, [b], e)
        == SubstitutePathParams(ReplaceAll(first, Placeholder(b.key), EncodeWith(e, b.value)), [], e);
  }

  /** Two path parameters with unreserved values: the values go in as they are. */
  lemma SubstituteTwoUnreserved(url: string, key1: string, value1: string, key2: string, value2: string)
    requires UnreservedText(value1) && UnreservedText(value2)
    ensures SubstitutePathParams(url, [Entry(key1, value1), Entry(key2, value2)], PercentSpaces)
         == ReplaceAll(ReplaceAll(url, Placeholder(key1), value1), Placeholder(key2), value2)
  {
    SubstituteTwo(url, Entry(key1, value1), Entry(key2, value2), PercentSpaces);
    UnreservedUnchanged(PercentSpaces, value1);
    UnreservedUnchanged(PercentSpaces, value2);
  }

  /** One substitution step: the url is cut at the non-overlapping occurrences of the first
      placeholder, no piece holds that placeholder, the pieces are re-joined around the
      encoded value and the remaining entries are applied to the result. */
  lemma SubstituteStep(url: string, params: seq<Entry>, e: Encoding)
    requires params != []
    ensures var placeholder := Placeholder(params[0].key);
      var pieces := Split(url, placeholder);
      && Join(pieces, placeholder) == url
      && (forall p :: p in pieces ==> !Contains(p, placeholder))
      && SubstitutePathParams(url, params, e)
         == SubstitutePathParams(Join(pieces, EncodeWith(e, params[0].value)), params[1..], e)
  {
    ReplaceAllCharacterized(url, Placeholder(params[0].key), EncodeWith(e, params[0].value));
  }

  /** A url in which no entry's placeholder occurs comes back unchanged; with an empty map
      in particular. */
  lemma {:induction false} SubstituteWithoutPlaceholders(url: string, params: seq<Entry>, e: Encoding)
    requires forall i :: 0 <= i < |params| ==> !Contains(url, Placeholder(params[i].key))
    ensures SubstitutePathParams(url, params, e) == url
    decreases |params|
  {
    if params != [] {
      ReplaceAllAbsent(url, Placeholder(params[0].key), EncodeWith(e, params[0].value));
      SubstituteWithoutPlaceholders(url, params[1..], e);
    }
  }

  /** A url without `{` has nothing to substitute. */
  lemma NoBraceNoSubstitution(url: string, params: seq<Entry>, e: Encoding)
    requires forall i :: 0 <= i < |url| ==> url[i] != '{'
    ensures SubstitutePathParams(url, params, e) == url
  {
    forall i | 0 <= i < |params|
      ensures !Contains(url, Placeholder(params[i].key))
    {
      LacksFirstChar(url, Placeholder(params[i].key));
    }
    SubstituteWithoutPlaceholders(url, params, e);
  }

  /** Encoded values carry no braces, so substitution never adds a `{` or a `}`: it cannot
      create a placeholder out of a value. */
  lemma {:induction false} SubstituteNeverAddsBraces(url: string, params: seq<Entry>, e: Encoding, brace: char)
    requires brace == '{' || brace == '}'
    ensures CountChar(SubstitutePathParams(url, params, e), brace) <= CountChar(url, brace)
    decreases |params|
  {
    if params != [] {
      var value := EncodeWith(e, params[0].value);
      EncodedHasNoDelimiters(e, params[0].value);
      CountCharZero(value, brace);
      ReplaceAllKeepsCharCount(url, Placeholder(params[0].key), value, brace);
      SubstituteNeverAddsBraces(ReplaceAll(url, Placeholder(params[0].key), value), params[1..], e, brace);
    }
  }

  // ---------------------------------------------------------------------------------------
  // Step 3: query parameters

  function QueryPair(entry: Entry, e: Encoding): string
  {
    entry.key + "=" + EncodeWith(e, entry.value)
  }

  /** The text `addQueryParams` appends: `?` before the first pair, `&` before each later
      one, keys as they are, values encoded. */
  function QueryString(params: seq<Entry>, e: Encoding): string
    decreases |params|
  {
    if params == [] then ""
    else
      var n := |params|;
      QueryString(params[..n - 1], e) + (if n == 1 then "?" else "&") + QueryPair(params[n - 1], e)
  }

  /** One more parameter: the query text grows by its separator and its pair. */
  lemma QueryStringSnoc(params: seq<Entry>, i: int, e: Encoding)
    requires 0 <= i < |params|
    ensures QueryString(params[..i + 1], e)
         == QueryString(params[..i], e) + ((if i == 0 then "?" else "&") + QueryPair(params[i], e))
  {
    assert params[..i + 1][..i] == params[..i];
    assert params[..i + 1][i] == params[i];
  }

  /** A value made of unreserved characters is appended as it is. */
  lemma UnreservedPair(key: string, value: string, e: Encoding)
    requires forall i :: 0 <= i < |value| ==> Unreserved(value[i])
    ensures QueryPair(Entry(key, value), e) == key + "=" + value
  {
    UnreservedUnchanged(e, value);
  }

  /** One query parameter: `?` and the pair. */
  lemma QueryStringOfOne(a: Entry, e: Encoding)
    ensures QueryString([a], e) == "?" + QueryPair(a, e)
  {
    assert [a][..0] == [];
  }

  /** Two query parameters: `?`, the first pair, `&`, the second pair. */
  lemma QueryStringOfTwo(a: Entry, b: Entry, e: Encoding)
    ensures QueryString([a, b], e) == "?" + QueryPair(a, e) + "&" + QueryPair(b, e)
  {
    var params := [a, b];
    assert params[..1] == [a];
    assert QueryString(params, e) == QueryString([a], e) + "&" + QueryPair(b, e);
    QueryStringOfOne(a, e);
  }

  function QueryPairs(params: seq<Entry>, e: Encoding): (pairs: seq<string>)
    ensures |pairs| == |params|
    ensures forall i :: 0 <= i < |params| ==> pairs[i] == QueryPair(params[i], e)
  {
    if params == [] then [] else [QueryPair(params[0], e)] + QueryPairs(params[1..], e)
  }

  lemma {:induction false} JoinAppend(pieces: seq<string>, last: string, sep: string)
    requires |pieces| >= 1
    ensures Join(pieces + [last], sep) == Join(pieces, sep) + sep + last
    decreases |pieces|
  {
    if |pieces| > 1 {
      assert (pieces + [last])[1..] == pieces[1..] + [last];
      JoinAppend(pieces[1..], last, sep);
    } else {
      assert (pieces + [last])[1..] == [last];
    }
  }

  lemma QueryPairsSnoc(params: seq<Entry>, e: Encoding)
    requires params != []
    ensures QueryPairs(params, e) == QueryPairs(params[..|params| - 1], e) + [QueryPair(params[|params| - 1], e)]
  {
  }

  lemma ConcatAssoc(a: string, b: string, c: string, d: string)
    ensures (a + b) + c + d == a + (b + c + d)
  {
  }

  /** A non-empty query string is `?` followed by the pairs, in iteration order, joined by `&`. */
  lemma {:induction false} QueryStringIsJoin(params: seq<Entry>, e: Encoding)
    requires params != []
    ensures QueryString(params, e) == "?" + Join(QueryPairs(params, e), "&")
    decreases |params|
  {
    var n := |params|;
    var init := params[..n - 1];
    var last := QueryPair(params[n - 1], e);
    QueryPairsSnoc(params, e);
    if n > 1 {
      var front := QueryPairs(init, e);
      QueryStringIsJoin(init, e);
      JoinAppend(front, last, "&");
      assert QueryString(params, e) == QueryString(init, e) + "&" + last;
      ConcatAssoc("?", Join(front, "&"), "&", last);
    } else {
      assert QueryPairs(params, e) == [last];
      assert QueryString(params, e) == "" + "?" + last;
    }
  }

  /** When no key holds `?` or `&`, the query string of n >= 1 entries holds exactly one `?`
      and n - 1 `&` (encoded values hold neither). */
  lemma {:induction false} QueryDelimiterCounts(params: seq<Entry>, e: Encoding)
    requires forall i :: 0 <= i < |params| ==> CountChar(params[i].key, '?') == 0 && CountChar(params[i].key, '&') == 0
    ensures params == [] ==> QueryString(params, e) == ""
    ensures params != [] ==> CountChar(QueryString(params, e), '?') == 1
    ensures params != [] ==> CountChar(QueryString(params, e), '&') == |params| - 1
    decreases |params|
  {
    var n := |params|;
    if n > 0 {
      var last := params[n - 1];
      QueryDelimiterCounts(params[..n - 1], e);
      PairHasNoDelimiters(last, e);
      var sep := if n == 1 then "?" else "&";
      CountCharConcat(QueryString(params[..n - 1], e), sep, '?');
      CountCharConcat(QueryString(params[..n - 1], e) + sep, QueryPair(last, e), '?');
      CountCharConcat(QueryString(params[..n - 1], e), sep, '&');
      CountCharConcat(QueryString(params[..n - 1], e) + sep, QueryPair(last, e), '&');
    }
  }

  lemma PairHasNoDelimiters(entry: Entry, e: Encoding)
    requires CountChar(entry.key, '?') == 0 && CountChar(entry.key, '&') == 0
    ensures CountChar(QueryPair(entry, e), '?') == 0 && CountChar(QueryPair(entry, e), '&') == 0
  {
    var value := EncodeWith(e, entry.value);
    EncodedHasNoDelimiters(e, entry.value);
    CountCharZero(value, '?');
    CountCharZero(value, '&');
    CountCharConcat(entry.key, "=", '?');
    CountCharConcat(entry.key + "=", value, '?');
    CountCharConcat(entry.key, "=", '&');
    CountCharConcat(entry.key + "=", value, '&');
  }

  // ---------------------------------------------------------------------------------------
  // Step 4: fragment

  /** `addFragment`: nothing for a null or blank fragment, otherwise `#` and the encoded fragment. */
  function AddFragment(url: string, fragment: Option<string>): string
  {
    if !NullOrBlank(fragment) then url + "#" + Encode(fragment.value) else url
  }

  /** A null or blank fragment leaves the url as it is; any other fragment appends a single
      `#` and text without `#` that decodes back to the fragment's UTF-8 bytes. */
  lemma AddFragmentSpec(url: string, fragment: Option<string>)
    ensures NullOrBlank(fragment) ==> AddFragment(url, fragment) == url
    ensures !NullOrBlank(fragment) ==>
      var r := AddFragment(url, fragment);
      && |r| > |url| && r[..|url|] == url && r[|url|] == '#'
      && CountChar(r[|url| + 1..], '#') == 0
      && FormDecode(r[|url| + 1..]) == Some(Utf8Of(fragment.value))
  {
    if !NullOrBlank(fragment) {
      var r := AddFragment(url, fragment);
      assert r[|url| + 1..] == Encode(fragment.value);
      EncodedHasNoDelimiters(PercentSpaces, fragment.value);
      CountCharZero(Encode(fragment.value), '#');
      EncodeRoundTrip(PercentSpaces, fragment.value);
    }
  }

  // ---------------------------------------------------------------------------------------
  // The whole pipeline and the URI check

  /** The string `getUri` hands to `URI.create`: trim, then path, then query, then fragment. */
  function AssembleUrl(template: string, pathParams: seq<Entry>, queryParams: seq<Entry>, fragment: Option<string>): string
  {
    var trimmed := WithoutTrailingSlashes(template);
    var substituted := SubstitutePathParams(trimmed, pathParams, PercentSpaces);
    AddFragment(substituted + QueryString(queryParams, PercentSpaces), fragment)
  }

  function LowerAscii(c: char): char
  {
    if 'A' <= c <= 'Z' then (c as int + 32) as char else c
  }

  /** s starts with the lower-case prefix, ignoring the case of ASCII letters. */
  predicate StartsWithIgnoringCase(s: string, prefix: string)
  {
    |s| >= |prefix| && forall i :: 0 <= i < |prefix| ==> LowerAscii(s[i]) == prefix[i]
  }

  /** Characters java.net.URI never accepts unescaped: ASCII controls, space, `" < > \ ^ ` { | }`. */
  predicate IllegalUriChar(c: char)
  {
    c as int < 0x20 || c as int == 0x7F
    || c == ' ' || c == '"' || c == '<' || c == '>' || c == '\\' || c == '^' || c == '`'
    || c == '{' || c == '|' || c == '}'
  }

  /** Every `%` starts a two-hex-digit escape. */
  predicate WellFormedEscapes(s: string)
  {
    forall i :: 0 <= i < |s| && s[i] == '%' ==> i + 2 < |s| && IsHexDigit(s[i + 1]) && IsHexDigit(s[i + 2])
  }

  /** What `URI.create` followed by `HttpRequest.Builder.uri` accepts: an absolute URI with
      scheme http or https (any case), an authority that is not empty, no illegal character,
      well-formed escapes and at most one `#`. */
  predicate AcceptedRequestUri(s: string)
  {
    var schemeEnd := if StartsWithIgnoringCase(s, "http://") then 7
                     else if StartsWithIgnoringCase(s, "https://") then 8
                     else 0;
    && schemeEnd > 0
    && schemeEnd < |s| && s[schemeEnd] != '/' && s[schemeEnd] != '?' && s[schemeEnd] != '#'
    && (forall i :: 0 <= i < |s| ==> !IllegalUriChar(s[i]))
    && WellFormedEscapes(s)
    && CountChar(s, '#') <= 1
  }

  /** A placeholder left in the assembled url (no entry matched it) makes the URI invalid. */
  lemma LeftoverBraceRejected(s: string, i: int)
    requires 0 <= i < |s| && (s[i] == '{' || s[i] == '}')
    ensures !AcceptedRequestUri(s)
  {
    assert IllegalUriChar(s[i]);
  }

  /** A string that starts with `/`, `?` or `#`, or is empty, has no scheme and is rejected. */
  lemma NoSchemeRejected(s: string)
    requires s == [] || s[0] == '/' || s[0] == '?' || s[0] == '#'
    ensures !AcceptedRequestUri(s)
  {
    if s != [] {
      assert LowerAscii(s[0]) == s[0];
    }
  }

  /** Substitution keeps a first character that cannot open a placeholder. */
  lemma {:induction false} SubstituteKeepsFirstChar(url: string, params: seq<Entry>, e: Encoding)
    requires url != [] && url[0] != '{'
    ensures SubstitutePathParams(url, params, e) != []
    ensures SubstitutePathParams(url, params, e)[0] == url[0]
    decreases |params|
  {
    if params != [] {
      var placeholder := Placeholder(params[0].key);
      var value := EncodeWith(e, params[0].value);
      assert [url[0]] + url[1..] == url;
      ReplaceAllSkipsPrefix([url[0]], url[1..], placeholder, value);
      SubstituteKeepsFirstChar(ReplaceAll(url, placeholder, value), params[1..], e);
    }
  }

  /** A relative template such as `/test` never becomes an absolute http(s) URI, whatever the
      parameters and the fragment. */
  lemma RelativeTemplateRejected(template: string, pathParams: seq<Entry>, queryParams: seq<Entry>, fragment: Option<string>)
    requires template != [] && template[0] == '/'
    ensures !AcceptedRequestUri(AssembleUrl(template, pathParams, queryParams, fragment))
  {
    var trimmed := WithoutTrailingSlashes(template);
    var substituted := SubstitutePathParams(trimmed, pathParams, PercentSpaces);
    var query := QueryString(queryParams, PercentSpaces);
    var u := AssembleUrl(template, pathParams, queryParams, fragment);
    assert substituted + query <= u;
    if trimmed != [] {
      assert trimmed[0] == template[0];
      SubstituteKeepsFirstChar(trimmed, pathParams, PercentSpaces);
      assert u[0] == substituted[0];
    } else {
      NoBraceNoSubstitution(trimmed, pathParams, PercentSpaces);
      if queryParams != [] {
        QueryStringIsJoin(queryParams, PercentSpaces);
        assert u[0] == query[0] == '?';
      } else if !NullOrBlank(fragment) {
        assert u[0] == '#';
      } else {
        assert u == [];
      }
    }
    NoSchemeRejected(u);
  }

  /** Text that may appear after the authority of an accepted URI: no illegal character and
      well-formed escapes. */
  predicate UriText(t: string)
  {
    (forall i :: 0 <= i < |t| ==> !IllegalUriChar(t[i])) && WellFormedEscapes(t)
  }

  lemma UriTextConcat(a: string, b: string)
    requires UriText(a) && UriText(b)
    ensures UriText(a + b)
  {
    var s := a + b;
    forall i | 0 <= i < |s| && s[i] == '%'
      ensures i + 2 < |s| && IsHexDigit(s[i + 1]) && IsHexDigit(s[i + 2])
    {
      if i < |a| {
        assert a[i] == '%';
        assert s[i + 1] == a[i + 1] && s[i + 2] == a[i + 2];
      } else {
        assert b[i - |a|] == '%';
        assert s[i + 1] == b[i + 1 - |a|] && s[i + 2] == b[i + 2 - |a|];
      }
    }
    assert forall i :: 0 <= i < |s| ==> s[i] == if i < |a| then a[i] else b[i - |a|];
  }

  /** Text the form decoder accepts has well-formed escapes. */
  lemma {:induction false} DecodableHasWellFormedEscapes(t: string)
    requires FormDecode(t).Some?
    ensures WellFormedEscapes(t)
    decreases |t|
  {
    if t != [] {
      var k := if t[0] == '%' then 3 else 1;
      DecodableHasWellFormedEscapes(t[k..]);
      forall i | 0 <= i < |t| && t[i] == '%'
        ensures i + 2 < |t| && IsHexDigit(t[i + 1]) && IsHexDigit(t[i + 2])
      {
        if i >= k {
          assert t[k..][i - k] == '%';
          assert t[i + 1] == t[k..][i + 1 - k] && t[i + 2] == t[k..][i + 2 - k];
        }
      }
    }
  }

  /** Whatever the value, its encoding is URI text without `#`: the encoder makes every value
      safe to put into a URI. */
  lemma EncodedIsUriText(e: Encoding, s: string)
    ensures UriText(EncodeWith(e, s))
    ensures CountChar(EncodeWith(e, s), '#') == 0
  {
    var t := EncodeWith(e, s);
    EncodeRoundTrip(e, s);
    DecodableHasWellFormedEscapes(t);
    EncodedHasNoDelimiters(e, s);
    CountCharZero(t, '#');
    if e == PercentSpaces {
      EncodeAlphabet(s);
    } else {
      FormEncodeAlphabet(s);
    }
    assert forall i :: 0 <= i < |t| ==> FormEncodedChar(t[i]);
  }

  /** Appending URI text to an accepted URI keeps it accepted while at most one `#` results. */
  lemma AcceptedAppend(a: string, b: string)
    requires AcceptedRequestUri(a)
    requires UriText(b)
    requires CountChar(a + b, '#') <= 1
    ensures AcceptedRequestUri(a + b)
  {
    var s := a + b;
    assert forall i :: 0 <= i < |a| ==> s[i] == a[i];
    assert StartsWithIgnoringCase(s, "http://") <==> StartsWithIgnoringCase(a, "http://");
    assert StartsWithIgnoringCase(s, "https://") <==> StartsWithIgnoringCase(a, "https://");
    assert UriText(a);
    UriTextConcat(a, b);
  }

  /** A query pair whose key is URI text without `#` is URI text without `#`. */
  lemma QueryPairIsUriText(entry: Entry, e: Encoding)
    requires UriText(entry.key) && CountChar(entry.key, '#') == 0
    ensures UriText(QueryPair(entry, e)) && CountChar(QueryPair(entry, e), '#') == 0
  {
    var value := EncodeWith(e, entry.value);
    EncodedIsUriText(e, entry.value);
    assert UriText("=");
    UriTextConcat(entry.key, "=");
    UriTextConcat(entry.key + "=", value);
    CountCharConcat(entry.key, "=", '#');
    CountCharConcat(entry.key + "=", value, '#');
  }

  /** Query strings with such keys are URI text without `#`, whatever the values. */
  lemma {:induction false} QueryStringIsUriText(params: seq<Entry>, e: Encoding)
    requires forall i :: 0 <= i < |params| ==> UriText(params[i].key) && CountChar(params[i].key, '#') == 0
    ensures UriText(QueryString(params, e)) && CountChar(QueryString(params, e), '#') == 0
    decreases |params|
  {
    if params == [] {
      assert QueryString(params, e) == [];
    } else {
      var n := |params|;
      var init := QueryString(params[..n - 1], e);
      var sep := if n == 1 then "?" else "&";
      var pair := QueryPair(params[n - 1], e);
      QueryStringIsUriText(params[..n - 1], e);
      QueryPairIsUriText(params[n - 1], e);
      assert UriText(sep);
      UriTextConcat(init, sep);
      UriTextConcat(init + sep, pair);
      CountCharConcat(init, sep, '#');
      CountCharConcat(init + sep, pair, '#');
    }
  }

  /** Appending the query string keeps an accepted URI without `#` so, whatever the values:
      the encoder makes every value safe. Only the keys, which are not encoded, must be URI
      text. */
  lemma QueryKeepsAccepted(path: string, queryParams: seq<Entry>)
    requires AcceptedRequestUri(path) && CountChar(path, '#') == 0
    requires forall i :: 0 <= i < |queryParams| ==> UriText(queryParams[i].key) && CountChar(queryParams[i].key, '#') == 0
    ensures AcceptedRequestUri(path + QueryString(queryParams, PercentSpaces))
    ensures CountChar(path + QueryString(queryParams, PercentSpaces), '#') == 0
  {
    var query := QueryString(queryParams, PercentSpaces);
    QueryStringIsUriText(queryParams, PercentSpaces);
    CountCharConcat(path, query, '#');
    AcceptedAppend(path, query);
  }

  /** Adding any fragment to an accepted URI without `#` keeps it accepted. */
  lemma FragmentKeepsAccepted(u: string, fragment: Option<string>)
    requires AcceptedRequestUri(u) && CountChar(u, '#') == 0
    ensures AcceptedRequestUri(AddFragment(u, fragment))
  {
    if !NullOrBlank(fragment) {
      var encoded := Encode(fragment.value);
      EncodedIsUriText(PercentSpaces, fragment.value);
      assert UriText("#");
      UriTextConcat("#", encoded);
      CountCharConcat("#", encoded, '#');
      CountCharConcat(u, "#" + encoded, '#');
      AcceptedAppend(u, "#" + encoded);
      assert u + "#" + encoded == u + ("#" + encoded);
    }
  }

  /** Once the substituted path is an accepted URI without `#`, the query and the fragment
      can never make it rejected. */
  lemma AssembledUrlAccepted(template: string, pathParams: seq<Entry>, queryParams: seq<Entry>, fragment: Option<string>, path: string)
    requires SubstitutePathParams(WithoutTrailingSlashes(template), pathParams, PercentSpaces) == path
    requires AcceptedRequestUri(path) && CountChar(path, '#') == 0
    requires forall i :: 0 <= i < |queryParams| ==> UriText(queryParams[i].key) && CountChar(queryParams[i].key, '#') == 0
    ensures AcceptedRequestUri(AssembleUrl(template, pathParams, queryParams, fragment))
  {
    QueryKeepsAccepted(path, queryParams);
    FragmentKeepsAccepted(path + QueryString(queryParams, PercentSpaces), fragment);
  }

  /** The same, for one query parameter. */
  lemma AcceptedWithOneQuery(template: string, pathParams: seq<Entry>, key: string, value: string,
                             fragment: Option<string>, path: string)
    requires SubstitutePathParams(WithoutTrailingSlashes(template), pathParams, PercentSpaces) == path
    requires AcceptedRequestUri(path) && CountChar(path, '#') == 0
    requires UriText(key) && CountChar(key, '#') == 0
    ensures AcceptedRequestUri(AssembleUrl(template, pathParams, [Entry(key, value)], fragment))
  {
    var params := [Entry(key, value)];
    assert params[0].key == key;
    AssembledUrlAccepted(template, pathParams, params, fragment, path);
  }

  /** The same, for two query parameters. */
  lemma AcceptedWithTwoQueries(template: string, pathParams: seq<Entry>, key1: string, value1: string,
                               key2: string, value2: string, fragment: Option<string>, path: string)
    requires SubstitutePathParams(WithoutTrailingSlashes(template), pathParams, PercentSpaces) == path
    requires AcceptedRequestUri(path) && CountChar(path, '#') == 0
    requires UriText(key1) && CountChar(key1, '#') == 0
    requires UriText(key2) && CountChar(key2, '#') == 0
    ensures AcceptedRequestUri(AssembleUrl(template, pathParams, [Entry(key1, value1), Entry(key2, value2)], fragment))
  {
    var params := [Entry(key1, value1), Entry(key2, value2)];
    assert params[0].key == key1 && params[1].key == key2;
    AssembledUrlAccepted(template, pathParams, params, fragment, path);
  }

  /** Text made of unreserved characters and the delimiters `/ ? = &` only. */
  predicate PlainText(s: string)
  {
    forall i :: 0 <= i < |s| ==> Unreserved(s[i]) || s[i] == '/' || s[i] == '?' || s[i] == '=' || s[i] == '&'
  }

  /** Plain text is URI text without `#`. */
  lemma PlainTextIsUriText(s: string)
    requires PlainText(s)
    ensures UriText(s) && CountChar(s, '#') == 0
  {
    CountCharZero(s, '#');
  }

  lemma PlainTextConcat(a: string, b: string)
    requires PlainText(a) && PlainText(b)
    ensures PlainText(a + b)
  {
    assert forall i :: 0 <= i < |a + b| ==> (a + b)[i] == if i < |a| then a[i] else b[i - |a|];
  }

  /** Text without `{` stays so when plain text is appended. */
  lemma NoBraceExtension(u: string, p: string)
    requires forall i :: 0 <= i < |u| ==> u[i] != '{'
    requires PlainText(p)
    ensures forall i :: 0 <= i < |u + p| ==> (u + p)[i] != '{'
  {
    assert forall i :: |u| <= i < |u + p| ==> (u + p)[i] == p[i - |u|];
  }

  /** Plain text appended to an accepted URI without `#` keeps it so. */
  lemma PlainExtension(u: string, p: string)
    requires AcceptedRequestUri(u) && CountChar(u, '#') == 0
    requires PlainText(p)
    ensures AcceptedRequestUri(u + p) && CountChar(u + p, '#') == 0
  {
    PlainTextIsUriText(p);
    CountCharConcat(u, p, '#');
    AcceptedAppend(u, p);
  }
}
