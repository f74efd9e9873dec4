/** The `Headers` enum: the header names behind the request builder's convenience setters. */
module Headers {

  datatype Header =
    | UserAgent | Accept | AcceptLanguage | AcceptEncoding
    | Authorization | ContentType
    | Cookie | Referer | Origin

  /** The enum constant's `code`, the header name sent on the wire. */
  function Code(h: Header): string
  {
    match h
    case UserAgent => "User-Agent"
    case Accept => "Accept"
    case AcceptLanguage => "Accept-Language"
    case AcceptEncoding => "Accept-Encoding"
    case Authorization => "Authorization"
    case ContentType => "Content-Type"
    case Cookie => "Cookie"
    case Referer => "Referer"
    case Origin => "Origin"
  }

  /** No two constants share a code, so two different convenience setters never write the same header. */
  lemma CodesDistinct(a: Header, b: Header)
    ensures Code(a) == Code(b) <==> a == b
  {
    if Code(a) == Code(b) {
      assert Code(a)[0] == Code(b)[0] && |Code(a)| == |Code(b)|;
    }
  }

  /** A `tchar` of section 3.2.6 of RFC 7230: a letter, a digit or one of ``!#$%&'*+-.^_`|~``. */
  predicate IsTokenChar(c: char)
  {
    ('a' <= c <= 'z') || ('A' <= c <= 'Z') || ('0' <= c <= '9')
    || c == '!' || c == '#' || c == '$' || c == '%' || c == '&' || c == '\'' || c == '*'
    || c == '+' || c == '-' || c == '.' || c == '^' || c == '_' || c == '`' || c == '|' || c == '~'
  }

  /** A header field name as section 3.2 of RFC 7230 defines it: a non-empty token. */
  predicate IsFieldName(s: string)
  {
    |s| > 0 && forall i :: 0 <= i < |s| ==> IsTokenChar(s[i])
  }

  /** Every code is a well-formed header name, so the request builder of `java.net.http`
      accepts the headers the convenience setters write. */
  lemma CodesAreFieldNames(h: Header)
    ensures IsFieldName(Code(h))
  {
    var code := Code(h);
    forall i | 0 <= i < |code|
      ensures IsTokenChar(code[i])
    {
    }
  }
}
