/** Encoding of parameter values. `URLEncoder.encode(s, UTF_8)` is the
    application/x-www-form-urlencoded encoding of HTML 4.01 section 17.13.4.1: letters, digits
    and `. - * _` pass through, a space becomes `+`, and every other character becomes the
    `%XY` triplets (upper-case hex, section 2.1 of RFC 3986) of its UTF-8 bytes (RFC 3629).
    The client's own `encode` then rewrites every `+` to `%20`. */
module ParamCodec {
  import opened Base
  import JavaText

  /** The characters URLEncoder leaves as they are. */
  predicate Unreserved(c: char)
  {
    ('a' <= c <= 'z') || ('A' <= c <= 'Z') || ('0' <= c <= '9') || c == '.' || c == '-' || c == '*' || c == '_'
  }

  /** UTF-8 bytes of one Unicode scalar value: one byte for ASCII, otherwise a lead byte
      announcing the length followed by continuation bytes. */
  function Utf8(c: char): (bytes: seq<Byte>)
    ensures 1 <= |bytes| <= 4
    ensures |bytes| == 1 <==> c as int < 0x80
    ensures |bytes| == 1 ==> bytes[0] == c as int
    ensures forall k :: 1 <= k < |bytes| ==> 0x80 <= bytes[k] < 0xC0
  {
    var n := c as int;
    if n < 0x80 then [n]
    else if n < 0x800 then [0xC0 + n / 64, 0x80 + n % 64]
    else if n < 0x10000 then [0xE0 + n / 4096, 0x80 + (n / 64) % 64, 0x80 + n % 64]
    else [0xF0 + n / 262144, 0x80 + (n / 4096) % 64, 0x80 + (n / 64) % 64, 0x80 + n % 64]
  }

  /** The code point a well-formed UTF-8 sequence of one to four bytes stands for. */
  function Utf8CodePoint(bytes: seq<Byte>): int
    requires 1 <= |bytes| <= 4
  {
    var lead: int := bytes[0];
    var payload := (if |bytes| == 1 then lead
                    else if |bytes| == 2 then lead - 0xC0
                    else if |bytes| == 3 then lead - 0xE0
                    else lead - 0xF0);
    ContinuationPayload(payload, bytes[1..])
  }

  function ContinuationPayload(acc: int, continuation: seq<Byte>): int
    decreases |continuation|
  {
    if continuation == [] then acc
    else ContinuationPayload(acc * 64 + (continuation[0] as int - 0x80), continuation[1..])
  }

  lemma DivModSplit(n: int, d: int)
    requires n >= 0 && d > 0
    ensures n == (n / d) * d + n % d && 0 <= n % d < d
  {
  }

  /** UTF-8 is decodable: the code point comes back from the bytes. */
  lemma Utf8Decodes(c: char)
    ensures Utf8CodePoint(Utf8(c)) == c as int
  {
    var n := c as int;
    var b := Utf8(c);
    if n < 0x80 {
      assert ContinuationPayload(n, []) == n;
    } else if n < 0x800 {
      DivModSplit(n, 64);
      var hi, lo := n / 64, n % 64;
      assert b == [0xC0 + hi, 0x80 + lo];
      assert b[1..][1..] == [];
      assert Utf8CodePoint(b) == ContinuationPayload(hi * 64 + lo, []);
    } else if n < 0x10000 {
      DivModSplit(n, 64);
      DivModSplit(n / 64, 64);
      var top, mid, lo := n / 4096, (n / 64) % 64, n % 64;
      assert top == (n / 64) / 64;
      assert b == [0xE0 + top, 0x80 + mid, 0x80 + lo];
      assert b[1..][1..][1..] == [];
      assert Utf8CodePoint(b) == ContinuationPayload(top, b[1..]);
      assert ContinuationPayload(top, b[1..]) == ContinuationPayload(top * 64 + mid, b[1..][1..]);
      assert ContinuationPayload(top * 64 + mid, b[1..][1..]) == ContinuationPayload((top * 64 + mid) * 64 + lo, []);
    } else {
      DivModSplit(n, 64);
      DivModSplit(n / 64, 64);
      DivModSplit(n / 4096, 64);
      var top, high, mid, lo := n / 262144, (n / 4096) % 64, (n / 64) % 64, n % 64;
      assert n / 4096 == (n / 64) / 64;
      assert top == (n / 4096) / 64;
      assert b == [0xF0 + top, 0x80 + high, 0x80 + mid, 0x80 + lo];
      assert b[1..][1..][1..][1..] == [];
      assert Utf8CodePoint(b) == ContinuationPayload(top, b[1..]);
      assert ContinuationPayload(top, b[1..]) == ContinuationPayload(top * 64 + high, b[1..][1..]);
      assert ContinuationPayload(top * 64 + high, b[1..][1..])
          == ContinuationPayload((top * 64 + high) * 64 + mid, b[1..][1..][1..]);
      assert ContinuationPayload((top * 64 + high) * 64 + mid, b[1..][1..][1..])
          == ContinuationPayload(((top * 64 + high) * 64 + mid) * 64 + lo, []);
    }
  }

  /** UTF-8 bytes of a whole string. */
  function Utf8Of(s: string): seq<Byte>
  {
    if s == [] then [] else Utf8(s[0]) + Utf8Of(s[1..])
  }

  /** Upper-case hexadecimal digit, as URLEncoder writes it. */
  function HexDigit(n: int): (c: char)
    requires 0 <= n < 16
  {
    if n < 10 then ('0' as int + n) as char else ('A' as int + n - 10) as char
  }

  /** `%XY` for every byte. */
  function Triplets(bytes: seq<Byte>): string
  {
    if bytes == [] then [] else ['%', HexDigit(bytes[0] / 16), HexDigit(bytes[0] % 16)] + Triplets(bytes[1..])
  }

  function FormEncodeChar(c: char): string
  {
    if Unreserved(c) then [c] else if c == ' ' then "+" else Triplets(Utf8(c))
  }

  /** `URLEncoder.encode(s, StandardCharsets.UTF_8)`. */
  function FormEncode(s: string): string
  {
    if s == [] then [] else FormEncodeChar(s[0]) + FormEncode(s[1..])
  }

  /** The client's `encode(param)`: the form encoding with every `+` replaced by `%20`. */
  function Encode(s: string): string
  {
    JavaText.ReplaceAll(FormEncode(s), "+", "%20")
  }

  /** Reference definition of the client's encoding, character by character. */
  function PercentEncodeChar(c: char): string
  {
    if c == ' ' then "%20" else FormEncodeChar(c)
  }

  function PercentEncode(s: string): string
  {
    if s == [] then [] else PercentEncodeChar(s[0]) + PercentEncode(s[1..])
  }

  /** Which of the two encoders a pipeline uses: the client's `encode`, or the plain form
      encoding of the older client. */
  datatype Encoding = PercentSpaces | FormSpaces

  function EncodeWith(e: Encoding, s: string): string
  {
    match e
    case PercentSpaces => Encode(s)
    case FormSpaces => FormEncode(s)
  }

  // ---------------------------------------------------------------------------------------
  // The alphabet of encoded text

  /** A character that may appear in the client's encoded output. */
  predicate EncodedChar(c: char)
  {
    Unreserved(c) || c == '%'
  }

  predicate AllEncodedChars(s: string)
  {
    forall i :: 0 <= i < |s| ==> EncodedChar(s[i])
  }

  /** A character that may appear in the form encoder's output. */
  predicate FormEncodedChar(c: char)
  {
    EncodedChar(c) || c == '+'
  }

  predicate AllFormEncodedChars(s: string)
  {
    forall i :: 0 <= i < |s| ==> FormEncodedChar(s[i])
  }

  lemma {:induction false} TripletsAlphabet(bytes: seq<Byte>)
    ensures AllEncodedChars(Triplets(bytes))
  {
    if bytes != [] {
      TripletsAlphabet(bytes[1..]);
      var head := ['%', HexDigit(bytes[0] / 16), HexDigit(bytes[0] % 16)];
      assert AllEncodedChars(head);
      assert Triplets(bytes) == head + Triplets(bytes[1..]);
    }
  }

  lemma {:induction false} PercentEncodeAlphabet(s: string)
    ensures AllEncodedChars(PercentEncode(s))
  {
    if s != [] {
      PercentEncodeAlphabet(s[1..]);
      if !Unreserved(s[0]) && s[0] != ' ' {
        TripletsAlphabet(Utf8(s[0]));
      }
      assert AllEncodedChars(PercentEncodeChar(s[0]));
    }
  }

  lemma {:induction false} FormEncodeAlphabet(s: string)
    ensures AllFormEncodedChars(FormEncode(s))
  {
    if s != [] {
      FormEncodeAlphabet(s[1..]);
      if !Unreserved(s[0]) && s[0] != ' ' {
        TripletsAlphabet(Utf8(s[0]));
      }
      assert AllFormEncodedChars(FormEncodeChar(s[0]));
    }
  }

  /** Rewriting `+` in the encoding of one character gives the reference encoding of it. */
  lemma ReplacePlusInChar(c: char)
    ensures JavaText.ReplaceAll(FormEncodeChar(c), "+", "%20") == PercentEncodeChar(c)
  {
    if c == ' ' {
    } else if Unreserved(c) {
      JavaText.LacksFirstChar([c], "+");
      JavaText.ReplaceAllAbsent([c], "+", "%20");
    } else {
      TripletsAlphabet(Utf8(c));
      JavaText.LacksFirstChar(Triplets(Utf8(c)), "+");
      JavaText.ReplaceAllAbsent(Triplets(Utf8(c)), "+", "%20");
    }
  }

  /** The client's encoder is the per-character reference encoding: a space becomes `%20`
      and every other character is encoded exactly as the form encoder encodes it. */
  lemma {:induction false} EncodeIsPercentEncode(s: string)
    ensures Encode(s) == PercentEncode(s)
  {
    if s != [] {
      EncodeIsPercentEncode(s[1..]);
      JavaText.ReplaceCharConcat(FormEncodeChar(s[0]), FormEncode(s[1..]), '+', "%20");
      ReplacePlusInChar(s[0]);
    }
  }

  /** Encoded values hold only letters, digits, `. - * _` and `%`: in particular no `+`, no
      space, no braces (so a substituted value never brings in a placeholder delimiter) and
      none of the delimiters `? & = #` of query and fragment. */
  lemma EncodeAlphabet(s: string)
    ensures AllEncodedChars(Encode(s))
  {
    EncodeIsPercentEncode(s);
    PercentEncodeAlphabet(s);
  }

  /** The delimiters of the url template and of the query string never come out of either encoder. */
  lemma EncodedHasNoDelimiters(e: Encoding, s: string)
    ensures forall i :: 0 <= i < |EncodeWith(e, s)| ==>
      EncodeWith(e, s)[i] !in {'{', '}', '?', '&', '=', '#', ' '}
    ensures e == PercentSpaces ==> forall i :: 0 <= i < |EncodeWith(e, s)| ==> EncodeWith(e, s)[i] != '+'
  {
    match e
    case PercentSpaces => EncodeAlphabet(s);
    case FormSpaces => FormEncodeAlphabet(s);
  }

  /** On a value without spaces both encoders agree. */
  lemma {:induction false} EncodingsAgreeWithoutSpaces(s: string)
    requires forall i :: 0 <= i < |s| ==> s[i] != ' '
    ensures Encode(s) == FormEncode(s)
  {
    EncodeIsPercentEncode(s);
    NoSpacePercentIsForm(s);
  }

  lemma {:induction false} NoSpacePercentIsForm(s: string)
    requires forall i :: 0 <= i < |s| ==> s[i] != ' '
    ensures PercentEncode(s) == FormEncode(s)
  {
    if s != [] {
      NoSpacePercentIsForm(s[1..]);
    }
  }

  // ---------------------------------------------------------------------------------------
  // Decoding: the inverse of both encoders, down to the UTF-8 bytes

  predicate IsHexDigit(c: char)
  {
    ('0' <= c <= '9') || ('A' <= c <= 'F') || ('a' <= c <= 'f')
  }

  function HexValue(c: char): (n: int)
    requires IsHexDigit(c)
    ensures 0 <= n < 16
  {
    if '0' <= c <= '9' then c as int - '0' as int
    else if 'A' <= c <= 'F' then c as int - 'A' as int + 10
    else c as int - 'a' as int + 10
  }

  function PrependBytes(bytes: seq<Byte>, rest: Option<seq<Byte>>): Option<seq<Byte>>
  {
    match rest
    case Some(tail) => Some(bytes + tail)
    case None => None
  }

  /** Form decoding to bytes: `%XY` is one byte, `+` is a space, any other ASCII character
      stands for itself; a broken escape or a non-ASCII character is rejected. */
  function FormDecode(t: string): Option<seq<Byte>>
    decreases |t|
  {
    if t == [] then Some([])
    else if t[0] == '%' then
      if |t| >= 3 && IsHexDigit(t[1]) && IsHexDigit(t[2])
      then PrependBytes([HexValue(t[1]) * 16 + HexValue(t[2])], FormDecode(t[3..]))
      else None
    else if t[0] == '+' then PrependBytes([0x20], FormDecode(t[1..]))
    else if t[0] as int < 0x80 then PrependBytes([t[0] as int], FormDecode(t[1..]))
    else None
  }

  lemma HexRoundTrip(n: int)
    requires 0 <= n < 16
    ensures IsHexDigit(HexDigit(n)) && HexValue(HexDigit(n)) == n
  {
  }

  lemma {:induction false} DecodeTriplets(bytes: seq<Byte>, rest: string)
    ensures FormDecode(Triplets(bytes) + rest) == PrependBytes(bytes, FormDecode(rest))
  {
    if bytes == [] {
      assert Triplets(bytes) + rest == rest;
      match FormDecode(rest)
      case Some(tail) => assert bytes + tail == tail;
      case None =>
    } else {
      var b := bytes[0];
      HexRoundTrip(b / 16);
      HexRoundTrip(b % 16);
      var t := Triplets(bytes) + rest;
      assert t == ['%', HexDigit(b / 16), HexDigit(b % 16)] + (Triplets(bytes[1..]) + rest);
      assert t[3..] == Triplets(bytes[1..]) + rest;
      DecodeTriplets(bytes[1..], rest);
      match FormDecode(rest)
      case Some(tail) => assert [b] + (bytes[1..] + tail) == bytes + tail;
      case None =>
    }
  }

  lemma DecodeSingle(c: char, rest: string)
    requires c != '%' && c != '+' && c as int < 0x80
    ensures FormDecode([c] + rest) == PrependBytes([c as int], FormDecode(rest))
  {
    assert ([c] + rest)[1..] == rest;
  }

  /** Decoding the encoding of one character yields its UTF-8 bytes, whichever encoder. */
  lemma DecodeEncodedChar(e: Encoding, c: char, rest: string)
    ensures var piece := if e == PercentSpaces then PercentEncodeChar(c) else FormEncodeChar(c);
      FormDecode(piece + rest) == PrependBytes(Utf8(c), FormDecode(rest))
  {
    if Unreserved(c) {
      DecodeSingle(c, rest);
    } else if c == ' ' {
      if e == PercentSpaces {
        var t := "%20" + rest;
        assert t[3..] == rest;
      } else {
        assert ("+" + rest)[1..] == rest;
      }
    } else {
      DecodeTriplets(Utf8(c), rest);
    }
  }

  lemma {:induction false} DecodeReference(e: Encoding, s: string)
    ensures var encoded := if e == PercentSpaces then PercentEncode(s) else FormEncode(s);
      FormDecode(encoded) == Some(Utf8Of(s))
  {
    if s != [] {
      DecodeReference(e, s[1..]);
      var rest := if e == PercentSpaces then PercentEncode(s[1..]) else FormEncode(s[1..]);
      DecodeEncodedChar(e, s[0], rest);
    }
  }

  /** Round trip: form decoding the output of either encoder gives back exactly the UTF-8
      bytes of the input, so no information is lost and nothing is added. */
  lemma EncodeRoundTrip(e: Encoding, s: string)
    ensures FormDecode(EncodeWith(e, s)) == Some(Utf8Of(s))
  {
    DecodeReference(e, s);
    if e == PercentSpaces {
      EncodeIsPercentEncode(s);
    }
  }

  /** Percent-decoding of a path segment (section 2.1 of RFC 3986): `%XY` is one byte and any
      other ASCII character stands for itself; unlike form decoding, `+` is a plus sign. */
  function PathDecode(t: string): Option<seq<Byte>>
    decreases |t|
  {
    if t == [] then Some([])
    else if t[0] == '%' then
      if |t| >= 3 && IsHexDigit(t[1]) && IsHexDigit(t[2])
      then PrependBytes([HexValue(t[1]) * 16 + HexValue(t[2])], PathDecode(t[3..]))
      else None
    else if t[0] as int < 0x80 then PrependBytes([t[0] as int], PathDecode(t[1..]))
    else None
  }

  /** Without `+` the two decoders agree. */
  lemma {:induction false} PathDecodeWithoutPlus(t: string)
    requires forall i :: 0 <= i < |t| ==> t[i] != '+'
    ensures PathDecode(t) == FormDecode(t)
    decreases |t|
  {
    if t != [] {
      if t[0] == '%' {
        if |t| >= 3 && IsHexDigit(t[1]) && IsHexDigit(t[2]) {
          PathDecodeWithoutPlus(t[3..]);
        }
      } else {
        PathDecodeWithoutPlus(t[1..]);
      }
    }
  }

  /** A value encoded by the client's own encoder comes back intact from a path segment:
      no information is lost and nothing is added. */
  lemma PathValueRoundTrip(s: string)
    ensures PathDecode(Encode(s)) == Some(Utf8Of(s))
  {
    EncodeAlphabet(s);
    var t := Encode(s);
    assert forall i :: 0 <= i < |t| ==> t[i] != '+' by {
      forall i | 0 <= i < |t|
        ensures t[i] != '+'
      {
        assert EncodedChar(t[i]);
      }
    }
    PathDecodeWithoutPlus(t);
    EncodeRoundTrip(PercentSpaces, s);
  }

  /** The form encoder in a path segment: a value holding a space comes back with a plus
      sign (byte 0x2B) where the space (byte 0x20) was. */
  lemma FormEncodedPathAltersSpace()
    ensures Utf8Of(" ") == [0x20]
    ensures PathDecode(FormEncode(" ")) == Some([0x2B])
  {
    SpaceEncodings();
    var plus := "+";
    assert plus[0] as int == 0x2B && plus[1..] == [];
    assert FormEncode(" ") == plus;
    assert PathDecode(plus) == PrependBytes([0x2B], PathDecode([]));
    assert [0x2B] + [] == [0x2B];
  }

  /** The older client's encoding writes a space as `+`, the client's own as `%20`. */
  lemma SpaceEncodings()
    ensures FormEncode(" ") == "+" && Encode(" ") == "%20"
  {
    EncodeIsPercentEncode(" ");
  }

  /** Letters, digits and `. - * _` are left as they are by both encoders. */
  lemma UnreservedUnchanged(e: Encoding, s: string)
    requires forall i :: 0 <= i < |s| ==> Unreserved(s[i])
    ensures EncodeWith(e, s) == s
  {
    FormEncodeUnreserved(s);
    if e == PercentSpaces {
      JavaText.LacksFirstChar(s, "+");
      JavaText.ReplaceAllAbsent(s, "+", "%20");
    }
  }

  lemma {:induction false} FormEncodeUnreserved(s: string)
    requires forall i :: 0 <= i < |s| ==> Unreserved(s[i])
    ensures FormEncode(s) == s
  {
    if s != [] {
      FormEncodeUnreserved(s[1..]);
      assert [s[0]] + s[1..] == s;
    }
  }

  /** Text made only of unreserved characters. */
  predicate UnreservedText(s: string)
  {
    forall i :: 0 <= i < |s| ==> Unreserved(s[i])
  }

  lemma {:induction false} PercentEncodeConcat(a: string, b: string)
    ensures PercentEncode(a + b) == PercentEncode(a) + PercentEncode(b)
    decreases |a|
  {
    if a != [] {
      assert (a + b)[0] == a[0] && (a + b)[1..] == a[1..] + b;
      PercentEncodeConcat(a[1..], b);
    } else {
      assert a + b == b;
    }
  }

  lemma {:induction false} FormEncodeConcat(a: string, b: string)
    ensures FormEncode(a + b) == FormEncode(a) + FormEncode(b)
    decreases |a|
  {
    if a != [] {
      assert (a + b)[0] == a[0] && (a + b)[1..] == a[1..] + b;
      FormEncodeConcat(a[1..], b);
    } else {
      assert a + b == b;
    }
  }

  /** A value with one space between unreserved text: the client writes the space as `%20`
      and leaves the rest as it is. */
  lemma SpacedValue(a: string, b: string)
    requires UnreservedText(a) && UnreservedText(b)
    ensures Encode(a + " " + b) == a + "%20" + b
  {
    EncodeIsPercentEncode(a + " " + b);
    PercentEncodeConcat(a + " ", b);
    PercentEncodeConcat(a, " ");
    PercentEncodeSpace();
    PercentEncodeUnreserved(a);
    PercentEncodeUnreserved(b);
  }

  lemma PercentEncodeSpace()
    ensures PercentEncode(" ") == "%20"
  {
    assert PercentEncode(" ") == "%20" + PercentEncode([]);
  }

  lemma PercentEncodeUnreserved(s: string)
    requires UnreservedText(s)
    ensures PercentEncode(s) == s
  {
    UnreservedUnchanged(PercentSpaces, s);
    EncodeIsPercentEncode(s);
  }

  /** The older client writes the same space as `+`. */
  lemma SpacedValueForm(a: string, b: string)
    requires UnreservedText(a) && UnreservedText(b)
    ensures FormEncode(a + " " + b) == a + "+" + b
  {
    FormEncodeConcat(a + " ", b);
    FormEncodeConcat(a, " ");
    assert FormEncode(" ") == "+" + FormEncode([]);
    FormEncodeUnreserved(a);
    FormEncodeUnreserved(b);
  }
}
