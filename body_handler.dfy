/** `EasyBodyHandler`: the choice of request body publisher and response body handler by
    declared class, and the two serializer-backed arms. Java `Class` objects become ClassTag
    values, body objects become Value, and the publishers and handlers of `java.net.http`
    become tags recording what they would send or read. */
module BodyHandler {
  import opened Base
  import opened JavaText

  /** The classes the dispatch tells apart. Subtypes of `InputStream` and implementations of
      `Path` are distinct classes from the interface/base class itself. */
  datatype ClassTag =
    | VoidClass
    | StringClass
    | ByteArrayClass
    | InputStreamClass
    | InputStreamSubclass(name: string)
    | PathClass
    | PathImplementation(name: string)
    | OtherClass(name: string)

  /** `InputStream.class.isAssignableFrom(t)`. */
  predicate IsInputStreamType(t: ClassTag)
  {
    t.InputStreamClass? || t.InputStreamSubclass?
  }

  /** `Path.class.isAssignableFrom(t)`. */
  predicate IsPathType(t: ClassTag)
  {
    t.PathClass? || t.PathImplementation?
  }

  /** A body object at run time; streams and arbitrary objects are opaque handles. */
  datatype Value =
    | TextValue(text: string)
    | BytesValue(bytes: seq<Byte>)
    | StreamValue(stream: nat)
    | PathValue(path: string)
    | ObjectValue(className: string, handle: nat)

  /** The `Body` record: the content (null as None) and its declared class (null as None). */
  datatype Body = Body(content: Option<Value>, declared: Option<ClassTag>)

  /** `EasySerializer`: two operations that may return null or throw (Err carries the message). */
  datatype Serializer = Serializer(
    serialize: Value -> Result<Option<string>, string>,
    deserialize: (string, ClassTag) -> Result<Option<Value>, string>)

  datatype BodyError =
    | ClassCast(declared: ClassTag)
    | NullPointer
    | FileNotFound(path: string)
    | SerializationError(message: string)
    | DeserializationError(message: string)

  /** What a `BodyPublisher` would send. */
  datatype Publisher =
    | NoBody
    | OfString(text: string)
    | OfByteArray(bytes: seq<Byte>)
    | OfInputStream(supplied: Value)
    | OfFile(path: string)

  /** What a `BodyHandler` would do with the response body. */
  datatype ResponseHandler =
    | Discarding
    | ReadString
    | ReadByteArray
    | ReadInputStream
    | ReadIntoFile(path: string)
    | Deserializing(target: ClassTag)

  const ResponseFile: string := "response.tmp"

  /** The classes with a built-in response handler, matched by class equality. */
  predicate HasBuiltInResponseHandler(t: ClassTag)
  {
    t == VoidClass || t == StringClass || t == ByteArrayClass || t == InputStreamClass || t == PathClass
  }

  // ---------------------------------------------------------------------------------------
  // Response side

  /** `getResponseBodyHandler`. The built-in handlers are chosen by exact class, so a
      subclass of `InputStream` or an implementation of `Path` goes to the serializer. */
  function ResponseHandlerFor(responseClass: Option<ClassTag>): (h: ResponseHandler)
    ensures h == Discarding <==> responseClass == None || responseClass == Some(VoidClass)
    ensures h.Deserializing? <==> responseClass.Some? && !HasBuiltInResponseHandler(responseClass.value)
    ensures h.Deserializing? ==> h.target == responseClass.value
    ensures h.ReadIntoFile? <==> responseClass == Some(PathClass)
    ensures h.ReadIntoFile? ==> h.path == ResponseFile
  {
    match responseClass
    case None => Discarding
    case Some(t) =>
      if t == VoidClass then Discarding
      else if t == StringClass then ReadString
      else if t == ByteArrayClass then ReadByteArray
      else if t == InputStreamClass then ReadInputStream
      else if t == PathClass then ReadIntoFile(ResponseFile)
      else Deserializing(t)
  }

  /** Each of the other built-in handlers is selected by exactly one class. */
  lemma BuiltInHandlersByExactClass(t: ClassTag)
    ensures ResponseHandlerFor(Some(t)) == ReadString <==> t == StringClass
    ensures ResponseHandlerFor(Some(t)) == ReadByteArray <==> t == ByteArrayClass
    ensures ResponseHandlerFor(Some(t)) == ReadInputStream <==> t == InputStreamClass
  {
  }

  /** `jacksonResponseHandler`'s mapping of the UTF-8 body text: null or blank text is a null
      result and the serializer is not consulted; otherwise the serializer's result, with any
      failure wrapped as a deserialization error. */
  function DecodeResponseBody(serializer: Serializer, target: ClassTag, body: Option<string>): (r: Result<Option<Value>, BodyError>)
    ensures NullOrBlank(body) ==> r == Ok(None)
    ensures r.Err? ==> !NullOrBlank(body) && serializer.deserialize(body.value, target).Err?
    ensures r.Err? ==> r.error == DeserializationError(serializer.deserialize(body.value, target).error)
    ensures !NullOrBlank(body) && serializer.deserialize(body.value, target).Err?
            ==> r == Err(DeserializationError(serializer.deserialize(body.value, target).error))
  {
    if body.Some? && !IsBlank(body.value) then
      match serializer.deserialize(body.value, target)
      case Ok(v) => Ok(v)
      case Err(message) => Err(DeserializationError(message))
    else Ok(None)
  }

  /** A blank body decodes the same way whatever the serializer. */
  lemma BlankBodyIgnoresSerializer(s1: Serializer, s2: Serializer, target: ClassTag, body: Option<string>)
    requires NullOrBlank(body)
    ensures DecodeResponseBody(s1, target, body) == DecodeResponseBody(s2, target, body) == Ok(None)
  {
  }

  /** A body that is not blank yields exactly what the serializer yields, when it succeeds. */
  lemma DecodedValueFromSerializer(serializer: Serializer, target: ClassTag, text: string)
    requires !IsBlank(text)
    requires serializer.deserialize(text, target).Ok?
    ensures DecodeResponseBody(serializer, target, Some(text)) == Ok(serializer.deserialize(text, target).value)
  {
  }

  // ---------------------------------------------------------------------------------------
  // Request side

  /** `jacksonRequestHandler`: the serialized text as a string body; a failure, or a null
      text that `ofString` rejects inside the same `try`, becomes a serialization error. */
  function SerializedPublisher(serializer: Serializer, data: Value): (r: Result<Publisher, BodyError>)
    ensures r.Ok? <==> serializer.serialize(data).Ok? && serializer.serialize(data).value.Some?
    ensures r.Ok? ==> r.value == OfString(serializer.serialize(data).value.value)
    ensures r.Err? ==> r.error.SerializationError?
  {
    match serializer.serialize(data)
    case Ok(Some(json)) => Ok(OfString(json))
    case Ok(None) => Err(SerializationError("null serialized text"))
    case Err(message) => Err(SerializationError(message))
  }

  /** The declared types whose content is published without the serializer. */
  predicate HasBuiltInPublisher(t: ClassTag)
  {
    t == StringClass || t == ByteArrayClass || IsInputStreamType(t) || IsPathType(t)
  }

  /** `getRequestBodyPublisher`. Dispatch is on the declared type, not on the content: String
      and byte[] by equality, InputStream and Path by subtype, everything else through the
      serializer. A declared type that does not fit the content is a cast failure; a null
      declared type reaches `isAssignableFrom` and fails there; a Path whose file cannot be
      opened (readable is the file system's answer) fails with FileNotFound. */
  function RequestPublisher(serializer: Serializer, readable: string -> bool, body: Option<Body>): (r: Result<Publisher, BodyError>)
    ensures body.None? || body.value.content.None? ==> r == Ok(NoBody)
    ensures r.Ok? && r.value == NoBody ==> body.None? || body.value.content.None?
    ensures r.Err? && r.error == NullPointer ==> body.Some? && body.value.content.Some? && body.value.declared.None?
    ensures r.Ok? && r.value.OfFile? ==> readable(r.value.path) && body.Some? && body.value.content == Some(PathValue(r.value.path))
    ensures r.Err? && r.error.FileNotFound? ==> !readable(r.error.path)
    ensures r.Ok? && r.value.OfInputStream? ==> body.Some? && body.value.declared.Some? && IsInputStreamType(body.value.declared.value)
    ensures r.Err? && r.error.ClassCast? ==> body.Some? && body.value.declared == Some(r.error.declared)
    ensures body.Some? && body.value.content.Some? && body.value.declared.Some? && IsPathType(body.value.declared.value)
            && body.value.content.value.PathValue?
            ==> r == (if readable(body.value.content.value.path) then Ok(OfFile(body.value.content.value.path))
                      else Err(FileNotFound(body.value.content.value.path)))
  {
    if body.None? || body.value.content.None? then Ok(NoBody)
    else
      var content := body.value.content.value;
      match body.value.declared
      case None => Err(NullPointer)
      case Some(t) =>
        if t == StringClass then
          if content.TextValue? then Ok(OfString(content.text)) else Err(ClassCast(t))
        else if t == ByteArrayClass then
          if content.BytesValue? then Ok(OfByteArray(content.bytes)) else Err(ClassCast(t))
        else if IsInputStreamType(t) then
          Ok(OfInputStream(content))
        else if IsPathType(t) then
          if !content.PathValue? then Err(ClassCast(t))
          else if readable(content.path) then Ok(OfFile(content.path))
          else Err(FileNotFound(content.path))
        else SerializedPublisher(serializer, content)
  }

  /** The content fits its declared built-in type: text for String, bytes for byte[], a path
      for a Path type. Any content fits an InputStream type, because that cast runs only
      when the body is sent. */
  predicate FitsDeclared(content: Value, t: ClassTag)
  {
    && (t == StringClass ==> content.TextValue?)
    && (t == ByteArrayClass ==> content.BytesValue?)
    && (IsPathType(t) ==> content.PathValue?)
  }

  /** The cast in a built-in arm fails exactly when the content does not fit the declared
      type; the serializer arm never reports a cast failure. */
  lemma CastFailsOnMismatch(serializer: Serializer, readable: string -> bool, content: Value, t: ClassTag)
    ensures RequestPublisher(serializer, readable, Some(Body(Some(content), Some(t)))) == Err(ClassCast(t))
            <==> HasBuiltInPublisher(t) && !FitsDeclared(content, t)
  {
  }

  /** A Path body is published from its file when the file can be opened, and fails with
      FileNotFound naming that path otherwise. */
  lemma PathBodyPublished(serializer: Serializer, readable: string -> bool, path: string, t: ClassTag)
    requires IsPathType(t)
    ensures readable(path) ==> RequestPublisher(serializer, readable, Some(Body(Some(PathValue(path)), Some(t)))) == Ok(OfFile(path))
    ensures !readable(path) ==> RequestPublisher(serializer, readable, Some(Body(Some(PathValue(path)), Some(t)))) == Err(FileNotFound(path))
  {
  }

  /** For a built-in declared type the serializer plays no part. */
  lemma BuiltInTypesIgnoreSerializer(s1: Serializer, s2: Serializer, readable: string -> bool, content: Value, t: ClassTag)
    requires HasBuiltInPublisher(t)
    ensures RequestPublisher(s1, readable, Some(Body(Some(content), Some(t))))
         == RequestPublisher(s2, readable, Some(Body(Some(content), Some(t))))
  {
  }

  /** Any other declared type goes to the serializer, whatever the content is at run time: a
      String declared as an application class is serialized, not sent as text. */
  lemma OtherTypesUseSerializer(serializer: Serializer, readable: string -> bool, content: Value, t: ClassTag)
    requires !HasBuiltInPublisher(t)
    ensures RequestPublisher(serializer, readable, Some(Body(Some(content), Some(t))))
         == SerializedPublisher(serializer, content)
  {
  }

  /** The file system is consulted only for Path bodies. */
  lemma OnlyPathsConsultFiles(serializer: Serializer, r1: string -> bool, r2: string -> bool, body: Option<Body>)
    requires body.Some? && body.value.declared.Some? ==> !IsPathType(body.value.declared.value)
    ensures RequestPublisher(serializer, r1, body) == RequestPublisher(serializer, r2, body)
  {
  }

  /** Content that matches its built-in declared type is published as it is. */
  lemma MatchingContentPublished(serializer: Serializer, readable: string -> bool, content: Value, t: ClassTag)
    requires t == StringClass ==> content.TextValue?
    requires t == ByteArrayClass ==> content.BytesValue?
    requires t == StringClass || t == ByteArrayClass || IsInputStreamType(t)
    ensures var r := RequestPublisher(serializer, readable, Some(Body(Some(content), Some(t))));
      && r.Ok?
      && (content.TextValue? && t == StringClass ==> r.value == OfString(content.text))
      && (content.BytesValue? && t == ByteArrayClass ==> r.value == OfByteArray(content.bytes))
      && (IsInputStreamType(t) ==> r.value == OfInputStream(content))
  {
  }
}
