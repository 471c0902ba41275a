// GenericProtobufJsonObjectOutput: a write-only sink that prints each value
// as JSON and commits it to a PrintWriter as one record: the text, one line
// separator, then a flush. The primitive writes, writeEvent and
// writeAttachments first build a protobuf message; writeObject prints the
// object itself once it passes the type guard; writeThrowable converts only a
// Throwable of an unsupported class and prints anything else unchanged.
//
// The first half gives, for each write, the Effect it has as a pure function
// of its arguments; the class below performs the writes step by step and is
// proved to have exactly those effects.

module JsonObjectOutput {
  import opened JavaLang
  import opened ProtobufModel
  import opened PrintWriting

  /** What one public write does to the stream: commits one record holding
      this JSON text, writes nothing and returns, or throws before writing. */
  datatype Effect = Emit(json: string) | Skip | Throw(error: JavaException)

  /** The record stream after a call with effect `e`. */
  function After(records: seq<string>, e: Effect): (r: seq<string>)
    ensures |r| == |records| + (if e.Emit? then 1 else 0)
    ensures r[..|records|] == records
    ensures e.Emit? ==> r[|records|] == e.json
  {
    if e.Emit? then records + [e.json] else records
  }

  /** How the call ends for effect `e`. */
  function CompletionOf(e: Effect): Completion {
    if e.Throw? then Threw(e.error) else Normal
  }

  /** Printing a message, then committing the text: a printer failure
      propagates and nothing is written. */
  function Rendered(printed: Result<string, JavaException>): Effect {
    match printed
    case Success(text) => Emit(text)
    case Failure(x) => Throw(x)
  }

  // ---------------------------------------------------------------- type guard

  const MessagePrefix := "This serialization only support google protobuf object, "
  const NullPayloadMessage := MessagePrefix + "the object is : null"

  function UnsupportedClassMessage(className: string): (m: string)
    ensures |MessagePrefix| <= |m| && m[..|MessagePrefix|] == MessagePrefix
    ensures EndsWith(m, className)
  {
    MessagePrefix + "the object class is: " + className
  }

  /** writeObject: null and unsupported classes are rejected with an
      IllegalArgumentException before anything is printed; anything else is
      printed and committed. */
  function ObjectEffect(utils: ProtobufUtils, obj: Option<Value>): (e: Effect)
    ensures !e.Skip?
    ensures obj.None? ==> e == Throw(IllegalArgumentException(NullPayloadMessage))
    ensures obj.Some? && !utils.isSupported(obj.value.ClassName()) ==>
              e == Throw(IllegalArgumentException(UnsupportedClassMessage(obj.value.ClassName())))
    ensures e.Emit? <==>
              obj.Some? && utils.isSupported(obj.value.ClassName()) && utils.serializeJson(obj).Success?
    ensures obj.Some? && utils.isSupported(obj.value.ClassName()) ==> e == Rendered(utils.serializeJson(obj))
  {
    if obj.None? then
      Throw(IllegalArgumentException(NullPayloadMessage))
    else if !utils.isSupported(obj.value.ClassName()) then
      Throw(IllegalArgumentException(UnsupportedClassMessage(obj.value.ClassName())))
    else
      Rendered(utils.serializeJson(obj))
  }

  /** The two guard messages end with "null" and with the rejected class's name. */
  lemma GuardMessagesNameTheCulprit(className: string)
    ensures EndsWith(NullPayloadMessage, "null")
    ensures EndsWith(UnsupportedClassMessage(className), className)
    ensures NullPayloadMessage[..|MessagePrefix|] == MessagePrefix
  {
  }

  /** Writing a message built by the sink itself (the wrapper of a primitive). */
  function MessageEffect(utils: ProtobufUtils, built: Result<Message, JavaException>): Effect {
    match built
    case Failure(x) => Throw(x)
    case Success(m) => ObjectEffect(utils, Some(Proto(m)))
  }

  /** A registry that knows the wrapper classes never rejects a wrapper:
      primitive writes print the wrapper and commit it. */
  lemma WrapperPassesGuard(utils: ProtobufUtils, m: Message)
    requires utils.SupportsWrappers() && m.IsWrapper()
    ensures MessageEffect(utils, Success(m)) == Rendered(utils.serializeJson(Some(Proto(m))))
  {
  }

  // ---------------------------------------------------------- strings, bytes

  /** StringValue.Builder.setValue(null) throws NullPointerException. */
  function StringValueOf(v: Option<string>): Result<Message, JavaException> {
    if v.None? then Failure(NullPointerException) else Success(StringValue(v.value))
  }

  function UtfEffect(utils: ProtobufUtils, v: Option<string>): Effect {
    MessageEffect(utils, StringValueOf(v))
  }

  /** The contents of a Java byte[] reference. */
  function Bytes(b: array?<int8>): Option<seq<int8>>
    reads b
  {
    if b == null then None else Some(b[..])
  }

  /** ByteString.copyFrom(bytes): a copy of the whole array. */
  function CopyFrom(bytes: Option<seq<int8>>): Result<seq<int8>, JavaException> {
    if bytes.None? then Failure(NullPointerException) else Success(bytes.value)
  }

  /** ByteString.copyFrom(bytes, offset, size): a copy of exactly the window
      [offset, offset + size), or IndexOutOfBoundsException when the window
      does not lie inside the array. */
  function CopyFromRange(bytes: Option<seq<int8>>, offset: int32, size: int32): (r: Result<seq<int8>, JavaException>)
    ensures bytes.None? ==> r == Failure(NullPointerException)
    ensures r.Success? <==>
              bytes.Some? && 0 <= offset && 0 <= size && offset as int + size as int <= |bytes.value|
    ensures bytes.Some? && r.Failure? ==> r.error == IndexOutOfBoundsException
    ensures r.Success? ==>
              && |r.value| == size as int
              && forall i :: 0 <= i < size as int ==> r.value[i] == bytes.value[offset as int + i]
  {
    if bytes.None? then
      Failure(NullPointerException)
    else if 0 <= offset && 0 <= size && offset as int + size as int <= |bytes.value| then
      Success(bytes.value[offset..offset as int + size as int])
    else
      Failure(IndexOutOfBoundsException)
  }

  function BytesEffect(utils: ProtobufUtils, copied: Result<seq<int8>, JavaException>): Effect {
    match copied
    case Failure(x) => Throw(x)
    case Success(s) => ObjectEffect(utils, Some(Proto(BytesValue(s))))
  }

  /** Only the bytes inside the window reach the record: two arrays of the
      same length that agree on the window give the same copy. */
  lemma WindowOnly(b1: seq<int8>, b2: seq<int8>, offset: int32, size: int32)
    requires |b1| == |b2|
    requires forall i :: 0 <= i < |b1| && offset as int <= i < offset as int + size as int ==> b1[i] == b2[i]
    ensures CopyFromRange(Some(b1), offset, size) == CopyFromRange(Some(b2), offset, size)
  {
    var r1, r2 := CopyFromRange(Some(b1), offset, size), CopyFromRange(Some(b2), offset, size);
    if r1.Success? {
      assert r2.Success? && |r1.value| == |r2.value|;
      assert forall i :: 0 <= i < size as int ==> r1.value[i] == r2.value[i];
      assert r1.value == r2.value;
    }
  }

  /** writeBytes(b) is writeBytes(b, 0, b.length). */
  lemma WholeArrayIsFullWindow(bytes: Option<seq<int8>>)
    requires bytes.Some? ==> |bytes.value| <= IntMaxValue
    ensures CopyFrom(bytes) == CopyFromRange(bytes, 0, if bytes.None? then 0 else |bytes.value| as int32)
  {
    if bytes.Some? {
      assert bytes.value[0..|bytes.value|] == bytes.value;
    }
  }

  // ---------------------------------------------------------------- throwables

  /** writeThrowable replaces its argument only when it is a Throwable whose
      class the registry does not support. */
  predicate NeedsConversion(utils: ProtobufUtils, th: Option<Value>) {
    th.Some? && th.value.JThrowable? && !utils.isSupported(th.value.ClassName())
  }

  /** The value writeThrowable prints, or the exception the conversion threw.
      The call fails only in a conversion it needed. null stays null; the
      argument is only ever replaced by a protobuf message, and only when it
      needs conversion; so no Throwable of an unsupported class reaches the
      printer. */
  function ThrowableSubject(utils: ProtobufUtils, th: Option<Value>): (r: Result<Option<Value>, JavaException>)
    ensures r.Failure? <==> NeedsConversion(utils, th) && utils.convertToThrowableProto(th.value).Failure?
    ensures r.Failure? ==> r.error == utils.convertToThrowableProto(th.value).error
    ensures r.Success? ==> (r.value.None? <==> th.None?)
    ensures r.Success? && r.value != th ==> NeedsConversion(utils, th) && r.value.value.Proto?
    ensures r.Success? && r.value.Some? && r.value.value.JThrowable? ==> utils.isSupported(r.value.value.ClassName())
  {
    if !NeedsConversion(utils, th) then Success(th)
    else match utils.convertToThrowableProto(th.value)
      case Success(m) => Success(Some(Proto(m)))
      case Failure(x) => Failure(x)
  }

  /** writeThrowable runs no type guard of its own: whatever the subject is
      (null included) goes to the printer. A failed conversion propagates
      before anything is printed. */
  function ThrowableEffect(utils: ProtobufUtils, th: Option<Value>): Effect {
    match ThrowableSubject(utils, th)
    case Success(subject) => Rendered(utils.serializeJson(subject))
    case Failure(x) => Throw(x)
  }

  /** A throwable, or any object, of a supported class: writeThrowable writes
      the same record (or throws the same exception) as writeObject. */
  lemma SupportedThrowableIsWrittenAsObject(utils: ProtobufUtils, th: Value)
    requires utils.isSupported(th.ClassName())
    ensures ThrowableEffect(utils, Some(th)) == ObjectEffect(utils, Some(th))
  {
  }

  /** A throwable of an unsupported class: writeObject would reject it, while
      writeThrowable prints its conversion instead, or throws what the
      conversion threw without writing anything. */
  lemma UnsupportedThrowableIsConverted(utils: ProtobufUtils, th: Value)
    requires th.JThrowable? && !utils.isSupported(th.ClassName())
    ensures ObjectEffect(utils, Some(th)).Throw?
    ensures utils.convertToThrowableProto(th).Success? ==>
              ThrowableEffect(utils, Some(th)) ==
              Rendered(utils.serializeJson(Some(Proto(utils.convertToThrowableProto(th).value))))
    ensures utils.convertToThrowableProto(th).Failure? ==>
              ThrowableEffect(utils, Some(th)) == Throw(utils.convertToThrowableProto(th).error)
  {
  }

  // -------------------------------------------------------------------- events

  /** The Java cast `(String) o`: null passes as null, a String passes, any
      other object throws ClassCastException. */
  function CastToString(o: JavaObject?): Result<Option<string>, JavaException> {
    if o == null then Success(None)
    else if o.value.JString? then Success(Some(o.value.chars))
    else Failure(ClassCastException(o.value.ClassName(), StringClass))
  }

  /** writeEvent: the payload is compared with the heartbeat sentinel by
      reference; the sentinel becomes the mock heartbeat string, anything else
      is cast to String; the result goes to writeUTF. */
  function EventEffect(utils: ProtobufUtils, heartbeat: JavaObject?, mock: string, data: JavaObject?): Effect {
    if data == heartbeat then
      UtfEffect(utils, Some(mock))
    else
      match CastToString(data)
      case Failure(x) => Throw(x)
      case Success(s) => UtfEffect(utils, s)
  }

  /** The heartbeat sentinel is written as the mock heartbeat string. */
  lemma HeartbeatIsWrittenAsMock(utils: ProtobufUtils, heartbeat: JavaObject?, mock: string)
    ensures EventEffect(utils, heartbeat, mock, heartbeat) == UtfEffect(utils, Some(mock))
  {
  }

  /** Any other string is written as itself, even one equal in contents to
      the sentinel: the test is identity, not equality. */
  lemma OtherEventIsWrittenAsItself(utils: ProtobufUtils, heartbeat: JavaObject?, mock: string, data: JavaObject)
    requires data != heartbeat && data.value.JString?
    ensures EventEffect(utils, heartbeat, mock, data) == UtfEffect(utils, Some(data.value.chars))
  {
  }

  /** Any other object that is not a String fails the cast: the call throws
      ClassCastException naming its class, and nothing is written. */
  lemma NonStringEventIsRejected(utils: ProtobufUtils, heartbeat: JavaObject?, mock: string, data: JavaObject)
    requires data != heartbeat && !data.value.JString?
    ensures EventEffect(utils, heartbeat, mock, data) == Throw(ClassCastException(data.value.ClassName(), StringClass))
  {
  }

  /** When the sentinel is not null, a null payload passes the cast and
      writeUTF(null) throws NullPointerException: nothing is written. */
  lemma NullEventIsRejected(utils: ProtobufUtils, heartbeat: JavaObject, mock: string)
    ensures EventEffect(utils, heartbeat, mock, null) == Throw(NullPointerException)
  {
  }

  // --------------------------------------------------------------- attachments
  //
  // Attachment keys are Option<string>: the caller's Map<String, Object> may
  // hold one null key, which the HashMap copy keeps.

  /** Every value of the caller's map survives the `(String)` cast. */
  predicate AllCastToString(attachments: map<Option<string>, JavaObject?>) {
    forall k :: k in attachments ==> CastToString(attachments[k]).Success?
  }

  /** The forEach that copies the caller's map into a HashMap<String, String>,
      casting each value; HashMap keeps a null key or value as null (None).
      The entries are visited in no particular order, so when several values
      are not strings, any one of them may be the one reported. */
  method CastAll(attachments: map<Option<string>, JavaObject?>)
    returns (r: Result<map<Option<string>, Option<string>>, JavaException>)
    ensures r.Success? <==> AllCastToString(attachments)
    ensures r.Success? ==>
              && r.value.Keys == attachments.Keys
              && forall k :: k in r.value ==> CastToString(attachments[k]) == Success(r.value[k])
    ensures r.Failure? ==> exists k :: k in attachments && CastToString(attachments[k]) == Failure(r.error)
  {
    var copied: map<Option<string>, Option<string>> := map[];
    var pending := attachments.Keys;
    while pending != {}
      invariant pending <= attachments.Keys
      invariant copied.Keys == attachments.Keys - pending
      invariant forall k :: k in copied ==> CastToString(attachments[k]) == Success(copied[k])
      decreases pending
    {
      var k :| k in pending;
      var cast := CastToString(attachments[k]);
      if cast.Failure? {
        return Failure(cast.error);
      }
      copied := copied[k := cast.value];
      pending := pending - {k};
    }
    return Success(copied);
  }

  /** MapValue.Map.newBuilder().putAllAttachments(m).build(): protobuf map
      fields reject a null key or a null value with NullPointerException. */
  function BuildAttachmentMap(entries: map<Option<string>, Option<string>>): (r: Result<Message, JavaException>)
    ensures r.Failure? <==> exists k :: k in entries && (k.None? || entries[k].None?)
    ensures r.Failure? ==> r.error == NullPointerException
    ensures r.Success? ==>
              && r.value.AttachmentMap?
              && (forall k :: k in entries ==>
                    k.Some? && k.value in r.value.attachments && entries[k] == Some(r.value.attachments[k.value]))
              && (forall s :: s in r.value.attachments ==> Some(s) in entries)
  {
    if exists k :: k in entries && (k.None? || entries[k].None?) then
      Failure(NullPointerException)
    else
      Success(AttachmentMap(map k | k in entries :: k.value := entries[k].value))
  }

  /** The HashMap the forEach fills when every value casts. */
  function CastMap(attachments: map<Option<string>, JavaObject?>): map<Option<string>, Option<string>>
    requires AllCastToString(attachments)
  {
    map k | k in attachments :: CastToString(attachments[k]).value
  }

  /** writeAttachments when no value fails the cast. Only a null map writes
      nothing; any other map, the empty one included, is one StringMap record
      or an exception. */
  function AttachmentsEffect(utils: ProtobufUtils, attachments: Option<map<Option<string>, JavaObject?>>): (e: Effect)
    requires attachments.Some? ==> AllCastToString(attachments.value)
    ensures e.Skip? <==> attachments.None?
  {
    match attachments
    case None => Skip
    case Some(m) =>
      match BuildAttachmentMap(CastMap(m))
      case Failure(x) => Throw(x)
      case Success(proto) => Rendered(utils.serializeJson(Some(Proto(proto))))
  }

  /** A caller's map whose keys and values are all non-null strings. */
  predicate AllStrings(attachments: map<Option<string>, JavaObject?>) {
    forall k :: k in attachments ==> k.Some? && attachments[k] != null && attachments[k].value.JString?
  }

  /** Such a map read as a map from strings to strings. */
  function StringsOf(attachments: map<Option<string>, JavaObject?>): map<string, string>
    requires AllStrings(attachments)
  {
    map k | k in attachments :: k.value := attachments[k].value.chars
  }

  /** A map of non-null string keys and non-null String values is written as
      the StringMap with the same keys bound to the same strings. */
  lemma StringAttachmentsArePreserved(utils: ProtobufUtils, attachments: map<Option<string>, JavaObject?>)
    requires AllStrings(attachments)
    ensures AllCastToString(attachments)
    ensures AttachmentsEffect(utils, Some(attachments)) ==
              Rendered(utils.serializeJson(Some(Proto(AttachmentMap(StringsOf(attachments))))))
  {
    var entries := CastMap(attachments);
    assert forall k :: k in entries ==> entries[k] == Some(attachments[k].value.chars);
    var built := BuildAttachmentMap(entries);
    assert built.Success?;
    assert built.value.attachments == StringsOf(attachments);
    assert AttachmentsEffect(utils, Some(attachments)) == Rendered(utils.serializeJson(Some(Proto(built.value))));
  }

  /** A null key passes the cast loop and is rejected by the map builder:
      NullPointerException, nothing written. */
  lemma NullKeyIsRejected(utils: ProtobufUtils, attachments: map<Option<string>, JavaObject?>)
    requires None in attachments && AllCastToString(attachments)
    ensures AttachmentsEffect(utils, Some(attachments)) == Throw(NullPointerException)
  {
    assert None in CastMap(attachments);
  }

  /** An empty attachment map is not skipped: it is printed as one empty
      StringMap record. */
  lemma EmptyAttachmentsWriteOneRecord(utils: ProtobufUtils)
    ensures AllCastToString(map[])
    ensures AttachmentsEffect(utils, Some(map[])) == Rendered(utils.serializeJson(Some(Proto(AttachmentMap(map[])))))
  {
  }

  // ------------------------------------------------------------------ the sink

  class GenericProtobufJsonObjectOutput {
    const utils: ProtobufUtils
    /** The framework's heartbeat sentinel and the string sent in its place. */
    const heartbeatEvent: JavaObject?
    const mockHeartbeatEvent: string
    const writer: PrintWriter
    /** The JSON texts committed so far, in order. */
    ghost var records: seq<string>

    /** The stream holds exactly the records, each followed by one line
        separator, and all of it has been flushed. */
    ghost predicate Valid()
      reads this, writer
    {
      && writer.text == Framed(records, writer.lineSeparator)
      && writer.delivered == |writer.text|
    }

    constructor (utils: ProtobufUtils, heartbeatEvent: JavaObject?, mockHeartbeatEvent: string, lineSeparator: string)
      ensures Valid() && fresh(writer)
      ensures records == []
      ensures this.utils == utils && this.heartbeatEvent == heartbeatEvent
      ensures this.mockHeartbeatEvent == mockHeartbeatEvent && writer.lineSeparator == lineSeparator
    {
      this.utils := utils;
      this.heartbeatEvent := heartbeatEvent;
      this.mockHeartbeatEvent := mockHeartbeatEvent;
      writer := new PrintWriter(lineSeparator);
      records := [];
    }

    /** write, println, flush: one record, then everything is delivered. */
    method Commit(json: string)
      requires Valid()
      modifies this, writer
      ensures Valid()
      ensures records == old(records) + [json]
      ensures writer.text == old(writer.text) + json + writer.lineSeparator
    {
      writer.Write(json);
      writer.Println();
      writer.Flush();
      records := records + [json];
      FramedAppend(old(records), json, writer.lineSeparator);
    }

    method WriteObject(obj: JavaObject?) returns (outcome: Completion)
      requires Valid()
      modifies this, writer
      ensures Valid()
      ensures records == After(old(records), ObjectEffect(utils, ValueOf(obj)))
      ensures outcome == CompletionOf(ObjectEffect(utils, ValueOf(obj)))
    {
      if obj == null {
        return Threw(IllegalArgumentException(NullPayloadMessage));
      }
      if !utils.isSupported(obj.value.ClassName()) {
        return Threw(IllegalArgumentException(UnsupportedClassMessage(obj.value.ClassName())));
      }
      var printed := utils.serializeJson(Some(obj.value));
      if printed.Failure? {
        return Threw(printed.error);
      }
      Commit(printed.value);
      outcome := Normal;
    }

    method WriteBool(v: bool) returns (outcome: Completion)
      requires Valid()
      modifies this, writer
      ensures Valid()
      ensures records == After(old(records), MessageEffect(utils, Success(BoolValue(v))))
      ensures outcome == CompletionOf(MessageEffect(utils, Success(BoolValue(v))))
    {
      var message := new JavaObject(Proto(BoolValue(v)));
      outcome := WriteObject(message);
    }

    /** A byte is widened to the Int32 wrapper: the same record as WriteInt. */
    method WriteByte(v: int8) returns (outcome: Completion)
      requires Valid()
      modifies this, writer
      ensures Valid()
      ensures records == After(old(records), MessageEffect(utils, Success(Int32Value(v as int32))))
      ensures outcome == CompletionOf(MessageEffect(utils, Success(Int32Value(v as int32))))
    {
      var message := new JavaObject(Proto(Int32Value(v as int32)));
      outcome := WriteObject(message);
    }

    /** A short is widened to the Int32 wrapper: the same record as WriteInt. */
    method WriteShort(v: int16) returns (outcome: Completion)
      requires Valid()
      modifies this, writer
      ensures Valid()
      ensures records == After(old(records), MessageEffect(utils, Success(Int32Value(v as int32))))
      ensures outcome == CompletionOf(MessageEffect(utils, Success(Int32Value(v as int32))))
    {
      var message := new JavaObject(Proto(Int32Value(v as int32)));
      outcome := WriteObject(message);
    }

    method WriteInt(v: int32) returns (outcome: Completion)
      requires Valid()
      modifies this, writer
      ensures Valid()
      ensures records == After(old(records), MessageEffect(utils, Success(Int32Value(v))))
      ensures outcome == CompletionOf(MessageEffect(utils, Success(Int32Value(v))))
    {
      var message := new JavaObject(Proto(Int32Value(v)));
      outcome := WriteObject(message);
    }

    method WriteLong(v: int64) returns (outcome: Completion)
      requires Valid()
      modifies this, writer
      ensures Valid()
      ensures records == After(old(records), MessageEffect(utils, Success(Int64Value(v))))
      ensures outcome == CompletionOf(MessageEffect(utils, Success(Int64Value(v))))
    {
      var message := new JavaObject(Proto(Int64Value(v)));
      outcome := WriteObject(message);
    }

    method WriteFloat(v: Float32) returns (outcome: Completion)
      requires Valid()
      modifies this, writer
      ensures Valid()
      ensures records == After(old(records), MessageEffect(utils, Success(FloatValue(v))))
      ensures outcome == CompletionOf(MessageEffect(utils, Success(FloatValue(v))))
    {
      var message := new JavaObject(Proto(FloatValue(v)));
      outcome := WriteObject(message);
    }

    method WriteDouble(v: Float64) returns (outcome: Completion)
      requires Valid()
      modifies this, writer
      ensures Valid()
      ensures records == After(old(records), MessageEffect(utils, Success(DoubleValue(v))))
      ensures outcome == CompletionOf(MessageEffect(utils, Success(DoubleValue(v))))
    {
      var message := new JavaObject(Proto(DoubleValue(v)));
      outcome := WriteObject(message);
    }

    /** A null string fails in the wrapper builder, before anything is written. */
    method WriteUTF(v: Option<string>) returns (outcome: Completion)
      requires Valid()
      modifies this, writer
      ensures Valid()
      ensures records == After(old(records), UtfEffect(utils, v))
      ensures outcome == CompletionOf(UtfEffect(utils, v))
    {
      if v.None? {
        return Threw(NullPointerException);
      }
      var message := new JavaObject(Proto(StringValue(v.value)));
      outcome := WriteObject(message);
    }

    method WriteBytes(b: array?<int8>) returns (outcome: Completion)
      requires Valid()
      modifies this, writer
      ensures Valid()
      ensures records == After(old(records), BytesEffect(utils, CopyFrom(Bytes(b))))
      ensures outcome == CompletionOf(BytesEffect(utils, CopyFrom(Bytes(b))))
    {
      if b == null {
        return Threw(NullPointerException);
      }
      var message := new JavaObject(Proto(BytesValue(b[..])));
      outcome := WriteObject(message);
    }

    method WriteBytesWindow(b: array?<int8>, off: int32, len: int32) returns (outcome: Completion)
      requires Valid()
      modifies this, writer
      ensures Valid()
      ensures records == After(old(records), BytesEffect(utils, CopyFromRange(Bytes(b), off, len)))
      ensures outcome == CompletionOf(BytesEffect(utils, CopyFromRange(Bytes(b), off, len)))
    {
      if b == null {
        return Threw(NullPointerException);
      }
      if !(0 <= off && 0 <= len && off as int + len as int <= b.Length) {
        return Threw(IndexOutOfBoundsException);
      }
      var message := new JavaObject(Proto(BytesValue(b[off..off as int + len as int])));
      outcome := WriteObject(message);
    }

    method WriteThrowable(th: JavaObject?) returns (outcome: Completion)
      requires Valid()
      modifies this, writer
      ensures Valid()
      ensures records == After(old(records), ThrowableEffect(utils, ValueOf(th)))
      ensures outcome == CompletionOf(ThrowableEffect(utils, ValueOf(th)))
    {
      var subject := th;
      if th != null && th.value.JThrowable? && !utils.isSupported(th.value.ClassName()) {
        var converted := utils.convertToThrowableProto(th.value);
        if converted.Failure? {
          return Threw(converted.error);
        }
        subject := new JavaObject(Proto(converted.value));
      }
      var printed := utils.serializeJson(ValueOf(subject));
      if printed.Failure? {
        return Threw(printed.error);
      }
      Commit(printed.value);
      outcome := Normal;
    }

    method WriteEvent(data: JavaObject?) returns (outcome: Completion)
      requires Valid()
      modifies this, writer
      ensures Valid()
      ensures records == After(old(records), EventEffect(utils, heartbeatEvent, mockHeartbeatEvent, data))
      ensures outcome == CompletionOf(EventEffect(utils, heartbeatEvent, mockHeartbeatEvent, data))
    {
      var s: Option<string>;
      if data == heartbeatEvent {
        s := Some(mockHeartbeatEvent);
      } else {
        var cast := CastToString(data);
        if cast.Failure? {
          return Threw(cast.error);
        }
        s := cast.value;
      }
      outcome := WriteUTF(s);
    }

    /** Only a null map is skipped; a value that does not cast to String makes
        the call throw before anything is written. */
    method WriteAttachments(attachments: Option<map<Option<string>, JavaObject?>>) returns (outcome: Completion)
      requires Valid()
      modifies this, writer
      ensures Valid()
      ensures attachments.None? ==> outcome == Normal && records == old(records)
      ensures attachments.Some? && !AllCastToString(attachments.value) ==>
                && records == old(records)
                && outcome.Threw?
                && exists k :: k in attachments.value && CastToString(attachments.value[k]) == Failure(outcome.exception)
      ensures attachments.Some? ==> AllCastToString(attachments.value) ==>
                && records == After(old(records), AttachmentsEffect(utils, attachments))
                && outcome == CompletionOf(AttachmentsEffect(utils, attachments))
    {
      if attachments.None? {
        return Normal;
      }
      var stringAttachments := CastAll(attachments.value);
      if stringAttachments.Failure? {
        return Threw(stringAttachments.error);
      }
      assert stringAttachments.value == CastMap(attachments.value);
      var proto := BuildAttachmentMap(stringAttachments.value);
      if proto.Failure? {
        return Threw(proto.error);
      }
      var printed := utils.serializeJson(Some(Proto(proto.value)));
      if printed.Failure? {
        return Threw(printed.error);
      }
      Commit(printed.value);
      outcome := Normal;
    }

    /** An explicit flush commits no record. */
    method FlushBuffer()
      requires Valid()
      modifies writer
      ensures Valid()
      ensures records == old(records) && writer.text == old(writer.text)
      ensures writer.delivered == |writer.text|
    {
      writer.Flush();
    }
  }
}
