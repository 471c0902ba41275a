# GenericProtobufJsonObjectOutput, modelled in Dafny

`GenericProtobufJsonObjectOutput` is the write side of Dubbo's generic protobuf-JSON serialization.
The primitive writes (`writeBool` … `writeBytes`), `writeEvent` and `writeAttachments` turn
their argument into a protobuf message. For a primitive that message is a wrapper, and byte and
short are widened to `Int32Value`. `writeObject` converts nothing: it rejects null and any class
the registry does not support, and prints the object itself. `writeThrowable` converts only a
Throwable of an unsupported class. Anything else, null included, goes to the printer unchanged.
What is printed as JSON is committed to a `PrintWriter` as one record: the text, one line
separator, then a flush.

The project has four modules:

- `JavaLang` (`java_lang.dfy`): Java's fixed-width integers, null as `Option.None`, the
  exceptions a write can throw, and `Completion` (a call returns or throws).
- `ProtobufModel` (`protobuf_model.dfy`): wrapper messages, the other objects a caller can pass,
  `JavaObject` (a class, so `==` is reference identity, as in Java), and `ProtobufUtils`. That
  last one bundles the three utility calls the sink makes but does not define: the registry's
  `isSupported`, the JSON printer `serializeJson`, and `convertToThrowableProto`. They are
  parameters, so every property below holds for every registry and every printer. The printer
  and the conversion may fail.
- `PrintWriting` (`print_writer.dfy`): the `PrintWriter` (characters accepted, and the prefix
  delivered to the stream by `flush`). Also `Framed`, the text of a sequence of records with each
  one followed by one separator.
- `JsonObjectOutput` (`object_output.dfy`): for each write, the `Effect` it has as a pure function
  of its arguments: commit one record with a given JSON text, write nothing, or throw first.
  Then the sink class, whose methods follow the Java code statement by statement. Each method
  is proved to have exactly that effect on the ghost record list, and to keep the invariant
  `Valid()`: the writer's text is `Framed(records, lineSeparator)` and all of it has been flushed.

Two behaviours of the code are easy to miss:

- `writeAttachments` with an empty, non-null map writes one record (an empty StringMap). Only
  a null map returns without writing; any other map, the empty one included, writes one record
  or throws (lines 144-153).
- `writeThrowable` runs no type guard of its own. A value that is not a `Throwable`, and
  `null` too, goes to the JSON printer unchanged (lines 120-123).

## Model

| member | source | states |
|---|---|---|
| `JsonObjectOutput.After` | dubbo-serialization-extensions/dubbo-serialization-protobuf/src/main/java/org/apache/dubbo/common/serialize/protobuf/support/GenericProtobufJsonObjectOutput.java:113-115 | a call appends at most one record, the emitted text, and leaves every earlier record as it was |
| `JsonObjectOutput.UnsupportedClassMessage` | dubbo-serialization-extensions/dubbo-serialization-protobuf/src/main/java/org/apache/dubbo/common/serialize/protobuf/support/GenericProtobufJsonObjectOutput.java:110 | the rejection message starts with the common prefix and ends with the rejected class's name |
| `JsonObjectOutput.ObjectEffect` | dubbo-serialization-extensions/dubbo-serialization-protobuf/src/main/java/org/apache/dubbo/common/serialize/protobuf/support/GenericProtobufJsonObjectOutput.java:104-116 | writeObject never skips. null throws IllegalArgumentException with the null message. An unsupported class throws it with that class's name. A record is committed exactly when the object is non-null, its class supported, and printing succeeds |
| `JsonObjectOutput.GuardMessagesNameTheCulprit` | dubbo-serialization-extensions/dubbo-serialization-protobuf/src/main/java/org/apache/dubbo/common/serialize/protobuf/support/GenericProtobufJsonObjectOutput.java:106-111 | the null message ends in "null", the class message ends in the class name, and both share one prefix |
| `JsonObjectOutput.WrapperPassesGuard` | dubbo-serialization-extensions/dubbo-serialization-protobuf/src/main/java/org/apache/dubbo/common/serialize/protobuf/support/GenericProtobufJsonObjectOutput.java:52-101 | when the registry knows the wrapper classes, a primitive write is never rejected by the guard: its record is the printed wrapper |
| `JsonObjectOutput.CopyFromRange` | dubbo-serialization-extensions/dubbo-serialization-protobuf/src/main/java/org/apache/dubbo/common/serialize/protobuf/support/GenericProtobufJsonObjectOutput.java:99-101 | the copy succeeds exactly when the window [off, off+len) lies inside a non-null array. It then holds exactly len bytes, byte i being b[off+i]. A null array throws NullPointerException and a bad window IndexOutOfBoundsException |
| `JsonObjectOutput.WindowOnly` | dubbo-serialization-extensions/dubbo-serialization-protobuf/src/main/java/org/apache/dubbo/common/serialize/protobuf/support/GenericProtobufJsonObjectOutput.java:99-101 | changing bytes outside the window, keeping the length, does not change what is copied |
| `JsonObjectOutput.WholeArrayIsFullWindow` | dubbo-serialization-extensions/dubbo-serialization-protobuf/src/main/java/org/apache/dubbo/common/serialize/protobuf/support/GenericProtobufJsonObjectOutput.java:93-101 | writeBytes(b) copies the same bytes as writeBytes(b, 0, b.length), null included |
| `JsonObjectOutput.ThrowableSubject` | dubbo-serialization-extensions/dubbo-serialization-protobuf/src/main/java/org/apache/dubbo/common/serialize/protobuf/support/GenericProtobufJsonObjectOutput.java:119-122 | the call fails exactly when a needed conversion throws, with that exception. Otherwise null stays null, and the argument is replaced only when it is a Throwable of an unsupported class, and only by a protobuf message, so no Throwable of an unsupported class reaches the printer |
| `JsonObjectOutput.SupportedThrowableIsWrittenAsObject` | dubbo-serialization-extensions/dubbo-serialization-protobuf/src/main/java/org/apache/dubbo/common/serialize/protobuf/support/GenericProtobufJsonObjectOutput.java:118-126 | for a value of a supported class, writeThrowable has the same effect as writeObject |
| `JsonObjectOutput.UnsupportedThrowableIsConverted` | dubbo-serialization-extensions/dubbo-serialization-protobuf/src/main/java/org/apache/dubbo/common/serialize/protobuf/support/GenericProtobufJsonObjectOutput.java:119-125 | writeObject rejects a Throwable of an unsupported class, while writeThrowable prints its conversion, or rethrows the conversion's exception with nothing written |
| `JsonObjectOutput.HeartbeatIsWrittenAsMock` | dubbo-serialization-extensions/dubbo-serialization-protobuf/src/main/java/org/apache/dubbo/common/serialize/protobuf/support/GenericProtobufJsonObjectOutput.java:129-133 | writeEvent(heartbeat sentinel) has the same effect as writeUTF(mock heartbeat string) |
| `JsonObjectOutput.OtherEventIsWrittenAsItself` | dubbo-serialization-extensions/dubbo-serialization-protobuf/src/main/java/org/apache/dubbo/common/serialize/protobuf/support/GenericProtobufJsonObjectOutput.java:129-134 | any string object other than the sentinel, by reference, is written as writeUTF of its own characters, even when its contents equal the sentinel's |
| `JsonObjectOutput.NonStringEventIsRejected` | dubbo-serialization-extensions/dubbo-serialization-protobuf/src/main/java/org/apache/dubbo/common/serialize/protobuf/support/GenericProtobufJsonObjectOutput.java:133 | a payload that is not the sentinel and not a String throws ClassCastException naming its class, and nothing is written |
| `JsonObjectOutput.NullEventIsRejected` | dubbo-serialization-extensions/dubbo-serialization-protobuf/src/main/java/org/apache/dubbo/common/serialize/protobuf/support/GenericProtobufJsonObjectOutput.java:130-133 | when the sentinel is not null, a null payload passes the cast and writeUTF(null) throws NullPointerException, and nothing is written |
| `JsonObjectOutput.CastAll` | dubbo-serialization-extensions/dubbo-serialization-protobuf/src/main/java/org/apache/dubbo/common/serialize/protobuf/support/GenericProtobufJsonObjectOutput.java:148-149 | the copy succeeds exactly when every value casts to String. It then has the same keys, each bound to its value's cast. On failure, the exception is the ClassCastException of some entry |
| `JsonObjectOutput.BuildAttachmentMap` | dubbo-serialization-extensions/dubbo-serialization-protobuf/src/main/java/org/apache/dubbo/common/serialize/protobuf/support/GenericProtobufJsonObjectOutput.java:150 | the StringMap is built exactly when no key and no value is null, binding the same keys to the same strings. Otherwise NullPointerException is thrown |
| `JsonObjectOutput.AttachmentsEffect` | dubbo-serialization-extensions/dubbo-serialization-protobuf/src/main/java/org/apache/dubbo/common/serialize/protobuf/support/GenericProtobufJsonObjectOutput.java:143-153 | when no value fails the cast, the call returns normally without writing exactly when the map is null |
| `JsonObjectOutput.StringAttachmentsArePreserved` | dubbo-serialization-extensions/dubbo-serialization-protobuf/src/main/java/org/apache/dubbo/common/serialize/protobuf/support/GenericProtobufJsonObjectOutput.java:143-153 | a map whose keys and values are all non-null strings is written as the printed StringMap binding the same keys to the same strings |
| `JsonObjectOutput.NullKeyIsRejected` | dubbo-serialization-extensions/dubbo-serialization-protobuf/src/main/java/org/apache/dubbo/common/serialize/protobuf/support/GenericProtobufJsonObjectOutput.java:148-150 | a null key passes the cast loop and the map builder rejects it: NullPointerException, and nothing is written |
| `JsonObjectOutput.EmptyAttachmentsWriteOneRecord` | dubbo-serialization-extensions/dubbo-serialization-protobuf/src/main/java/org/apache/dubbo/common/serialize/protobuf/support/GenericProtobufJsonObjectOutput.java:143-153 | an empty, non-null map is not skipped: its effect is the printed empty StringMap |
| `PrintWriting.FramedConcat` | dubbo-serialization-extensions/dubbo-serialization-protobuf/src/main/java/org/apache/dubbo/common/serialize/protobuf/support/GenericProtobufJsonObjectOutput.java:113-115 | the framed text of two record sequences in a row is the two framed texts in a row |
| `PrintWriting.FramedAppend` | dubbo-serialization-extensions/dubbo-serialization-protobuf/src/main/java/org/apache/dubbo/common/serialize/protobuf/support/GenericProtobufJsonObjectOutput.java:113-115 | committing one record appends exactly its text and one line separator to the stream |
| `PrintWriting.RecordAt` | dubbo-serialization-extensions/dubbo-serialization-protobuf/src/main/java/org/apache/dubbo/common/serialize/protobuf/support/GenericProtobufJsonObjectOutput.java:113-115 | record i sits in the stream right after the records before it, followed by exactly one line separator |
| `JsonObjectOutput.GenericProtobufJsonObjectOutput.constructor` | dubbo-serialization-extensions/dubbo-serialization-protobuf/src/main/java/org/apache/dubbo/common/serialize/protobuf/support/GenericProtobufJsonObjectOutput.java:48-50 | a fresh writer, no records, the invariant holds |
| `JsonObjectOutput.GenericProtobufJsonObjectOutput.Commit` | dubbo-serialization-extensions/dubbo-serialization-protobuf/src/main/java/org/apache/dubbo/common/serialize/protobuf/support/GenericProtobufJsonObjectOutput.java:113-115 | write, println, flush: the text and one separator are appended, one record is added, everything is delivered |
| `JsonObjectOutput.GenericProtobufJsonObjectOutput.WriteObject` | dubbo-serialization-extensions/dubbo-serialization-protobuf/src/main/java/org/apache/dubbo/common/serialize/protobuf/support/GenericProtobufJsonObjectOutput.java:104-116 | records and outcome are those of ObjectEffect; a rejected object leaves the stream unchanged |
| `JsonObjectOutput.GenericProtobufJsonObjectOutput.WriteBool` | dubbo-serialization-extensions/dubbo-serialization-protobuf/src/main/java/org/apache/dubbo/common/serialize/protobuf/support/GenericProtobufJsonObjectOutput.java:52-56 | same effect as writeObject of BoolValue(v) |
| `JsonObjectOutput.GenericProtobufJsonObjectOutput.WriteByte` | dubbo-serialization-extensions/dubbo-serialization-protobuf/src/main/java/org/apache/dubbo/common/serialize/protobuf/support/GenericProtobufJsonObjectOutput.java:58-61 | same effect as WriteInt of the widened value: the Int32 wrapper holding v |
| `JsonObjectOutput.GenericProtobufJsonObjectOutput.WriteShort` | dubbo-serialization-extensions/dubbo-serialization-protobuf/src/main/java/org/apache/dubbo/common/serialize/protobuf/support/GenericProtobufJsonObjectOutput.java:63-66 | same effect as WriteInt of the widened value: the Int32 wrapper holding v |
| `JsonObjectOutput.GenericProtobufJsonObjectOutput.WriteInt` | dubbo-serialization-extensions/dubbo-serialization-protobuf/src/main/java/org/apache/dubbo/common/serialize/protobuf/support/GenericProtobufJsonObjectOutput.java:68-71 | same effect as writeObject of Int32Value(v) |
| `JsonObjectOutput.GenericProtobufJsonObjectOutput.WriteLong` | dubbo-serialization-extensions/dubbo-serialization-protobuf/src/main/java/org/apache/dubbo/common/serialize/protobuf/support/GenericProtobufJsonObjectOutput.java:73-76 | same effect as writeObject of Int64Value(v) |
| `JsonObjectOutput.GenericProtobufJsonObjectOutput.WriteFloat` | dubbo-serialization-extensions/dubbo-serialization-protobuf/src/main/java/org/apache/dubbo/common/serialize/protobuf/support/GenericProtobufJsonObjectOutput.java:78-81 | same effect as writeObject of FloatValue(v) |
| `JsonObjectOutput.GenericProtobufJsonObjectOutput.WriteDouble` | dubbo-serialization-extensions/dubbo-serialization-protobuf/src/main/java/org/apache/dubbo/common/serialize/protobuf/support/GenericProtobufJsonObjectOutput.java:83-86 | same effect as writeObject of DoubleValue(v) |
| `JsonObjectOutput.GenericProtobufJsonObjectOutput.WriteUTF` | dubbo-serialization-extensions/dubbo-serialization-protobuf/src/main/java/org/apache/dubbo/common/serialize/protobuf/support/GenericProtobufJsonObjectOutput.java:88-91 | null throws NullPointerException with nothing written; otherwise same effect as writeObject of StringValue(v) |
| `JsonObjectOutput.GenericProtobufJsonObjectOutput.WriteBytes` | dubbo-serialization-extensions/dubbo-serialization-protobuf/src/main/java/org/apache/dubbo/common/serialize/protobuf/support/GenericProtobufJsonObjectOutput.java:93-96 | same effect as writeObject of BytesValue of the whole array; null throws with nothing written |
| `JsonObjectOutput.GenericProtobufJsonObjectOutput.WriteBytesWindow` | dubbo-serialization-extensions/dubbo-serialization-protobuf/src/main/java/org/apache/dubbo/common/serialize/protobuf/support/GenericProtobufJsonObjectOutput.java:98-101 | same effect as writeObject of BytesValue of exactly the window; a bad window or null throws with nothing written |
| `JsonObjectOutput.GenericProtobufJsonObjectOutput.WriteThrowable` | dubbo-serialization-extensions/dubbo-serialization-protobuf/src/main/java/org/apache/dubbo/common/serialize/protobuf/support/GenericProtobufJsonObjectOutput.java:118-126 | prints the throwable subject and commits one record, or rethrows the conversion's or the printer's exception with nothing written |
| `JsonObjectOutput.GenericProtobufJsonObjectOutput.WriteEvent` | dubbo-serialization-extensions/dubbo-serialization-protobuf/src/main/java/org/apache/dubbo/common/serialize/protobuf/support/GenericProtobufJsonObjectOutput.java:128-134 | records and outcome are those of the sentinel substitution followed by writeUTF |
| `JsonObjectOutput.GenericProtobufJsonObjectOutput.WriteAttachments` | dubbo-serialization-extensions/dubbo-serialization-protobuf/src/main/java/org/apache/dubbo/common/serialize/protobuf/support/GenericProtobufJsonObjectOutput.java:142-154 | null: returns normally, nothing written. A value that is not a string: throws that entry's ClassCastException, nothing written. Otherwise: the effect of building and printing the StringMap. That is one record even for an empty map, or NullPointerException for a null key or value |
| `JsonObjectOutput.GenericProtobufJsonObjectOutput.FlushBuffer` | dubbo-serialization-extensions/dubbo-serialization-protobuf/src/main/java/org/apache/dubbo/common/serialize/protobuf/support/GenericProtobufJsonObjectOutput.java:156-159 | no record and no character is added; everything written is delivered |

## Left out

- `ProtobufUtils.isSupported`, `serializeJson` and `convertToThrowableProto` are not part of this model. They are the fields of a `ProtobufUtils` value given to the constructor. No JSON text is modelled.
- `HEARTBEAT_EVENT` and `MOCK_HEARTBEAT_EVENT` come from Dubbo's `CommonConstants`, which is not part of this model. They are constructor parameters: a reference that may be null, and a string.
- The generated protobuf builders are not part of this model. The model assumes what protobuf-java documents: `setValue(null)` on `StringValue` throws NullPointerException, and a map field rejects a null value with NullPointerException. It also assumes a map field rejects a null key the same way. It also assumes `ByteString.copyFrom` behaves as documented: NullPointerException for a null array, IndexOutOfBoundsException for a window outside the array.
- WriteBytesWindow: the window check uses mathematical integers for `off + len`. When that sum overflows in Java, `ByteString`'s check also rejects it, so the outcome is the same.
- CastAll: the order in which `forEach` visits the caller's map is not modelled. When several attachment values are not strings, the model says only that the exception names one of them.
- `PrintWriter` and `OutputStreamWriter` internals are not modelled: character encoding, buffering, and the error flag that replaces `IOException`. The stream is modelled only as the prefix of the text that `flush` has delivered.
- Float and double values are carried as their bit patterns and never computed with.
- Java strings are UTF-16 and may hold unpaired surrogates, which a Dafny `string` cannot. `StringValue` contents, attachment keys and values, and class names are modelled as Dafny strings. No operation here looks inside them: the printer is a parameter and the heartbeat test compares references.
- The paired reader is not modelled, so there are no decode round trips. `RecordAt` locates records only given their lengths: a JSON text may itself contain line breaks.
- Java overloading: `writeBytes(byte[], int, int)` is `WriteBytesWindow`. `writeUTF(null)` is `WriteUTF(None)`.
- Concurrency is not modelled. The sink is not synchronized and assumes one writer at a time.
