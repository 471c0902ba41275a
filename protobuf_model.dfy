// The values the sink handles: protobuf wrapper messages, the other Java
// objects a caller can pass in, and the protobuf utilities the sink calls but
// that are not part of this model (their behaviour is a parameter).

module ProtobufModel {
  import opened JavaLang

  const BoolValueClass := "com.google.protobuf.BoolValue"
  const Int32ValueClass := "com.google.protobuf.Int32Value"
  const Int64ValueClass := "com.google.protobuf.Int64Value"
  const FloatValueClass := "com.google.protobuf.FloatValue"
  const DoubleValueClass := "com.google.protobuf.DoubleValue"
  const StringValueClass := "com.google.protobuf.StringValue"
  const BytesValueClass := "com.google.protobuf.BytesValue"
  const MapValueClass := "org.apache.dubbo.common.serialize.protobuf.support.wrapper.MapValue$Map"
  const StringClass := "java.lang.String"

  /** A protobuf message: one of the wrapper kinds the sink builds itself, or
      any other generated message class (the throwable representation among
      them), whose fields are carried as its binary encoding. */
  datatype Message =
    | BoolValue(boolValue: bool)
    | Int32Value(int32Value: int32)
    | Int64Value(int64Value: int64)
    | FloatValue(floatValue: Float32)
    | DoubleValue(doubleValue: Float64)
    | StringValue(stringValue: string)
    | BytesValue(bytesValue: seq<int8>)
    | AttachmentMap(attachments: map<string, string>)
    | Generated(messageClass: string, encoded: seq<int8>)
  {
    /** The runtime class name, as Class.getName() reports it. */
    function ClassName(): string {
      match this
      case BoolValue(_) => BoolValueClass
      case Int32Value(_) => Int32ValueClass
      case Int64Value(_) => Int64ValueClass
      case FloatValue(_) => FloatValueClass
      case DoubleValue(_) => DoubleValueClass
      case StringValue(_) => StringValueClass
      case BytesValue(_) => BytesValueClass
      case AttachmentMap(_) => MapValueClass
      case Generated(c, _) => c
    }

    predicate IsWrapper() {
      !Generated?
    }
  }

  /** The contents of a Java object the sink may be handed. */
  datatype Value =
    | Proto(message: Message)
    | JString(chars: string)
    | JThrowable(throwableClass: string, detailMessage: Option<string>)
    | JOther(otherClass: string)
  {
    function ClassName(): string {
      match this
      case Proto(m) => m.ClassName()
      case JString(_) => StringClass
      case JThrowable(c, _) => c
      case JOther(c) => c
    }
  }

  /** A Java object. It is a class so that `==` on references is identity,
      as Java's `==` on objects is. */
  class JavaObject {
    const value: Value

    constructor (value: Value)
      ensures this.value == value
    {
      this.value := value;
    }
  }

  /** What a reference points at; None for null. */
  function ValueOf(o: JavaObject?): Option<Value> {
    if o == null then None else Some(o.value)
  }

  /** The protobuf utilities the sink calls: the registry's "is this class
      supported" test, the JSON printer (which may throw, and is also handed
      null or unsupported objects by writeThrowable) and the conversion of an
      exception to the generic throwable message (which may throw too). */
  datatype ProtobufUtils = ProtobufUtils(
    isSupported: string -> bool,
    serializeJson: Option<Value> -> Result<string, JavaException>,
    convertToThrowableProto: Value -> Result<Message, JavaException>)
  {
    /** The registry knows every wrapper class the sink builds. */
    predicate SupportsWrappers() {
      && isSupported(BoolValueClass)
      && isSupported(Int32ValueClass)
      && isSupported(Int64ValueClass)
      && isSupported(FloatValueClass)
      && isSupported(DoubleValueClass)
      && isSupported(StringValueClass)
      && isSupported(BytesValueClass)
      && isSupported(MapValueClass)
    }
  }
}
