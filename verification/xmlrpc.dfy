/** The values exchanged with the daemon's XML-RPC interface, as the proxy
    hands them to the client. The transport itself is not part of this model:
    a daemon is a function from the call issued to the reply received. */
module XmlRpc {
  import opened Wrappers

  newtype int32 = x: int | -0x8000_0000 <= x < 0x8000_0000
  newtype int64 = x: int | -0x8000_0000_0000_0000 <= x < 0x8000_0000_0000_0000
  newtype uint8 = x: int | 0 <= x < 0x100

  /** An XML-RPC value: `<string>`, `<i4>`, `<i8>`, `<base64>`, `<array>`, `<struct>`. */
  datatype Value =
    | Str(s: string)
    | Int(i: int32)
    | Long(n: int64)
    | Bytes(data: seq<uint8>)
    | Array(items: seq<Value>)
    | Struct(members: seq<(string, Value)>)

  /** A method call: the remote method name and its positional parameters. */
  datatype Call = Call(methodName: string, params: seq<Value>)

  /** Why a round trip produced no usable value: the connection failed, the
      daemon answered with an XML-RPC fault, or the reply does not have the
      type the proxy method declares. The proxy throws for each of them. */
  datatype Fault = ConnectionFailed | DaemonFault(code: int, message: string) | TypeMismatch

  type Reply = Result<Value, Fault>

  /** The reply of a proxy method declared to return `int`. */
  function AsInt(reply: Reply): (r: Result<int32, Fault>)
    ensures r.Success? <==> reply.Success? && reply.value.Int?
    ensures r.Success? ==> reply.value == Int(r.value)
    ensures reply.Failure? ==> r == Failure(reply.error)
  {
    match reply
    case Failure(f) => Failure(f)
    case Success(Int(i)) => Success(i)
    case Success(_) => Failure(TypeMismatch)
  }

  /** The reply of a proxy method declared to return `string`. */
  function AsString(reply: Reply): (r: Result<string, Fault>)
    ensures r.Success? <==> reply.Success? && reply.value.Str?
    ensures r.Success? ==> reply.value == Str(r.value)
    ensures reply.Failure? ==> r == Failure(reply.error)
  {
    match reply
    case Failure(f) => Failure(f)
    case Success(Str(s)) => Success(s)
    case Success(_) => Failure(TypeMismatch)
  }

  /** The reply of a proxy method declared to return `object[]`. */
  function AsArray(reply: Reply): (r: Result<seq<Value>, Fault>)
    ensures r.Success? <==> reply.Success? && reply.value.Array?
    ensures r.Success? ==> reply.value == Array(r.value)
    ensures reply.Failure? ==> r == Failure(reply.error)
  {
    match reply
    case Failure(f) => Failure(f)
    case Success(Array(items)) => Success(items)
    case Success(_) => Failure(TypeMismatch)
  }
}
