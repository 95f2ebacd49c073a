/** Small shared vocabulary: optional values, results, the byte and port
    ranges of the wire format, and the runtime faults the Node.js buffer
    operations of the proxy raise. */
module Basics {

  datatype Option<T> = None | Some(value: T)

  datatype Result<T, E> = Ok(value: T) | Err(error: E)

  /** An octet as `Buffer.readUint8` returns it and `Buffer.writeUint8` accepts it. */
  type Byte = b: int | 0 <= b < 0x100

  /** A 16-bit port as `Buffer.readUInt16BE` returns it. */
  type Port = p: int | 0 <= p < 0x1_0000

  /** The exceptions of the runtime that the protocol code lets escape.
      Each of them aborts the `'data'` handler that triggered it. */
  datatype Fault =
    | ReadPastEnd        // readUint8 / readUInt16BE at an offset beyond the chunk
    | ValueOutOfRange    // writeUint8 of a value outside 0..255
    | OffsetOutOfRange   // writeUint8 at an offset beyond the buffer
    | NegativeSize       // Buffer.alloc(-1): a reply for an unknown address type
    | MalformedAddress   // ipaddr.parse of a text that is no IPv6 address
}
