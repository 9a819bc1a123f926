/** Types shared by the client, the server and the codecs. */
module Basics {

  datatype Option<+T> = None | Some(value: T)

  /** Sequence numbers are Go `uint64` values: they are incremented modulo this bound. */
  const TWO_TO_THE_64: nat := 0x1_0000_0000_0000_0000

  /** A JSON value. Only `null` matters to the codecs; every other value is carried as is. */
  datatype Json = Null | Data(text: string)

  /** The Go error values that the receive loop tells apart. */
  datatype Error = EOF | UnexpectedEOF | Shutdown | Other(text: string)

  /** 1 when `b` holds, 0 otherwise: conservation laws add these up. */
  function One(b: bool): nat {
    if b then 1 else 0
  }
}
