/** The wire vocabulary shared by the web side and the selector: the integer
    widths of the IDL, the ValueRequest union, and the two instance-lifecycle
    kinds a DDS reader reports. */
module Wire {

  type Int32 = x: int | -0x8000_0000 <= x < 0x8000_0000

  type UInt32 = x: int | 0 <= x < 0x1_0000_0000

  newtype Int64 = x: int | -0x8000_0000_0000_0000 <= x < 0x8000_0000_0000_0000

  datatype Option<+T> = None | Some(value: T)

  predicate FitsInt32(x: int) {
    -0x8000_0000 <= x < 0x8000_0000
  }

  predicate FitsUInt32(x: int) {
    0 <= x < 0x1_0000_0000
  }

  /** PLC::ValueRequest. The ADD name is never read by the selector. */
  datatype Command =
    | Add(uid: Int32)
    | Delete(uid: Int32)
    | Metadata(uid: Int32)
    | Period(ms: UInt32)

  /** What a taken or read DDS sample carries besides its key. */
  datatype Kind<+T> =
    | Valid(data: T)
    | Disposed
    | Unregistered

  /** The resolution of one outbound writer call, fixed in advance for each
      sample: whether it hits max_blocking_time, and whether the writer holds a
      handle for the instance afterwards when the middleware is free to choose. */
  datatype Outcome = Outcome(timedOut: bool, known: bool)

  lemma EmptyPrefix<T>(s: seq<T>)
    ensures [] + s == s
  {
  }

  lemma Associate<T>(a: seq<T>, b: seq<T>, c: seq<T>)
    ensures (a + b) + c == a + (b + c)
  {
  }
}
