/** Values shared by every module: optional values, the exceptions the
    Python code raises (as data), and bytes. */
module Base {

  datatype Option<+T> = None | Some(value: T)

  /** The Python exception classes the modelled code can raise.  A raised
      exception is a `Err` value; nothing is caught anywhere in the core,
      so an error simply propagates to the caller. */
  datatype Error =
    | ValueError(msg: string)
    | StructError          // struct.unpack on a buffer that is too short
    | UnicodeDecodeError   // bytes.decode('ascii') on a byte >= 0x80
    | TypeError            // an operation on None or on a value of the wrong kind
    | IndexError           // a list, array or tuple index out of range
    | ZeroDivisionError
    | OverflowError        // datetime arithmetic before year 1, or an argument beyond a C int
    | AssertionError       // a failing `assert` statement
    | TransportError       // any failure of the object-store client

  datatype Result<+T> = Ok(value: T) | Err(error: Error)

  newtype byte = x: int | 0 <= x < 256

  /** Python's `seq[i]` for an in-range index, negative indexes counting
      from the end; `None` is an IndexError. */
  function PySlot(i: int, len: nat): (r: Option<nat>)
    ensures r.Some? <==> -(len as int) <= i < len
    ensures r.Some? ==> r.value < len && (r.value == i || r.value == len + i)
  {
    if 0 <= i < len then Some(i)
    else if -(len as int) <= i < 0 then Some(len + i)
    else None
  }
}
