/** The result and value types every other module builds on. */
module Wrappers {

  datatype Option<+T> = None | Some(value: T)

  datatype Result<+T, +E> = Ok(value: T) | Err(error: E)
}

/** The monotonic clock, in ticks. */
module Clock {

  // `saturating_duration_since`.
  function Since(now: nat, then_: nat): nat { if now >= then_ then now - then_ else 0 }
}

/** Text as the bytes of its UTF-8. */
module Bytes {

  newtype Byte = x: int | 0 <= x < 256

  type Text = seq<Byte>
}

/** A JSON value, as the wire types read and print it. */
module Json {

  // A number is a non-negative integer, a negative one, or anything else, kept as its text.
  datatype Number = PosInt(value: nat) | NegInt(magnitude: nat) | Float(text: string)

  datatype Json =
    | Null
    | Bool(b: bool)
    | Num(n: Number)
    | Str(s: string)
    | Arr(items: seq<Json>)
    | Obj(fields: map<string, Json>)

  const U64_MAX: nat := 0xFFFF_FFFF_FFFF_FFFF
}
