/** Decoded JSON values, and the two ways a fallible step ends. */
module Json {

  datatype Json =
    | Null
    | Bool(truth: bool)
    | Number(n: real)
    | Str(text: string)
    | Arr(items: seq<Json>)
    | Obj(fields: map<string, Json>)

  newtype byte = x: int | 0 <= x < 256

  datatype Result<+T, +E> = Ok(value: T) | Err(error: E)
}
