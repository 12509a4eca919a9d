/** Values shared by the other modules. */
module Prelude {

  datatype Option<+T> = None | Some(value: T)

  datatype Result<+T, +E> = Ok(value: T) | Err(error: E)

  // An IM conversation.
  datatype Route = Route(channel: string, conversation: string)

  newtype Byte = x: int | 0 <= x < 256

  // `s[-n:]`
  function Newest<K>(s: seq<K>, n: nat): seq<K>
    requires n > 0
  {
    if |s| <= n then s else s[|s| - n..]
  }

  function Members<K(==)>(s: seq<K>): set<K> {
    set k | k in s
  }
}
