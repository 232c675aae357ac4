/** Vocabulary shared by the channel layer (include/rtc/common.hpp): optional
    values, the range of `size_t`, and the binary-or-text message variant. */
module Common {

  /** `std::optional`: `None` is the empty optional (or a null `std::function`). */
  datatype Option<+T> = None | Some(value: T)

  /** One past the largest `size_t` on a 64-bit target. */
  const SIZE_LIMIT: nat := 0x1_0000_0000_0000_0000

  /** `size_t`. The counters of a channel are only stored and compared, never
      added to, so no wrap-around needs to be modelled. */
  type Size = n: nat | n < SIZE_LIMIT

  type Byte = bv8

  /** `message_variant = variant<binary, string>`. */
  datatype Message = Binary(bytes: seq<Byte>) | Text(text: string)

  /** The payload size of a message: bytes of a binary message, characters of a text one. */
  function MessageSize(m: Message): nat
  {
    match m
    case Binary(b) => |b|
    case Text(s) => |s|
  }
}
