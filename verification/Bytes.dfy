/** Bytes, and the keyed hash over them. */
module Bytes {

  type Byte = b: int | 0 <= b < 256

  /** HMAC-SHA256: the hash of a message under a secret. Nothing is assumed of it. */
  type Hmac = (string, string) -> seq<Byte>
}
