/** File contents and their digests. */
module Content {

  newtype Byte = x: int | 0 <= x < 256
  type Bytes = seq<Byte>

  /** SHA-256, idealised as an injective function. */
  datatype Digest = Sha256(preimage: Bytes)
}
