/** The values the consensus code exchanges: hashes, blocks, votes, certificates and
    validator sets, with the integer widths of the Go structs. */
module Types {
  type byte = x: int | 0 <= x < 0x100
  type uint16 = x: int | 0 <= x < 0x1_0000
  type uint32 = x: int | 0 <= x < 0x1_0000_0000
  type uint64 = x: int | 0 <= x < 0x1_0000_0000_0000_0000

  const MAX_UINT32: uint32 := 0xFFFF_FFFF

  datatype Option<+T> = None | Some(value: T)

  /** The outcome of reading wire bytes: a value, an error return, or a read past the end of
      the buffer, which panics in Go. */
  datatype Parse<+T> = Parsed(value: T) | Rejected | OutOfRange

  /** A block hash, identified with its byte string. */
  datatype Hash = Hash(bytes: seq<byte>)

  /** The zero value of the hash type: the parent named by a block proposed without a certificate. */
  const ZERO_HASH := Hash([])

  /** What consensus reads of a block; payload, proposer and timestamp are opaque to it. */
  datatype Block = Block(hash: Hash, height: uint32, prevHash: Hash)

  datatype Vote = Vote(view: uint32, node: Hash, validator: uint16, signature: seq<byte>, timestamp: uint64)

  datatype QC = QC(view: uint32, node: Hash, signers: seq<uint16>, timestamps: seq<uint64>,
                   aggregate: seq<byte>, scheme: seq<byte>)

  /** Keys by validator index, the fault bound F(), and the signature check
      `verify(key, digest, signature)`, which stays uninterpreted. */
  datatype ValidatorSet = ValidatorSet(f: nat, keys: map<uint16, seq<byte>>,
                                       verify: (seq<byte>, seq<byte>, seq<byte>) -> bool)
  {
    function Quorum(): nat { 2 * f + 1 }
  }

  /** Go's `x + 1` on a uint32, which wraps. */
  function Succ32(x: uint32): uint32 {
    if x == MAX_UINT32 then 0 else x + 1
  }
}
