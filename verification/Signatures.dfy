/** A stand-in for signatures in the concrete runs: every byte string of the right size is one. */
module Signatures {
  import opened Types
  import QuorumCert

  function Zeros(): (s: seq<byte>)
    ensures |s| == QuorumCert.SIG_SIZE
  {
    seq(QuorumCert.SIG_SIZE, _ => 0)
  }

  function AnySignature(): (seq<byte>, seq<byte>, seq<byte>) -> bool {
    (key, digest, sig) => |sig| == QuorumCert.SIG_SIZE
  }
}
