/** Types that cross contract boundaries: keys, signatures, envelopes, and the
    outcomes of verification. */
module Interfaces {
  import opened Numbers

  // A 32-byte key read as a big-endian number, so byte order is numeric order.
  type Key = nat

  // A 64-byte signature; 0 is the all-zero one.
  type Signature = nat

  type Bytes = seq<nat>

  // The host's signature check, uninterpreted: does the signature match the key
  // and the hash of the envelope?
  type SignatureCheck = (Key, Bytes, Signature) -> bool

  // The last two are panics of the verification contract: the host traps on a bad
  // signature, and the weight sum is a checked u64 addition.
  datatype VerifyError =
    | InvalidSignature
    | SignerNotRegistered
    | InsufficientWeight
    | EmptySignatures
    | LengthMismatch
    | SignersNotOrdered
    | ZeroRequiredWeight
    | SignatureTrap
    | WeightOverflowTrap
  {
    predicate Panic() {
      SignatureTrap? || WeightOverflowTrap?
    }
  }

  datatype Outcome<+E> = Pass | Fail(error: E)

  type Verdict = Outcome<VerifyError>

  type EventId = nat

  datatype Action = Rebalance | HarvestYield

  // `action` is None when the payload does not decode.
  datatype Envelope = Envelope(eventId: EventId, action: Option<Action>)

  type EnvelopeDecoder = Bytes -> Option<Envelope>

  datatype SignatureData = SignatureData(signatures: seq<Signature>, signers: seq<Key>, referenceBlock: nat)
}
