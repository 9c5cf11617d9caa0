/** End to end: what the handler may conclude from a delivery that ran, and which
    deliveries do run. */
module Soundness {
  import opened Numbers
  import opened Interfaces
  import opened Registry
  import opened Verification
  import opened Quorum
  import opened HandlerSpec

  function DeliveryOf(
    s: State, registry: Signers, signed: SignatureCheck, decode: EnvelopeDecoder,
    envelope: Bytes, sig: SignatureData): After
    requires registry.denominator > 0
  {
    AfterDelivery(s, decode(envelope), sig.referenceBlock,
      VerdictOf(registry, signed, envelope, sig.signatures, sig.signers, sig.referenceBlock))
  }

  // A successful call was signed by distinct signers, each registered at a reference
  // block at most 200 ledgers old, each with a valid signature on this envelope, and
  // together carrying the required share of the total at that block, which is not zero.
  lemma {:induction false} DeliveriesCarryAQuorum(
    s: State, registry: Signers, signed: SignatureCheck, decode: EnvelopeDecoder, envelope: Bytes, sig: SignatureData)
    requires Consistent(registry, s.ledger)
    requires DeliveryOf(s, registry, signed, decode, envelope, sig).Done?
    ensures sig.referenceBlock <= s.ledger <= sig.referenceBlock + 200
    ensures |sig.signatures| == |sig.signers| && Ascending(sig.signers)
    ensures forall i :: 0 <= i < |sig.signers| ==>
      && signed(sig.signers[i], envelope, sig.signatures[i])
      && WeightAt(registry.weights, sig.signers[i], sig.referenceBlock) > 0
    ensures var total := SumAt(registry.weights.Keys, registry.weights, sig.referenceBlock);
      SumAt(KeySet(sig.signers), registry.weights, sig.referenceBlock)
        >= total * registry.numerator / registry.denominator > 0
  {
    var b := sig.referenceBlock;
    VerdictIffAccepts(registry, s.ledger, signed, envelope, sig.signatures, sig.signers, b);
    assert EachPasses(registry, signed, envelope, sig.signatures, sig.signers, b);
  }

  // Every reference block the handler accepts is one the histories still answer for,
  // so the verifier's sum cannot trap under it.
  lemma {:induction false} HandlerNeverHitsOverflow(
    s: State, registry: Signers, signed: SignatureCheck, envelope: Bytes, sig: SignatureData)
    requires Consistent(registry, s.ledger) && FreshReference(s, sig.referenceBlock)
    ensures VerdictOf(registry, signed, envelope, sig.signatures, sig.signers, sig.referenceBlock)
         != Fail(WeightOverflowTrap)
  {
    NoWeightOverflow(registry, s.ledger, signed, envelope, sig.signatures, sig.signers, sig.referenceBlock);
  }

  // A new event, signed by the whole roster at the current ledger, always reaches its action.
  lemma {:induction false} RosterDeliveriesAct(
    s: State, registry: Signers, signed: SignatureCheck, decode: EnvelopeDecoder,
    envelope: Bytes, signatures: seq<Signature>)
    requires Consistent(registry, s.ledger) && Needed(registry, s.ledger) > 0
    requires !s.paused && decode(envelope).Some? && decode(envelope).value.eventId !in s.seen
    requires |signatures| == |registry.roster|
    requires forall i :: 0 <= i < |signatures| ==>
      signatures[i] != 0 && signed(registry.roster[i], envelope, signatures[i])
    ensures var sig := SignatureData(signatures, registry.roster, s.ledger);
      DeliveryOf(s, registry, signed, decode, envelope, sig).Done?
      <==> AfterAction(s, decode(envelope).value.action).Done?
  {
    RosterIsAccepted(registry, s.ledger, signed, envelope, signatures);
  }
}
