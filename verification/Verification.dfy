/** The verification contract: one signature, or a batch that must reach the
    registry's required weight. */
module Verification {
  import opened Numbers
  import opened Interfaces
  import opened VecHistory
  import opened Registry
  import opened SecurityContract

  datatype Checked = Weighs(weight: nat) | Refused(reason: VerifyError)

  // Signature first (zero, then the host's check), then the weight at the block,
  // or the current one when no block is given.
  function CheckOneAt(
    s: Signers, signed: SignatureCheck, envelope: Bytes, signature: Signature, key: Key, block: Option<nat>): Checked
  {
    var weight := if block.Some? then WeightAt(s.weights, key, block.value) else CurrentWeight(s.weights, key);
    if signature == 0 then Refused(InvalidSignature)
    else if !signed(key, envelope, signature) then Refused(SignatureTrap)
    else if weight == 0 then Refused(SignerNotRegistered)
    else Weighs(weight)
  }

  function ListWeight(keys: seq<Key>, weights: map<Key, History>, b: nat): nat {
    if keys == [] then 0
    else ListWeight(keys[..|keys| - 1], weights, b) + WeightAt(weights, keys[|keys| - 1], b)
  }

  // What is wrong with the i-th signer of a batch, given those before it.
  function Fault(
    s: Signers, signed: SignatureCheck, envelope: Bytes,
    signatures: seq<Signature>, keys: seq<Key>, b: nat, i: nat): Verdict
    requires |signatures| == |keys| && i < |keys|
  {
    if i > 0 && keys[i] <= keys[i - 1] then Fail(SignersNotOrdered)
    else match CheckOneAt(s, signed, envelope, signatures[i], keys[i], Some(b))
      case Refused(e) => Fail(e)
      case Weighs(_) => if ListWeight(keys[..i + 1], s.weights, b) > U64_MAX then Fail(WeightOverflowTrap) else Pass
  }

  function FirstFault(
    s: Signers, signed: SignatureCheck, envelope: Bytes,
    signatures: seq<Signature>, keys: seq<Key>, b: nat, i: nat): Verdict
    requires |signatures| == |keys| && i <= |keys|
    decreases |keys| - i
  {
    if i == |keys| then Pass
    else
      var fault := Fault(s, signed, envelope, signatures, keys, b, i);
      if fault.Fail? then fault else FirstFault(s, signed, envelope, signatures, keys, b, i + 1)
  }

  // The answer to a batch.
  function VerdictOf(
    s: Signers, signed: SignatureCheck, envelope: Bytes, signatures: seq<Signature>, keys: seq<Key>, b: nat): Verdict
    requires s.denominator > 0
  {
    if signatures == [] then Fail(EmptySignatures)
    else if |signatures| != |keys| then Fail(LengthMismatch)
    else if RequiredAt(s, b) == 0 then Fail(ZeroRequiredWeight)
    else
      var fault := FirstFault(s, signed, envelope, signatures, keys, b, 0);
      if fault.Fail? then fault
      else if ListWeight(keys, s.weights, b) < RequiredAt(s, b) then Fail(InsufficientWeight)
      else Pass
  }

  class Verifier {
    const security: SecurityRegistry
    const signed: SignatureCheck

    constructor (security: SecurityRegistry, signed: SignatureCheck)
      ensures this.security == security && this.signed == signed
    {
      this.security, this.signed := security, signed;
    }

    method CheckSignature(envelope: Bytes, signature: Signature, key: Key) returns (r: Verdict)
      ensures r == if signature == 0 then Fail(InvalidSignature)
                   else if signed(key, envelope, signature) then Pass else Fail(SignatureTrap)
    {
      if signature == 0 {
        return Fail(InvalidSignature);
      }
      r := if signed(key, envelope, signature) then Pass else Fail(SignatureTrap);
    }

    method CheckOne(envelope: Bytes, signature: Signature, key: Key, block: Option<nat>) returns (r: Checked)
      ensures r == CheckOneAt(security.View(), signed, envelope, signature, key, block)
    {
      var checked := CheckSignature(envelope, signature, key);
      if checked.Fail? {
        return Refused(checked.error);
      }
      var weight;
      match block {
        case Some(b) => weight := WeightAt(security.weights, key, b);
        case None => weight := CurrentWeight(security.weights, key);
      }
      r := if weight == 0 then Refused(SignerNotRegistered) else Weighs(weight);
    }

    // The loop relies on strictly ascending keys to count no signer twice.
    method Verify(envelope: Bytes, signatures: seq<Signature>, keys: seq<Key>, b: nat) returns (r: Verdict)
      requires security.denominator > 0
      ensures r == VerdictOf(security.View(), signed, envelope, signatures, keys, b)
    {
      if signatures == [] {
        return Fail(EmptySignatures);
      }
      if |signatures| != |keys| {
        return Fail(LengthMismatch);
      }
      var weights := security.GetSignerWeightsAt(keys, b);
      var required := security.RequiredWeightAt(b);
      if required == 0 {
        return Fail(ZeroRequiredWeight);
      }

      ghost var s := security.View();
      var total: nat := 0;
      var previous: Option<Key> := None;
      for i := 0 to |signatures|
        invariant previous == if i == 0 then None else Some(keys[i - 1])
        invariant total == ListWeight(keys[..i], s.weights, b) <= U64_MAX
        invariant FirstFault(s, signed, envelope, signatures, keys, b, 0)
               == FirstFault(s, signed, envelope, signatures, keys, b, i)
      {
        if previous.Some? && keys[i] <= previous.value {
          return Fail(SignersNotOrdered);
        }
        previous := Some(keys[i]);

        var checked := CheckSignature(envelope, signatures[i], keys[i]);
        if checked.Fail? {
          return checked;
        }
        if weights[i] == 0 {
          return Fail(SignerNotRegistered);
        }
        assert keys[..i + 1][..i] == keys[..i];
        if total + weights[i] > U64_MAX {
          return Fail(WeightOverflowTrap);
        }
        total := total + weights[i];
      }
      assert keys[..|keys|] == keys;
      r := if total < required then Fail(InsufficientWeight) else Pass;
    }
  }
}
