/** What an accepted batch of signatures means, given the registry's invariant. */
module Quorum {
  import opened Numbers
  import opened Interfaces
  import opened VecHistory
  import opened Registry
  import opened RegistryRuns
  import opened Verification

  ghost function KeySet(keys: seq<Key>): set<Key> {
    set k | k in keys
  }

  // Every signer has a valid signature and a weight at block b.
  ghost predicate EachPasses(
    s: Signers, signed: SignatureCheck, envelope: Bytes, signatures: seq<Signature>, keys: seq<Key>, b: nat)
    requires |signatures| == |keys|
  {
    forall i :: 0 <= i < |keys| ==>
      signatures[i] != 0 && signed(keys[i], envelope, signatures[i]) && WeightAt(s.weights, keys[i], b) > 0
  }

  // The acceptance condition: distinct registered signers in order, each with a valid
  // signature, who together weigh the threshold's share of all weight, which is not zero.
  ghost predicate Accepts(
    s: Signers, signed: SignatureCheck, envelope: Bytes, signatures: seq<Signature>, keys: seq<Key>, b: nat)
    requires s.denominator > 0
  {
    && 0 < |signatures| == |keys|
    && Ascending(keys)
    && EachPasses(s, signed, envelope, signatures, keys, b)
    && 0 < Needed(s, b) <= SumAt(KeySet(keys), s.weights, b)
  }

  // --- Sums of lists and of sets ---------------------------------------------------

  lemma {:induction false} KeySetWithoutLast(keys: seq<Key>)
    requires Ascending(keys) && keys != []
    ensures keys[|keys| - 1] in KeySet(keys)
    ensures KeySet(keys) - {keys[|keys| - 1]} == KeySet(keys[..|keys| - 1])
  {
    assert keys == keys[..|keys| - 1] + [keys[|keys| - 1]];
  }

  lemma {:induction false} ListIsSet(keys: seq<Key>, weights: map<Key, History>, b: nat)
    requires Ascending(keys)
    ensures ListWeight(keys, weights, b) == SumAt(KeySet(keys), weights, b)
  {
    if keys != [] {
      var n := |keys| - 1;
      ListIsSet(keys[..n], weights, b);
      KeySetWithoutLast(keys);
      SumWithout(KeySet(keys), keys[n], weights, b);
    }
  }

  lemma {:induction false} SumSplits(x: set<Key>, y: set<Key>, weights: map<Key, History>, b: nat)
    ensures SumAt(x, weights, b) + SumAt(y, weights, b) == SumAt(x + y, weights, b) + SumAt(x * y, weights, b)
  {
    if x == {} {
      assert x + y == y && x * y == {};
    } else {
      var k :| k in x;
      var rest := x - {k};
      SumSplits(rest, y, weights, b);
      SumWithout(x, k, weights, b);
      if k in y {
        assert rest + y == x + y;
        assert x * y - {k} == rest * y;
        SumWithout(x * y, k, weights, b);
      } else {
        assert x + y - {k} == rest + y;
        assert x * y == rest * y;
        SumWithout(x + y, k, weights, b);
      }
    }
  }

  lemma {:induction false} NoHistoryNoWeight(keys: set<Key>, weights: map<Key, History>, b: nat)
    requires keys !! weights.Keys
    ensures SumAt(keys, weights, b) == 0
  {
    if keys != {} {
      var k :| k in keys;
      SumWithout(keys, k, weights, b);
      NoHistoryNoWeight(keys - {k}, weights, b);
    }
  }

  // No set of keys outweighs the sum over all keys with a history.
  lemma {:induction false} SumBounded(keys: set<Key>, weights: map<Key, History>, b: nat)
    ensures SumAt(keys, weights, b) <= SumAt(weights.Keys, weights, b)
  {
    var all := weights.Keys;
    assert keys == keys * all + (keys - all);
    NoHistoryNoWeight(keys - all, weights, b);
    SumSplits(keys * all, keys - all, weights, b);
    SumSplits(keys * all, all - keys, weights, b);
    assert keys * all + (all - keys) == all;
    assert (keys * all) * (all - keys) == {};
    assert (keys * all) * (keys - all) == {};
  }

  // Distinct signers never weigh more than the recorded total, so their sum fits a u64.
  lemma {:induction false} DistinctSignersWithinTotal(s: Signers, now: nat, keys: seq<Key>, b: nat)
    requires Consistent(s, now) && Retained(now, b) && Ascending(keys)
    ensures ListWeight(keys, s.weights, b) <= LookupAt(s.totals, b) <= U64_MAX
  {
    ListIsSet(keys, s.weights, b);
    SumBounded(KeySet(keys), s.weights, b);
  }

  // --- The single check ----------------------------------------------------------------

  // A zero signature is refused first, then one that does not match, then a key without
  // weight at the block; what passes answers that weight.
  lemma {:induction false} CheckOneMeans(
    s: Signers, signed: SignatureCheck, envelope: Bytes, signature: Signature, key: Key, b: nat)
    ensures var r, weight := CheckOneAt(s, signed, envelope, signature, key, Some(b)), WeightAt(s.weights, key, b);
      && (r == Refused(InvalidSignature) <==> signature == 0)
      && (r == Refused(SignatureTrap) <==> signature != 0 && !signed(key, envelope, signature))
      && (r == Refused(SignerNotRegistered) <==>
            signature != 0 && signed(key, envelope, signature) && weight == 0)
      && (r.Weighs? <==> signature != 0 && signed(key, envelope, signature) && weight > 0)
      && (r.Weighs? ==> r.weight == weight)
  {
  }

  // Without a block it answers as for the current ledger, or any later one.
  lemma {:induction false} CheckOneWithoutBlock(
    s: Signers, now: nat, signed: SignatureCheck, envelope: Bytes, signature: Signature, key: Key, b: nat)
    requires Consistent(s, now) && now <= b
    ensures CheckOneAt(s, signed, envelope, signature, key, None)
         == CheckOneAt(s, signed, envelope, signature, key, Some(b))
    ensures CheckOneAt(s, signed, envelope, signature, key, None).Weighs? ==> key in s.roster
  {
    if key in s.weights {
      LatestIsLookup(s.weights[key], now, b);
    }
  }

  // --- The batch loop against the condition -----------------------------------------

  ghost predicate Clean(
    s: Signers, signed: SignatureCheck, envelope: Bytes, signatures: seq<Signature>, keys: seq<Key>, b: nat)
    requires |signatures| == |keys|
  {
    forall i :: 0 <= i < |keys| ==> Fault(s, signed, envelope, signatures, keys, b, i) == Pass
  }

  lemma {:induction false} FirstFaultFinds(
    s: Signers, signed: SignatureCheck, envelope: Bytes, signatures: seq<Signature>, keys: seq<Key>, b: nat, from: nat)
    returns (at: nat)
    requires |signatures| == |keys| && from <= |keys|
    ensures from <= at <= |keys|
    ensures forall i :: from <= i < at ==> Fault(s, signed, envelope, signatures, keys, b, i) == Pass
    ensures FirstFault(s, signed, envelope, signatures, keys, b, from)
         == if at < |keys| then Fault(s, signed, envelope, signatures, keys, b, at) else Pass
    ensures at < |keys| ==> Fault(s, signed, envelope, signatures, keys, b, at).Fail?
    decreases |keys| - from
  {
    at := from;
    if from < |keys| && Fault(s, signed, envelope, signatures, keys, b, from).Pass? {
      at := FirstFaultFinds(s, signed, envelope, signatures, keys, b, from + 1);
    }
  }

  lemma {:induction false} AdjacentAscends(keys: seq<Key>)
    requires forall i :: 0 < i < |keys| ==> keys[i - 1] < keys[i]
    ensures Ascending(keys)
  {
    if |keys| > 1 {
      var n := |keys| - 1;
      AdjacentAscends(keys[..n]);
      assert Ascending(keys[..n]);
      forall i, j | 0 <= i < j < |keys| ensures keys[i] < keys[j] {
        assert i < n - 1 ==> keys[..n][i] < keys[..n][n - 1];
        assert j < n ==> keys[..n][i] < keys[..n][j];
      }
    }
  }

  // At a retained block the loop finds no fault exactly when the keys ascend and
  // every single check passes: the weight sum cannot overflow.
  lemma {:induction false} CleanMeansAllPass(
    s: Signers, now: nat, signed: SignatureCheck, envelope: Bytes, signatures: seq<Signature>, keys: seq<Key>, b: nat)
    requires Consistent(s, now) && Retained(now, b) && |signatures| == |keys|
    ensures Clean(s, signed, envelope, signatures, keys, b) <==>
      Ascending(keys) && EachPasses(s, signed, envelope, signatures, keys, b)
  {
    if Clean(s, signed, envelope, signatures, keys, b) {
      forall i | 0 < i < |keys| ensures keys[i - 1] < keys[i] {
        assert Fault(s, signed, envelope, signatures, keys, b, i) == Pass;
      }
      AdjacentAscends(keys);
      forall i | 0 <= i < |keys|
        ensures signatures[i] != 0 && signed(keys[i], envelope, signatures[i]) && WeightAt(s.weights, keys[i], b) > 0
      {
        assert Fault(s, signed, envelope, signatures, keys, b, i) == Pass;
      }
    } else if Ascending(keys) {
      forall i | 0 <= i < |keys|
        ensures Fault(s, signed, envelope, signatures, keys, b, i) != Fail(WeightOverflowTrap)
      {
        DistinctSignersWithinTotal(s, now, keys[..i + 1], b);
      }
    }
  }

  // Batch verification accepts exactly what the condition says.
  lemma {:induction false} VerdictIffAccepts(
    s: Signers, now: nat, signed: SignatureCheck, envelope: Bytes, signatures: seq<Signature>, keys: seq<Key>, b: nat)
    requires Consistent(s, now) && Retained(now, b)
    ensures VerdictOf(s, signed, envelope, signatures, keys, b) == Pass
       <==> Accepts(s, signed, envelope, signatures, keys, b)
  {
    RequiredIsShare(s, now, b);
    if |signatures| == |keys| {
      if Ascending(keys) {
        ListIsSet(keys, s.weights, b);
      }
      var at := FirstFaultFinds(s, signed, envelope, signatures, keys, b, 0);
      CleanMeansAllPass(s, now, signed, envelope, signatures, keys, b);
      assert Clean(s, signed, envelope, signatures, keys, b) <==> at == |keys|;
    }
  }

  // The loop stops at the first key out of order, and the keys before it ascend, so
  // the checked u64 sum is never the reason for refusing.
  lemma {:induction false} NoWeightOverflow(
    s: Signers, now: nat, signed: SignatureCheck, envelope: Bytes, signatures: seq<Signature>, keys: seq<Key>, b: nat)
    requires Consistent(s, now) && Retained(now, b)
    ensures VerdictOf(s, signed, envelope, signatures, keys, b) != Fail(WeightOverflowTrap)
  {
    if |signatures| == |keys| {
      var at := FirstFaultFinds(s, signed, envelope, signatures, keys, b, 0);
      if at < |keys| && Fault(s, signed, envelope, signatures, keys, b, at) == Fail(WeightOverflowTrap) {
        var prefix := keys[..at + 1];
        forall i | 0 < i < |prefix| ensures prefix[i - 1] < prefix[i] {
          assert i < at ==> Fault(s, signed, envelope, signatures, keys, b, i) == Pass;
        }
        AdjacentAscends(prefix);
        DistinctSignersWithinTotal(s, now, prefix, b);
        assert false;
      }
    }
  }

  // What is wrong with a batch as a whole is said before any signer is looked at.
  lemma {:induction false} ShapeIsCheckedFirst(
    s: Signers, now: nat, signed: SignatureCheck, envelope: Bytes, signatures: seq<Signature>, keys: seq<Key>, b: nat)
    requires Consistent(s, now) && Retained(now, b)
    ensures var r := VerdictOf(s, signed, envelope, signatures, keys, b);
      && (r == Fail(EmptySignatures) <==> |signatures| == 0)
      && (r == Fail(LengthMismatch) <==> 0 < |signatures| != |keys|)
      && (r == Fail(ZeroRequiredWeight) <==> 0 < |signatures| == |keys| && Needed(s, b) == 0)
  {
    RequiredIsShare(s, now, b);
    if |signatures| == |keys| {
      var at := FirstFaultFinds(s, signed, envelope, signatures, keys, b, 0);
    }
  }

  // A batch is refused for its weight only when every signer in it is fine.
  lemma {:induction false} TooLightMeans(
    s: Signers, now: nat, signed: SignatureCheck, envelope: Bytes, signatures: seq<Signature>, keys: seq<Key>, b: nat)
    requires Consistent(s, now) && Retained(now, b)
    ensures VerdictOf(s, signed, envelope, signatures, keys, b) == Fail(InsufficientWeight) <==>
      && 0 < |signatures| == |keys| && Ascending(keys) && EachPasses(s, signed, envelope, signatures, keys, b)
      && SumAt(KeySet(keys), s.weights, b) < Needed(s, b)
  {
    RequiredIsShare(s, now, b);
    if |signatures| == |keys| {
      if Ascending(keys) {
        ListIsSet(keys, s.weights, b);
      }
      var at := FirstFaultFinds(s, signed, envelope, signatures, keys, b, 0);
      CleanMeansAllPass(s, now, signed, envelope, signatures, keys, b);
      assert Clean(s, signed, envelope, signatures, keys, b) <==> at == |keys|;
    }
  }

  // Any other refusal of such a batch names what is wrong with the first bad signer.
  lemma {:induction false} RefusalNamesTheFirstFault(
    s: Signers, now: nat, signed: SignatureCheck, envelope: Bytes, signatures: seq<Signature>, keys: seq<Key>, b: nat)
    returns (at: nat)
    requires Consistent(s, now) && Retained(now, b)
    requires 0 < |signatures| == |keys| && Needed(s, b) > 0
    requires VerdictOf(s, signed, envelope, signatures, keys, b) !in {Pass, Fail(InsufficientWeight)}
    ensures at < |keys| && Ascending(keys[..at])
    ensures EachPasses(s, signed, envelope, signatures[..at], keys[..at], b)
    ensures var fault, signature, key := VerdictOf(s, signed, envelope, signatures, keys, b).error,
                                         signatures[at], keys[at];
      if at > 0 && key <= keys[at - 1] then fault == SignersNotOrdered
      else if signature == 0 then fault == InvalidSignature
      else if !signed(key, envelope, signature) then fault == SignatureTrap
      else fault == SignerNotRegistered && WeightAt(s.weights, key, b) == 0
  {
    RequiredIsShare(s, now, b);
    at := FirstFaultFinds(s, signed, envelope, signatures, keys, b, 0);
    NoWeightOverflow(s, now, signed, envelope, signatures, keys, b);
    forall i | 0 <= i < at
      ensures i > 0 ==> keys[i - 1] < keys[i]
      ensures signatures[i] != 0 && signed(keys[i], envelope, signatures[i]) && WeightAt(s.weights, keys[i], b) > 0
    {
      assert Fault(s, signed, envelope, signatures, keys, b, i) == Pass;
    }
    AdjacentAscends(keys[..at]);
  }

  // --- Monotonicity and completeness ----------------------------------------------------

  lemma {:induction false} InsertPasses(
    s: Signers, signed: SignatureCheck, envelope: Bytes, signatures: seq<Signature>, keys: seq<Key>, b: nat,
    at: nat, key: Key, signature: Signature)
    requires |signatures| == |keys| && EachPasses(s, signed, envelope, signatures, keys, b) && at <= |keys|
    requires signature != 0 && signed(key, envelope, signature) && WeightAt(s.weights, key, b) > 0
    ensures EachPasses(s, signed, envelope,
      signatures[..at] + [signature] + signatures[at..], keys[..at] + [key] + keys[at..], b)
  {
    var moreSignatures, more := signatures[..at] + [signature] + signatures[at..], keys[..at] + [key] + keys[at..];
    forall i | 0 <= i < |more|
      ensures moreSignatures[i] != 0 && signed(more[i], envelope, moreSignatures[i])
      ensures WeightAt(s.weights, more[i], b) > 0
    {
      var was := if i < at then i else i - 1;
      assert i == at || (more[i] == keys[was] && moreSignatures[i] == signatures[was]);
    }
  }

  lemma {:induction false} InsertWeighs(keys: seq<Key>, at: nat, key: Key, weights: map<Key, History>, b: nat)
    requires at <= |keys| && key !in keys
    ensures SumAt(KeySet(keys[..at] + [key] + keys[at..]), weights, b)
         == SumAt(KeySet(keys), weights, b) + WeightAt(weights, key, b)
  {
    var more := keys[..at] + [key] + keys[at..];
    assert keys == keys[..at] + keys[at..];
    assert KeySet(more) == KeySet(keys) + {key} && KeySet(more) - {key} == KeySet(keys);
    SumWithout(KeySet(more), key, weights, b);
  }

  lemma {:induction false} InsertAscends(keys: seq<Key>, at: nat, key: Key)
    requires Ascending(keys) && at <= |keys|
    requires (at > 0 ==> keys[at - 1] < key) && (at < |keys| ==> key < keys[at])
    ensures Ascending(keys[..at] + [key] + keys[at..])
  {
    var more := keys[..at] + [key] + keys[at..];
    forall i, j | 0 <= i < j < |more| ensures more[i] < more[j] {
      assert i < at ==> more[i] == keys[i] <= keys[at - 1];
      assert j > at ==> more[j] == keys[j - 1] >= keys[at];
    }
  }

  // One more valid registered signer, inserted in order, keeps an accepted batch accepted.
  lemma {:induction false} InsertKeepsAcceptance(
    s: Signers, signed: SignatureCheck, envelope: Bytes, signatures: seq<Signature>, keys: seq<Key>, b: nat,
    at: nat, key: Key, signature: Signature)
    requires s.denominator > 0 && Accepts(s, signed, envelope, signatures, keys, b)
    requires at <= |keys| && (at > 0 ==> keys[at - 1] < key) && (at < |keys| ==> key < keys[at])
    requires signature != 0 && signed(key, envelope, signature) && WeightAt(s.weights, key, b) > 0
    ensures Accepts(s, signed, envelope,
      signatures[..at] + [signature] + signatures[at..], keys[..at] + [key] + keys[at..], b)
  {
    InsertAscends(keys, at, key);
    forall i | 0 <= i < |keys| ensures keys[i] != key {
      assert i < at ==> keys[i] <= keys[at - 1];
      assert i >= at ==> keys[at] <= keys[i];
    }
    InsertPasses(s, signed, envelope, signatures, keys, b, at, key, signature);
    InsertWeighs(keys, at, key, s.weights, b);
  }

  lemma {:induction false} SumOfZeroes(keys: set<Key>, weights: map<Key, History>, b: nat)
    requires forall k :: k in keys ==> WeightAt(weights, k, b) == 0
    ensures SumAt(keys, weights, b) == 0
  {
    if keys != {} {
      var k :| k in keys;
      SumWithout(keys, k, weights, b);
      SumOfZeroes(keys - {k}, weights, b);
    }
  }

  lemma {:induction false} RosterIsEveryone(s: Signers, now: nat)
    requires Consistent(s, now)
    ensures SumAt(KeySet(s.roster), s.weights, now) == SumAt(s.weights.Keys, s.weights, now)
  {
    var listed := KeySet(s.roster);
    forall k ensures k in listed <==> WeightAt(s.weights, k, now) > 0 {
      if k in s.weights {
        LatestIsLookup(s.weights[k], now, now);
      }
    }
    SumOfZeroes(s.weights.Keys - listed, s.weights, now);
    SumSplits(listed, s.weights.Keys - listed, s.weights, now);
    assert listed + (s.weights.Keys - listed) == s.weights.Keys;
    assert listed * (s.weights.Keys - listed) == {};
  }

  // The roster in its own order, validly signed, passes at the current ledger.
  lemma {:induction false} RosterIsAccepted(
    s: Signers, now: nat, signed: SignatureCheck, envelope: Bytes, signatures: seq<Signature>)
    requires Consistent(s, now) && |signatures| == |s.roster|
    requires forall i :: 0 <= i < |s.roster| ==> signatures[i] != 0 && signed(s.roster[i], envelope, signatures[i])
    requires Needed(s, now) > 0
    ensures VerdictOf(s, signed, envelope, signatures, s.roster, now) == Pass
  {
    RosterIsEveryone(s, now);
    RequiredIsShare(s, now, now);
    forall i | 0 <= i < |s.roster| ensures WeightAt(s.weights, s.roster[i], now) > 0 {
      assert s.roster[i] in s.roster;
      LatestIsLookup(s.weights[s.roster[i]], now, now);
    }
    VerdictIffAccepts(s, now, signed, envelope, signatures, s.roster, now);
  }

  // --- Quorum intersection -----------------------------------------------------------------

  // Two accepted batches at one block share signers of at least 2 * required - total.
  lemma {:induction false} QuorumsIntersect(
    s: Signers, now: nat, signed: SignatureCheck, b: nat,
    envelope1: Bytes, signatures1: seq<Signature>, keys1: seq<Key>,
    envelope2: Bytes, signatures2: seq<Signature>, keys2: seq<Key>)
    requires Consistent(s, now) && Retained(now, b)
    requires VerdictOf(s, signed, envelope1, signatures1, keys1, b) == Pass
    requires VerdictOf(s, signed, envelope2, signatures2, keys2, b) == Pass
    ensures SumAt(KeySet(keys1) * KeySet(keys2), s.weights, b)
         >= 2 * Needed(s, b) - SumAt(s.weights.Keys, s.weights, b)
  {
    VerdictIffAccepts(s, now, signed, envelope1, signatures1, keys1, b);
    VerdictIffAccepts(s, now, signed, envelope2, signatures2, keys2, b);
    SumSplits(KeySet(keys1), KeySet(keys2), s.weights, b);
    SumBounded(KeySet(keys1) + KeySet(keys2), s.weights, b);
  }

  lemma {:induction false} SameListWeight(keys: seq<Key>, w: map<Key, History>, w': map<Key, History>, b: nat)
    requires forall k :: WeightAt(w, k, b) == WeightAt(w', k, b)
    ensures ListWeight(keys, w, b) == ListWeight(keys, w', b)
  {
    if keys != [] {
      SameListWeight(keys[..|keys| - 1], w, w', b);
    }
  }

  // The same across time: batches accepted before and after any registry calls, at one
  // earlier block, even if the threshold changed in between.
  lemma {:induction false} QuorumsIntersectOverRun(
    t: Trace, from: nat, to: nat, signed: SignatureCheck, b: nat,
    envelope1: Bytes, signatures1: seq<Signature>, keys1: seq<Key>,
    envelope2: Bytes, signatures2: seq<Signature>, keys2: seq<Key>)
    requires IsRun(t) && Deployed(t.states[0]) && from < to <= |t.calls|
    requires b < t.times[from] && Retained(t.times[to - 1], b)
    requires t.states[from].denominator > 0 && t.states[to].denominator > 0
    requires VerdictOf(t.states[from], signed, envelope1, signatures1, keys1, b) == Pass
    requires VerdictOf(t.states[to], signed, envelope2, signatures2, keys2, b) == Pass
    ensures SumAt(KeySet(keys1) * KeySet(keys2), t.states[to].weights, b)
         >= Needed(t.states[from], b) + Needed(t.states[to], b)
            - SumAt(t.states[to].weights.Keys, t.states[to].weights, b)
  {
    var s, s', now := t.states[from], t.states[to], t.times[to - 1];
    RunConsistent(t, from, t.times[from]);
    RunConsistent(t, to, now);
    RunKeepsPast(t, from, to, b);
    VerdictIffAccepts(s, t.times[from], signed, envelope1, signatures1, keys1, b);
    VerdictIffAccepts(s', now, signed, envelope2, signatures2, keys2, b);
    SumCongruent(KeySet(keys1), s.weights, s'.weights, b);
    SumSplits(KeySet(keys1), KeySet(keys2), s'.weights, b);
    SumBounded(KeySet(keys1) + KeySet(keys2), s'.weights, b);
  }

  // For the floor division, this much over a half makes 2 * required exceed the total.
  lemma {:induction false} MajorityThreshold(total: nat, numerator: nat, denominator: nat)
    requires total <= U64_MAX && GoodThreshold(numerator, denominator)
    requires total * (2 * numerator - denominator) >= 2 * denominator - 1
    ensures 2 * (total * numerator / denominator) > total
  {
    ShareWithinTotal(total, numerator, denominator);
    var required := total * numerator / denominator;
    FloorBounds(total * numerator, denominator);
    assert total * (2 * numerator - denominator) == 2 * (total * numerator) - total * denominator;
    assert 2 * required * denominator == 2 * (required * denominator);
    CancelFactor(2 * required, total, denominator);
  }

  // Under such a threshold two accepted batches always have a signer in common.
  lemma {:induction false} MajorityQuorumsShareASigner(
    s: Signers, now: nat, signed: SignatureCheck, b: nat,
    envelope1: Bytes, signatures1: seq<Signature>, keys1: seq<Key>,
    envelope2: Bytes, signatures2: seq<Signature>, keys2: seq<Key>)
    requires Consistent(s, now) && Retained(now, b)
    requires VerdictOf(s, signed, envelope1, signatures1, keys1, b) == Pass
    requires VerdictOf(s, signed, envelope2, signatures2, keys2, b) == Pass
    requires SumAt(s.weights.Keys, s.weights, b) * (2 * s.numerator - s.denominator) >= 2 * s.denominator - 1
    ensures exists k :: k in keys1 && k in keys2
  {
    QuorumsIntersect(s, now, signed, b, envelope1, signatures1, keys1, envelope2, signatures2, keys2);
    RequiredIsShare(s, now, b);
    MajorityThreshold(SumAt(s.weights.Keys, s.weights, b), s.numerator, s.denominator);
    var common := KeySet(keys1) * KeySet(keys2);
    assert common != {};
    var k :| k in common;
  }

  // --- Answers about the past -------------------------------------------------------------------

  lemma {:induction false} SameFaults(
    s: Signers, s': Signers, signed: SignatureCheck,
    envelope: Bytes, signatures: seq<Signature>, keys: seq<Key>, b: nat, from: nat)
    requires forall k :: WeightAt(s.weights, k, b) == WeightAt(s'.weights, k, b)
    requires |signatures| == |keys| && from <= |keys|
    ensures FirstFault(s, signed, envelope, signatures, keys, b, from)
         == FirstFault(s', signed, envelope, signatures, keys, b, from)
    decreases |keys| - from
  {
    if from < |keys| {
      SameListWeight(keys[..from + 1], s.weights, s'.weights, b);
      SameFaults(s, s', signed, envelope, signatures, keys, b, from + 1);
    }
  }

  // Between two points of a run, the answer at an earlier block changes only with the threshold.
  lemma {:induction false} VerdictAboutPastStands(
    t: Trace, from: nat, to: nat, signed: SignatureCheck,
    envelope: Bytes, signatures: seq<Signature>, keys: seq<Key>, b: nat)
    requires IsRun(t) && Deployed(t.states[0]) && from <= to <= |t.calls|
    requires from < to ==> b < t.times[from] && Retained(t.times[to - 1], b)
    requires t.states[from].numerator == t.states[to].numerator
    requires t.states[from].denominator == t.states[to].denominator > 0
    ensures VerdictOf(t.states[to], signed, envelope, signatures, keys, b)
         == VerdictOf(t.states[from], signed, envelope, signatures, keys, b)
  {
    RunKeepsPast(t, from, to, b);
    if |signatures| == |keys| {
      SameFaults(t.states[from], t.states[to], signed, envelope, signatures, keys, b, 0);
      SameListWeight(keys, t.states[from].weights, t.states[to].weights, b);
    }
  }
}
