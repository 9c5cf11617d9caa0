/** The registry contract: its loops over the stored roster and its history pushes,
    proved against the registry's specification and keeping its invariant. */
module SecurityContract {
  import opened Numbers
  import opened Interfaces
  import opened VecHistory
  import opened Registry
  import opened RegistryRuns

  datatype SignerInfo = SignerInfo(key: Key, weight: nat)

  class SecurityRegistry {
    var roster: seq<Key>
    var weights: map<Key, History>
    var totals: History
    var numerator: U64
    var denominator: U64

    function View(): Signers reads this {
      Signers(roster, weights, totals, numerator, denominator)
    }

    constructor (numerator: U64, denominator: U64)
      requires ThresholdError(numerator, denominator).Pass?
      ensures View() == Signers([], map[], [], numerator, denominator) && Deployed(View())
    {
      roster, weights, totals, this.numerator, this.denominator := [], map[], [], numerator, denominator;
    }

    // Index loop over the sorted roster; stops at the first larger key.
    method InsertAllSigners(key: Key)
      requires Ascending(roster)
      modifies this`roster
      ensures Ascending(roster)
      ensures forall x :: x in roster <==> x in old(roster) || x == key
    {
      var idx := |roster|;
      for i := 0 to |roster|
        invariant idx == |roster|
        invariant forall j :: 0 <= j < i ==> roster[j] < key
      {
        if key < roster[i] {
          idx := i;
          break;
        } else if key == roster[i] {
          return;
        }
      }
      ghost var before := roster;
      roster := roster[..idx] + [key] + roster[idx..];
      assert before == before[..idx] + before[idx..];
    }

    // Stops early once past the key, which the order makes safe.
    method RemoveAllSigners(key: Key)
      requires Ascending(roster)
      modifies this`roster
      ensures Ascending(roster)
      ensures forall x :: x in roster <==> x in old(roster) && x != key
    {
      for i := 0 to |roster|
        invariant forall j :: 0 <= j < i ==> roster[j] < key
        invariant roster == old(roster)
      {
        if roster[i] == key {
          ghost var before := roster;
          roster := roster[..i] + roster[i + 1..];
          assert before == before[..i] + [key] + before[i + 1..];
          return;
        }
        if roster[i] > key {
          break;
        }
      }
    }

    method SetWeight(now: nat, key: Key, weight: nat, total: nat)
      requires Ordered(totals, now) && (key in weights ==> Ordered(weights[key], now))
      modifies this`weights, this`totals
      ensures weights.Keys == old(weights.Keys) + {key}
      ensures forall x :: x in old(weights) && x != key ==> weights[x] == old(weights)[x]
      ensures Pushed(old(if key in weights then weights[key] else []), now, weight, weights[key])
      ensures Pushed(old(totals), now, total, totals)
    {
      var mine := Push(if key in weights then weights[key] else [], now, weight);
      weights := weights[key := mine];
      totals := Push(totals, now, total);
    }

    // The roster is written before the overflow check panics; the revert undoes it.
    method AddSigner(now: nat, key: Key, weight: U64) returns (r: Outcome<SecurityError>)
      requires Consistent(View(), now)
      modifies this
      ensures Steps(old(View()), now, Call.AddSigner(key, weight), r, View())
      ensures Consistent(View(), now)
    {
      if weight == 0 {
        return Fail(ZeroWeight);
      }
      var saved := roster;
      var total := Latest(totals);
      var previous := CurrentWeight(weights, key);
      if previous != 0 {
        LatestTotalCovers(View(), now, key);
        total := total - previous;
      } else {
        InsertAllSigners(key);
      }
      if total + weight > U64_MAX {
        roster := saved;
        return Fail(TotalWeightOverflow);
      }
      SetWeight(now, key, weight, total + weight);
      r := Pass;
      StepConsistent(old(View()), now, Call.AddSigner(key, weight), r, View());
    }

    method RemoveSigner(now: nat, key: Key) returns (r: Outcome<SecurityError>)
      requires Consistent(View(), now)
      modifies this
      ensures Steps(old(View()), now, Call.RemoveSigner(key), r, View())
      ensures Consistent(View(), now)
    {
      var previous := CurrentWeight(weights, key);
      if previous != 0 {
        LatestTotalCovers(View(), now, key);
        var total := Latest(totals) - previous;
        RemoveAllSigners(key);
        SetWeight(now, key, 0, total);
      }
      r := Pass;
      StepConsistent(old(View()), now, Call.RemoveSigner(key), r, View());
    }

    method SetThreshold(ghost now: nat, numerator: U64, denominator: U64) returns (r: Outcome<SecurityError>)
      requires Consistent(View(), now)
      modifies this`numerator, this`denominator
      ensures Steps(old(View()), now, Call.SetThreshold(numerator, denominator), r, View())
      ensures Consistent(View(), now)
    {
      if denominator == 0 {
        return Fail(ZeroDenominator);
      }
      if numerator == 0 {
        return Fail(ZeroNumerator);
      }
      if numerator > denominator {
        return Fail(NumeratorExceedsDenominator);
      }
      this.numerator, this.denominator := numerator, denominator;
      r := Pass;
    }

    // Skips keys without weight; in a consistent registry there are none to skip.
    method ListSigners() returns (infos: seq<SignerInfo>)
      ensures forall i :: 0 <= i < |infos| ==>
        infos[i].key in roster && infos[i].weight == CurrentWeight(weights, infos[i].key) > 0
      ensures (forall k :: k in roster ==> CurrentWeight(weights, k) > 0) ==>
        && |infos| == |roster|
        && forall i :: 0 <= i < |roster| ==> infos[i].key == roster[i]
    {
      infos := [];
      for n := 0 to |roster|
        invariant forall i :: 0 <= i < |infos| ==>
          infos[i].key in roster && infos[i].weight == CurrentWeight(weights, infos[i].key) > 0
        invariant (forall k :: k in roster ==> CurrentWeight(weights, k) > 0) ==>
          |infos| == n && forall i :: 0 <= i < n ==> infos[i].key == roster[i]
      {
        var weight := CurrentWeight(weights, roster[n]);
        if weight > 0 {
          infos := infos + [SignerInfo(roster[n], weight)];
        }
      }
    }

    // The product is taken in u128 and the quotient cast to u64.
    method RequiredWeightAt(b: nat) returns (required: U64)
      requires denominator > 0
      ensures required == RequiredAt(View(), b)
      ensures forall now :: Consistent(View(), now) && Retained(now, b) ==> required == Needed(View(), b)
    {
      var total := LookupAt(totals, b);
      required := total * numerator / denominator % (U64_MAX + 1);
      forall now | Consistent(View(), now) && Retained(now, b) ensures required == Needed(View(), b) {
        RequiredIsShare(View(), now, b);
      }
    }

    method GetSignerWeightsAt(keys: seq<Key>, b: nat) returns (result: seq<nat>)
      ensures |result| == |keys|
      ensures forall i :: 0 <= i < |keys| ==> result[i] == WeightAt(weights, keys[i], b)
    {
      result := [];
      for i := 0 to |keys|
        invariant |result| == i
        invariant forall j :: 0 <= j < i ==> result[j] == WeightAt(weights, keys[j], b)
      {
        result := result + [WeightAt(weights, keys[i], b)];
      }
    }
  }
}
