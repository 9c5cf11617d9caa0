/** The signer registry as a value: a sorted roster, one weight history per signer and
    one for the total, the threshold fraction, and what its calls may do to them. */
module Registry {
  import opened Numbers
  import opened Interfaces
  import opened VecHistory

  datatype Signers = Signers(
    roster: seq<Key>, weights: map<Key, History>, totals: History, numerator: U64, denominator: U64)

  datatype SecurityError =
    | ZeroWeight
    | ZeroDenominator
    | ZeroNumerator
    | NumeratorExceedsDenominator
    | TotalWeightOverflow    // panic: the new total does not fit in a u64

  // --- Reads ------------------------------------------------------------------

  function WeightAt(weights: map<Key, History>, k: Key, b: nat): nat {
    if k in weights then LookupAt(weights[k], b) else 0
  }

  function CurrentWeight(weights: map<Key, History>, k: Key): nat {
    if k in weights then Latest(weights[k]) else 0
  }

  // total * numerator / denominator in u128, then `as u64`.
  function Share(total: nat, numerator: nat, denominator: nat): U64
    requires denominator > 0
  {
    total * numerator / denominator % (U64_MAX + 1)
  }

  function RequiredAt(s: Signers, b: nat): U64
    requires s.denominator > 0
  {
    Share(LookupAt(s.totals, b), s.numerator, s.denominator)
  }

  predicate Ascending(keys: seq<Key>) {
    forall i, j :: 0 <= i < j < |keys| ==> keys[i] < keys[j]
  }

  // The sum of the weights of a set of keys at block b.
  ghost function SumAt(keys: set<Key>, weights: map<Key, History>, b: nat): nat {
    if keys == {} then 0
    else
      var k :| k in keys;
      WeightAt(weights, k, b) + SumAt(keys - {k}, weights, b)
  }

  // The threshold's share of all weight at block b, by one floor division.
  ghost function Needed(s: Signers, b: nat): nat
    requires s.denominator > 0
  {
    SumAt(s.weights.Keys, s.weights, b) * s.numerator / s.denominator
  }

  // --- Invariant ----------------------------------------------------------------

  predicate GoodThreshold(numerator: nat, denominator: nat) {
    0 < numerator <= denominator
  }

  ghost predicate Consistent(s: Signers, now: nat) {
    && Ascending(s.roster)
    && (forall k :: k in s.roster <==> CurrentWeight(s.weights, k) > 0)
    && Ordered(s.totals, now)
    && (forall k :: k in s.weights ==> Ordered(s.weights[k], now))
    && (forall b: nat :: Retained(now, b) ==> LookupAt(s.totals, b) == SumAt(s.weights.Keys, s.weights, b) <= U64_MAX)
    && GoodThreshold(s.numerator, s.denominator)
  }

  // --- Calls ----------------------------------------------------------------------

  datatype Call =
    | AddSigner(key: Key, weight: U64)
    | RemoveSigner(key: Key)
    | SetThreshold(numerator: U64, denominator: U64)

  // One weight set at ledger `now`: the key's history and the total's are pushed.
  ghost predicate Reweighted(s: Signers, now: nat, k: Key, weight: nat, s': Signers) {
    && s'.weights.Keys == s.weights.Keys + {k}
    && (forall x :: x in s.weights && x != k ==> s'.weights[x] == s.weights[x])
    && Pushed(if k in s.weights then s.weights[k] else [], now, weight, s'.weights[k])
    && Pushed(s.totals, now, Latest(s.totals) - CurrentWeight(s.weights, k) + weight, s'.totals)
    && s'.numerator == s.numerator && s'.denominator == s.denominator
  }

  predicate TotalFits(s: Signers, k: Key, weight: nat) {
    Latest(s.totals) - CurrentWeight(s.weights, k) + weight <= U64_MAX
  }

  function ThresholdError(numerator: nat, denominator: nat): Outcome<SecurityError> {
    if denominator == 0 then Fail(ZeroDenominator)
    else if numerator == 0 then Fail(ZeroNumerator)
    else if numerator > denominator then Fail(NumeratorExceedsDenominator)
    else Pass
  }

  // What a call answers, and what it may do to the registry at ledger `now`.
  ghost predicate Steps(s: Signers, now: nat, call: Call, r: Outcome<SecurityError>, s': Signers) {
    match call
    case AddSigner(k, weight) =>
      if weight == 0 then r == Fail(ZeroWeight) && s' == s
      else if !TotalFits(s, k, weight) then r == Fail(TotalWeightOverflow) && s' == s
      else
        && r == Pass
        && Reweighted(s, now, k, weight, s')
        && Ascending(s'.roster) && (forall x :: x in s'.roster <==> x in s.roster || x == k)
    case RemoveSigner(k) =>
      && r == Pass
      && if CurrentWeight(s.weights, k) == 0 then s' == s
         else
           && Reweighted(s, now, k, 0, s')
           && Ascending(s'.roster) && (forall x :: x in s'.roster <==> x in s.roster && x != k)
    case SetThreshold(numerator, denominator) =>
      && r == ThresholdError(numerator, denominator)
      && s' == if r.Pass? then s.(numerator := numerator, denominator := denominator) else s
  }

  // --- Sums -----------------------------------------------------------------------------

  lemma {:induction false} SumWithout(keys: set<Key>, k: Key, weights: map<Key, History>, b: nat)
    requires k in keys
    ensures SumAt(keys, weights, b) == WeightAt(weights, k, b) + SumAt(keys - {k}, weights, b)
  {
    var x :| x in keys && SumAt(keys, weights, b) == WeightAt(weights, x, b) + SumAt(keys - {x}, weights, b);
    if x != k {
      SumWithout(keys - {x}, k, weights, b);
      SumWithout(keys - {k}, x, weights, b);
      assert keys - {x} - {k} == keys - {k} - {x};
    }
  }

  // `total -= old_weight` cannot underflow.
  lemma LatestTotalCovers(s: Signers, now: nat, k: Key)
    requires Consistent(s, now)
    ensures CurrentWeight(s.weights, k) <= Latest(s.totals)
  {
    LatestIsLookup(s.totals, now, now);
    if k in s.weights {
      LatestIsLookup(s.weights[k], now, now);
      SumWithout(s.weights.Keys, k, s.weights, now);
    }
  }

  // --- The requirement --------------------------------------------------------------------

  // The share of the total never exceeds it, and neither u128 product nor u64 cast truncates.
  lemma {:induction false} ShareWithinTotal(total: nat, numerator: nat, denominator: nat)
    requires total <= U64_MAX && GoodThreshold(numerator, denominator)
    ensures Share(total, numerator, denominator) == total * numerator / denominator <= total
  {
    FloorBounds(total * numerator, denominator);
    ProductMonotone(total, numerator, denominator);
    CancelFactor(total * numerator / denominator, total, denominator);
  }

  // What the registry demands at a retained block is that share of the weights themselves.
  lemma {:induction false} RequiredIsShare(s: Signers, now: nat, b: nat)
    requires Consistent(s, now) && Retained(now, b)
    ensures RequiredAt(s, b) == Needed(s, b) <= SumAt(s.weights.Keys, s.weights, b) <= U64_MAX
  {
    ShareWithinTotal(LookupAt(s.totals, b), s.numerator, s.denominator);
  }
}
