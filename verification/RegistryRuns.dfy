/** What every run of registry calls keeps, at nondecreasing ledgers and under any
    pruning that meets the assumed history contract. */
module RegistryRuns {
  import opened Numbers
  import opened Interfaces
  import opened VecHistory
  import opened Registry

  lemma {:induction false} SumCongruent(keys: set<Key>, w: map<Key, History>, w': map<Key, History>, b: nat)
    requires forall k :: k in keys ==> WeightAt(w, k, b) == WeightAt(w', k, b)
    ensures SumAt(keys, w, b) == SumAt(keys, w', b)
  {
    if keys != {} {
      var k :| k in keys;
      SumWithout(keys, k, w, b);
      SumWithout(keys, k, w', b);
      SumCongruent(keys - {k}, w, w', b);
    }
  }

  // A set of keys grows by keys that weigh nothing at b.
  lemma {:induction false} SumIgnoresNew(keys: set<Key>, k: Key, weights: map<Key, History>, b: nat)
    requires k in keys || WeightAt(weights, k, b) == 0
    ensures SumAt(keys + {k}, weights, b) == SumAt(keys, weights, b)
  {
    if k !in keys {
      SumWithout(keys + {k}, k, weights, b);
      assert keys + {k} - {k} == keys;
    } else {
      assert keys + {k} == keys;
    }
  }

  // Before the call's own ledger nothing changes, for any key or for the total.
  lemma {:induction false} PastUnchanged(
    s: Signers, now: nat, call: Call, r: Outcome<SecurityError>, s': Signers, b: nat)
    requires Steps(s, now, call, r, s')
    requires b < now && Retained(now, b)
    ensures LookupAt(s'.totals, b) == LookupAt(s.totals, b)
    ensures forall k :: WeightAt(s'.weights, k, b) == WeightAt(s.weights, k, b)
  {
    forall k ensures WeightAt(s'.weights, k, b) == WeightAt(s.weights, k, b) {
      if s'.weights != s.weights {
        assert k in s'.weights <==> k in s.weights || k == call.key;
      }
    }
  }

  // From the call's ledger on, only the key changes, and the total with it.
  lemma {:induction false} PresentSums(s: Signers, now: nat, k: Key, weight: nat, s': Signers, b: nat)
    requires Consistent(s, now) && Reweighted(s, now, k, weight, s') && now <= b
    ensures LookupAt(s'.totals, b) == SumAt(s'.weights.Keys, s'.weights, b)
  {
    LatestIsLookup(s'.totals, now, b);
    LatestIsLookup(s.totals, now, b);
    LatestIsLookup(s'.weights[k], now, b);
    if k in s.weights {
      LatestIsLookup(s.weights[k], now, b);
    }
    var rest := s'.weights.Keys - {k};
    SumWithout(s'.weights.Keys, k, s'.weights, b);
    SumCongruent(rest, s.weights, s'.weights, b);
    SumIgnoresNew(s.weights.Keys, k, s.weights, b);
    SumWithout(s'.weights.Keys, k, s.weights, b);
  }

  lemma {:induction false} PresentWeights(s: Signers, now: nat, k: Key, weight: nat, s': Signers)
    requires Reweighted(s, now, k, weight, s')
    ensures forall x, b :: now <= b ==>
      WeightAt(s'.weights, x, b) == if x == k then weight else WeightAt(s.weights, x, b)
  {
    forall x, b | now <= b
      ensures WeightAt(s'.weights, x, b) == if x == k then weight else WeightAt(s.weights, x, b)
    {
      if x == k {
        LatestIsLookup(s'.weights[k], now, b);
      } else {
        assert x in s'.weights <==> x in s.weights;
      }
    }
  }

  lemma {:induction false} ReweightedSums(
    s: Signers, now: nat, call: Call, r: Outcome<SecurityError>, s': Signers, k: Key, weight: nat)
    requires Consistent(s, now) && Steps(s, now, call, r, s') && Reweighted(s, now, k, weight, s')
    requires TotalFits(s, k, weight)
    ensures forall b: nat :: Retained(now, b) ==>
      LookupAt(s'.totals, b) == SumAt(s'.weights.Keys, s'.weights, b) <= U64_MAX
  {
    forall b: nat | Retained(now, b)
      ensures LookupAt(s'.totals, b) == SumAt(s'.weights.Keys, s'.weights, b) <= U64_MAX
    {
      if now <= b {
        PresentSums(s, now, k, weight, s', b);
        LatestIsLookup(s'.totals, now, b);
      } else {
        PastUnchanged(s, now, call, r, s', b);
        SumCongruent(s'.weights.Keys, s.weights, s'.weights, b);
        SumIgnoresNew(s.weights.Keys, k, s.weights, b);
      }
    }
  }

  lemma {:induction false} StepConsistent(s: Signers, now: nat, call: Call, r: Outcome<SecurityError>, s': Signers)
    requires Consistent(s, now) && Steps(s, now, call, r, s')
    ensures Consistent(s', now)
  {
    if s'.weights != s.weights || s'.totals != s.totals {
      var k := call.key;
      var weight := if call.AddSigner? then call.weight else 0;
      LatestIsLookup(s.totals, now, now);
      ReweightedSums(s, now, call, r, s', k, weight);
      forall x ensures x in s'.roster <==> CurrentWeight(s'.weights, x) > 0 {
        assert x != k ==> CurrentWeight(s'.weights, x) == CurrentWeight(s.weights, x);
      }
    }
  }

  lemma {:induction false} LaterConsistent(s: Signers, now: nat, later: nat)
    requires Consistent(s, now) && now <= later
    ensures Consistent(s, later)
  {
    forall b: nat | Retained(later, b)
      ensures LookupAt(s.totals, b) == SumAt(s.weights.Keys, s.weights, b) <= U64_MAX
    {
      assert Retained(now, b);
    }
  }

  // --- What each call achieves ---------------------------------------------------

  // A signer is added or reweighted exactly when the weight is positive and all weights
  // still fit a u64 together; from this ledger on it has that weight and is listed, and
  // nobody else's weight or listing changes.
  lemma {:induction false} AddSignerMeans(
    s: Signers, now: nat, k: Key, weight: U64, r: Outcome<SecurityError>, s': Signers)
    requires Consistent(s, now) && Steps(s, now, AddSigner(k, weight), r, s')
    ensures r == Pass <==> 0 < weight && SumAt(s.weights.Keys - {k}, s.weights, now) + weight <= U64_MAX
    ensures r == Fail(ZeroWeight) <==> weight == 0
    ensures r != Pass ==> s' == s
    ensures r == Pass ==>
      && (forall x, b :: now <= b ==>
            WeightAt(s'.weights, x, b) == if x == k then weight else WeightAt(s.weights, x, b))
      && (forall x :: x in s'.roster <==> x in s.roster || x == k)
      && s'.numerator == s.numerator && s'.denominator == s.denominator
  {
    LatestIsLookup(s.totals, now, now);
    if k in s.weights {
      LatestIsLookup(s.weights[k], now, now);
      SumWithout(s.weights.Keys, k, s.weights, now);
    } else {
      assert s.weights.Keys - {k} == s.weights.Keys;
    }
    if r == Pass {
      PresentWeights(s, now, k, weight, s');
    }
  }

  // A removed signer weighs nothing from this ledger on and is not listed; removing one
  // that has no weight changes nothing.
  lemma {:induction false} RemoveSignerMeans(s: Signers, now: nat, k: Key, r: Outcome<SecurityError>, s': Signers)
    requires Consistent(s, now) && Steps(s, now, RemoveSigner(k), r, s')
    ensures r == Pass
    ensures forall x, b :: now <= b ==>
      WeightAt(s'.weights, x, b) == if x == k then 0 else WeightAt(s.weights, x, b)
    ensures forall x :: x in s'.roster <==> x in s.roster && x != k
    ensures k !in s.roster ==> s' == s
    ensures s'.numerator == s.numerator && s'.denominator == s.denominator
  {
    if k in s.roster {
      PresentWeights(s, now, k, 0, s');
    } else if k in s.weights {
      forall b | now <= b ensures WeightAt(s.weights, k, b) == 0 {
        LatestIsLookup(s.weights[k], now, b);
      }
    }
  }

  // Any fraction in (0, 1] is stored, 1 included, and no weight changes.
  lemma {:induction false} SetThresholdMeans(
    s: Signers, now: nat, numerator: U64, denominator: U64, r: Outcome<SecurityError>, s': Signers)
    requires Steps(s, now, SetThreshold(numerator, denominator), r, s')
    ensures r == Pass <==> 0 < numerator <= denominator
    ensures r == Fail(ZeroDenominator) <==> denominator == 0
    ensures r == Fail(ZeroNumerator) <==> numerator == 0 < denominator
    ensures s' == if r == Pass then s.(numerator := numerator, denominator := denominator) else s
  {
  }

  // --- Runs --------------------------------------------------------------------

  // Call i is made at ledger times[i] and leads from states[i] to states[i + 1].
  datatype Trace = Trace(states: seq<Signers>, times: seq<nat>, calls: seq<Call>, results: seq<Outcome<SecurityError>>)

  ghost predicate IsRun(t: Trace) {
    && |t.states| == |t.calls| + 1 && |t.times| == |t.calls| == |t.results|
    && (forall i, j :: 0 <= i < j < |t.times| ==> t.times[i] <= t.times[j])
    && forall i :: 0 <= i < |t.calls| ==> Steps(t.states[i], t.times[i], t.calls[i], t.results[i], t.states[i + 1])
  }

  ghost predicate Deployed(s: Signers) {
    s.roster == [] && s.weights == map[] && s.totals == [] && GoodThreshold(s.numerator, s.denominator)
  }

  lemma {:induction false} DeployedConsistent(s: Signers, now: nat)
    requires Deployed(s)
    ensures Consistent(s, now)
  {
  }

  // After any run from deployment: the roster is sorted and lists exactly the keys
  // with positive weight, and at every retained block the recorded total is the sum
  // of the recorded weights of all keys.
  lemma {:induction false} RunConsistent(t: Trace, n: nat, now: nat)
    requires IsRun(t) && Deployed(t.states[0])
    requires n <= |t.calls| && (n > 0 ==> t.times[n - 1] <= now)
    ensures Consistent(t.states[n], now)
  {
    if n == 0 {
      DeployedConsistent(t.states[0], now);
    } else {
      RunConsistent(t, n - 1, t.times[n - 1]);
      StepConsistent(t.states[n - 1], t.times[n - 1], t.calls[n - 1], t.results[n - 1], t.states[n]);
      LaterConsistent(t.states[n], t.times[n - 1], now);
    }
  }

  // Calls made after block b do not change any weight or the total at b, as long as
  // b stays in the retained window.
  lemma {:induction false} RunKeepsPast(t: Trace, from: nat, to: nat, b: nat)
    requires IsRun(t) && from <= to <= |t.calls|
    requires from < to ==> b < t.times[from] && Retained(t.times[to - 1], b)
    ensures LookupAt(t.states[to].totals, b) == LookupAt(t.states[from].totals, b)
    ensures forall k :: WeightAt(t.states[to].weights, k, b) == WeightAt(t.states[from].weights, k, b)
  {
    if from < to {
      RunKeepsPast(t, from, to - 1, b);
      var i := to - 1;
      PastUnchanged(t.states[i], t.times[i], t.calls[i], t.results[i], t.states[to], b);
    }
  }
}
