/** Accounting identities over every run: any mix of quorum deliveries, admin calls,
    and changes of the surrounding contracts. */
module Accounting {
  import opened Numbers
  import opened Interfaces
  import opened HandlerSpec

  // --- Sums over the published log --------------------------------------------------

  function Sum(log: seq<Record>, f: Record -> int): int {
    if log == [] then 0 else Sum(log[..|log| - 1], f) + f(log[|log| - 1])
  }

  // Principal written off: Blend redeemed less than was recorded.
  function Shortfall(r: Record): int {
    match r.event
    case BadDebtDetected(_, _, shortfall) => shortfall
    case EmergencyUnwound(redeemed, principal) => Max(0, principal - redeemed)
    case _ => 0
  }

  // Interest handed to the pool's liquidity providers.
  function Donation(r: Record): int {
    match r.event
    case HarvestCompleted(interest, _, _) => interest
    case EmergencyUnwound(redeemed, principal) => Max(0, redeemed - principal)
    case _ => 0
  }

  function Shortfalls(s: State): int {
    Sum(s.log, Shortfall)
  }

  function Donations(s: State): int {
    Sum(s.log, Donation)
  }

  lemma {:induction false} EmitSums(s: State, via: Via, e: Event)
    ensures Shortfalls(Emit(s, via, e)) == Shortfalls(s) + Shortfall(Record(s.now, via, e))
    ensures Donations(Emit(s, via, e)) == Donations(s) + Donation(Record(s.now, via, e))
  {
    assert Emit(s, via, e).log[..|s.log|] == s.log;
  }

  // --- The invariant -----------------------------------------------------------------

  predicate GoodConfig(cfg: Config) {
    && 0 < cfg.targetBps < BPS && cfg.bandBps < BPS && cfg.criticalFloorBps < BPS
    && cfg.minTotal >= 0 && cfg.maxMove >= 0 && cfg.minMove >= 0 && cfg.reserveTokenId % 2 == 1
  }

  // Balanced once a donation of `due` is also in the log.
  predicate BalancedBut(s: State, due: int) {
    // the pool's books
    && 0 <= s.pool.liquid && s.pool.total == s.pool.liquid + s.pool.delegated <= I128_MAX
    // what is out with the handler is the recorded principal plus everything written off
    && s.pool.delegated == s.principal + Shortfalls(s)
    && 0 <= s.principal && 0 <= Shortfalls(s)
    // net USDC ever sent into Blend
    && s.blend.received - s.blend.paid == s.principal + Shortfalls(s) - Donations(s) - due + s.stray - s.balance
    // the handler holds nothing but what strangers sent it
    && s.balance <= s.stray
  }

  predicate Balanced(s: State) {
    BalancedBut(s, 0)
  }

  predicate Clocked(s: State) {
    s.lastRebalance <= s.now <= U64_MAX
  }

  // What holds in every reachable state.
  predicate Lawful(s: State) {
    Balanced(s) && Clocked(s) && GoodConfig(s.cfg)
  }

  lemma {:induction false} InitialLawful(s: State)
    requires Initial(s)
    ensures Lawful(s)
  {
  }

  // --- Money --------------------------------------------------------------------------------

  lemma {:induction false} EmitBalanced(s: State, via: Via, e: Event)
    requires Balanced(s) && Shortfall(Record(s.now, via, e)) == Donation(Record(s.now, via, e)) == 0
    ensures Balanced(Emit(s, via, e))
  {
    EmitSums(s, via, e);
  }

  lemma {:induction false} ToBlendBalanced(s: State, amount: int, overflow: Error)
    requires Balanced(s) && amount > 0 && MoveToBlend(s, amount, overflow).Done?
    ensures Balanced(MoveToBlend(s, amount, overflow).state)
  {
  }

  lemma {:induction false} FromBlendBalanced(s: State, amount: int)
    requires Balanced(s) && 0 < amount <= s.principal && MoveFromBlend(s, amount).Done?
    ensures Balanced(MoveFromBlend(s, amount).state)
  {
  }

  lemma {:induction false} ExecutedBalanced(s: State, via: Via, direction: Direction, amount: int)
    requires Balanced(s)
    ensures Balanced(Executed(s, via, direction, amount))
  {
    var t := Executed(s, via, direction, amount);
    EmitSums(s, via, t.log[|s.log|].event);
  }

  lemma {:induction false} PulledBalanced(s: State, t: State, amount: int, band: Band, ratio: nat)
    requires Balanced(t)
    ensures Balanced(Pulled(s, t, amount, band, ratio))
  {
    var moved := Executed(t.(lastRebalance := s.now), Quorum, FromBlend, amount);
    ExecutedBalanced(t.(lastRebalance := s.now), Quorum, FromBlend, amount);
    EmitBalanced(moved, Quorum, CriticalNotice(s, ratio));
  }

  lemma {:induction false} RebalanceBalanced(s: State)
    requires Balanced(s) && AfterRebalance(s).Done?
    ensures Balanced(AfterRebalance(s).state)
  {
    var d := Decide(s);
    if d.Supply? {
      ToBlendBalanced(s, d.amount, OtherInvocation);
      var t := MoveToBlend(s, d.amount, OtherInvocation).state;
      ExecutedBalanced(t.(lastRebalance := s.now), Quorum, ToBlend, d.amount);
    } else if d.Pull? {
      FromBlendBalanced(s, d.amount);
      PulledBalanced(s, MoveFromBlend(s, d.amount).state, d.amount, d.band, d.ratio);
    } else if d.Hold? {
      EmitBalanced(s, Quorum, CriticalBypassUnavailable(d.ratio, s.cfg.criticalFloorBps, s.principal));
    }
  }

  lemma {:induction false} PeelBalanced(s: State)
    requires Balanced(s) && s.principal > 0 && PeelInterest(s).Done?
    ensures BalancedBut(PeelInterest(s).state, Interest(s))
  {
    EmitSums(PeelInterest(s).state.(log := s.log), Quorum,
             BadDebtDetected(s.principal, s.blend.position, s.principal - s.blend.position));
  }

  lemma {:induction false} FinishBalanced(s: State, interest: nat, blnd: nat, reason: SkipReason)
    requires BalancedBut(s, interest) && FinishHarvest(s, interest, blnd, reason).Done?
    ensures Balanced(FinishHarvest(s, interest, blnd, reason).state)
  {
    EmitSums(s.(lastHarvest := s.now), Quorum, HarvestCompleted(interest, blnd, s.principal));
    EmitSums(s, Quorum, HarvestSkipped(reason));
  }

  lemma {:induction false} InterestLegBalanced(s: State, blnd: nat)
    requires Balanced(s) && InterestLeg(s, blnd).Done?
    ensures BalancedBut(InterestLeg(s, blnd).state, LegInterest(s))
  {
    if s.principal > 0 && Healthy(s) {
      if s.blend.withdrawOpen {
        PeelBalanced(s);
      } else {
        EmitBalanced(s, Quorum, HarvestPartial(blnd));
      }
    }
  }

  lemma {:induction false} HarvestBalanced(s: State)
    requires Balanced(s) && AfterHarvest(s).Done?
    ensures Balanced(AfterHarvest(s).state)
  {
    var blnd := s.blend.claimable;
    var claimed := s.(blend := s.blend.(claimable := 0));
    var reason := if !Healthy(s) then Frozen else if s.principal == 0 then NoPrincipal else NoYield;
    InterestLegBalanced(claimed, blnd);
    FinishBalanced(InterestLeg(claimed, blnd).state, LegInterest(s), blnd, reason);
  }

  lemma {:induction false} UnwindBalanced(s: State)
    requires Balanced(s) && AfterUnwind(s).Done?
    ensures Balanced(AfterUnwind(s).state)
  {
    var redeemed := if s.principal > 0 then s.blend.position else 0;
    EmitSums(AfterUnwind(s).state.(log := s.log), Admin, EmergencyUnwound(redeemed, s.principal));
  }

  lemma {:induction false} AdminBalanced(s: State, authorized: bool, call: AdminCall)
    requires Balanced(s) && AfterAdmin(s, authorized, call).Done?
    ensures Balanced(AfterAdmin(s, authorized, call).state)
  {
    match call
    case EmergencyUnwind => UnwindBalanced(s);
    case ManualToBlend(amount) =>
      ToBlendBalanced(s, amount, Rejected);
      var t := MoveToBlend(s, amount, Rejected).state;
      ExecutedBalanced(t, Admin, ToBlend, amount);
    case ManualFromBlend(amount) =>
      FromBlendBalanced(s, amount);
      var t := MoveFromBlend(s, amount).state;
      ExecutedBalanced(t, Admin, FromBlend, amount);
    case Configure(setting) =>
      var t := AfterConfigure(s, setting).state;
      EmitBalanced(t.(log := s.log), Admin, ConfigUpdated(setting));
  }

  lemma {:induction false} DeliveryBalanced(s: State, decoded: Option<Envelope>, referenceBlock: nat, verdict: Verdict)
    requires Balanced(s) && AfterDelivery(s, decoded, referenceBlock, verdict).Done?
    ensures Balanced(AfterDelivery(s, decoded, referenceBlock, verdict).state)
  {
    var action := decoded.value.action;
    if action == Some(Rebalance) {
      RebalanceBalanced(s);
    } else {
      HarvestBalanced(s);
    }
    var t := AfterAction(s, action).state;
    EmitBalanced(t.(seen := t.seen + {decoded.value.eventId}), Quorum, Verified(decoded.value.eventId));
  }

  lemma {:induction false} NextBalanced(s: State, step: Step)
    requires Balanced(s)
    ensures Balanced(Next(s, step))
  {
    if Try(s, step).Done? {
      match step
      case Environment(change) =>
      case Administer(authorized, call) => AdminBalanced(s, authorized, call);
      case Deliver(decoded, referenceBlock, verdict) => DeliveryBalanced(s, decoded, referenceBlock, verdict);
    }
  }

  lemma {:induction false} RebalanceClocked(s: State)
    requires Clocked(s) && AfterRebalance(s).Done?
    ensures Clocked(AfterRebalance(s).state) && AfterRebalance(s).state.now == s.now
  {
  }

  lemma {:induction false} HarvestClocked(s: State)
    requires Clocked(s) && AfterHarvest(s).Done?
    ensures Clocked(AfterHarvest(s).state) && AfterHarvest(s).state.now == s.now
  {
  }

  lemma {:induction false} NextClocked(s: State, step: Step)
    requires Clocked(s)
    ensures Clocked(Next(s, step)) && s.now <= Next(s, step).now
  {
    if Try(s, step).Done? && step.Deliver? {
      if step.decoded.value.action == Some(Rebalance) {
        RebalanceClocked(s);
      } else {
        HarvestClocked(s);
      }
    }
  }

  // What belongs to the host, the market and the pool's owner rather than to a call.
  predicate KeepsSurroundings(s: State, t: State) {
    && t.stray == s.stray && t.now == s.now && t.ledger == s.ledger
    && t.pool.delegateSet == s.pool.delegateSet && t.blend.status == s.blend.status
    && t.blend.supplyOpen == s.blend.supplyOpen && t.blend.withdrawOpen == s.blend.withdrawOpen
  }

  // Nor the admin's settings.
  predicate KeepsTheRest(s: State, t: State) {
    KeepsSurroundings(s, t) && t.cfg == s.cfg && t.paused == s.paused
  }

  lemma {:induction false} RebalanceKeepsTheRest(s: State)
    requires AfterRebalance(s).Done?
    ensures KeepsTheRest(s, AfterRebalance(s).state)
  {
  }

  lemma {:induction false} HarvestKeepsTheRest(s: State)
    requires AfterHarvest(s).Done?
    ensures KeepsTheRest(s, AfterHarvest(s).state)
  {
  }

  lemma {:induction false} DeliveryKeepsTheRest(
    s: State, decoded: Option<Envelope>, referenceBlock: nat, verdict: Verdict)
    requires AfterDelivery(s, decoded, referenceBlock, verdict).Done?
    ensures KeepsTheRest(s, AfterDelivery(s, decoded, referenceBlock, verdict).state)
  {
    if decoded.value.action == Some(Rebalance) {
      RebalanceKeepsTheRest(s);
    } else {
      HarvestKeepsTheRest(s);
    }
  }

  lemma {:induction false} AdminKeepsTheRest(s: State, authorized: bool, call: AdminCall)
    requires AfterAdmin(s, authorized, call).Done?
    ensures KeepsSurroundings(s, AfterAdmin(s, authorized, call).state)
    ensures !call.Configure? ==> KeepsTheRest(s, AfterAdmin(s, authorized, call).state)
  {
  }

  // No call changes its surroundings, and none but a setter the settings.
  lemma {:induction false} CallsKeepSurroundings(s: State, step: Step)
    requires !step.Environment?
    ensures KeepsSurroundings(s, Next(s, step))
    ensures !(step.Administer? && step.call.Configure?) ==> KeepsTheRest(s, Next(s, step))
  {
    if Try(s, step).Done? {
      match step
      case Administer(authorized, call) => AdminKeepsTheRest(s, authorized, call);
      case Deliver(decoded, referenceBlock, verdict) => DeliveryKeepsTheRest(s, decoded, referenceBlock, verdict);
    }
  }

  // Whatever the admin sets, the configuration stays within the constructor's ranges,
  // except for how the critical floor relates to target and band.
  lemma {:induction false} NextGoodConfig(s: State, step: Step)
    requires GoodConfig(s.cfg)
    ensures GoodConfig(Next(s, step).cfg)
  {
    if !step.Environment? {
      CallsKeepSurroundings(s, step);
    }
  }

  lemma {:induction false} NextLawful(s: State, step: Step)
    requires Lawful(s)
    ensures Lawful(Next(s, step))
  {
    NextBalanced(s, step);
    NextClocked(s, step);
    NextGoodConfig(s, step);
  }

  // The accounting identity, and with it a configuration in range, hold in every
  // reachable state.
  lemma {:induction false} RunBalanced(s: State, steps: seq<Step>)
    requires Lawful(s)
    ensures Lawful(Run(s, steps))
    decreases |steps|
  {
    if steps != [] {
      NextLawful(s, steps[0]);
      RunBalanced(Next(s, steps[0]), steps[1..]);
    }
  }

  // --- Consequences --------------------------------------------------------------------------

  // In a reachable state a pull of part of the principal fails only for reasons outside
  // the handler's books: the pool's delegated counter never underflows, and the clamp of
  // the principal at zero never fires. USDC already on the handler counts as paid out, so
  // it must make up exactly what Blend is short of.
  lemma {:induction false} PullSucceedsExactly(s: State, amount: int)
    requires Balanced(s) && 0 < amount <= s.principal
    ensures MoveFromBlend(s, amount).Done?
       <==> s.blend.withdrawOpen && s.pool.delegateSet && s.balance + Pays(s.blend, amount) == amount
    ensures MoveFromBlend(s, amount).Done? ==> MoveFromBlend(s, amount).state.principal == s.principal - amount
  {
  }

  lemma {:induction false} SupplySucceedsExactly(s: State, amount: int, overflow: Error)
    requires Balanced(s) && amount > 0
    ensures MoveToBlend(s, amount, overflow).Done?
       <==> s.pool.delegateSet && amount <= s.pool.liquid && s.blend.supplyOpen && s.balance == 0
  {
    assert 0 <= s.pool.delegated;
  }

  // The deposit never underflows, but a single unit of stray USDC makes the unwind fail.
  lemma {:induction false} UnwindSucceedsExactly(s: State)
    requires Balanced(s)
    ensures AfterUnwind(s).Done? <==>
      && s.balance == 0
      && (|| s.principal == 0
          || (&& s.blend.withdrawOpen
              && (s.blend.position > 0 ==> s.pool.delegateSet)
              && s.pool.total + Interest(s) <= I128_MAX))
  {
  }

  lemma {:induction false} NoGiftsNoStray(s: State, steps: seq<Step>)
    requires forall step :: step in steps && step.Environment? ==> step.change.gift == 0
    ensures Run(s, steps).stray == s.stray
    decreases |steps|
  {
    if steps != [] {
      assert steps[0] in steps;
      if !steps[0].Environment? {
        CallsKeepSurroundings(s, steps[0]);
      }
      NoGiftsNoStray(Next(s, steps[0]), steps[1..]);
    }
  }

  // Unless strangers send it USDC, the handler never holds any between calls.
  lemma {:induction false} HandlerHoldsNothing(s: State, steps: seq<Step>)
    requires Initial(s)
    requires forall step :: step in steps && step.Environment? ==> step.change.gift == 0
    ensures Run(s, steps).balance == 0
    ensures Run(s, steps).pool.delegated == Run(s, steps).principal + Shortfalls(Run(s, steps))
    ensures Run(s, steps).blend.received - Run(s, steps).blend.paid
         == Run(s, steps).principal + Shortfalls(Run(s, steps)) - Donations(Run(s, steps))
  {
    InitialLawful(s);
    RunBalanced(s, steps);
    NoGiftsNoStray(s, steps);
  }

  // --- Conservation ---------------------------------------------------------------------------

  // USDC that really exists on the pool's side of the market.
  function Assets(s: State): int {
    s.pool.liquid + s.blend.position + s.balance
  }

  lemma {:induction false} HarvestConserves(s: State)
    requires AfterHarvest(s).Done?
    ensures Assets(AfterHarvest(s).state) == Assets(s)
  {
  }

  lemma {:induction false} RebalanceConserves(s: State)
    requires AfterRebalance(s).Done?
    ensures Assets(AfterRebalance(s).state) == Assets(s)
  {
  }

  // No call, whoever makes it and however it ends, creates or loses USDC.
  lemma {:induction false} CallsConserveAssets(s: State, step: Step)
    requires !step.Environment?
    ensures Assets(Next(s, step)) == Assets(s)
  {
    if Try(s, step).Done? && step.Deliver? {
      if step.decoded.value.action == Some(Rebalance) {
        RebalanceConserves(s);
      } else {
        HarvestConserves(s);
      }
    }
  }

  // A call that changes the pool is a first delivery with a fresh, accepted quorum while
  // unpaused, or an authorized admin call; while paused only an unwind.
  lemma {:induction false} MoneyMovesOnlyWhen(s: State, step: Step)
    requires !step.Environment? && Next(s, step).pool != s.pool
    ensures step.Deliver? ==>
      && !s.paused && step.decoded.Some? && step.decoded.value.eventId !in s.seen
      && FreshReference(s, step.referenceBlock) && step.verdict == Pass
    ensures step.Administer? ==>
      step.authorized && (step.call.EmergencyUnwind? || (!s.paused && !step.call.Configure?))
  {
  }
}
