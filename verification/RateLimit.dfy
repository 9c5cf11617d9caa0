/** The cooldown as a bound on money: how much USDC the quorum can send to Blend in
    any stretch of time. */
module RateLimit {
  import opened Numbers
  import opened Interfaces
  import opened HandlerSpec
  import opened Accounting
  import opened Deliveries

  // USDC sent to Blend by quorum-driven rebalances at times in [from, till].
  function SuppliedWithin(from: nat, till: nat): Record -> int {
    r => if IsQuorumSupply(r) && from <= r.at <= till then r.event.amount else 0
  }

  function Supplied(log: seq<Record>, from: nat, till: nat): int {
    Sum(log, SuppliedWithin(from, till))
  }

  lemma {:induction false} SuppliedByPlain(s: State, t: State, from: nat, till: nat)
    requires AddsPlain(s, t)
    ensures Supplied(t.log, from, till) == Supplied(s.log, from, till)
    decreases |t.log|
  {
    if |t.log| == |s.log| {
      assert t.log == s.log;
    } else {
      SuppliedByPlain(s, t.(log := t.log[..|t.log| - 1]), from, till);
    }
  }

  lemma {:induction false} SuppliedByOne(log: seq<Record>, r: Record, from: nat, till: nat)
    ensures Supplied(log + [r], from, till) == Supplied(log, from, till) + SuppliedWithin(from, till)(r)
  {
    assert (log + [r])[..|log|] == log;
  }

  // A supply is never decided while the cooldown is active, and never above the cap.
  lemma {:induction false} SupplyWaitsForCooldown(s: State)
    requires Decide(s).Supply?
    ensures !CooldownActive(s)
    ensures s.cfg.maxMove > 0 ==> Decide(s).amount <= s.cfg.maxMove
  {
  }

  // The saturating sum delays a move by the full cooldown at every timestamp but the
  // last one a u64 can hold, where it delays nothing.
  lemma {:induction false} CooldownExactly(s: State)
    requires Clocked(s)
    ensures CooldownActive(s) <==> s.now < s.lastRebalance + s.cfg.cooldown && s.now < U64_MAX
  {
  }

  // The move limits of the configuration are not touched by this step.
  predicate KeepsLimits(step: Step) {
    step.Administer? && step.call.Configure? ==>
      !step.call.setting.MaxMove? && !step.call.setting.Cooldown?
  }

  // What may have been sent by the time of the last move.
  function Allowance(last: nat, cap: nat, cooldown: nat, from: nat, till: nat): nat
    requires cooldown > 0
  {
    if last < from || till < from then 0 else cap * ((Min(last, till) - from) / cooldown + 1)
  }

  lemma {:induction false} AllowanceGrows(last: nat, now: nat, cap: nat, cooldown: nat, from: nat, till: nat)
    requires cooldown > 0 && last <= now
    ensures Allowance(last, cap, cooldown, from, till) <= Allowance(now, cap, cooldown, from, till)
  {
    if from <= last && from <= till {
      var x, y := Min(last, till) - from, Min(now, till) - from;
      QuotientMonotone(x, y, cooldown);
      ProductMonotone(cap, x / cooldown + 1, y / cooldown + 1);
    }
  }

  lemma {:induction false} OneMoreCap(cap: nat, x: nat, y: nat)
    requires x + 1 <= y
    ensures cap * (x + 1) + cap <= cap * (y + 1)
  {
    ProductMonotone(cap, x + 2, y + 1);
    assert cap * (x + 2) == cap * (x + 1) + cap;
  }

  // One more move, a full cooldown later and inside the window, earns one more cap.
  lemma {:induction false} AllowanceAdmits(last: nat, now: nat, cap: nat, cooldown: nat, from: nat, till: nat)
    requires cooldown > 0 && last + cooldown <= now && from <= now <= till
    ensures Allowance(last, cap, cooldown, from, till) + cap <= Allowance(now, cap, cooldown, from, till)
  {
    if last >= from {
      QuotientStep(last - from, cooldown);
      QuotientMonotone(last - from + cooldown, now - from, cooldown);
      OneMoreCap(cap, (last - from) / cooldown, (now - from) / cooldown);
    } else {
      ProductMonotone(cap, 1, (now - from) / cooldown + 1);
    }
  }

  lemma {:induction false} AllowanceBounded(last: nat, cap: nat, cooldown: nat, from: nat, window: nat)
    requires cooldown > 0
    ensures Allowance(last, cap, cooldown, from, from + window) <= cap * (window / cooldown + 1)
  {
    AllowanceGrows(last, Max(last, from + window), cap, cooldown, from, from + window);
  }

  // `base` was already in the log when counting started.
  predicate WithinAllowance(s: State, base: int, from: nat, till: nat)
    requires s.cfg.maxMove > 0 && s.cfg.cooldown > 0
  {
    Supplied(s.log, from, till) - base <= Allowance(s.lastRebalance, s.cfg.maxMove, s.cfg.cooldown, from, till)
  }

  lemma {:induction false} RebalanceWithinAllowance(s: State, base: int, from: nat, till: nat)
    requires Clocked(s) && s.cfg.maxMove > 0 && s.cfg.cooldown > 0 && till < U64_MAX
    requires WithinAllowance(s, base, from, till) && AfterRebalance(s).Done?
    ensures AfterRebalance(s).state.cfg == s.cfg && WithinAllowance(AfterRebalance(s).state, base, from, till)
  {
    var t := AfterRebalance(s).state;
    var cap, cooldown := s.cfg.maxMove, s.cfg.cooldown;
    RebalanceAdds(s);
    AllowanceGrows(s.lastRebalance, s.now, cap, cooldown, from, till);
    if Decide(s).Supply? {
      SupplyWaitsForCooldown(s);
      var r := t.log[|s.log|];
      SuppliedByOne(s.log, r, from, till);
      if from <= s.now <= till {
        CooldownExactly(s);
        AllowanceAdmits(s.lastRebalance, s.now, cap, cooldown, from, till);
      }
    } else {
      SuppliedByPlain(s, t, from, till);
    }
  }

  lemma {:induction false} HarvestWithinAllowance(s: State, base: int, from: nat, till: nat)
    requires s.cfg.maxMove > 0 && s.cfg.cooldown > 0
    requires WithinAllowance(s, base, from, till) && AfterHarvest(s).Done?
    ensures AfterHarvest(s).state.cfg == s.cfg && WithinAllowance(AfterHarvest(s).state, base, from, till)
  {
    HarvestAdds(s);
    SuppliedByPlain(s, AfterHarvest(s).state, from, till);
  }

  lemma {:induction false} ReceiptWithinAllowance(s: State, id: EventId, base: int, from: nat, till: nat)
    requires s.cfg.maxMove > 0 && s.cfg.cooldown > 0 && WithinAllowance(s, base, from, till)
    ensures WithinAllowance(Emit(s.(seen := s.seen + {id}), Quorum, Verified(id)), base, from, till)
  {
    SuppliedByOne(s.log, Record(s.now, Quorum, Verified(id)), from, till);
  }

  lemma {:induction false} DeliveryWithinAllowance(
    s: State, decoded: Option<Envelope>, referenceBlock: nat, verdict: Verdict, base: int, from: nat, till: nat)
    requires Clocked(s) && s.cfg.maxMove > 0 && s.cfg.cooldown > 0 && till < U64_MAX
    requires WithinAllowance(s, base, from, till) && AfterDelivery(s, decoded, referenceBlock, verdict).Done?
    ensures AfterDelivery(s, decoded, referenceBlock, verdict).state.cfg == s.cfg
    ensures WithinAllowance(AfterDelivery(s, decoded, referenceBlock, verdict).state, base, from, till)
  {
    if decoded.value.action == Some(Rebalance) {
      RebalanceWithinAllowance(s, base, from, till);
    } else {
      HarvestWithinAllowance(s, base, from, till);
    }
    var u := AfterAction(s, decoded.value.action).state;
    ReceiptWithinAllowance(u, decoded.value.eventId, base, from, till);
  }

  lemma {:induction false} AdminWithinAllowance(
    s: State, authorized: bool, call: AdminCall, base: int, from: nat, till: nat)
    requires s.cfg.maxMove > 0 && s.cfg.cooldown > 0 && WithinAllowance(s, base, from, till)
    requires KeepsLimits(Administer(authorized, call)) && AfterAdmin(s, authorized, call).Done?
    ensures var t := AfterAdmin(s, authorized, call).state;
      t.cfg.maxMove == s.cfg.maxMove && t.cfg.cooldown == s.cfg.cooldown && WithinAllowance(t, base, from, till)
  {
    AdminAdds(s, authorized, call);
    SuppliedByPlain(s, AfterAdmin(s, authorized, call).state, from, till);
  }

  lemma {:induction false} NextWithinAllowance(s: State, step: Step, base: int, from: nat, till: nat)
    requires Clocked(s) && s.cfg.maxMove > 0 && s.cfg.cooldown > 0 && till < U64_MAX
    requires WithinAllowance(s, base, from, till) && KeepsLimits(step)
    ensures Next(s, step).cfg.maxMove == s.cfg.maxMove && Next(s, step).cfg.cooldown == s.cfg.cooldown
    ensures WithinAllowance(Next(s, step), base, from, till)
  {
    if Try(s, step).Done? {
      match step
      case Environment(change) =>
      case Administer(authorized, call) =>
        AdminWithinAllowance(s, authorized, call, base, from, till);
      case Deliver(decoded, referenceBlock, verdict) =>
        DeliveryWithinAllowance(s, decoded, referenceBlock, verdict, base, from, till);
    }
  }

  lemma {:induction false} RunWithinAllowance(s: State, steps: seq<Step>, base: int, from: nat, till: nat)
    requires Clocked(s) && s.cfg.maxMove > 0 && s.cfg.cooldown > 0
    requires WithinAllowance(s, base, from, till) && forall step :: step in steps ==> KeepsLimits(step)
    requires till < U64_MAX
    ensures Run(s, steps).cfg.maxMove == s.cfg.maxMove && Run(s, steps).cfg.cooldown == s.cfg.cooldown
    ensures WithinAllowance(Run(s, steps), base, from, till)
    decreases |steps|
  {
    if steps != [] {
      assert steps[0] in steps;
      NextWithinAllowance(s, steps[0], base, from, till);
      NextClocked(s, steps[0]);
      RunWithinAllowance(Next(s, steps[0]), steps[1..], base, from, till);
    }
  }

  // While cap and cooldown stand, the quorum sends Blend at most
  // cap * (W / cooldown + 1) USDC in any window of W seconds that ends before the last
  // u64 timestamp, whatever else happens.
  lemma {:induction false} RateLimited(s: State, steps: seq<Step>, from: nat, window: nat)
    requires Clocked(s) && s.cfg.maxMove > 0 && s.cfg.cooldown > 0
    requires forall step :: step in steps ==> KeepsLimits(step)
    requires from + window < U64_MAX
    ensures Supplied(Run(s, steps).log, from, from + window) - Supplied(s.log, from, from + window)
         <= s.cfg.maxMove * (window / s.cfg.cooldown + 1)
  {
    var cap, cooldown, till := s.cfg.maxMove, s.cfg.cooldown, from + window;
    RunWithinAllowance(s, steps, Supplied(s.log, from, till), from, till);
    AllowanceBounded(Run(s, steps).lastRebalance, cap, cooldown, from, window);
  }

  // --- The bypass ------------------------------------------------------------------------

  // A move during the cooldown is a pull from Blend made because the pool is critically
  // low, and CriticalRebalance is published for those moves and no others.
  lemma {:induction false} BypassOnlyPullsWhenCritical(s: State)
    requires AfterRebalance(s).Done?
    ensures var t := AfterRebalance(s).state;
      var moved := exists r :: r in t.log[|s.log|..] && r.event.RebalanceExecuted?;
      && (moved && CooldownActive(s) ==>
            && Decide(s).Pull? && s.pool.liquid < Decide(s).band.lower
            && IsCritical(s.cfg, s.pool.liquid, Decide(s).ratio, Decide(s).band))
      && ((exists r :: r in t.log[|s.log|..] && r.event.CriticalRebalance?) <==> moved && CooldownActive(s))
  {
    var t := AfterRebalance(s).state;
    var added := t.log[|s.log|..];
    var d := Decide(s);
    if d.Supply? {
      assert added == [t.log[|s.log|]];
      assert added[0].event.RebalanceExecuted?;
    } else if d.Pull? {
      assert added[0] == t.log[|s.log|] && added[0].event.RebalanceExecuted?;
      assert added == if CooldownActive(s) then [added[0], t.log[|s.log| + 1]] else [added[0]];
      if CooldownActive(s) {
        assert added[1].event.CriticalRebalance?;
      }
    } else {
      assert forall r :: r in added ==> r.event.CriticalBypassUnavailable?;
    }
  }
}
