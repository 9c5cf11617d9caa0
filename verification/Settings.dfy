/** The admin's settings: which values are accepted, where they land, that nothing else
    writes them, and what the pause switch does to a run. */
module Settings {
  import opened Numbers
  import opened Interfaces
  import opened HandlerSpec
  import opened Accounting

  // A setter runs exactly when it is authorized and its value is in its own range.
  lemma {:induction false} SetterRunsExactly(s: State, authorized: bool, setting: Setting)
    ensures Try(s, Administer(authorized, Configure(setting))).Done? ==
      (authorized && match setting
      case TargetRatio(bps) => 0 < bps < 10_000
      case RebalanceBand(bps) => bps < 10_000
      case CriticalFloor(bps) => bps + s.cfg.bandBps < s.cfg.targetBps
      case MinTotal(amount) => amount >= 0
      case MaxMove(amount) => amount >= 0
      case MinMove(amount) => amount >= 0
      case Cooldown(_) => true
      case ReserveTokenId(id) => id % 2 == 1
      case Treasury(_) => true
      case Pausing(_) => true)
  {
  }

  lemma {:induction false} SetterRefusals(s: State, setting: Setting)
    requires Try(s, Administer(true, Configure(setting))).Reverted?
    ensures Try(s, Administer(true, Configure(setting))) == Reverted(
      if setting.CriticalFloor? then InvalidEnvelope
      else if setting.ReserveTokenId? then InvalidReserveTokenId
      else Rejected)
  {
  }

  // An accepted value is in its own field, is announced, and everything else is as before.
  lemma {:induction false} SetterStores(s: State, setting: Setting)
    requires Try(s, Administer(true, Configure(setting))).Done?
    ensures var t := Next(s, Administer(true, Configure(setting)));
      && t.(cfg := s.cfg, paused := s.paused, log := s.log) == s
      && t.log == s.log + [Record(s.now, Via.Admin, ConfigUpdated(setting))]
      && t.cfg.targetBps == (if setting.TargetRatio? then setting.bps else s.cfg.targetBps)
      && t.cfg.bandBps == (if setting.RebalanceBand? then setting.bps else s.cfg.bandBps)
      && t.cfg.criticalFloorBps == (if setting.CriticalFloor? then setting.bps else s.cfg.criticalFloorBps)
      && t.cfg.minTotal == (if setting.MinTotal? then setting.amount else s.cfg.minTotal)
      && t.cfg.maxMove == (if setting.MaxMove? then setting.amount else s.cfg.maxMove)
      && t.cfg.minMove == (if setting.MinMove? then setting.amount else s.cfg.minMove)
      && t.cfg.cooldown == (if setting.Cooldown? then setting.seconds else s.cfg.cooldown)
      && t.cfg.reserveTokenId == (if setting.ReserveTokenId? then setting.id else s.cfg.reserveTokenId)
      && t.cfg.treasury == (if setting.Treasury? then setting.address else s.cfg.treasury)
      && t.paused == (if setting.Pausing? then setting.paused else s.paused)
  {
  }

  // Throwing or releasing the switch, with the admin's authorization.
  function Switch(paused: bool): Step {
    Administer(true, Configure(Pausing(paused)))
  }

  // Only its own authorized call sets the pause flag, and only an authorized setter the rest.
  lemma {:induction false} OnlySettersConfigure(s: State, step: Step)
    ensures Next(s, Switch(true)).paused && !Next(s, Switch(false)).paused
    ensures step !in {Switch(true), Switch(false)} ==> Next(s, step).paused == s.paused
    ensures Next(s, step).cfg != s.cfg ==> step.Administer? && step.authorized && step.call.Configure?
  {
    if !step.Environment? {
      CallsKeepSurroundings(s, step);
    }
  }

  // --- The pause over runs ----------------------------------------------------------------

  // A delivery or a manual move.
  predicate IsGated(step: Step) {
    step.Deliver? || (step.Administer? && (step.call.ManualToBlend? || step.call.ManualFromBlend?))
  }

  lemma {:induction false} PausedStep(s: State, step: Step)
    requires s.paused && step != Switch(false)
    ensures Next(s, step).paused && (IsGated(step) ==> Try(s, step).Reverted?)
    ensures Next(s, step).seen == s.seen && Next(s, step).lastRebalance == s.lastRebalance
    ensures Next(s, step).principal in {s.principal, 0}
  {
    OnlySettersConfigure(s, step);
  }

  lemma {:induction false} PausedRun(s: State, steps: seq<Step>)
    requires s.paused && Switch(false) !in steps
    ensures var t := Run(s, steps);
      t.paused && t.seen == s.seen && t.lastRebalance == s.lastRebalance && t.principal in {s.principal, 0}
    decreases |steps|
  {
    if steps != [] {
      PausedStep(s, steps[0]);
      PausedRun(Next(s, steps[0]), steps[1..]);
    }
  }

  // From an authorized pause on, until the switch is released by the admin: every delivery
  // and every manual move is refused, no event is used up, no cooldown starts, and the
  // principal stays or is unwound to 0.
  lemma {:induction false} PauseHolds(s: State, steps: seq<Step>, gated: Step)
    requires Switch(false) !in steps && IsGated(gated)
    ensures var t := Run(Next(s, Switch(true)), steps);
      && t.paused && t.seen == s.seen && t.lastRebalance == s.lastRebalance && t.principal in {s.principal, 0}
      && Try(t, gated).Reverted?
  {
    OnlySettersConfigure(s, gated);
    PausedRun(Next(s, Switch(true)), steps);
    PausedStep(Run(Next(s, Switch(true)), steps), gated);
  }

  // --- Deliveries and the log -----------------------------------------------------------------

  // The same state with the first n records of its log replaced.
  function Swap(s: State, n: nat, log: seq<Record>): State
    requires n <= |s.log|
  {
    s.(log := log + s.log[n..])
  }

  // The same outcome on top of another log.
  function Relogged(after: After, n: nat, log: seq<Record>): After
    requires after.Done? ==> n <= |after.state.log|
  {
    match after
    case Reverted(e) => Reverted(e)
    case Done(t) => Done(Swap(t, n, log))
  }

  lemma {:induction false} EmitSwaps(s: State, n: nat, log: seq<Record>, via: Via, e: Event)
    requires n <= |s.log|
    ensures Emit(Swap(s, n, log), via, e) == Swap(Emit(s, via, e), n, log)
  {
    assert log + s.log[n..] + [Record(s.now, via, e)] == log + (s.log + [Record(s.now, via, e)])[n..];
  }

  lemma {:induction false} SupplySwaps(s: State, n: nat, log: seq<Record>, amount: int)
    requires n <= |s.log| && amount > 0
    ensures var after, swapped := Enact(s, Decision.Supply(amount)), Enact(Swap(s, n, log), Decision.Supply(amount));
      (after.Done? ==> n <= |after.state.log|) && swapped == Relogged(after, n, log)
  {
    var moved := MoveToBlend(s, amount, OtherInvocation);
    if moved.Done? {
      var t := moved.state.(lastRebalance := s.now);
      EmitSwaps(t, n, log, Quorum,
        RebalanceExecuted(ToBlend, amount, t.pool.liquid, t.pool.total - t.pool.liquid, t.principal));
    }
  }

  lemma {:induction false} PulledSwaps(
    s: State, t: State, n: nat, log: seq<Record>, amount: int, band: Band, ratio: nat)
    requires n <= |s.log| && n <= |t.log|
    ensures n <= |Pulled(s, t, amount, band, ratio).log|
    ensures Pulled(Swap(s, n, log), Swap(t, n, log), amount, band, ratio)
         == Swap(Pulled(s, t, amount, band, ratio), n, log)
  {
    var u := t.(lastRebalance := s.now);
    EmitSwaps(u, n, log, Quorum,
      RebalanceExecuted(FromBlend, amount, u.pool.liquid, u.pool.total - u.pool.liquid, u.principal));
    EmitSwaps(Executed(u, Quorum, FromBlend, amount), n, log, Quorum, CriticalNotice(s, ratio));
  }

  lemma {:induction false} PullSwaps(s: State, n: nat, log: seq<Record>, amount: int, band: Band, ratio: nat)
    requires n <= |s.log| && amount > 0
    ensures var after, swapped := AfterPull(s, amount, band, ratio), AfterPull(Swap(s, n, log), amount, band, ratio);
      (after.Done? ==> n <= |after.state.log|) && swapped == Relogged(after, n, log)
  {
    var moved := MoveFromBlend(s, amount);
    if moved.Done? {
      PulledSwaps(s, moved.state, n, log, amount, band, ratio);
    }
  }

  lemma {:induction false} RebalanceSwaps(s: State, n: nat, log: seq<Record>)
    requires n <= |s.log|
    ensures var after := AfterRebalance(s);
      (after.Done? ==> n <= |after.state.log|) && AfterRebalance(Swap(s, n, log)) == Relogged(after, n, log)
  {
    var d := Decide(s);
    assert Decide(Swap(s, n, log)) == d;
    match d
    case Supply(amount) => SupplySwaps(s, n, log, amount);
    case Pull(amount, band, ratio) => PullSwaps(s, n, log, amount, band, ratio);
    case Hold(band, ratio) =>
      EmitSwaps(s, n, log, Quorum, CriticalBypassUnavailable(ratio, s.cfg.criticalFloorBps, s.principal));
    case _ =>
  }

  lemma {:induction false} LegSwaps(s: State, n: nat, log: seq<Record>, blnd: nat)
    requires n <= |s.log|
    ensures var after := InterestLeg(s, blnd);
      (after.Done? ==> n <= |after.state.log|) && InterestLeg(Swap(s, n, log), blnd) == Relogged(after, n, log)
  {
    EmitSwaps(s, n, log, Quorum, HarvestPartial(blnd));
    if s.principal > 0 && PeelInterest(s).Done? {
      EmitSwaps(PeelInterest(s).state.(log := s.log), n, log, Quorum,
                BadDebtDetected(s.principal, s.blend.position, s.principal - s.blend.position));
    }
  }

  lemma {:induction false} HarvestSwaps(s: State, n: nat, log: seq<Record>)
    requires n <= |s.log|
    ensures var after := AfterHarvest(s);
      (after.Done? ==> n <= |after.state.log|) && AfterHarvest(Swap(s, n, log)) == Relogged(after, n, log)
  {
    var blnd := s.blend.claimable;
    var claimed := s.(blend := s.blend.(claimable := 0));
    var reason := if !Healthy(s) then Frozen else if s.principal == 0 then NoPrincipal else NoYield;
    LegSwaps(claimed, n, log, blnd);
    if InterestLeg(claimed, blnd).Done? {
      var t := InterestLeg(claimed, blnd).state;
      EmitSwaps(t.(lastHarvest := t.now), n, log, Quorum, HarvestCompleted(LegInterest(s), blnd, t.principal));
      EmitSwaps(t, n, log, Quorum, HarvestSkipped(reason));
    }
  }

  lemma {:induction false} ActionSwaps(s: State, n: nat, log: seq<Record>, action: Option<Action>)
    requires n <= |s.log|
    ensures var after := AfterAction(s, action);
      (after.Done? ==> n <= |after.state.log|) && AfterAction(Swap(s, n, log), action) == Relogged(after, n, log)
  {
    match action
    case None =>
    case Some(Rebalance) => RebalanceSwaps(s, n, log);
    case Some(HarvestYield) => HarvestSwaps(s, n, log);
  }

  // The outcome of a delivery does not depend on what was published before.
  lemma {:induction false} DeliverySwaps(
    s: State, n: nat, log: seq<Record>, decoded: Option<Envelope>, referenceBlock: nat, verdict: Verdict)
    requires n <= |s.log|
    ensures var after := AfterDelivery(s, decoded, referenceBlock, verdict);
      && (after.Done? ==> n <= |after.state.log|)
      && AfterDelivery(Swap(s, n, log), decoded, referenceBlock, verdict) == Relogged(after, n, log)
  {
    if decoded.Some? {
      var envelope := decoded.value;
      ActionSwaps(s, n, log, envelope.action);
      if AfterAction(s, envelope.action).Done? {
        var t := AfterAction(s, envelope.action).state;
        EmitSwaps(t.(seen := t.seen + {envelope.eventId}), n, log, Quorum, Verified(envelope.eventId));
      }
    }
  }

  // What was published between two states.
  function Added(s: State, t: State): seq<Record> {
    if |s.log| <= |t.log| then t.log[|s.log|..] else []
  }

  // A delivery refused for the pause has the outcome, once the pause is lifted, that it
  // would have had at first.
  lemma {:induction false} ResubmissionProceeds(
    s: State, decoded: Option<Envelope>, referenceBlock: nat, verdict: Verdict)
    requires !s.paused
    ensures var delivery := Deliver(decoded, referenceBlock, verdict);
      var lifted := Next(Next(Next(s, Switch(true)), delivery), Switch(false));
      && Try(Next(s, Switch(true)), delivery) == Reverted(Error.Paused)
      && match (Try(s, delivery), Try(lifted, delivery))
         case (Done(at), Done(later)) =>
           later == at.(log := lifted.log + Added(s, at)) && at.log == s.log + Added(s, at)
         case (Reverted(e), Reverted(e')) => e == e'
         case _ => false
  {
    var lifted := Next(Next(s, Switch(true)), Switch(false));
    assert lifted == Swap(s, |s.log|, lifted.log);
    DeliverySwaps(s, |s.log|, lifted.log, decoded, referenceBlock, verdict);
    DeliverySwaps(s, |s.log|, s.log, decoded, referenceBlock, verdict);
    assert Swap(s, |s.log|, s.log) == s;
  }
}
